/** White space at the ends of text, as Python's `strip` cuts it off, and prefixes. */
module Texts {

  predicate IsSpace(c: char) {
    c == ' ' || '\t' <= c <= '\r' || '\U{1c}' <= c <= '\U{1f}' || IsWideSpace(c)
  }

  /** White space outside ASCII. */
  predicate IsWideSpace(c: char) {
    c == '\U{85}' || c == '\U{a0}' || c == '\U{1680}' || '\U{2000}' <= c <= '\U{200a}' || c == '\U{2028}'
    || c == '\U{2029}' || c == '\U{202f}' || c == '\U{205f}' || c == '\U{3000}'
  }

  function LStrip(s: string): (r: string)
    ensures |r| <= |s| && r == s[|s| - |r|..]
    ensures r != "" ==> !IsSpace(r[0])
  {
    if s != "" && IsSpace(s[0]) then LStrip(s[1..]) else s
  }

  function RStrip(s: string): (r: string)
    ensures |r| <= |s| && r == s[..|r|]
    ensures r != "" ==> !IsSpace(r[|r| - 1])
    ensures forall i :: |r| <= i < |s| ==> IsSpace(s[i])
  {
    if s != "" && IsSpace(s[|s| - 1]) then RStrip(s[..|s| - 1]) else s
  }

  function Strip(s: string): string { RStrip(LStrip(s)) }

  lemma RStripUnique(s: string, n: nat)
    requires n <= |s| && (n > 0 ==> !IsSpace(s[n - 1])) && forall i :: n <= i < |s| ==> IsSpace(s[i])
    ensures RStrip(s) == s[..n]
  {
  }

  lemma {:induction false} LStripUnique(s: string, a: nat)
    requires a <= |s| && (a < |s| ==> !IsSpace(s[a])) && forall i :: 0 <= i < a ==> IsSpace(s[i])
    ensures LStrip(s) == s[a..]
  {
    if a > 0 {
      LStripUnique(s[1..], a - 1);
      assert s[1..][a - 1..] == s[a..];
    }
  }

  lemma {:induction false} LStripSpaces(s: string)
    ensures forall i :: 0 <= i < |s| - |LStrip(s)| ==> IsSpace(s[i])
  {
    if s != "" && IsSpace(s[0]) {
      LStripSpaces(s[1..]);
      assert forall i :: 0 < i < |s| ==> s[1..][i - 1] == s[i];
    }
  }

  lemma RStripKeeps(s: string, i: nat)
    requires i < |s| && !IsSpace(s[i])
    ensures |RStrip(s)| > i
  {
  }

  predicate StartsWith(text: string, head: string) {
    head == "" || (text != "" && text[0] == head[0] && StartsWith(text[1..], head[1..]))
  }

  lemma {:induction false} StartsWithIs(text: string, head: string)
    ensures StartsWith(text, head) <==> |head| <= |text| && text[..|head|] == head
  {
    if head != "" && text != "" {
      StartsWithIs(text[1..], head[1..]);
      if |head| <= |text| {
        assert text[..|head|] == [text[0]] + text[1..][..|head| - 1];
        assert head == [head[0]] + head[1..];
      }
    }
  }
}
