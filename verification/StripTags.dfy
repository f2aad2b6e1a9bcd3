/** The linear tag stripper of app/html_listing.py (lines 131-156), before HTML unescaping. */
module StripTags {

  const CAP: nat := 80_000

  function Capped(text: string): string {
    if |text| > CAP then text[..CAP] else text
  }

  /** The first position of `c` in `s` at or after `start`, or |s|. */
  function Find(s: string, c: char, start: nat): (i: nat)
    requires start <= |s|
    ensures start <= i <= |s|
    ensures i < |s| ==> s[i] == c
    ensures forall k :: start <= k < i ==> s[k] != c
    decreases |s| - start
  {
    if start == |s| || s[start] == c then start else Find(s, c, start + 1)
  }

  /** The end of the match of `<[^>]+>` that starts at `i`, or 0 if there is none. The middle part takes everything
      up to the first `>`, and must take something. */
  function MatchEnd(s: string, i: nat): (e: nat)
    requires i < |s|
    ensures e == 0 || i < e <= |s|
  {
    if s[i] != '<' then 0 else
      var gt := Find(s, '>', i + 1);
      if i + 1 < gt < |s| then gt + 1 else 0
  }

  /** `re.sub(r"<[^>]+>", " ", s)` from position `i` on: leftmost, non-overlapping. */
  function SubFrom(s: string, i: nat): string
    requires i <= |s|
    decreases |s| - i
  {
    if i == |s| then ""
    else if MatchEnd(s, i) > 0 then " " + SubFrom(s, MatchEnd(s, i))
    else [s[i]] + SubFrom(s, i + 1)
  }

  function Sub(s: string): string { SubFrom(s, 0) }

  /** A match of the pattern, said without the scan. */
  ghost predicate IsTag(t: string) {
    && |t| >= 3 && t[0] == '<' && t[|t| - 1] == '>'
    && forall k :: 0 < k < |t| - 1 ==> t[k] != '>'
  }

  /** MatchEnd is the only place where the pattern can stop matching. */
  lemma MatchEndIsMatch(s: string, i: nat, e: nat)
    requires i < e <= |s|
    ensures IsTag(s[i..e]) <==> MatchEnd(s, i) == e
  {
    if IsTag(s[i..e]) {
      assert s[e - 1] == s[i..e][e - i - 1] && forall k :: i < k < e - 1 ==> s[k] == s[i..e][k - i];
      FindUnique(s, '>', i + 1, e - 1);
    }
  }

  lemma FindUnique(s: string, c: char, start: nat, i: nat)
    requires start <= i <= |s| && (i < |s| ==> s[i] == c) && forall k :: start <= k < i ==> s[k] != c
    ensures Find(s, c, start) == i
  {
  }

  lemma Assoc(a: string, b: string, c: string)
    ensures a + (b + c) == (a + b) + c
  {
  }

  /** A stretch without an opening bracket is copied. */
  lemma {:induction false} PlainStretch(s: string, i: nat, j: nat)
    requires i <= j <= |s| && forall k :: i <= k < j ==> s[k] != '<'
    ensures SubFrom(s, i) == s[i..j] + SubFrom(s, j)
    decreases j - i
  {
    var rest := SubFrom(s, j);
    if i == j {
      assert s[i..j] == "";
    } else {
      PlainStretch(s, i + 1, j);
      assert SubFrom(s, i) == [s[i]] + SubFrom(s, i + 1);
      Assoc([s[i]], s[i + 1..j], rest);
      assert s[i..j] == [s[i]] + s[i + 1..j];
    }
  }

  /** A rest without a closing bracket is copied. */
  lemma {:induction false} NoCloser(s: string, i: nat)
    requires i <= |s| && forall k :: i < k < |s| ==> s[k] != '>'
    ensures SubFrom(s, i) == s[i..]
    decreases |s| - i
  {
    if i < |s| {
      NoCloser(s, i + 1);
      assert s[i..] == [s[i]] + s[i + 1..];
      if s[i] == '<' { FindUnique(s, '>', i + 1, |s|); }
    }
  }

  /** What stands for an opening bracket, by the position of the next closing one. */
  lemma AtBracket(s: string, lt: nat, gt: nat)
    requires lt < |s| && s[lt] == '<' && gt == Find(s, '>', lt + 1)
    ensures SubFrom(s, lt) == if gt == |s| then s[lt..]
                              else if gt == lt + 1 then "<" + SubFrom(s, lt + 1)
                              else " " + SubFrom(s, gt + 1)
  {
    if gt == |s| { NoCloser(s, lt); }
  }

  /** The scan computes the substitution, and looks at each character at most twice. */
  method StripTags(text: string) returns (out: string, ghost looks: nat)
    ensures out == Sub(Capped(text))
    ensures looks <= 2 * |Capped(text)|
  {
    var raw := Capped(text);
    out, looks := "", 0;
    ghost var whole := Sub(raw);
    var i, n := 0, |raw|;
    while i < n
      invariant 0 <= i <= n
      invariant out + SubFrom(raw, i) == whole
      invariant looks <= 2 * i
    {
      var lt := Find(raw, '<', i);
      looks := looks + (lt - i) + (if lt < n then 1 else 0);
      PlainStretch(raw, i, lt);
      Assoc(out, raw[i..lt], SubFrom(raw, lt));
      if lt == n {
        out := out + raw[i..];
        return;
      }
      out := out + raw[i..lt];
      assert out + SubFrom(raw, lt) == whole;
      var gt := Find(raw, '>', lt + 1);
      looks := looks + (gt - lt - 1) + (if gt < n then 1 else 0);
      AtBracket(raw, lt, gt);
      if gt == n {
        out := out + raw[lt..];
        return;
      }
      if gt == lt + 1 {
        Assoc(out, "<", SubFrom(raw, lt + 1));
        out := out + "<";
        i := lt + 1;
      } else {
        Assoc(out, " ", SubFrom(raw, gt + 1));
        out := out + " ";
        i := gt + 1;
      }
    }
  }

  lemma {:induction false} NeverGrows(s: string, i: nat)
    requires i <= |s|
    ensures |SubFrom(s, i)| <= |s| - i
    decreases |s| - i
  {
    if i < |s| {
      NeverGrows(s, if MatchEnd(s, i) > 0 then MatchEnd(s, i) else i + 1);
    }
  }

  /** A text in which every `<` is followed directly by `>`, or by no `>` at all. */
  ghost predicate Tagless(s: string) {
    forall i, j :: 0 <= i < j < |s| && s[i] == '<' && s[j] == '>' ==> s[i + 1] == '>'
  }

  lemma {:induction false} TaglessUnchanged(s: string, i: nat)
    requires Tagless(s) && i <= |s|
    ensures SubFrom(s, i) == s[i..]
    decreases |s| - i
  {
    if i < |s| {
      TaglessUnchanged(s, i + 1);
      assert s[i..] == [s[i]] + s[i + 1..];
      if s[i] == '<' && Find(s, '>', i + 1) < |s| { FindUnique(s, '>', i + 1, i + 1); }
    }
  }

  /** Nothing that still matches is left behind, not even across a replaced tag. */
  lemma {:induction false} SubIsTagless(s: string, i: nat)
    requires i <= |s|
    ensures Tagless(SubFrom(s, i))
    decreases |s| - i
  {
    if i < |s| {
      var e := MatchEnd(s, i);
      var rest := if e > 0 then e else i + 1;
      SubIsTagless(s, rest);
      var t := SubFrom(s, rest);
      var c := if e > 0 then ' ' else s[i];
      assert SubFrom(s, i) == [c] + t;
      if c == '<' {
        if Find(s, '>', i + 1) == |s| {
          NoCloser(s, rest);
        } else {
          assert s[i + 1] == '>' && t[0] == '>';
        }
      }
    }
  }

  /** Stripping stripped text changes nothing. */
  lemma SubIsIdempotent(s: string)
    ensures Sub(Sub(s)) == Sub(s)
  {
    SubIsTagless(s, 0);
    TaglessUnchanged(Sub(s), 0);
  }

  // What the substitution is, without the scan

  /** `r` is the text behind the first `e` characters of `s`. */
  ghost predicate IsRest(s: string, e: nat, r: string) {
    |s| == e + |r| && forall k :: e <= k < |s| ==> s[k] == r[k - e]
  }

  lemma {:induction false} FindInRest(s: string, e: nat, r: string, c: char, start: nat)
    requires IsRest(s, e, r) && e <= start <= |s|
    ensures Find(s, c, start) == e + Find(r, c, start - e)
    decreases |s| - start
  {
    if start < |s| && s[start] != c { FindInRest(s, e, r, c, start + 1); }
  }

  lemma MatchInRest(s: string, e: nat, r: string, i: nat)
    requires IsRest(s, e, r) && e <= i < |s|
    ensures MatchEnd(s, i) == if MatchEnd(r, i - e) == 0 then 0 else e + MatchEnd(r, i - e)
  {
    FindInRest(s, e, r, '>', i + 1);
  }

  lemma Scanned(s: string, i: nat, n: nat, c: char)
    requires i < |s| && (if MatchEnd(s, i) > 0 then n == MatchEnd(s, i) && c == ' ' else n == i + 1 && c == s[i])
    ensures n <= |s| && SubFrom(s, i) == [c] + SubFrom(s, n)
  {
    assert " " == [' '];
  }

  /** Where the scan goes on, and what it leaves for the part before. */
  lemma NextInRest(s: string, e: nat, r: string, i: nat) returns (n: nat, c: char)
    requires IsRest(s, e, r) && e <= i < |s|
    ensures i < n <= |s| && SubFrom(s, i) == [c] + SubFrom(s, n) && SubFrom(r, i - e) == [c] + SubFrom(r, n - e)
  {
    var m := MatchEnd(s, i);
    MatchInRest(s, e, r, i);
    n, c := if m > 0 then m else i + 1, if m > 0 then ' ' else s[i];
    Scanned(s, i, n, c);
    Scanned(r, i - e, n - e, c);
  }

  /** Behind a position, only the rest of the text counts. */
  lemma {:induction false} SubOfRest(s: string, e: nat, r: string, i: nat)
    requires IsRest(s, e, r) && e <= i <= |s|
    ensures SubFrom(s, i) == SubFrom(r, i - e)
    decreases |s| - i
  {
    if i < |s| {
      var n, c := NextInRest(s, e, r, i);
      SubOfRest(s, e, r, n);
    }
  }

  ghost predicate TagAt(s: string, i: int, e: int) { 0 <= i < e <= |s| && IsTag(s[i..e]) }

  lemma {:induction false} UntilTag(s: string, i: nat, j: nat)
    requires i <= j <= |s| && forall k, f :: i <= k < j ==> !TagAt(s, k, f)
    ensures SubFrom(s, i) == s[i..j] + SubFrom(s, j)
    decreases j - i
  {
    if i == j {
      assert s[i..j] == "";
    } else {
      if MatchEnd(s, i) > 0 {
        MatchEndIsMatch(s, i, MatchEnd(s, i));
        assert TagAt(s, i, MatchEnd(s, i));
      }
      UntilTag(s, i + 1, j);
      Assoc([s[i]], s[i + 1..j], SubFrom(s, j));
      assert s[i..j] == [s[i]] + s[i + 1..j];
    }
  }

  /** The leftmost tag becomes one space; what stands before it stays, and the substitution goes on behind it. A text
      without a tag stays as it is. */
  lemma FirstTagBecomesSpace(s: string, i: nat, e: nat)
    ensures TagAt(s, i, e) && (forall k, f :: 0 <= k < i ==> !TagAt(s, k, f)) ==> Sub(s) == s[..i] + (" " + Sub(s[e..]))
    ensures (forall k, f :: !TagAt(s, k, f)) ==> Sub(s) == s
  {
    if TagAt(s, i, e) && forall k, f :: 0 <= k < i ==> !TagAt(s, k, f) {
      UntilTag(s, 0, i);
      MatchEndIsMatch(s, i, e);
      SubOfRest(s, e, s[e..], e);
      assert s[0..i] == s[..i];
    }
    if forall k, f :: !TagAt(s, k, f) {
      UntilTag(s, 0, |s|);
      assert s[0..|s|] == s && s + "" == s;
    }
  }

  /** The cap is part of the function: only the first 80000 characters count, and the result is never longer than the
      text or the cap. */
  lemma StrippedIsShort(text: string)
    ensures |Sub(Capped(text))| <= |text| && |Sub(Capped(text))| <= 80_000
    ensures Sub(Capped(text)) == Sub(if |text| <= 80_000 then text else text[..80_000])
  {
    NeverGrows(Capped(text), 0);
  }
}
