/** Query strings as the URL modules write and read them: `urlencode`, with further characters it may leave as they
    are, and `parse_qs` with blank values kept. Text is taken as its UTF-8 bytes, one character per byte. */
module FormEncoding {
  import opened UrlSplit

  type Pair = (string, string)

  predicate IsSafe(c: char) {
    'A' <= c <= 'Z' || 'a' <= c <= 'z' || '0' <= c <= '9' || c == '_' || c == '.' || c == '-' || c == '~'
  }

  const HEX := "0123456789ABCDEF"

  function HexValue(c: char): int {
    if '0' <= c <= '9' then c as int - '0' as int
    else if 'A' <= c <= 'F' then c as int - 'A' as int + 10
    else if 'a' <= c <= 'f' then c as int - 'a' as int + 10
    else -1
  }

  function QuoteChar(c: char, safe: set<char>): (s: string)
    ensures s != ""
  {
    if IsSafe(c) || c in safe || c as int >= 256 then [c] else if c == ' ' then "+"
    else ['%', HEX[c as int / 16], HEX[c as int % 16]]
  }

  function Quote(s: string, safe: set<char>): string {
    if s == "" then "" else QuoteChar(s[0], safe) + Quote(s[1..], safe)
  }

  /** Characters with a meaning of their own in a query, and those that a URL drops. */
  const SPECIAL: set<char> := {'%', '+', '&', '=', '#', '\t', '\n', '\r'}

  predicate IsEscape(s: string) {
    |s| >= 3 && s[0] == '%' && HexValue(s[1]) >= 0 && HexValue(s[2]) >= 0
  }

  function EscapeValue(s: string): char
    requires IsEscape(s)
  {
    (16 * HexValue(s[1]) + HexValue(s[2])) as char
  }

  /** `unquote_plus`; a percent sign that starts no escape stands for itself. */
  function UnquotePlus(s: string): string {
    if s == "" then ""
    else if IsEscape(s) then [EscapeValue(s)] + UnquotePlus(s[3..])
    else [if s[0] == '+' then ' ' else s[0]] + UnquotePlus(s[1..])
  }

  /** `unquote`: the same without the plus sign. */
  function Unquote(s: string): string {
    if s == "" then ""
    else if IsEscape(s) then [EscapeValue(s)] + Unquote(s[3..])
    else [s[0]] + Unquote(s[1..])
  }

  lemma HexDigit(d: nat)
    requires d < 16
    ensures HexValue(HEX[d]) == d && HEX[d] != '&' && HEX[d] != '=' && InQuery(HEX[d])
  {
  }

  lemma UnquoteQuoted(c: char, safe: set<char>, t: string)
    requires safe !! SPECIAL
    ensures UnquotePlus(QuoteChar(c, safe) + t) == [c] + UnquotePlus(t)
  {
    var s := QuoteChar(c, safe) + t;
    if IsSafe(c) || c in safe || c as int >= 256 || c == ' ' {
      assert '%' in SPECIAL && '+' in SPECIAL;
      assert s[0] == QuoteChar(c, safe)[0] && s[1..] == t;
    } else {
      HexDigit(c as int / 16);
      HexDigit(c as int % 16);
      assert s[0] == '%' && s[1] == HEX[c as int / 16] && s[2] == HEX[c as int % 16] && s[3..] == t;
      assert EscapeValue(s) == c;
    }
  }

  lemma {:induction false} UnquoteIsInverse(s: string, safe: set<char>)
    requires safe !! SPECIAL
    ensures UnquotePlus(Quote(s, safe)) == s
  {
    if s != "" {
      UnquoteIsInverse(s[1..], safe);
      UnquoteQuoted(s[0], safe, Quote(s[1..], safe));
    }
  }

  /** No ampersand, equals sign, number sign, tab or line break. */
  predicate IsPlain(s: string) { forall i :: 0 <= i < |s| ==> s[i] != '=' && InQuery(s[i]) && s[i] != '&' }

  /** A character that can stand in a written query. */
  predicate InQuery(c: char) { c != '#' && c != '\t' && c != '\n' && c != '\r' }

  lemma {:induction false} QuoteIsPlain(s: string, safe: set<char>)
    requires safe !! SPECIAL
    ensures IsPlain(Quote(s, safe))
  {
    if s != "" {
      QuoteIsPlain(s[1..], safe);
      var c := s[0];
      if c in safe {
        assert c !in SPECIAL;
      } else if !IsSafe(c) && (c as int) < 256 {
        HexDigit(c as int / 16);
        HexDigit(c as int % 16);
      }
      assert IsPlain(QuoteChar(c, safe));
    }
  }

  function HexChar(d: nat): char
    requires d < 16
  {
    if d < 10 then ('0' as int + d) as char else ('A' as int + d - 10) as char
  }

  /** How a byte is written: letters, digits and four signs as themselves, a space as a plus sign, anything else as a percent
      sign with the two capital hexadecimal digits of its value. */
  lemma BytesAreEscaped(c: char)
    requires c as int < 256
    ensures ('A' <= c <= 'Z' || 'a' <= c <= 'z' || '0' <= c <= '9' || c in "_.-~") ==> QuoteChar(c, {}) == [c]
    ensures c == ' ' ==> QuoteChar(c, {}) == "+"
    ensures !('A' <= c <= 'Z' || 'a' <= c <= 'z' || '0' <= c <= '9' || c in "_.-~" || c == ' ') ==>
              QuoteChar(c, {}) == ['%', HexChar(c as int / 16), HexChar(c as int % 16)]
  {
    HexDigits(c as int / 16);
    HexDigits(c as int % 16);
  }

  lemma HexDigits(d: nat)
    requires d < 16
    ensures HEX[d] == HexChar(d)
  {
  }

  // Lists of pairs

  function Encoded(p: Pair, safe: set<char>): string { Quote(p.0, safe) + "=" + Quote(p.1, safe) }

  function UrlEncode(ps: seq<Pair>, safe: set<char>): string {
    if ps == [] then ""
    else if |ps| == 1 then Encoded(ps[0], safe)
    else Encoded(ps[0], safe) + "&" + UrlEncode(ps[1..], safe)
  }

  function ParsePair(part: string): Pair {
    var i := Find(part, {'='});
    if i == |part| then (UnquotePlus(part), "") else (UnquotePlus(part[..i]), UnquotePlus(part[i + 1..]))
  }

  /** `parse_qsl(q, keep_blank_values=True)`: empty parts are skipped. */
  function ParseQsl(q: string): seq<Pair> {
    var i := Find(q, {'&'});
    var part := q[..i];
    (if part == "" then [] else [ParsePair(part)]) + if i == |q| then [] else ParseQsl(q[i + 1..])
  }

  lemma PairParses(p: Pair, safe: set<char>)
    requires safe !! SPECIAL
    ensures ParsePair(Encoded(p, safe)) == p && Encoded(p, safe) != ""
    ensures forall i :: 0 <= i < |Encoded(p, safe)| ==> Encoded(p, safe)[i] != '&' && InQuery(Encoded(p, safe)[i])
  {
    QuoteIsPlain(p.0, safe);
    QuoteIsPlain(p.1, safe);
    UnquoteIsInverse(p.0, safe);
    UnquoteIsInverse(p.1, safe);
    var e, n := Encoded(p, safe), |Quote(p.0, safe)|;
    assert e[n] == '=' && e[..n] == Quote(p.0, safe) && e[n + 1..] == Quote(p.1, safe);
    assert forall k :: 0 <= k < n ==> e[k] == Quote(p.0, safe)[k];
    FindUnique(e, {'='}, n);
  }

  lemma LastParses(e: string)
    requires e != "" && forall i :: 0 <= i < |e| ==> e[i] != '&'
    ensures ParseQsl(e) == [ParsePair(e)]
  {
    FindUnique(e, {'&'}, |e|);
    assert e[..|e|] == e;
  }

  lemma NextParses(e: string, rest: string)
    requires e != "" && forall i :: 0 <= i < |e| ==> e[i] != '&'
    ensures ParseQsl(e + "&" + rest) == [ParsePair(e)] + ParseQsl(rest)
  {
    var q := e + "&" + rest;
    assert q[|e|] == '&' && q[..|e|] == e && q[|e| + 1..] == rest;
    FindUnique(q, {'&'}, |e|);
  }

  /** Reading a written query gives back the pairs, in order, whatever they contain. */
  lemma {:induction false} ParseIsInverse(ps: seq<Pair>, safe: set<char>)
    requires safe !! SPECIAL
    ensures ParseQsl(UrlEncode(ps, safe)) == ps
    ensures forall i :: 0 <= i < |UrlEncode(ps, safe)| ==> InQuery(UrlEncode(ps, safe)[i])
  {
    if ps == [] {
      FindUnique("", {'&'}, 0);
    } else {
      var e := Encoded(ps[0], safe);
      PairParses(ps[0], safe);
      if |ps| == 1 {
        LastParses(e);
      } else {
        ParseIsInverse(ps[1..], safe);
        NextParses(e, UrlEncode(ps[1..], safe));
      }
    }
  }

  lemma EncodedIsEmpty(ps: seq<Pair>, safe: set<char>)
    requires safe !! SPECIAL
    ensures UrlEncode(ps, safe) == "" <==> ps == []
  {
    if ps != [] { PairParses(ps[0], safe); }
  }

  // Queries behind other text

  /** No value but the empty one. */
  ghost predicate AllBlank(ps: seq<Pair>) { forall p :: p in ps ==> p.1 == "" }

  /** A query without equals signs assigns nothing. */
  lemma {:induction false} NothingIsAssigned(q: string)
    requires Free(q, {'='})
    ensures AllBlank(ParseQsl(q))
    decreases |q|
  {
    var i := Find(q, {'&'});
    FindUnique(q[..i], {'='}, i);
    if i < |q| { NothingIsAssigned(q[i + 1..]); }
  }

  /** A slash survives unquoting: it is part of no escape. */
  lemma {:induction false} SlashStays(s: string, t: string)
    requires '/' in s
    ensures '/' in UnquotePlus(s + t)
    decreases |s|
  {
    var all := s + t;
    assert all[0] == s[0] && all[1..] == s[1..] + t;
    if IsEscape(all) {
      assert |s| >= 3 && s[0] != '/' && s[1] != '/' && s[2] != '/' by {
        if |s| >= 2 { assert all[1] == s[1]; }
        if |s| >= 3 { assert all[2] == s[2]; }
      }
      assert all[3..] == s[3..] + t;
      SlashStays(s[3..], t);
    } else if s[0] != '/' {
      SlashStays(s[1..], t);
    }
  }

  lemma {:induction false} NothingToUnquote(s: string)
    requires Free(s, {'%', '+'})
    ensures UnquotePlus(s) == s
  {
    if s != "" {
      assert s[0] !in {'%', '+'};
      NothingToUnquote(s[1..]);
    }
  }

  lemma AssignmentParses(name: string, value: string)
    requires Free(name, {'='})
    ensures ParsePair(name + ("=" + value)) == (UnquotePlus(name), UnquotePlus(value))
  {
    var part := name + ("=" + value);
    assert part[|name|] == '=' && part[..|name|] == name && part[|name| + 1..] == value;
    FindUnique(part, {'='}, |name|);
  }

  lemma PlainIsFree(s: string)
    requires IsPlain(s)
    ensures Free(s, {'='}) && Free(s, {'&'})
  {
  }

  /** Text in front of a written pair becomes part of its name. */
  lemma TextJoinsName(front: string, p: Pair, safe: set<char>)
    requires Free(front, {'='}) && Free(front, {'&'}) && safe !! SPECIAL
    ensures ParsePair(front + Encoded(p, safe)) == (UnquotePlus(front + Quote(p.0, safe)), p.1)
    ensures Free(front + Encoded(p, safe), {'&'})
  {
    var name, value := Quote(p.0, safe), Quote(p.1, safe);
    QuoteIsPlain(p.0, safe);
    QuoteIsPlain(p.1, safe);
    PlainIsFree(name);
    PlainIsFree(value);
    UnquoteIsInverse(p.1, safe);
    FreeConcat(front, name, {'='});
    AssignmentParses(front + name, value);
    Assoc(name, "=", value);
    Assoc(front, name, "=" + value);
    FreeConcat(front, name, {'&'});
    FreeConcat("=", value, {'&'});
    FreeConcat(front + name, "=" + value, {'&'});
  }

  /** Text that ends in a slash and a question mark. */
  ghost predicate EndsOpen(front: string) {
    |front| >= 2 && front[|front| - 2] == '/' && front[|front| - 1] == '?'
  }

  lemma FirstNameJoins(front: string, ps: seq<Pair>, safe: set<char>) returns (name: string)
    requires ps != [] && EndsOpen(front) && Free(front, {'='}) && Free(front, {'&'}) && safe !! SPECIAL
    ensures ParseQsl(front + UrlEncode(ps, safe)) == [(name, ps[0].1)] + ps[1..] && '/' in name
  {
    var part := front + Encoded(ps[0], safe);
    name := UnquotePlus(front + Quote(ps[0].0, safe));
    assert front[|front| - 2] in front;
    SlashStays(front, Quote(ps[0].0, safe));
    TextJoinsName(front, ps[0], safe);
    if |ps| == 1 {
      LastParses(part);
    } else {
      NextParses(part, UrlEncode(ps[1..], safe));
      ParseIsInverse(ps[1..], safe);
      Assoc(front, Encoded(ps[0], safe), "&");
      Assoc(front, Encoded(ps[0], safe) + "&", UrlEncode(ps[1..], safe));
    }
  }

  lemma PartParses(part: string, rest: string) returns (blanks: seq<Pair>)
    requires Free(part, {'&'}) && Free(part, {'='})
    ensures AllBlank(blanks) && ParseQsl(part + ("&" + rest)) == blanks + ParseQsl(rest)
  {
    var all := part + ("&" + rest);
    blanks := if part == "" then [] else [ParsePair(part)];
    assert all[|part|] == '&' && all[..|part|] == part && all[|part| + 1..] == rest;
    FindUnique(all, {'&'}, |part|);
    FindUnique(part, {'='}, |part|);
  }

  /** The text up to the first ampersand, and the text behind it. */
  lemma CutAtAmpersand(front: string) returns (part: string, rest: string)
    requires !Free(front, {'&'}) && EndsOpen(front) && Free(front, {'='})
    ensures front == part + ("&" + rest) && Free(part, {'&'}) && Free(part, {'='})
    ensures EndsOpen(rest) && Free(rest, {'='}) && |rest| < |front|
  {
    var i := Find(front, {'&'});
    part, rest := front[..i], front[i + 1..];
    TailStays(front, i, rest);
    assert front == part + "&" + rest;
    Assoc(part, "&", rest);
  }

  lemma TailStays(front: string, i: nat, rest: string)
    requires EndsOpen(front) && i < |front| && front[i] == '&' && rest == front[i + 1..] && Free(front, {'='})
    ensures EndsOpen(rest) && Free(rest, {'='})
  {
    var n := |rest|;
    assert i != |front| - 1 && i != |front| - 2;
    assert rest[n - 2] == front[|front| - 2] && rest[n - 1] == front[|front| - 1];
  }

  /** Text without equals signs in front of a written query spoils the name of the first pair and leaves the others. */
  lemma {:induction false} QueryBehindText(front: string, ps: seq<Pair>, query: string, safe: set<char>)
    returns (blanks: seq<Pair>, name: string)
    requires ps != [] && EndsOpen(front) && Free(front, {'='}) && safe !! SPECIAL && query == UrlEncode(ps, safe)
    ensures ParseQsl(front + query) == blanks + ([(name, ps[0].1)] + ps[1..])
    ensures AllBlank(blanks) && '/' in name && (Free(front, {'&'}) ==> blanks == [])
    decreases |front|
  {
    if Free(front, {'&'}) {
      blanks := [];
      name := FirstNameJoins(front, ps, safe);
    } else {
      var part, rest := CutAtAmpersand(front);
      var first := PartParses(part, rest + query);
      Assoc(part, "&" + rest, query);
      Assoc("&", rest, query);
      var more;
      more, name := QueryBehindText(rest, ps, query, safe);
      Assoc(first, more, [(name, ps[0].1)] + ps[1..]);
      blanks := first + more;
    }
  }

  /** `parse_qs(q).get(key) or []`: the values of a key, in order. */
  function Get(ps: seq<Pair>, key: string): seq<string> {
    if ps == [] then [] else (if ps[0].0 == key then [ps[0].1] else []) + Get(ps[1..], key)
  }

  lemma {:induction false} GetConcat(a: seq<Pair>, b: seq<Pair>, key: string)
    ensures Get(a + b, key) == Get(a, key) + Get(b, key)
  {
    if a == [] {
      assert a + b == b;
    } else {
      GetConcat(a[1..], b, key);
      assert (a + b)[1..] == a[1..] + b;
    }
  }

  /** The pairs of one key. */
  function Section(key: string, values: seq<string>): (r: seq<Pair>)
    ensures |r| == |values|
  {
    seq(|values|, i requires 0 <= i < |values| => (key, values[i]))
  }

  lemma {:induction false} GetSection(key: string, values: seq<string>, other: string)
    ensures Get(Section(key, values), other) == if key == other then values else []
  {
    if values != [] {
      GetSection(key, values[1..], other);
      assert Section(key, values)[1..] == Section(key, values[1..]);
    }
  }

  lemma {:induction false} GetBlank(ps: seq<Pair>, key: string)
    requires AllBlank(ps)
    ensures forall x :: x in Get(ps, key) ==> x == ""
  {
    if ps != [] {
      assert ps[0] in ps && forall p :: p in ps[1..] ==> p in ps;
      GetBlank(ps[1..], key);
    }
  }
}
