/** Settings whose value holds line breaks in the `.env` merge of app/backup.py: they are written as they are, so what
    stands behind a break is a line of its own at the next reading. */
module EnvBreaks {
  import opened Texts
  import opened EnvFile

  /** The text runs over several lines: it holds a break other than a final carriage return, which joins the line feed
      behind it. */
  predicate Spans(x: string) {
    exists i :: 0 <= i < |x| && IsBreak(x[i]) && !(i == |x| - 1 && x[i] == '\r')
  }

  lemma SpansLonger(x: string, y: string)
    requires Spans(x) && x <= y
    ensures Spans(y)
  {
    var i :| 0 <= i < |x| && IsBreak(x[i]) && !(i == |x| - 1 && x[i] == '\r');
    assert IsBreak(y[i]);
    if i == |y| - 1 { assert y[i] == x[i]; }
  }

  // Lines of a text made of several

  /** What stands behind the first break. */
  function AfterBreak(x: string): (r: string)
    requires FirstBreak(x) < |x|
    ensures |r| < |x|
  {
    var i := FirstBreak(x);
    if x[i] == '\r' && i + 1 < |x| && x[i + 1] == '\n' then x[i + 2..] else x[i + 1..]
  }

  lemma CutLine(s: string)
    requires FirstBreak(s) < |s|
    ensures Lines(s) == [s[..FirstBreak(s)]] + Lines(AfterBreak(s))
  {
  }

  lemma FirstBreakOf(x: string, s: string)
    requires x <= s && |s| > |x| && s[|x|] == '\n'
    ensures FirstBreak(s) == FirstBreak(x) && s[..FirstBreak(s)] == x[..FirstBreak(x)]
  {
    var i := FirstBreak(x);
    forall k | 0 <= k < i ensures !IsBreak(s[k]) { assert s[k] == x[k]; }
    if i < |x| { assert s[i] == x[i]; }
    BreakUnique(s, i);
  }

  lemma TailOf(x: string, s: string, rest: string, n: nat)
    requires x <= s && |s| > |x| && s[|x|] == '\n' && s[|x| + 1..] == rest && n <= |x|
    ensures s[n..] == x[n..] + ("\n" + rest)
  {
    assert s == x + ("\n" + rest);
  }

  lemma AfterBreakOf(x: string, s: string, rest: string)
    requires x <= s && |s| > |x| && s[|x|] == '\n' && s[|x| + 1..] == rest
    requires FirstBreak(x) < |x| && FirstBreak(s) == FirstBreak(x)
    ensures Spans(x) ==> AfterBreak(s) == AfterBreak(x) + ("\n" + rest)
    ensures !Spans(x) ==> AfterBreak(s) == rest
  {
    var i := FirstBreak(x);
    assert s[i] == x[i];
    TailOf(x, s, rest, i + 1);
    if i + 1 < |x| {
      assert s[i + 1] == x[i + 1];
      assert Spans(x);
      TailOf(x, s, rest, i + 2);
    } else if x[i] == '\r' {
      assert !Spans(x);
    } else {
      assert Spans(x);
    }
  }

  lemma NoBreakNoSpan(x: string)
    requires FirstBreak(x) == |x|
    ensures NoBreak(x) && !Spans(x) && x[..|x|] == x
  {
  }

  /** The first line of a text with a line feed behind it, and what follows. */
  lemma FirstLine(x: string, rest: string)
    ensures Lines(x + ("\n" + rest))
         == [x[..FirstBreak(x)]] + if Spans(x) && FirstBreak(x) < |x| then Lines(AfterBreak(x) + ("\n" + rest)) else Lines(rest)
    ensures Spans(x) ==> FirstBreak(x) < |x|
  {
    var s := x + ("\n" + rest);
    assert s[|x|] == '\n' && s[|x| + 1..] == rest;
    FirstBreakOf(x, s);
    if FirstBreak(x) == |x| {
      NoBreakNoSpan(x);
      FirstBreakIs(x, rest);
      assert s == x + "\n" + rest;
    } else {
      CutLine(s);
      AfterBreakOf(x, s, rest);
    }
  }

  function Head(x: string): string { x[..FirstBreak(x)] }

  function Rest(x: string): string { if FirstBreak(x) < |x| then AfterBreak(x) else "" }

  lemma SpanningRestIsShort(x: string)
    requires Spans(x)
    ensures |Rest(x)| < |x|
  {
    if FirstBreak(x) == |x| { NoBreakNoSpan(x); }
  }

  /** The lines of a text with a line feed behind it and more text after that. */
  function Followed(x: string, rest: string): seq<Line> { Lines(x + ("\n" + rest)) }

  lemma FollowedStep(x: string, rest: string)
    ensures Followed(x, rest) == [Head(x)] + if Spans(x) then Followed(Rest(x), rest) else Lines(rest)
  {
    FirstLine(x, rest);
  }

  ghost predicate Steps(f: (string, string) -> seq<Line>, g: string -> seq<Line>, x: string, rest: string) {
    f(x, rest) == [Head(x)] + if Spans(x) then f(Rest(x), rest) else g(rest)
  }

  lemma {:induction false} FollowedConcat(f: (string, string) -> seq<Line>, g: string -> seq<Line>, x: string, rest: string)
    requires forall y, r :: Steps(f, g, y, r)
    requires g("") == []
    ensures f(x, rest) == f(x, "") + g(rest)
    decreases |x|
  {
    assert Steps(f, g, x, rest) && Steps(f, g, x, "");
    if Spans(x) {
      SpanningRestIsShort(x);
      FollowedConcat(f, g, Rest(x), rest);
      LinesAssoc([Head(x)], f(Rest(x), ""), g(rest));
    }
  }

  /** The lines of a text come before those of the text behind it. */
  lemma LinesConcat(x: string, rest: string)
    ensures Followed(x, rest) == Followed(x, "") + Lines(rest)
  {
    forall y, r ensures Steps(Followed, Lines, y, r) { FollowedStep(y, r); }
    FollowedConcat(Followed, Lines, x, rest);
  }

  /** The lines of one text. */
  function Alone(x: string): seq<Line> { Followed(x, "") }

  lemma SpanningHasMoreLines(x: string)
    ensures |Alone(x)| >= 1 && (Spans(x) ==> |Alone(x)| >= 2) && Alone(x)[0] == Head(x)
  {
    FollowedStep(x, "");
    if Spans(x) { FollowedStep(Rest(x), ""); }
  }

  // The lines of a file

  function Flat(f: string -> seq<Line>, xs: seq<string>): seq<Line> {
    if xs == [] then [] else f(xs[0]) + Flat(f, xs[1..])
  }

  lemma JoinNext(xs: seq<string>)
    requires |xs| >= 2
    ensures Join(xs) + "\n" == xs[0] + ("\n" + (Join(xs[1..]) + "\n"))
  {
  }

  lemma {:induction false} LinesAreFlat(xs: seq<string>)
    requires xs != []
    ensures Lines(Join(xs) + "\n") == Flat(Alone, xs)
  {
    if |xs| == 1 {
      assert "\n" + "" == "\n" && xs[1..] == [];
    } else {
      JoinNext(xs);
      LinesConcat(xs[0], Join(xs[1..]) + "\n");
      LinesAreFlat(xs[1..]);
    }
  }

  /** Each text gives a line, and the spanning ones more. */
  ghost predicate GivesLines(f: string -> seq<Line>, x: string) {
    |f(x)| >= 1 && (Spans(x) ==> |f(x)| >= 2) && f(x)[0] == Head(x)
  }

  lemma {:induction false} LinesAreAtLeast(f: string -> seq<Line>, xs: seq<string>, j: nat)
    requires forall x :: GivesLines(f, x)
    ensures |Flat(f, xs)| >= |xs|
    ensures j < |xs| && Spans(xs[j]) ==> |Flat(f, xs)| >= |xs| + 1
  {
    if xs != [] {
      assert GivesLines(f, xs[0]);
      LinesAreAtLeast(f, xs[1..], if j == 0 then 0 else j - 1);
    }
  }

  /** Where the first line of a spanning text stands: it is not the last line. */
  lemma {:induction false} SpanningIsFound(f: string -> seq<Line>, xs: seq<string>, i: nat) returns (j: nat)
    requires i < |xs| && Spans(xs[i]) && forall x :: GivesLines(f, x)
    ensures j + 1 < |Flat(f, xs)| && Flat(f, xs)[j] == Head(xs[i])
  {
    assert GivesLines(f, xs[0]);
    if i == 0 {
      j := 0;
    } else {
      var k := SpanningIsFound(f, xs[1..], i - 1);
      j := |f(xs[0])| + k;
    }
  }

  // What spans lines is written again

  lemma {:induction false} TrimmedIsLong(xs: seq<string>, m: nat)
    requires m < |xs| && RStrip(xs[m]) != ""
    ensures |Trimmed(xs)| >= m + 1 && forall q :: 0 <= q < m ==> Trimmed(xs)[q] == xs[q]
  {
    if m > 0 { TrimmedIsLong(xs[1..], m - 1); }
  }

  lemma {:induction false} TrimmedParts(xs: seq<string>, i: nat)
    requires i < |Trimmed(xs)|
    ensures i < |xs| && Trimmed(xs)[i] <= xs[i]
  {
    if i > 0 { TrimmedParts(xs[1..], i - 1); }
  }

  lemma {:induction false} TrimmedEnds(xs: seq<string>)
    requires Trimmed(xs) != []
    ensures EndsVisibly(Trimmed(xs)[|Trimmed(xs)| - 1])
  {
    if Trimmed(xs[1..]) != [] { TrimmedEnds(xs[1..]); }
  }

  predicate EndsVisibly(x: string) { x != "" && !IsSpace(x[|x| - 1]) }

  lemma {:induction false} LastLineEnds(x: string)
    requires EndsVisibly(x)
    ensures LastIsSeen(Alone(x))
    decreases |x|
  {
    FollowedStep(x, "");
    if Spans(x) {
      SpanningRestIsShort(x);
      RestEnds(x);
      LastLineEnds(Rest(x));
    } else {
      VisibleIsWhole(x);
    }
  }

  lemma RestEnds(x: string)
    requires EndsVisibly(x) && Spans(x)
    ensures EndsVisibly(Rest(x))
  {
    if FirstBreak(x) == |x| { NoBreakNoSpan(x); }
  }

  lemma VisibleIsWhole(x: string)
    requires EndsVisibly(x) && !Spans(x)
    ensures Head(x) == x
  {
  }

  lemma {:induction false} LastOfFlat(f: string -> seq<Line>, xs: seq<string>)
    requires xs != [] && LastIsSeen(f(xs[|xs| - 1]))
    ensures LastIsSeen(Flat(f, xs))
  {
    if |xs| > 1 { LastOfFlat(f, xs[1..]); } else { assert xs[1..] == []; }
  }

  lemma RewrittenIsVisible(l: Line, values: map<string, string>)
    requires EndsVisibly(l)
    ensures RStrip(Rewritten(l, values)) != ""
  {
    var r := Rewritten(l, values);
    if r == l {
      RStripUnique(l, |l|);
    } else {
      assert r[|KeyOf(l)|] == '=';
      RStripKeeps(r, |KeyOf(l)|);
    }
  }

  // A line with a break is that of a setting

  /** Keys of settings hold no break; those of the program's table do not. */
  ghost predicate Named(os: seq<(string, string)>) {
    Writable(os) && forall o :: o in os ==> NoBreak(o.0)
  }

  lemma NoBreakNeverSpans(x: string)
    requires Spans(x)
    ensures !NoBreak(x)
  {
    var i :| 0 <= i < |x| && IsBreak(x[i]) && !(i == |x| - 1 && x[i] == '\r');
    assert x[i] in x;
  }

  lemma ValueOrigin(lines: seq<Line>, os: seq<(string, string)>, k: string)
    requires NoBreaks(lines) && k in Merged(lines, os) && !NoBreak(Merged(lines, os)[k])
    ensures (k, Merged(lines, os)[k]) in os
  {
    if k in Overrides(os) {
      OverridesFrom(os, k);
    } else {
      AssignedHaveNoBreak(lines, k);
    }
  }

  /** A written line that holds a break is that of a setting. */
  lemma BrokenOrigin(lines: seq<Line>, os: seq<(string, string)>, j: nat) returns (o: (string, string))
    requires NoBreaks(lines) && Named(os) && j < |Output(lines, os)| && !NoBreak(Output(lines, os)[j])
    ensures o in os && Output(lines, os)[j] == Pair(o.0, o.1)
  {
    if j < |lines| {
      RewriteAt(lines, Merged(lines, os), j);
      o := RewrittenOrigin(lines, os, lines[j]);
    } else {
      var rest := Missing(os, Values(lines).Keys);
      assert rest[j - |lines|] == Output(lines, os)[j];
      o := MissingIsPairs(os, Values(lines).Keys, Output(lines, os)[j]);
    }
  }

  lemma RewrittenOrigin(lines: seq<Line>, os: seq<(string, string)>, l: Line) returns (o: (string, string))
    requires NoBreaks(lines) && Named(os) && l in lines && !NoBreak(Rewritten(l, Merged(lines, os)))
    ensures o in os && Rewritten(l, Merged(lines, os)) == Pair(o.0, o.1)
  {
    var values := Merged(lines, os);
    var k := KeyOf(l);
    StrippedChars(l[..FirstEq(l)]);
    assert forall c :: c in k ==> c in l;
    if NoBreak(values[k]) {
      PairNoBreak(k, values[k]);
    }
    ValueOrigin(lines, os, k);
    o := (k, values[k]);
  }

  lemma FirstBreakConcat(a: string, b: string)
    requires NoBreak(a)
    ensures FirstBreak(a + b) == |a| + FirstBreak(b) && Head(a + b) == a + Head(b)
  {
    var s := a + b;
    forall q | 0 <= q < |a| + FirstBreak(b) ensures !IsBreak(s[q]) { if q < |a| { assert s[q] == a[q] && a[q] in a; } }
    BreakUnique(s, |a| + FirstBreak(b));
  }

  lemma HeadOfPrefix(t: string, x: string)
    requires t <= x && FirstBreak(t) < |t|
    ensures Head(t) == Head(x)
  {
    var i := FirstBreak(t);
    forall q | 0 <= q < i ensures !IsBreak(x[q]) { assert x[q] == t[q]; }
    BreakUnique(x, i);
  }

  /** Up to the first break it is the setting's key with the head of its value. */
  lemma HeadOfPair(k: string, v: string, t: string)
    requires NoBreak(k) && t <= Pair(k, v) && FirstBreak(t) < |t|
    ensures Head(t) == Pair(k, Head(v))
  {
    HeadOfPrefix(t, Pair(k, v));
    HeadOfWholePair(k, v);
  }

  lemma HeadOfWholePair(k: string, v: string)
    requires NoBreak(k)
    ensures Head(Pair(k, v)) == Pair(k, Head(v))
  {
    assert NoBreak(k + "=");
    FirstBreakConcat(k + "=", v);
  }

  /** The lines of the file after a write. */
  function Written(lines: seq<Line>, os: seq<(string, string)>): seq<Line> { Lines(Text(Output(lines, os))) }

  lemma WrittenIsFlat(lines: seq<Line>, os: seq<(string, string)>)
    requires Trimmed(Output(lines, os)) != []
    ensures Written(lines, os) == Flat(Alone, Trimmed(Output(lines, os)))
  {
    TextIsFlat(Output(lines, os));
  }

  lemma TextIsFlat(out: seq<string>)
    requires Trimmed(out) != []
    ensures Lines(Text(out)) == Flat(Alone, Trimmed(out))
  {
    JoinTrimmed(out);
    LinesAreFlat(Trimmed(out));
  }

  /** The last line ends in a character that is not white space. */
  ghost predicate LastIsSeen(lines: seq<Line>) { lines != [] && EndsVisibly(lines[|lines| - 1]) }

  lemma WrittenEnds(lines: seq<Line>, os: seq<(string, string)>)
    requires Trimmed(Output(lines, os)) != []
    ensures LastIsSeen(Written(lines, os))
  {
    TextIsFlat(Output(lines, os));
    TrimmedEnds(Output(lines, os));
    LastLineEnds(Trimmed(Output(lines, os))[|Trimmed(Output(lines, os))| - 1]);
    LastOfFlat(Alone, Trimmed(Output(lines, os)));
  }

  /** At the next write a line that starts a broken value gets the whole value again. */
  lemma RewrittenAgain(lines: seq<Line>, os: seq<(string, string)>, j: nat, o: (string, string))
    requires Named(os) && o in os && j < |lines| && lines[j] == Pair(o.0, Head(o.1))
    ensures Output(lines, os)[j] == Pair(o.0, o.1)
  {
    PairReadsBack(o.0, Head(o.1));
    OverridesOf(os, o);
    RewriteAt(lines, Merged(lines, os), j);
  }

  lemma NextIsLong(lines: seq<Line>, os: seq<(string, string)>, n: nat)
    requires LastIsSeen(lines) && n == |lines| - 1
    ensures |Trimmed(Output(lines, os))| >= |lines|
    ensures forall q :: 0 <= q < n ==> Trimmed(Output(lines, os))[q] == Output(lines, os)[q]
  {
    RewriteAt(lines, Merged(lines, os), n);
    RewrittenIsVisible(lines[n], Merged(lines, os));
    TrimmedIsLong(Output(lines, os), n);
  }

  lemma NextHasMoreLines(lines: seq<Line>, os: seq<(string, string)>, j: nat)
    requires LastIsSeen(lines) && j + 1 < |lines| && Spans(Output(lines, os)[j])
    ensures |Written(lines, os)| > |lines|
  {
    NextIsLong(lines, os, |lines| - 1);
    FlatIsLonger(Trimmed(Output(lines, os)), j);
    WrittenIsFlat(lines, os);
  }

  lemma FlatIsLonger(xs: seq<string>, j: nat)
    requires j < |xs| && Spans(xs[j])
    ensures |Flat(Alone, xs)| > |xs|
  {
    forall x ensures GivesLines(Alone, x) { SpanningHasMoreLines(x); }
    LinesAreAtLeast(Alone, xs, j);
  }

  /** Whatever the file and the settings: if something that was written spans lines, the next write of the same
      settings makes the file longer. */
  lemma SpanningGrowsTheFile(lines: seq<Line>, os: seq<(string, string)>, i: nat)
    requires NoBreaks(lines) && Named(os)
    requires i < |Trimmed(Output(lines, os))| && Spans(Trimmed(Output(lines, os))[i])
    ensures |Written(Written(lines, os), os)| > |Written(lines, os)|
  {
    var o, j := SpanningSetting(lines, os, i);
    WrittenEnds(lines, os);
    GrowsFrom(Written(lines, os), os, j, o);
  }

  /** The setting whose value spans lines, and where its first line stands. */
  lemma SpanningSetting(lines: seq<Line>, os: seq<(string, string)>, i: nat) returns (o: (string, string), j: nat)
    requires NoBreaks(lines) && Named(os)
    requires i < |Trimmed(Output(lines, os))| && Spans(Trimmed(Output(lines, os))[i])
    ensures o in os && Spans(Pair(o.0, o.1))
    ensures j + 1 < |Written(lines, os)| && Written(lines, os)[j] == Pair(o.0, Head(o.1))
  {
    o := SpanningLine(lines, os, i);
    WholeSpans(o, Trimmed(Output(lines, os))[i], Pair(o.0, o.1));
    j := SpanningIsWritten(lines, os, i, Pair(o.0, Head(o.1)));
  }

  lemma SpanningIsWritten(lines: seq<Line>, os: seq<(string, string)>, i: nat, head: Line) returns (j: nat)
    requires i < |Trimmed(Output(lines, os))| && Spans(Trimmed(Output(lines, os))[i])
    requires head == Head(Trimmed(Output(lines, os))[i])
    ensures j + 1 < |Written(lines, os)| && Written(lines, os)[j] == head
  {
    forall x ensures GivesLines(Alone, x) { SpanningHasMoreLines(x); }
    j := SpanningIsFound(Alone, Trimmed(Output(lines, os)), i);
    WrittenIsFlat(lines, os);
  }

  lemma GrowsFrom(again: seq<Line>, os: seq<(string, string)>, j: nat, o: (string, string))
    requires Named(os) && o in os && j + 1 < |again| && LastIsSeen(again)
    requires again[j] == Pair(o.0, Head(o.1)) && Spans(Pair(o.0, o.1))
    ensures |Written(again, os)| > |again|
  {
    RewrittenAgain(again, os, j, o);
    NextHasMoreLines(again, os, j);
  }

  lemma WholeSpans(o: (string, string), t: Line, x: Line)
    requires Spans(t) && t <= x && x == Pair(o.0, o.1)
    ensures Spans(Pair(o.0, o.1))
  {
    SpansLonger(t, x);
  }

  lemma SpanningLine(lines: seq<Line>, os: seq<(string, string)>, i: nat) returns (o: (string, string))
    requires NoBreaks(lines) && Named(os)
    requires i < |Trimmed(Output(lines, os))| && Spans(Trimmed(Output(lines, os))[i])
    ensures o in os && i < |Output(lines, os)| && Output(lines, os)[i] == Pair(o.0, o.1)
    ensures Trimmed(Output(lines, os))[i] <= Pair(o.0, o.1)
    ensures Head(Trimmed(Output(lines, os))[i]) == Pair(o.0, Head(o.1))
  {
    var out := Output(lines, os);
    TrimmedParts(out, i);
    SpansLonger(Trimmed(out)[i], out[i]);
    NoBreakNeverSpans(out[i]);
    o := BrokenOrigin(lines, os, i);
    SpanningHead(o.0, o.1, Trimmed(out)[i]);
  }

  lemma SpanningHead(k: string, v: string, t: string)
    requires NoBreak(k) && t <= Pair(k, v) && Spans(t)
    ensures Head(t) == Pair(k, Head(v))
  {
    if FirstBreak(t) == |t| { NoBreakNoSpan(t); }
    HeadOfPair(k, v, t);
  }

  // The same file with the values cut at their first break

  function Heads(xs: seq<string>): (r: seq<string>)
    ensures |r| == |xs| && forall i :: 0 <= i < |r| ==> r[i] == Head(xs[i])
  {
    seq(|xs|, i requires 0 <= i < |xs| => Head(xs[i]))
  }

  function HeadSettings(os: seq<(string, string)>): (r: seq<(string, string)>)
    ensures |r| == |os| && forall i :: 0 <= i < |r| ==> r[i] == (os[i].0, Head(os[i].1))
  {
    seq(|os|, i requires 0 <= i < |os| => (os[i].0, Head(os[i].1)))
  }

  lemma HeadHasNoBreak(x: string)
    ensures NoBreak(Head(x)) && (NoBreak(x) ==> Head(x) == x)
  {
    assert FirstBreak(x) < |x| ==> x[FirstBreak(x)] in x;
  }

  lemma HeadSettingsAreReadable(lines: seq<Line>, os: seq<(string, string)>)
    requires NoBreaks(lines) && Named(os)
    ensures Readable(lines, HeadSettings(os))
  {
    var cut := HeadSettings(os);
    forall o | o in cut ensures NoBreak(o.0) && NoBreak(o.1) {
      var i :| 0 <= i < |cut| && cut[i] == o;
      assert os[i] in os;
      HeadHasNoBreak(os[i].1);
    }
  }

  lemma {:induction false} HeadOverrides(os: seq<(string, string)>)
    ensures Overrides(HeadSettings(os)).Keys == Overrides(os).Keys
    ensures forall k :: k in Overrides(os) ==> Overrides(HeadSettings(os))[k] == Head(Overrides(os)[k])
  {
    if os != [] {
      HeadOverrides(os[1..]);
      assert HeadSettings(os)[1..] == HeadSettings(os[1..]);
    }
  }

  lemma HeadMerged(lines: seq<Line>, os: seq<(string, string)>)
    requires NoBreaks(lines)
    ensures Merged(lines, HeadSettings(os)).Keys == Merged(lines, os).Keys
    ensures forall k :: k in Merged(lines, os) ==> Merged(lines, HeadSettings(os))[k] == Head(Merged(lines, os)[k])
  {
    HeadOverrides(os);
    forall k | k in Merged(lines, os) ensures Merged(lines, HeadSettings(os))[k] == Head(Merged(lines, os)[k]) {
      if k !in Overrides(os) {
        AssignedHaveNoBreak(lines, k);
        HeadHasNoBreak(Values(lines)[k]);
      }
    }
  }

  lemma HeadRewritten(l: Line, values: map<string, string>, cut: map<string, string>)
    requires NoBreak(l) && cut.Keys == values.Keys && forall k :: k in values ==> cut[k] == Head(values[k])
    ensures Rewritten(l, cut) == Head(Rewritten(l, values))
  {
    if IsAssign(l) && KeyOf(l) in values {
      StrippedChars(l[..FirstEq(l)]);
      assert forall c :: c in KeyOf(l) ==> c in l;
      HeadOfWholePair(KeyOf(l), values[KeyOf(l)]);
    } else {
      HeadHasNoBreak(l);
    }
  }

  lemma {:induction false} HeadRewrite(lines: seq<Line>, values: map<string, string>, cut: map<string, string>)
    requires NoBreaks(lines) && cut.Keys == values.Keys && forall k :: k in values ==> cut[k] == Head(values[k])
    ensures Rewrite(lines, cut) == Heads(Rewrite(lines, values))
  {
    forall i | 0 <= i < |lines| ensures Rewrite(lines, cut)[i] == Heads(Rewrite(lines, values))[i] {
      RewriteAt(lines, values, i);
      RewriteAt(lines, cut, i);
      assert lines[i] in lines;
      HeadRewritten(lines[i], values, cut);
    }
  }

  lemma {:induction false} HeadMissing(os: seq<(string, string)>, keys: set<string>)
    requires forall o :: o in os ==> NoBreak(o.0)
    ensures Missing(HeadSettings(os), keys) == Heads(Missing(os, keys))
  {
    if os != [] {
      assert os[0] in os && forall o :: o in os[1..] ==> o in os;
      assert HeadSettings(os)[1..] == HeadSettings(os[1..]);
      HeadMissing(os[1..], keys);
      HeadOfWholePair(os[0].0, os[0].1);
      HeadsConcat(if os[0].0 in keys then [] else [Pair(os[0].0, os[0].1)], Missing(os[1..], keys));
    }
  }

  /** Cutting the values first cuts the lines that are written. */
  lemma HeadOutput(lines: seq<Line>, os: seq<(string, string)>)
    requires NoBreaks(lines) && Named(os)
    ensures Output(lines, HeadSettings(os)) == Heads(Output(lines, os))
  {
    HeadMerged(lines, os);
    HeadRewrite(lines, Merged(lines, os), Merged(lines, HeadSettings(os)));
    HeadMissing(os, Values(lines).Keys);
    HeadsConcat(Rewrite(lines, Merged(lines, os)), Missing(os, Values(lines).Keys));
  }

  lemma HeadsConcat(a: seq<string>, b: seq<string>)
    ensures Heads(a + b) == Heads(a) + Heads(b)
  {
  }

  // When nothing spans lines

  /** Nothing that is written runs over several lines. */
  ghost predicate Flatly(out: seq<Line>) { forall i :: 0 <= i < |Trimmed(out)| ==> !Spans(Trimmed(out)[i]) }

  lemma SpaceStaysSpace(x: string)
    requires RStrip(x) == ""
    ensures RStrip(Head(x)) == ""
  {
    RStripUnique(Head(x), 0);
  }

  /** A text whose breaks stand in the white space at its end. */
  lemma HeadKeepsVisible(x: string)
    requires RStrip(x) != "" && !Spans(RStrip(x))
    ensures RStrip(Head(x)) == RStrip(x) && NoBreak(RStrip(x))
  {
    var t := RStrip(x);
    VisibleIsWhole(t);
    HeadHasNoBreak(t);
    assert FirstBreak(x) >= |t|;
    RStripUnique(Head(x), |t|);
  }

  /** Then trimming and cutting commute. */
  lemma {:induction false} HeadsOfTrimmed(out: seq<Line>)
    requires Flatly(out)
    ensures Trimmed(Heads(out)) == Heads(Trimmed(out))
  {
    if out != [] {
      var rest := out[1..];
      assert Heads(out)[1..] == Heads(rest);
      assert Flatly(rest) by {
        if Trimmed(rest) != [] {
          forall i | 0 <= i < |Trimmed(rest)| ensures !Spans(Trimmed(rest)[i]) { assert Trimmed(out)[i + 1] == Trimmed(rest)[i]; }
        }
      }
      HeadsOfTrimmed(rest);
      if Trimmed(rest) == [] {
        if RStrip(out[0]) != "" {
          assert Trimmed(out)[0] == RStrip(out[0]);
          HeadKeepsVisible(out[0]);
          HeadHasNoBreak(RStrip(out[0]));
        } else {
          SpaceStaysSpace(out[0]);
        }
      }
    }
  }

  lemma AloneIsHead(x: string)
    requires !Spans(x)
    ensures Alone(x) == [Head(x)]
  {
    FollowedStep(x, "");
    assert Lines("") == [];
  }

  lemma {:induction false} FlatIsHeads(f: string -> seq<Line>, xs: seq<string>)
    requires forall x :: x in xs ==> f(x) == [Head(x)]
    ensures Flat(f, xs) == Heads(xs)
  {
    if xs != [] { FlatIsHeads(f, xs[1..]); }
  }

  /** The file reads back as the cut lines, as if the values had been cut first. */
  lemma FlatTextLines(out: seq<Line>)
    requires Flatly(out) && Trimmed(out) != []
    ensures Lines(Text(out)) == Heads(Trimmed(out))
  {
    TextIsFlat(out);
    forall x | x in Trimmed(out) ensures Alone(x) == [Head(x)] { AloneIsHead(x); }
    FlatIsHeads(Alone, Trimmed(out));
  }

  // The second write

  lemma TrimmedIs(out: seq<Line>, i: nat)
    requires i < |Trimmed(out)|
    ensures i < |out| && (Trimmed(out)[i] == out[i] || (i == |Trimmed(out)| - 1 && Trimmed(out)[i] == RStrip(out[i])))
  {
    TrimmedAt(out);
  }

  /** A written line with the key of a setting is that setting's. */
  lemma KeyedLine(lines: seq<Line>, os: seq<(string, string)>, i: nat, t: Line, o: (string, string))
    requires Named(os) && o in os && i < |Output(lines, os)| && (t == Output(lines, os)[i] || t == RStrip(Output(lines, os)[i]))
    requires IsAssign(t) && KeyOf(t) == o.0
    ensures Output(lines, os)[i] == Pair(o.0, o.1)
  {
    var x := Output(lines, os)[i];
    TrimmedAssign(x);
    OutputSettled(lines, os);
    assert x in Output(lines, os);
    assert Rewritten(x, Merged(lines, os)) == x;
    OverridesOf(os, o);
  }

  /** Each written line is written again as it was, or holds no break either time. */
  lemma SameOrPlain(lines: seq<Line>, os: seq<(string, string)>, again: seq<Line>, j: nat)
    requires NoBreaks(lines) && Named(os) && Flatly(Output(lines, os))
    requires again == Heads(Trimmed(Output(lines, os))) && j < |again| && NoBreaks(again)
    ensures j < |Output(again, os)| && j < |Output(lines, os)|
    ensures Output(again, os)[j] == Output(lines, os)[j]
         || (NoBreak(Output(again, os)[j]) && NoBreak(Trimmed(Output(lines, os))[j]))
  {
    var out, next := Output(lines, os), Output(again, os);
    var t := Trimmed(out)[j];
    TrimmedIs(out, j);
    if !NoBreak(t) {
      BrokenIsWhole(out, j);
      var o := BrokenOrigin(lines, os, j);
      HeadOfWholePair(o.0, o.1);
      RewrittenAgain(again, os, j, o);
    } else if !NoBreak(next[j]) {
      var o := BrokenOrigin(again, os, j);
      HeadHasNoBreak(t);
      assert again[j] == t;
      RewriteAt(again, Merged(again, os), j);
      RewrittenKey(again[j], Merged(again, os), o);
      KeyedLine(lines, os, j, t, o);
    }
  }

  /** A line that was trimmed holds no break any more. */
  lemma BrokenIsWhole(out: seq<Line>, j: nat)
    requires Flatly(out) && j < |Trimmed(out)| && !NoBreak(Trimmed(out)[j])
    ensures j < |out| && Trimmed(out)[j] == out[j]
  {
    TrimmedIs(out, j);
    if Trimmed(out)[j] != out[j] {
      TrimmedEnds(out);
      VisibleIsWhole(Trimmed(out)[j]);
      HeadHasNoBreak(Trimmed(out)[j]);
    }
  }

  lemma RewrittenKey(l: Line, values: map<string, string>, o: (string, string))
    requires NoBreak(l) && Rewritten(l, values) == Pair(o.0, o.1) && !NoBreak(Pair(o.0, o.1)) && IsKey(o.0)
    ensures IsAssign(l) && KeyOf(l) == o.0
  {
    RewrittenPair(l, values);
    PairReadsBack(o.0, o.1);
    PairReadsBack(KeyOf(l), values[KeyOf(l)]);
  }

  /** Every setting has its line. */
  lemma SettingHasLine(lines: seq<Line>, os: seq<(string, string)>, o: (string, string)) returns (i: nat)
    requires Named(os) && o in os
    ensures i < |Trimmed(Output(lines, os))| && i < |Output(lines, os)| && Output(lines, os)[i] == Pair(o.0, o.1)
  {
    var out := Output(lines, os);
    OutputValues(lines, os);
    OverridesOf(os, o);
    var l := FoldFrom(LineValues, out, o.0);
    i :| 0 <= i < |out| && out[i] == l;
    KeyedLine(lines, os, i, l, o);
    TrimmedAssignLine(l);
    TrimmedIsLong(out, i);
  }

  lemma HeadIsKeyed(t: Line, o: (string, string))
    requires IsKey(o.0) && NoBreak(o.0) && (t == Pair(o.0, o.1) || t == RStrip(Pair(o.0, o.1)))
    ensures IsAssign(Head(t)) && KeyOf(Head(t)) == o.0
  {
    if FirstBreak(t) < |t| {
      HeadOfPair(o.0, o.1, t);
      PairReadsBack(o.0, Head(o.1));
    } else {
      NoBreakNoSpan(t);
      CutPairIsKeyed(t, Pair(o.0, o.1), o.0, o.1);
    }
  }

  lemma CutPairIsKeyed(t: Line, x: Line, k: string, v: string)
    requires IsKey(k) && x == Pair(k, v) && (t == x || t == RStrip(x))
    ensures IsAssign(t) && KeyOf(t) == k
  {
    PairReadsBack(k, v);
    TrimmedAssign(x);
  }

  /** So the second write adds no line. */
  lemma NothingIsAdded(lines: seq<Line>, os: seq<(string, string)>, again: seq<Line>)
    requires Named(os) && again == Heads(Trimmed(Output(lines, os)))
    ensures |Output(again, os)| == |again|
  {
    forall o | o in os ensures o.0 in Values(again).Keys {
      var i := SettingHasLine(lines, os, o);
      TrimmedIs(Output(lines, os), i);
      HeadIsKeyed(Trimmed(Output(lines, os))[i], o);
      assert again[i] in again;
      AssignedAreKnown(again, again[i]);
    }
    NothingMissing(os, Values(again).Keys);
  }

  /** The second write has as many lines, and none of them spans others. */
  lemma SecondIsFlat(lines: seq<Line>, os: seq<(string, string)>, again: seq<Line>)
    requires NoBreaks(lines) && Named(os) && Flatly(Output(lines, os)) && Trimmed(Output(lines, os)) != []
    requires again == Heads(Trimmed(Output(lines, os))) && NoBreaks(again)
    ensures |Trimmed(Output(again, os))| == |again| && Flatly(Output(again, os))
    ensures forall j :: 0 <= j < |again| && Head(Trimmed(Output(again, os))[j]) == Head(Trimmed(Output(lines, os))[j])
                        ==> Trimmed(Output(again, os))[j] == Trimmed(Output(lines, os))[j]
  {
    var out, next, n := Output(lines, os), Output(again, os), |again| - 1;
    NothingIsAdded(lines, os, again);
    LastIsVisible(out, again, n);
    RewriteAt(again, Merged(again, os), n);
    RewrittenIsVisible(again[n], Merged(again, os));
    TrimmedIsLong(next, n);
    TrimmedAt(next);
    forall j | 0 <= j < |again|
      ensures !Spans(Trimmed(next)[j])
      ensures Head(Trimmed(next)[j]) == Head(Trimmed(out)[j]) ==> Trimmed(next)[j] == Trimmed(out)[j]
    {
      SameOrPlain(lines, os, again, j);
      LineTwice(out, next, j);
    }
  }

  lemma LastIsVisible(out: seq<Line>, again: seq<Line>, n: nat)
    requires Flatly(out) && Trimmed(out) != [] && again == Heads(Trimmed(out)) && n == |again| - 1
    ensures EndsVisibly(again[n])
  {
    TrimmedEnds(out);
    VisibleIsWhole(Trimmed(out)[n]);
  }

  lemma LineTwice(out: seq<Line>, next: seq<Line>, j: nat)
    requires Flatly(out) && j < |Trimmed(out)| == |Trimmed(next)| && j < |out| && j < |next|
    requires next[j] == out[j] || (NoBreak(next[j]) && NoBreak(Trimmed(out)[j]))
    ensures !Spans(Trimmed(next)[j])
    ensures Head(Trimmed(next)[j]) == Head(Trimmed(out)[j]) ==> Trimmed(next)[j] == Trimmed(out)[j]
  {
    if next[j] == out[j] {
      TrimmedAlike(out, next, j);
    } else {
      TrimmedParts(next, j);
      PlainTwice(Trimmed(out)[j], Trimmed(next)[j], next[j]);
    }
  }

  lemma TrimmedAlike(out: seq<Line>, next: seq<Line>, j: nat)
    requires j < |Trimmed(out)| == |Trimmed(next)| && j < |out| && j < |next| && next[j] == out[j]
    ensures Trimmed(next)[j] == Trimmed(out)[j]
  {
    TrimmedAt(out);
    TrimmedAt(next);
  }

  lemma PlainTwice(t: Line, u: Line, x: Line)
    requires NoBreak(t) && NoBreak(x) && u <= x
    ensures !Spans(u) && (Head(u) == Head(t) ==> u == t)
  {
    assert forall c :: c in u ==> c in x;
    HeadHasNoBreak(t);
    HeadHasNoBreak(u);
    if Spans(u) { NoBreakNeverSpans(u); }
  }

  // Exactly when the second write changes nothing

  lemma SameLastAt(out: seq<Line>, cut: seq<Line>)
    requires Trimmed(out) != [] && |Trimmed(cut)| == |Trimmed(out)|
    ensures LastAt(cut) == LastAt(out) == |Trimmed(out)| - 1
  {
    TrimmedAt(out);
    TrimmedAt(cut);
  }

  /** Two lines assign the same key, and are the same unless it is one of these. */
  ghost predicate Alike(x: Line, y: Line, keys: set<string>) {
    && (IsAssign(y) <==> IsAssign(x)) && (IsAssign(x) ==> KeyOf(y) == KeyOf(x))
    && (IsAssign(x) && KeyOf(x) !in keys ==> y == x)
  }

  lemma HeadIsAlike(lines: seq<Line>, os: seq<(string, string)>, i: nat)
    requires NoBreaks(lines) && Named(os) && i < |Output(lines, os)|
    ensures Alike(Output(lines, os)[i], Head(Output(lines, os)[i]), Overrides(os).Keys)
  {
    var x := Output(lines, os)[i];
    if NoBreak(x) {
      HeadHasNoBreak(x);
    } else {
      var o := BrokenOrigin(lines, os, i);
      PairReadsBack(o.0, o.1);
      HeadIsKeyed(x, o);
      OverridesOf(os, o);
    }
  }

  lemma AssignedAlike(a: seq<Line>, b: seq<Line>, n: nat, keys: set<string>, key: string)
    requires n <= |a| == |b| && forall i :: 0 <= i < |a| ==> Alike(a[i], b[i], keys)
    ensures AssignedIn(a[..n], key) <==> AssignedIn(b[..n], key)
  {
    if AssignedIn(a[..n], key) {
      var i :| 0 <= i < n && IsAssign(a[..n][i]) && KeyOf(a[..n][i]) == key;
      assert Alike(a[i], b[i], keys) && b[..n][i] == b[i];
    }
    if AssignedIn(b[..n], key) {
      var i :| 0 <= i < n && IsAssign(b[..n][i]) && KeyOf(b[..n][i]) == key;
      assert Alike(a[i], b[i], keys) && a[..n][i] == a[i];
    }
  }

  lemma LossIsAlike(a: seq<Line>, b: seq<Line>, os: seq<(string, string)>, cut: seq<(string, string)>)
    requires |a| == |b| && forall i :: 0 <= i < |a| ==> Alike(a[i], b[i], Overrides(os).Keys)
    requires Trimmed(a) != [] && |Trimmed(b)| == |Trimmed(a)| && Overrides(cut).Keys == Overrides(os).Keys
    ensures LosesSpace(b, cut) <==> LosesSpace(a, os)
  {
    SameLastAt(a, b);
    var n := LastAt(a);
    assert Alike(a[n], b[n], Overrides(os).Keys);
    if IsAssign(a[n]) { AssignedAlike(a, b, n, Overrides(os).Keys, KeyOf(a[n])); }
  }

  lemma LossIsTheSame(lines: seq<Line>, os: seq<(string, string)>)
    requires NoBreaks(lines) && Named(os) && Flatly(Output(lines, os)) && Trimmed(Output(lines, os)) != []
    ensures LosesSpace(Heads(Output(lines, os)), HeadSettings(os)) <==> LosesSpace(Output(lines, os), os)
  {
    var out := Output(lines, os);
    HeadsOfTrimmed(out);
    HeadOverrides(os);
    forall i | 0 <= i < |out| ensures Alike(out[i], Heads(out)[i], Overrides(os).Keys) { HeadIsAlike(lines, os, i); }
    LossIsAlike(out, Heads(out), os, HeadSettings(os));
  }

  /** The texts are equal when the trimmed lines are. */
  lemma SameText(a: seq<Line>, b: seq<Line>)
    requires Trimmed(a) == Trimmed(b)
    ensures Text(a) == Text(b)
  {
    JoinTrimmed(a);
    JoinTrimmed(b);
  }

  lemma NoBreaksOfHeads(xs: seq<string>)
    ensures NoBreaks(Heads(xs))
  {
    forall l | l in Heads(xs) ensures NoBreak(l) {
      var i :| 0 <= i < |Heads(xs)| && Heads(xs)[i] == l;
      HeadHasNoBreak(xs[i]);
    }
  }

  /** Two flat texts are equal exactly when they are with the values cut. */
  lemma SameAsCut(out: seq<Line>, next: seq<Line>)
    requires Flatly(out) && Flatly(next) && Trimmed(out) != [] && |Trimmed(next)| == |Trimmed(out)|
    requires forall j :: 0 <= j < |Trimmed(out)| && Head(Trimmed(next)[j]) == Head(Trimmed(out)[j])
                         ==> Trimmed(next)[j] == Trimmed(out)[j]
    ensures Text(next) == Text(out) <==> Text(Heads(next)) == Text(Heads(out))
  {
    FlatTextLines(out);
    FlatTextLines(next);
    HeadsOfTrimmed(out);
    HeadsOfTrimmed(next);
    NoBreaksOfHeads(out);
    NoBreaksOfHeads(next);
    LinesOfText(Heads(out));
    LinesOfText(Heads(next));
    if Heads(Trimmed(next)) == Heads(Trimmed(out)) {
      SameTrimmed(Trimmed(out), Trimmed(next));
      SameText(next, out);
      SameText(Heads(next), Heads(out));
    }
  }

  lemma SameTrimmed(t: seq<Line>, u: seq<Line>)
    requires |u| == |t| && Heads(u) == Heads(t)
    requires forall j :: 0 <= j < |t| && Head(u[j]) == Head(t[j]) ==> u[j] == t[j]
    ensures u == t
  {
    forall j | 0 <= j < |t| ensures u[j] == t[j] { assert Heads(u)[j] == Heads(t)[j]; }
  }

  lemma FlatIsCut(lines: seq<Line>, os: seq<(string, string)>)
    requires NoBreaks(lines) && Named(os) && Flatly(Output(lines, os)) && Trimmed(Output(lines, os)) != []
    ensures Text(Output(Written(lines, os), os)) == Text(Output(lines, os)) <==> !LosesSpace(Output(lines, os), os)
  {
    var out, again, cut := Output(lines, os), Written(lines, os), HeadSettings(os);
    FlatTextLines(out);
    LinesHaveNoBreak(Text(out));
    SecondIsFlat(lines, os, again);
    SameAsCut(out, Output(again, os));
    HeadOutput(lines, os);
    HeadOutput(again, os);
    CutReadsTheSame(out);
    HeadSettingsAreReadable(lines, os);
    WritingTwiceIsWritingOnceExactly(lines, cut);
    LossIsTheSame(lines, os);
  }

  lemma CutReadsTheSame(out: seq<Line>)
    requires Flatly(out) && Trimmed(out) != []
    ensures Lines(Text(Heads(out))) == Lines(Text(out))
  {
    FlatTextLines(out);
    HeadsOfTrimmed(out);
    NoBreaksOfHeads(out);
    LinesOfText(Heads(out));
  }

  /** A file that stays blank has no settings. */
  lemma BlankHasNoSettings(lines: seq<Line>, os: seq<(string, string)>)
    requires Named(os) && Trimmed(Output(lines, os)) == []
    ensures os == []
  {
    if os != [] { var i := SettingHasLine(lines, os, os[0]); }
  }

  lemma LongerIsOther(a: string, b: string)
    requires |Lines(a)| > |Lines(b)|
    ensures a != b
  {
  }

  /** For all files and all settings: writing the same settings again gives the same text, exactly when nothing that was
      written spans lines and no white space is lost that an earlier line brings back. */
  lemma WritingTwiceExactly(lines: seq<Line>, os: seq<(string, string)>)
    requires NoBreaks(lines) && Named(os)
    ensures Text(Output(Written(lines, os), os)) == Text(Output(lines, os))
       <==> Flatly(Output(lines, os)) && !LosesSpace(Output(lines, os), os)
  {
    if Trimmed(Output(lines, os)) == [] {
      BlankHasNoSettings(lines, os);
      WritingTwiceIsWritingOnceExactly(lines, os);
    } else if Flatly(Output(lines, os)) {
      FlatIsCut(lines, os);
    } else {
      var i :| 0 <= i < |Trimmed(Output(lines, os))| && Spans(Trimmed(Output(lines, os))[i]);
      SpanningGrowsTheFile(lines, os, i);
      LongerIsOther(Text(Output(Written(lines, os), os)), Text(Output(lines, os)));
    }
  }
}
