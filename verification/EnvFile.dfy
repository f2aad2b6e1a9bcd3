/** The `.env` merge of app/backup.py (lines 104-142): settings overwrite or extend the assignments of the file and
    everything else stays. Lines are what reading the file as lines gives. */
module EnvFile {
  import opened Texts

  type Line = string

  function FirstEq(s: string): (i: nat)
    requires '=' in s
    ensures i < |s| && s[i] == '=' && forall k :: 0 <= k < i ==> s[k] != '='
  {
    if s[0] == '=' then 0 else 1 + FirstEq(s[1..])
  }

  /** The line assigns a value: not blank, not a comment, and with an equals sign. Stripping the left end decides
      the first two. */
  predicate IsAssign(line: Line) {
    '=' in line && LStrip(line) != "" && LStrip(line)[0] != '#'
  }

  function KeyOf(line: Line): string
    requires IsAssign(line)
  {
    Strip(line[..FirstEq(line)])
  }

  function ValueOf(line: Line): string
    requires IsAssign(line)
  {
    line[FirstEq(line) + 1..]
  }

  /** What one line assigns. */
  function LineValues(line: Line): map<string, string> {
    if IsAssign(line) then map[KeyOf(line) := ValueOf(line)] else map[]
  }

  /** The assignments of several lines, the last one of a key winning. */
  function Fold(f: Line -> map<string, string>, lines: seq<Line>): map<string, string> {
    if lines == [] then map[] else f(lines[0]) + Fold(f, lines[1..])
  }

  function Values(lines: seq<Line>): map<string, string> { Fold(LineValues, lines) }

  function Pair(key: string, value: string): Line { key + "=" + value }

  function Overrides(os: seq<(string, string)>): map<string, string> {
    if os == [] then map[] else map[os[0].0 := os[0].1] + Overrides(os[1..])
  }

  function Rewritten(line: Line, values: map<string, string>): Line {
    if IsAssign(line) && KeyOf(line) in values then Pair(KeyOf(line), values[KeyOf(line)]) else line
  }

  function Rewrite(lines: seq<Line>, values: map<string, string>): (r: seq<Line>)
    ensures |r| == |lines|
  {
    if lines == [] then [] else [Rewritten(lines[0], values)] + Rewrite(lines[1..], values)
  }

  /** The settings whose key the file does not assign yet. */
  function Missing(os: seq<(string, string)>, keys: set<string>): seq<Line> {
    if os == [] then []
    else (if os[0].0 in keys then [] else [Pair(os[0].0, os[0].1)]) + Missing(os[1..], keys)
  }

  function Merged(lines: seq<Line>, os: seq<(string, string)>): map<string, string> { Values(lines) + Overrides(os) }

  /** The lines to be written. */
  function Output(lines: seq<Line>, os: seq<(string, string)>): seq<Line> {
    Rewrite(lines, Merged(lines, os)) + Missing(os, Values(lines).Keys)
  }

  function Join(lines: seq<Line>): string {
    if lines == [] then "" else if |lines| == 1 then lines[0] else lines[0] + "\n" + Join(lines[1..])
  }

  /** The text written: trailing white space is cut off, and one line break added. */
  function Text(lines: seq<Line>): string { RStrip(Join(lines)) + "\n" }

  /** The characters at which `splitlines` breaks a text. */
  predicate IsBreak(c: char) {
    '\n' <= c <= '\r' || '\U{1c}' <= c <= '\U{1e}' || c == '\U{85}' || c == '\U{2028}' || c == '\U{2029}'
  }

  ghost predicate NoBreak(s: string) { forall c :: c in s ==> !IsBreak(c) }

  function FirstBreak(s: string): (i: nat)
    ensures i <= |s| && (i < |s| ==> IsBreak(s[i])) && forall k :: 0 <= k < i ==> !IsBreak(s[k])
  {
    if s == "" || IsBreak(s[0]) then 0 else 1 + FirstBreak(s[1..])
  }

  /** Reading a text as lines; a carriage return and line feed are one break. */
  function Lines(text: string): seq<Line> {
    if text == "" then [] else
      var i := FirstBreak(text);
      if i == |text| then [text]
      else if text[i] == '\r' && i + 1 < |text| && text[i + 1] == '\n' then [text[..i]] + Lines(text[i + 2..])
      else [text[..i]] + Lines(text[i + 1..])
  }

  // What reading the written text gives

  /** Blank lines at the end are gone and the last line has no trailing white space. */
  function Trimmed(lines: seq<Line>): seq<Line> {
    if lines == [] then []
    else if Trimmed(lines[1..]) != [] then [lines[0]] + Trimmed(lines[1..])
    else if RStrip(lines[0]) != "" then [RStrip(lines[0])] else []
  }

  lemma RStripTail(l: string, tail: string)
    ensures RStrip(l + "\n" + tail) == if RStrip(tail) != "" then l + "\n" + RStrip(tail) else RStrip(l)
  {
    var all, kept := l + "\n" + tail, RStrip(tail);
    if kept != "" {
      assert all[..|l| + 1 + |kept|] == l + "\n" + kept;
      RStripUnique(all, |l| + 1 + |kept|);
    } else {
      RStripUnique(all, |RStrip(l)|);
    }
  }

  lemma {:induction false} JoinTrimmed(lines: seq<Line>)
    ensures RStrip(Join(lines)) == Join(Trimmed(lines))
    ensures Join(Trimmed(lines)) == "" <==> Trimmed(lines) == []
  {
    if |lines| > 1 {
      var l, rest := lines[0], lines[1..];
      JoinTrimmed(rest);
      RStripTail(l, Join(rest));
      assert ([l] + Trimmed(rest))[1..] == Trimmed(rest);
    }
  }

  ghost predicate NoBreaks(lines: seq<Line>) {
    forall l :: l in lines ==> NoBreak(l)
  }

  lemma {:induction false} TrimmedNoBreaks(lines: seq<Line>)
    requires NoBreaks(lines)
    ensures NoBreaks(Trimmed(lines))
  {
    if lines != [] {
      assert lines[0] in lines && forall l :: l in lines[1..] ==> l in lines;
      TrimmedNoBreaks(lines[1..]);
      assert forall c :: c in RStrip(lines[0]) ==> c in lines[0];
    }
  }

  lemma BreakUnique(s: string, i: nat)
    requires i <= |s| && (i < |s| ==> IsBreak(s[i])) && forall k :: 0 <= k < i ==> !IsBreak(s[k])
    ensures FirstBreak(s) == i
  {
  }

  lemma FirstBreakIs(l: string, rest: string)
    requires NoBreak(l)
    ensures Lines(l + "\n" + rest) == [l] + Lines(rest)
  {
    var t := l + "\n" + rest;
    assert t[|l|] == '\n' && t[..|l|] == l && t[|l| + 1..] == rest;
    forall k | 0 <= k < |l| ensures !IsBreak(t[k]) { assert t[k] == l[k] && l[k] in l; }
    BreakUnique(t, |l|);
  }

  lemma TextAssoc(a: string, b: string, c: string)
    ensures a + (b + c) == (a + b) + c
  {
  }

  lemma {:induction false} LinesOfJoin(lines: seq<Line>)
    requires lines != [] && NoBreaks(lines)
    ensures Lines(Join(lines) + "\n") == lines
  {
    if |lines| == 1 {
      FirstBreakIs(lines[0], "");
      assert lines[0] + "\n" + "" == lines[0] + "\n";
    } else {
      LinesOfJoin(lines[1..]);
      FirstBreakIs(lines[0], Join(lines[1..]) + "\n");
      TextAssoc(lines[0] + "\n", Join(lines[1..]), "\n");
    }
  }

  /** Reading the written text gives the lines without the trailing white space; an empty file reads as one empty
      line. */
  lemma LinesOfText(lines: seq<Line>)
    requires NoBreaks(lines)
    ensures Lines(Text(lines)) == if Trimmed(lines) == [] then [""] else Trimmed(lines)
  {
    JoinTrimmed(lines);
    TrimmedNoBreaks(lines);
    if Trimmed(lines) == [] {
      FirstBreakIs("", "");
      assert "" + "\n" + "" == "\n" && "" + "\n" == "\n";
    } else {
      LinesOfJoin(Trimmed(lines));
    }
  }

  // Keys

  /** A key as it can stand before the equals sign. */
  predicate IsKey(k: string) {
    '=' !in k && (k == "" || (k[0] != '#' && !IsSpace(k[0]) && !IsSpace(k[|k| - 1])))
  }

  lemma {:induction false} LStripPrefix(head: string, tail: string)
    requires LStrip(head) != ""
    ensures LStrip(head + tail) != "" && LStrip(head + tail)[0] == LStrip(head)[0]
  {
    var s := head + tail;
    assert s[0] == head[0];
    if IsSpace(head[0]) {
      LStripPrefix(head[1..], tail);
      assert s[1..] == head[1..] + tail;
    }
  }

  lemma StrippedChars(s: string)
    ensures forall c :: c in Strip(s) ==> c in s
  {
    assert forall c :: c in Strip(s) ==> c in LStrip(s);
    assert forall c :: c in LStrip(s) ==> c in s;
  }

  lemma StrippedEnds(s: string)
    requires Strip(s) != ""
    ensures LStrip(s) != "" && Strip(s)[0] == LStrip(s)[0] && !IsSpace(Strip(s)[|Strip(s)| - 1])
  {
  }

  /** A stripped text starts with the character with which the whole line starts. */
  lemma StrippedStart(line: Line, head: string, tail: string)
    requires line == head + tail && Strip(head) != ""
    ensures LStrip(line) != "" && Strip(head)[0] == LStrip(line)[0]
  {
    StrippedEnds(head);
    LStripPrefix(head, tail);
  }

  lemma Halves(line: Line, i: nat)
    requires i <= |line|
    ensures line == line[..i] + line[i..]
  {
  }

  lemma KeyOfIsKey(line: Line)
    requires IsAssign(line)
    ensures IsKey(KeyOf(line))
  {
    var i := FirstEq(line);
    StrippedChars(line[..i]);
    if KeyOf(line) != "" {
      Halves(line, i);
      StrippedEnds(line[..i]);
      StrippedStart(line, line[..i], line[i..]);
    }
  }

  lemma KeyIsStripped(k: string)
    requires IsKey(k)
    ensures Strip(k) == k
  {
    if k != "" {
      LStripUnique(k, 0);
      RStripUnique(k, |k|);
    }
  }

  lemma PairEq(k: string, v: string)
    requires '=' !in k
    ensures FirstEq(Pair(k, v)) == |k| && Pair(k, v)[..|k|] == k && Pair(k, v)[|k| + 1..] == v
  {
    var line := Pair(k, v);
    assert line[|k|] == '=' && forall i :: 0 <= i < |k| ==> line[i] == k[i];
  }

  lemma AssignAt(line: Line, i: nat)
    requires i < |line| && line[i] == '=' && !IsSpace(line[0]) && line[0] != '#'
    ensures IsAssign(line)
  {
  }

  lemma PairIsAssign(k: string, v: string)
    requires IsKey(k)
    ensures IsAssign(Pair(k, v))
  {
    if k == "" {
      AssignAt(Pair(k, v), 0);
    } else {
      AssignAt(Pair(k, v), |k|);
    }
  }

  lemma SplitAt(line: Line, i: nat, k: string)
    requires IsAssign(line) && FirstEq(line) == i && line[..i] == k && IsKey(k)
    ensures KeyOf(line) == k
  {
    KeyIsStripped(k);
  }

  /** A written pair reads back as that pair. */
  lemma PairReadsBack(k: string, v: string)
    requires IsKey(k)
    ensures IsAssign(Pair(k, v)) && KeyOf(Pair(k, v)) == k && ValueOf(Pair(k, v)) == v
  {
    PairIsAssign(k, v);
    PairEq(k, v);
    SplitAt(Pair(k, v), |k|, k);
  }

  // What is written

  /** Settings to be written: distinct keys that can be read back. */
  ghost predicate Writable(os: seq<(string, string)>) {
    && (forall i :: 0 <= i < |os| ==> IsKey(os[i].0))
    && DistinctKeys(os)
  }

  ghost predicate DistinctKeys(os: seq<(string, string)>) {
    forall i, j :: 0 <= i < j < |os| ==> os[i].0 != os[j].0
  }

  lemma MapsAssoc(a: map<string, string>, b: map<string, string>, c: map<string, string>)
    ensures (a + b) + c == a + (b + c)
  {
  }

  lemma FoldStep(f: Line -> map<string, string>, a: seq<Line>, b: seq<Line>)
    requires a != []
    ensures Fold(f, a + b) == f(a[0]) + Fold(f, a[1..] + b)
  {
    assert (a + b)[1..] == a[1..] + b;
  }

  lemma {:induction false} FoldConcat(f: Line -> map<string, string>, a: seq<Line>, b: seq<Line>)
    ensures Fold(f, a + b) == Fold(f, a) + Fold(f, b)
  {
    if a == [] {
      assert a + b == b;
    } else {
      FoldConcat(f, a[1..], b);
      FoldStep(f, a, b);
      MapsAssoc(f(a[0]), Fold(f, a[1..]), Fold(f, b));
    }
  }

  lemma FoldNext(f: Line -> map<string, string>, lines: seq<Line>, i: nat)
    requires i < |lines|
    ensures Fold(f, lines[..i + 1]) == Fold(f, lines[..i]) + f(lines[i])
  {
    FoldConcat(f, lines[..i], [lines[i]]);
    assert lines[..i + 1] == lines[..i] + [lines[i]];
    assert Fold(f, [lines[i]]) == f(lines[i]) + Fold(f, [lines[i]][1..]);
  }

  /** The given values of the keys of `m`. */
  function Pick(m: map<string, string>, values: map<string, string>): map<string, string> {
    map k | k in m && k in values :: values[k]
  }

  lemma PickConcat(a: map<string, string>, b: map<string, string>, values: map<string, string>)
    ensures Pick(a + b, values) == Pick(a, values) + Pick(b, values)
  {
  }

  lemma PickRest(v: map<string, string>, o: map<string, string>)
    ensures Pick(v, v + o) + (o - v.Keys) == v + o
  {
  }

  lemma MinusConcat(a: map<string, string>, b: map<string, string>, keys: set<string>)
    ensures (a + b) - keys == (a - keys) + (b - keys)
  {
  }

  lemma {:induction false} FoldRewrite(f: Line -> map<string, string>, lines: seq<Line>, values: map<string, string>)
    requires forall l :: l in lines ==> f(l).Keys <= values.Keys
    requires forall l :: l in lines ==> f(Rewritten(l, values)) == Pick(f(l), values)
    ensures Fold(f, lines).Keys <= values.Keys
    ensures Fold(f, Rewrite(lines, values)) == Pick(Fold(f, lines), values)
  {
    if lines != [] {
      FoldRewrite(f, lines[1..], values);
      PickConcat(f(lines[0]), Fold(f, lines[1..]), values);
    }
  }

  lemma {:induction false} FoldKeys(f: Line -> map<string, string>, lines: seq<Line>, l: Line)
    requires l in lines
    ensures f(l).Keys <= Fold(f, lines).Keys
  {
    if l != lines[0] { FoldKeys(f, lines[1..], l); }
  }

  lemma LineAssigns(line: Line)
    requires IsAssign(line)
    ensures LineValues(line) == map[KeyOf(line) := ValueOf(line)]
  {
  }

  lemma PairAssigns(k: string, v: string, line: Line)
    requires IsKey(k) && line == Pair(k, v)
    ensures LineValues(line) == map[k := v]
  {
    PairReadsBack(k, v);
    LineAssigns(line);
  }

  lemma RewrittenPair(l: Line, values: map<string, string>)
    requires IsAssign(l) && KeyOf(l) in values
    ensures Rewritten(l, values) == Pair(KeyOf(l), values[KeyOf(l)]) && IsKey(KeyOf(l))
  {
    KeyOfIsKey(l);
  }

  lemma PickOne(k: string, v: string, values: map<string, string>)
    requires k in values
    ensures Pick(map[k := v], values) == map[k := values[k]]
  {
  }

  lemma RewrittenAssign(l: Line, values: map<string, string>)
    requires IsAssign(l) && KeyOf(l) in values
    ensures LineValues(Rewritten(l, values)) == map[KeyOf(l) := values[KeyOf(l)]]
  {
    RewrittenPair(l, values);
    PairAssigns(KeyOf(l), values[KeyOf(l)], Rewritten(l, values));
  }

  lemma RewrittenValues(l: Line, values: map<string, string>)
    requires LineValues(l).Keys <= values.Keys
    ensures LineValues(Rewritten(l, values)) == Pick(LineValues(l), values)
  {
    if IsAssign(l) {
      LineAssigns(l);
      assert KeyOf(l) in LineValues(l).Keys;
      RewrittenAssign(l, values);
      PickOne(KeyOf(l), ValueOf(l), values);
    } else {
      assert Rewritten(l, values) == l;
    }
  }

  lemma {:induction false} MissingFold(f: Line -> map<string, string>, os: seq<(string, string)>, keys: set<string>)
    requires forall o :: o in os ==> f(Pair(o.0, o.1)) == map[o.0 := o.1]
    ensures Fold(f, Missing(os, keys)) == Overrides(os) - keys
  {
    if os != [] {
      MissingFold(f, os[1..], keys);
      var line := Pair(os[0].0, os[0].1);
      MinusConcat(f(line), Overrides(os[1..]), keys);
      if os[0].0 in keys {
        assert f(line) - keys == map[];
        assert map[] + (Overrides(os[1..]) - keys) == Overrides(os[1..]) - keys;
        assert Missing(os, keys) == [] + Missing(os[1..], keys) == Missing(os[1..], keys);
      } else {
        assert f(line) - keys == f(line);
        assert Missing(os, keys) == [line] + Missing(os[1..], keys);
        assert ([line] + Missing(os[1..], keys))[1..] == Missing(os[1..], keys);
      }
    }
  }

  lemma RewriteAssigns(lines: seq<Line>, values: map<string, string>)
    requires Values(lines).Keys <= values.Keys
    ensures Values(Rewrite(lines, values)) == Pick(Values(lines), values)
  {
    forall l | l in lines
      ensures LineValues(l).Keys <= values.Keys
      ensures LineValues(Rewritten(l, values)) == Pick(LineValues(l), values)
    {
      FoldKeys(LineValues, lines, l);
      RewrittenValues(l, values);
    }
    FoldRewrite(LineValues, lines, values);
  }

  lemma MissingAssigns(os: seq<(string, string)>, keys: set<string>)
    requires Writable(os)
    ensures Values(Missing(os, keys)) == Overrides(os) - keys
  {
    forall o | o in os ensures LineValues(Pair(o.0, o.1)) == map[o.0 := o.1] {
      PairReadsBack(o.0, o.1);
      LineAssigns(Pair(o.0, o.1));
    }
    MissingFold(LineValues, os, keys);
  }

  /** The written lines assign exactly the old values overridden by the settings. */
  lemma OutputValues(lines: seq<Line>, os: seq<(string, string)>)
    requires Writable(os)
    ensures Values(Output(lines, os)) == Merged(lines, os)
  {
    var values := Merged(lines, os);
    RewriteAssigns(lines, values);
    MissingAssigns(os, Values(lines).Keys);
    FoldConcat(LineValues, Rewrite(lines, values), Missing(os, Values(lines).Keys));
    PickRest(Values(lines), Overrides(os));
  }

  // What survives the cut at the end of the text

  /** Cutting the white space behind the last line that is not blank keeps what the line assigns. */
  ghost predicate EndKept(f: Line -> map<string, string>, lines: seq<Line>) {
    lines == [] || (if Trimmed(lines[1..]) != [] then EndKept(f, lines[1..]) else f(RStrip(lines[0])) == f(lines[0]))
  }

  /** The last line that is not blank is no assignment whose value ends in white space. */
  ghost predicate CleanEnd(lines: seq<Line>) { EndKept(LineValues, lines) }

  /** Cutting the end keeps the first character that is no white space. */
  lemma StartOfRStrip(s: string)
    ensures LStrip(RStrip(s)) == "" <==> LStrip(s) == ""
    ensures RStrip(s) == "" ==> LStrip(s) == ""
    ensures LStrip(s) != "" ==> LStrip(RStrip(s))[0] == LStrip(s)[0]
  {
    var n, a := |RStrip(s)|, |s| - |LStrip(s)|;
    LStripSpaces(s);
    if a == |s| {
      assert n == 0;
    } else {
      assert !IsSpace(s[a]);
      RStripKeeps(s, a);
      LStripUnique(RStrip(s), a);
    }
  }

  lemma FirstEqUnique(s: string, i: nat)
    requires i < |s| && s[i] == '=' && forall k :: 0 <= k < i ==> s[k] != '='
    ensures FirstEq(s) == i
  {
  }

  lemma CutBehind(s: string, i: nat)
    requires i <= |RStrip(s)|
    ensures RStrip(s[i..]) == RStrip(s)[i..]
  {
    RStripUnique(s[i..], |RStrip(s)| - i);
    assert s[i..][..|RStrip(s)| - i] == s[..|RStrip(s)|][i..];
  }

  lemma TrimmedEq(line: Line)
    requires '=' in line
    ensures var i, t := FirstEq(line), RStrip(line);
            |t| > i && '=' in t && FirstEq(t) == i && t[..i] == line[..i] && t[i + 1..] == RStrip(line[i + 1..])
  {
    var i := FirstEq(line);
    RStripKeeps(line, i);
    EqOfPrefix(line, RStrip(line), i);
    CutBehind(line, i + 1);
  }

  lemma EqOfPrefix(line: Line, t: Line, i: nat)
    requires '=' in line && i == FirstEq(line) < |t| <= |line| && t == line[..|t|]
    ensures '=' in t && FirstEq(t) == i && t[..i] == line[..i]
  {
    assert t[i] == line[i];
    FirstEqUnique(t, i);
  }

  lemma TrimmedIsAssign(line: Line)
    ensures IsAssign(RStrip(line)) <==> IsAssign(line)
  {
    StartOfRStrip(line);
    if '=' in line {
      TrimmedEq(line);
    } else {
      assert forall c :: c in RStrip(line) ==> c in line;
    }
  }

  lemma PartsAt(line: Line, i: nat, key: string)
    requires IsAssign(line) && FirstEq(line) == i && Strip(line[..i]) == key
    ensures KeyOf(line) == key && ValueOf(line) == line[i + 1..]
  {
  }

  lemma SameParts(line: Line, cut: Line, i: nat)
    requires IsAssign(line) && IsAssign(cut) && FirstEq(line) == FirstEq(cut) == i && cut[..i] == line[..i]
    requires cut[i + 1..] == RStrip(line[i + 1..])
    ensures KeyOf(cut) == KeyOf(line) && ValueOf(cut) == RStrip(ValueOf(line))
  {
    var key := Strip(line[..i]);
    PartsAt(line, i, key);
    PartsAt(cut, i, key);
  }

  /** Cutting a line keeps its key and cuts its value. */
  lemma TrimmedAssign(line: Line)
    ensures IsAssign(RStrip(line)) <==> IsAssign(line)
    ensures IsAssign(line) ==> KeyOf(RStrip(line)) == KeyOf(line) && ValueOf(RStrip(line)) == RStrip(ValueOf(line))
  {
    TrimmedIsAssign(line);
    if IsAssign(line) {
      TrimmedEq(line);
      SameParts(line, RStrip(line), FirstEq(line));
    }
  }

  lemma Singles(k: string, v: string, w: string)
    ensures map[k := v].Keys == map[k := w].Keys && (map[k := v] == map[k := w] <==> v == w)
  {
    assert map[k := v][k] == v && map[k := w][k] == w;
  }

  lemma TrimmedAssignLine(line: Line)
    requires IsAssign(line)
    ensures LineValues(RStrip(line)) == map[KeyOf(line) := RStrip(ValueOf(line))] && RStrip(line) != ""
  {
    TrimmedAssign(line);
    StartOfRStrip(line);
  }

  lemma TrimmedLine(line: Line)
    ensures LineValues(RStrip(line)).Keys == LineValues(line).Keys
    ensures RStrip(line) == "" ==> LineValues(line) == map[]
    ensures LineValues(RStrip(line)) == LineValues(line) <==> (IsAssign(line) ==> RStrip(ValueOf(line)) == ValueOf(line))
  {
    if IsAssign(line) {
      TrimmedAssignLine(line);
      Singles(KeyOf(line), RStrip(ValueOf(line)), ValueOf(line));
    } else {
      TrimmedAssign(line);
    }
  }

  lemma SameTail(m: map<string, string>, a: map<string, string>, b: map<string, string>)
    requires a.Keys == b.Keys
    ensures m + a == m + b <==> a == b
  {
    if m + a == m + b {
      forall k | k in a ensures a[k] == b[k] { assert (m + a)[k] == (m + b)[k]; }
    }
  }

  /** Cutting the end changes what the lines assign exactly when it changes what the last line assigns. */
  lemma {:induction false} TrimmedFold(f: Line -> map<string, string>, lines: seq<Line>)
    requires forall l :: f(RStrip(l)).Keys == f(l).Keys && (RStrip(l) == "" ==> f(l) == map[])
    ensures Fold(f, Trimmed(lines)).Keys == Fold(f, lines).Keys
    ensures Fold(f, Trimmed(lines)) == Fold(f, lines) <==> EndKept(f, lines)
    ensures Trimmed(lines) == [] ==> Fold(f, lines) == map[]
  {
    if lines != [] {
      var l, rest := lines[0], lines[1..];
      TrimmedFold(f, rest);
      if Trimmed(rest) != [] {
        assert ([l] + Trimmed(rest))[1..] == Trimmed(rest);
        SameTail(f(l), Fold(f, Trimmed(rest)), Fold(f, rest));
      } else {
        assert Fold(f, [RStrip(l)]) == f(RStrip(l)) + map[];
        assert f(RStrip(l)).Keys == f(l).Keys;
      }
    }
  }

  // Main results

  /** Lines and settings without line breaks. */
  ghost predicate Readable(lines: seq<Line>, os: seq<(string, string)>) {
    NoBreaks(lines) && Writable(os) && forall o :: o in os ==> NoBreak(o.0) && NoBreak(o.1)
  }

  lemma {:induction false} OverridesFrom(os: seq<(string, string)>, k: string)
    requires k in Overrides(os)
    ensures (k, Overrides(os)[k]) in os
  {
    if k in Overrides(os[1..]) { OverridesFrom(os[1..], k); }
  }

  lemma {:induction false} FoldFrom(f: Line -> map<string, string>, lines: seq<Line>, k: string) returns (l: Line)
    requires k in Fold(f, lines)
    ensures l in lines && k in f(l) && f(l)[k] == Fold(f, lines)[k]
  {
    if k in Fold(f, lines[1..]) {
      l := FoldFrom(f, lines[1..], k);
    } else {
      l := lines[0];
    }
  }

  lemma MergedNoBreaks(lines: seq<Line>, os: seq<(string, string)>, k: string)
    requires Readable(lines, os) && k in Merged(lines, os)
    ensures NoBreak(Merged(lines, os)[k])
  {
    if k in Overrides(os) {
      OverridesFrom(os, k);
    } else {
      var l := FoldFrom(LineValues, lines, k);
      assert forall c :: c in ValueOf(l) ==> c in l;
    }
  }

  lemma PairNoBreak(k: string, v: string)
    requires NoBreak(k) && NoBreak(v)
    ensures NoBreak(Pair(k, v))
  {
  }

  lemma KeyNoBreak(l: Line)
    requires IsAssign(l) && NoBreak(l)
    ensures NoBreak(KeyOf(l))
  {
    var head := l[..FirstEq(l)];
    assert forall c :: c in KeyOf(l) ==> c in LStrip(head);
    assert forall c :: c in LStrip(head) ==> c in head;
    assert forall c :: c in head ==> c in l;
  }

  lemma {:induction false} RewriteNoBreaks(lines: seq<Line>, values: map<string, string>)
    requires NoBreaks(lines) && forall k :: k in values ==> NoBreak(values[k])
    ensures NoBreaks(Rewrite(lines, values))
  {
    if lines != [] {
      var l := lines[0];
      assert forall x :: x in lines[1..] ==> x in lines;
      RewriteNoBreaks(lines[1..], values);
      if IsAssign(l) && KeyOf(l) in values {
        KeyNoBreak(l);
        PairNoBreak(KeyOf(l), values[KeyOf(l)]);
      }
    }
  }

  lemma {:induction false} MissingNoBreaks(os: seq<(string, string)>, keys: set<string>)
    requires forall o :: o in os ==> NoBreak(o.0) && NoBreak(o.1)
    ensures NoBreaks(Missing(os, keys))
  {
    if os != [] {
      MissingNoBreaks(os[1..], keys);
      PairNoBreak(os[0].0, os[0].1);
    }
  }

  lemma OutputNoBreaks(lines: seq<Line>, os: seq<(string, string)>)
    requires Readable(lines, os)
    ensures NoBreaks(Output(lines, os))
  {
    var values := Merged(lines, os);
    forall k | k in values ensures NoBreak(values[k]) { MergedNoBreaks(lines, os, k); }
    RewriteNoBreaks(lines, values);
    MissingNoBreaks(os, Values(lines).Keys);
  }

  lemma TrimmedIsClean(lines: seq<Line>)
    ensures Values(Trimmed(lines)) == Values(lines) <==> CleanEnd(lines)
  {
    forall l ensures LineValues(RStrip(l)).Keys == LineValues(l).Keys && (RStrip(l) == "" ==> LineValues(l) == map[]) {
      TrimmedLine(l);
    }
    TrimmedFold(LineValues, lines);
  }

  lemma EmptyLineAssignsNothing()
    ensures Values([""]) == map[]
  {
    assert LineValues("") == map[] && Fold(LineValues, [""][1..]) == map[];
    assert Fold(LineValues, [""]) == LineValues("") + Fold(LineValues, [""][1..]);
  }

  /** Reading the written file back gives the old values overridden by the settings, exactly when the last written
      line is no assignment whose value ends in white space; that white space is cut off. */
  lemma ReadsBack(lines: seq<Line>, os: seq<(string, string)>)
    requires Readable(lines, os)
    ensures Values(Lines(Text(Output(lines, os)))) == Merged(lines, os) <==> CleanEnd(Output(lines, os))
  {
    var out := Output(lines, os);
    OutputNoBreaks(lines, os);
    LinesOfText(out);
    OutputValues(lines, os);
    TrimmedIsClean(out);
    EmptyLineAssignsNothing();
  }

  lemma {:induction false} CleanLines(f: Line -> map<string, string>, lines: seq<Line>)
    requires forall l :: l in lines ==> f(RStrip(l)) == f(l)
    ensures EndKept(f, lines)
  {
    if lines != [] {
      CleanLines(f, lines[1..]);
    }
  }

  /** In particular it does when no old value and no setting ends in white space. */
  lemma ReadsBackWhenTrimmed(lines: seq<Line>, os: seq<(string, string)>)
    requires Readable(lines, os)
    requires forall l :: l in Output(lines, os) && IsAssign(l) ==> RStrip(ValueOf(l)) == ValueOf(l)
    ensures Values(Lines(Text(Output(lines, os)))) == Merged(lines, os)
  {
    forall l | l in Output(lines, os) ensures LineValues(RStrip(l)) == LineValues(l) { TrimmedLine(l); }
    CleanLines(LineValues, Output(lines, os));
    ReadsBack(lines, os);
  }

  lemma {:induction false} LinesHaveNoBreak(text: string)
    ensures NoBreaks(Lines(text))
    decreases |text|
  {
    if text != "" {
      var i := FirstBreak(text);
      if i < |text| {
        LinesHaveNoBreak(text[i + 1..]);
        if i + 1 < |text| { LinesHaveNoBreak(text[i + 2..]); }
      }
    }
  }

  /** No key and no value of lines holds a line break. */
  lemma AssignedHaveNoBreak(lines: seq<Line>, k: string)
    requires NoBreaks(lines) && k in Values(lines)
    ensures NoBreak(k) && NoBreak(Values(lines)[k])
  {
    var l := FoldFrom(LineValues, lines, k);
    StrippedChars(l[..FirstEq(l)]);
    assert forall c :: c in KeyOf(l) ==> c in l;
    assert forall c :: c in ValueOf(l) ==> c in l;
  }

  /** For all settings: what was written reads back exactly when no setting holds a line break and the last written
      line is no assignment whose value ends in white space. */
  lemma ReadsBackExactly(lines: seq<Line>, os: seq<(string, string)>)
    requires NoBreaks(lines) && Writable(os)
    ensures Values(Lines(Text(Output(lines, os)))) == Merged(lines, os)
            <==> (forall o :: o in os ==> NoBreak(o.0) && NoBreak(o.1)) && CleanEnd(Output(lines, os))
  {
    if forall o :: o in os ==> NoBreak(o.0) && NoBreak(o.1) {
      ReadsBack(lines, os);
    } else {
      var o :| o in os && !(NoBreak(o.0) && NoBreak(o.1));
      var back := Lines(Text(Output(lines, os)));
      OverridesOf(os, o);
      LinesHaveNoBreak(Text(Output(lines, os)));
      if o.0 in Values(back) { AssignedHaveNoBreak(back, o.0); }
    }
  }

  // Comments

  predicate IsComment(line: Line) { RStrip(line) != "" && !IsAssign(line) }

  /** A line that is neither blank nor an assignment, without the white space behind it. */
  function CommentOf(line: Line): seq<Line> {
    if IsComment(line) then [RStrip(line)] else []
  }

  function Gather(f: Line -> seq<Line>, lines: seq<Line>): seq<Line> {
    if lines == [] then [] else f(lines[0]) + Gather(f, lines[1..])
  }

  function Comments(lines: seq<Line>): seq<Line> { Gather(CommentOf, lines) }

  lemma LinesAssoc(a: seq<Line>, b: seq<Line>, c: seq<Line>)
    ensures (a + b) + c == a + (b + c)
  {
  }

  lemma GatherStep(f: Line -> seq<Line>, a: seq<Line>, b: seq<Line>)
    requires a != []
    ensures Gather(f, a + b) == f(a[0]) + Gather(f, a[1..] + b)
  {
    assert (a + b)[1..] == a[1..] + b;
  }

  lemma {:induction false} GatherConcat(f: Line -> seq<Line>, a: seq<Line>, b: seq<Line>)
    ensures Gather(f, a + b) == Gather(f, a) + Gather(f, b)
  {
    if a == [] {
      assert a + b == b;
    } else {
      GatherConcat(f, a[1..], b);
      GatherStep(f, a, b);
      LinesAssoc(f(a[0]), Gather(f, a[1..]), Gather(f, b));
    }
  }

  lemma {:induction false} GatherNone(f: Line -> seq<Line>, lines: seq<Line>)
    requires forall l :: l in lines ==> f(l) == []
    ensures Gather(f, lines) == []
  {
    if lines != [] { GatherNone(f, lines[1..]); }
  }

  lemma {:induction false} GatherRewritten(f: Line -> seq<Line>, lines: seq<Line>, values: map<string, string>)
    requires forall l :: f(Rewritten(l, values)) == f(l)
    ensures Gather(f, Rewrite(lines, values)) == Gather(f, lines)
  {
    if lines != [] { GatherRewritten(f, lines[1..], values); }
  }

  lemma {:induction false} GatherTrimmed(f: Line -> seq<Line>, lines: seq<Line>)
    requires forall l :: f(RStrip(l)) == f(l) && (RStrip(l) == "" ==> f(l) == [])
    ensures Gather(f, Trimmed(lines)) == Gather(f, lines)
    ensures Trimmed(lines) == [] ==> Gather(f, lines) == []
  {
    if lines != [] {
      var l, rest := lines[0], lines[1..];
      GatherTrimmed(f, rest);
      if Trimmed(rest) != [] {
        assert ([l] + Trimmed(rest))[1..] == Trimmed(rest);
      } else {
        assert Gather(f, [RStrip(l)]) == f(RStrip(l)) + [];
        assert f(RStrip(l)) == f(l);
      }
    }
  }

  lemma RewrittenComment(l: Line, values: map<string, string>)
    ensures CommentOf(Rewritten(l, values)) == CommentOf(l)
  {
    if IsAssign(l) && KeyOf(l) in values {
      RewrittenPair(l, values);
      PairIsAssign(KeyOf(l), values[KeyOf(l)]);
    }
  }

  lemma TrimmedComment(l: Line)
    ensures CommentOf(RStrip(l)) == CommentOf(l)
  {
    RStripUnique(RStrip(l), |RStrip(l)|);
    TrimmedAssign(l);
  }

  lemma {:induction false} MissingIsPairs(os: seq<(string, string)>, keys: set<string>, l: Line) returns (o: (string, string))
    requires l in Missing(os, keys)
    ensures o in os && l == Pair(o.0, o.1)
  {
    if os[0].0 !in keys && l == Pair(os[0].0, os[0].1) {
      o := os[0];
    } else {
      o := MissingIsPairs(os[1..], keys, l);
    }
  }

  lemma NoPairIsComment(os: seq<(string, string)>, keys: set<string>)
    requires Writable(os)
    ensures Comments(Missing(os, keys)) == []
  {
    forall l | l in Missing(os, keys) ensures CommentOf(l) == [] {
      var o := MissingIsPairs(os, keys, l);
      PairIsAssign(o.0, o.1);
    }
    GatherNone(CommentOf, Missing(os, keys));
  }

  lemma OutputComments(lines: seq<Line>, os: seq<(string, string)>)
    requires Writable(os)
    ensures Comments(Output(lines, os)) == Comments(lines)
  {
    var values := Merged(lines, os);
    forall l ensures CommentOf(Rewritten(l, values)) == CommentOf(l) { RewrittenComment(l, values); }
    GatherRewritten(CommentOf, lines, values);
    NoPairIsComment(os, Values(lines).Keys);
    GatherConcat(CommentOf, Rewrite(lines, values), Missing(os, Values(lines).Keys));
  }

  /** Comment lines all survive, in order. */
  lemma CommentsSurvive(lines: seq<Line>, os: seq<(string, string)>)
    requires Readable(lines, os)
    ensures Comments(Lines(Text(Output(lines, os)))) == Comments(lines)
  {
    var out := Output(lines, os);
    OutputNoBreaks(lines, os);
    LinesOfText(out);
    OutputComments(lines, os);
    forall l ensures CommentOf(RStrip(l)) == CommentOf(l) && (RStrip(l) == "" ==> CommentOf(l) == []) { TrimmedComment(l); }
    GatherTrimmed(CommentOf, out);
    assert CommentOf("") == [];
    GatherNone(CommentOf, [""]);
  }

  // Writing twice

  /** Every assignment is written the way the merge writes it. */
  ghost predicate Settled(lines: seq<Line>, values: map<string, string>) {
    forall l :: l in lines ==> Rewritten(l, values) == l
  }

  lemma {:induction false} SettledStays(lines: seq<Line>, values: map<string, string>)
    requires Settled(lines, values)
    ensures Rewrite(lines, values) == lines
  {
    if lines != [] {
      assert forall l :: l in lines[1..] ==> l in lines;
      SettledStays(lines[1..], values);
    }
  }

  lemma RewrittenTwice(l: Line, values: map<string, string>)
    ensures Rewritten(Rewritten(l, values), values) == Rewritten(l, values)
  {
    if IsAssign(l) && KeyOf(l) in values {
      RewrittenPair(l, values);
      PairReadsBack(KeyOf(l), values[KeyOf(l)]);
    }
  }

  lemma {:induction false} RewriteSettles(lines: seq<Line>, values: map<string, string>)
    ensures Settled(Rewrite(lines, values), values)
  {
    if lines != [] {
      RewriteSettles(lines[1..], values);
      RewrittenTwice(lines[0], values);
    }
  }

  lemma SettledTrimmed(lines: seq<Line>, values: map<string, string>)
    requires Settled(lines, values) && CleanEnd(lines)
    ensures Settled(Trimmed(lines), values)
  {
    forall l | l in Trimmed(lines) ensures Rewritten(l, values) == l {
      TrimmedMember(lines, l);
      if l !in lines {
        var x :| x in lines && l == RStrip(x) && LineValues(l) == LineValues(x);
        SettledCut(x, values);
      }
    }
  }

  /** Under a clean end a trimmed line is one of the lines or the cut of one, assigning the same. */
  lemma {:induction false} TrimmedMember(lines: seq<Line>, l: Line)
    requires l in Trimmed(lines) && CleanEnd(lines)
    ensures l in lines || exists x :: x in lines && l == RStrip(x) && LineValues(l) == LineValues(x)
  {
    var rest := lines[1..];
    if Trimmed(rest) != [] && l != lines[0] {
      TrimmedMember(rest, l);
    } else if Trimmed(rest) == [] {
      assert lines[0] in lines;
    }
  }

  lemma SettledCut(x: Line, values: map<string, string>)
    requires Rewritten(x, values) == x && LineValues(RStrip(x)) == LineValues(x)
    ensures Rewritten(RStrip(x), values) == RStrip(x)
  {
    TrimmedAssign(x);
    TrimmedLine(x);
    if IsAssign(x) && KeyOf(x) in values {
      RewrittenPair(x, values);
      PairReadsBack(KeyOf(x), values[KeyOf(x)]);
      PairCut(KeyOf(x), values[KeyOf(x)]);
    }
  }

  lemma PairCut(k: string, v: string)
    requires RStrip(v) == v
    ensures RStrip(Pair(k, v)) == Pair(k, v)
  {
    RStripUnique(Pair(k, v), |Pair(k, v)|);
  }

  lemma {:induction false} MissingSettled(os: seq<(string, string)>, keys: set<string>, values: map<string, string>)
    requires Writable(os) && forall o :: o in os ==> o.0 in values && values[o.0] == o.1
    ensures Settled(Missing(os, keys), values)
  {
    forall l | l in Missing(os, keys) ensures Rewritten(l, values) == l {
      var o := MissingIsPairs(os, keys, l);
      PairReadsBack(o.0, o.1);
    }
  }

  lemma {:induction false} OverridesOf(os: seq<(string, string)>, o: (string, string))
    requires DistinctKeys(os) && o in os
    ensures o.0 in Overrides(os) && Overrides(os)[o.0] == o.1
  {
    var rest := os[1..];
    if o == os[0] {
      assert forall i :: 0 <= i < |rest| ==> rest[i] == os[i + 1];
      if o.0 in Overrides(rest) {
        OverridesFrom(rest, o.0);
      }
    } else {
      assert DistinctKeys(rest) by { assert forall i :: 0 <= i < |rest| ==> rest[i] == os[i + 1]; }
      OverridesOf(rest, o);
    }
  }

  lemma OutputSettled(lines: seq<Line>, os: seq<(string, string)>)
    requires Writable(os)
    ensures Settled(Output(lines, os), Merged(lines, os))
  {
    var values := Merged(lines, os);
    RewriteSettles(lines, values);
    forall o | o in os ensures o.0 in values && values[o.0] == o.1 { OverridesOf(os, o); }
    MissingSettled(os, Values(lines).Keys, values);
  }

  lemma {:induction false} NothingMissing(os: seq<(string, string)>, keys: set<string>)
    requires forall o :: o in os ==> o.0 in keys
    ensures Missing(os, keys) == []
  {
    if os != [] { NothingMissing(os[1..], keys); }
  }

  /** Lines that are settled under their own merge are left as they are. */
  lemma FixedPoint(lines: seq<Line>, os: seq<(string, string)>)
    requires Settled(lines, Merged(lines, os)) && Overrides(os).Keys <= Values(lines).Keys && DistinctKeys(os)
    ensures Output(lines, os) == lines
  {
    forall o | o in os ensures o.0 in Values(lines).Keys { OverridesOf(os, o); }
    NothingMissing(os, Values(lines).Keys);
    SettledStays(lines, Merged(lines, os));
  }

  lemma MergedTwice(v: map<string, string>, o: map<string, string>)
    ensures (v + o) + o == v + o && o.Keys <= (v + o).Keys
  {
  }

  /** The file as read back is a fixed point of the merge. */
  lemma ReadBackIsFixed(lines: seq<Line>, os: seq<(string, string)>)
    requires Readable(lines, os) && CleanEnd(Output(lines, os))
    ensures var again := Lines(Text(Output(lines, os)));
            (Output(again, os) == again)
  {
    var out, again := Output(lines, os), Lines(Text(Output(lines, os)));
    ReadsBack(lines, os);
    MergedTwice(Values(lines), Overrides(os));
    assert Merged(again, os) == Merged(lines, os);
    OutputNoBreaks(lines, os);
    LinesOfText(out);
    OutputSettled(lines, os);
    SettledTrimmed(out, Merged(lines, os));
    assert Rewritten("", Merged(lines, os)) == "";
    FixedPoint(again, os);
  }

  lemma TextTwice(lines: seq<Line>)
    ensures Text(if Trimmed(lines) == [] then [""] else Trimmed(lines)) == Text(lines)
  {
    JoinTrimmed(lines);
    RStripUnique(RStrip(Join(lines)), |RStrip(Join(lines))|);
  }

  /** Writing the same settings again changes nothing when the last written line is clean. */
  lemma CleanIsWrittenAgain(lines: seq<Line>, os: seq<(string, string)>)
    requires Readable(lines, os) && CleanEnd(Output(lines, os))
    ensures var text := Text(Output(lines, os));
            (Text(Output(Lines(text), os)) == text)
  {
    ReadBackIsFixed(lines, os);
    OutputNoBreaks(lines, os);
    LinesOfText(Output(lines, os));
    TextTwice(Output(lines, os));
  }

  // Exactly when writing twice is writing once

  /** Where the last line stands that is not blank. */
  function LastAt(lines: seq<Line>): (n: nat)
    requires Trimmed(lines) != []
    ensures n < |lines|
  {
    if Trimmed(lines[1..]) != [] then 1 + LastAt(lines[1..]) else 0
  }

  lemma Consed(lines: seq<Line>, n: nat)
    requires 1 <= n < |lines|
    ensures lines[..n] == [lines[0]] + lines[1..][..n - 1] && lines[n + 1..] == lines[1..][n..]
  {
  }

  lemma {:induction false} TrimmedAt(lines: seq<Line>)
    requires Trimmed(lines) != []
    ensures Trimmed(lines) == lines[..LastAt(lines)] + [RStrip(lines[LastAt(lines)])]
    ensures RStrip(lines[LastAt(lines)]) != "" && Trimmed(lines[LastAt(lines) + 1..]) == []
  {
    if Trimmed(lines[1..]) != [] {
      TrimmedAt(lines[1..]);
      Consed(lines, LastAt(lines));
      LinesAssoc([lines[0]], lines[1..][..LastAt(lines[1..])], [RStrip(lines[LastAt(lines)])]);
    }
  }

  lemma {:induction false} KeptAt(f: Line -> map<string, string>, lines: seq<Line>)
    requires Trimmed(lines) != []
    ensures EndKept(f, lines) <==> f(RStrip(lines[LastAt(lines)])) == f(lines[LastAt(lines)])
  {
    if Trimmed(lines[1..]) != [] { KeptAt(f, lines[1..]); }
  }

  lemma {:induction false} BlankIsKept(f: Line -> map<string, string>, lines: seq<Line>)
    requires Trimmed(lines) == [] && forall l :: f(RStrip(l)).Keys == f(l).Keys && (RStrip(l) == "" ==> f(l) == map[])
    ensures EndKept(f, lines)
  {
  }

  lemma {:induction false} TrimmedOfEnd(lines: seq<Line>, last: Line)
    requires RStrip(last) != ""
    ensures Trimmed(lines + [last]) == lines + [RStrip(last)]
  {
    if lines == [] {
      assert [last][1..] == [] && [] + [last] == [last];
    } else {
      TrimmedOfEnd(lines[1..], last);
      assert (lines + [last])[1..] == lines[1..] + [last];
    }
  }

  lemma TextOfTrimmed(a: seq<Line>, b: seq<Line>)
    requires Trimmed(a) == Trimmed(b)
    ensures Text(a) == Text(b)
  {
    JoinTrimmed(a);
    JoinTrimmed(b);
  }

  lemma RewriteStep(a: seq<Line>, b: seq<Line>, values: map<string, string>)
    requires a != []
    ensures Rewrite(a + b, values) == [Rewritten(a[0], values)] + Rewrite(a[1..] + b, values)
  {
    assert (a + b)[1..] == a[1..] + b;
  }

  lemma {:induction false} RewriteConcat(a: seq<Line>, b: seq<Line>, values: map<string, string>)
    ensures Rewrite(a + b, values) == Rewrite(a, values) + Rewrite(b, values)
  {
    if a == [] {
      assert a + b == b;
    } else {
      RewriteConcat(a[1..], b, values);
      RewriteStep(a, b, values);
      LinesAssoc([Rewritten(a[0], values)], Rewrite(a[1..], values), Rewrite(b, values));
    }
  }

  lemma {:induction false} RewriteAt(lines: seq<Line>, values: map<string, string>, i: nat)
    requires i < |lines|
    ensures Rewrite(lines, values)[i] == Rewritten(lines[i], values)
  {
    if i > 0 {
      var rest := lines[1..];
      RewriteAt(rest, values, i - 1);
      assert rest[i - 1] == lines[i] && Rewrite(lines, values)[i] == Rewrite(rest, values)[i - 1];
    }
  }

  /** The line assigns a value that ends in white space. */
  predicate EndsInSpace(line: Line) { IsAssign(line) && RStrip(ValueOf(line)) != ValueOf(line) }

  ghost predicate AssignedIn(lines: seq<Line>, key: string) {
    exists i :: 0 <= i < |lines| && IsAssign(lines[i]) && KeyOf(lines[i]) == key
  }

  /** The last written line loses white space of a value that no setting gives again, and that an earlier line still
      carries. */
  ghost predicate LosesSpace(out: seq<Line>, os: seq<(string, string)>) {
    && Trimmed(out) != []
    && var x := out[LastAt(out)];
       EndsInSpace(x) && KeyOf(x) !in Overrides(os) && AssignedIn(out[..LastAt(out)], KeyOf(x))
  }

  lemma CutLines()
    ensures forall l :: LineValues(RStrip(l)).Keys == LineValues(l).Keys && (RStrip(l) == "" ==> LineValues(l) == map[])
  {
    forall l ensures LineValues(RStrip(l)).Keys == LineValues(l).Keys && (RStrip(l) == "" ==> LineValues(l) == map[]) {
      TrimmedLine(l);
    }
  }

  lemma UncleanEnd(out: seq<Line>)
    requires !CleanEnd(out)
    ensures Trimmed(out) != [] && EndsInSpace(out[LastAt(out)])
  {
    CutLines();
    if Trimmed(out) == [] { BlankIsKept(LineValues, out); }
    KeptAt(LineValues, out);
    TrimmedLine(out[LastAt(out)]);
  }

  lemma CleanEndIsKept(out: seq<Line>)
    requires CleanEnd(out) && Trimmed(out) != []
    ensures !EndsInSpace(out[LastAt(out)])
  {
    KeptAt(LineValues, out);
    TrimmedLine(out[LastAt(out)]);
  }

  lemma FoldEnd(f: Line -> map<string, string>, lines: seq<Line>, last: Line)
    ensures Fold(f, lines + [last]) == Fold(f, lines) + f(last)
  {
    FoldConcat(f, lines, [last]);
    assert [last][1..] == [] && Fold(f, [last]) == f(last) + Fold(f, [last][1..]);
  }

  lemma FoldAround(f: Line -> map<string, string>, a: seq<Line>, x: Line, b: seq<Line>)
    requires Fold(f, b) == map[]
    ensures Fold(f, (a + [x]) + b) == Fold(f, a) + f(x)
  {
    FoldEnd(f, a, x);
    FoldConcat(f, a + [x], b);
  }

  lemma AroundAt(lines: seq<Line>, n: nat)
    requires n < |lines|
    ensures lines == (lines[..n] + [lines[n]]) + lines[n + 1..]
  {
  }

  /** Only blank lines follow the last one that is not blank. */
  lemma FoldToLast(f: Line -> map<string, string>, lines: seq<Line>)
    requires Trimmed(lines) != []
    requires forall l :: f(RStrip(l)).Keys == f(l).Keys && (RStrip(l) == "" ==> f(l) == map[])
    ensures Fold(f, lines) == Fold(f, lines[..LastAt(lines)]) + f(lines[LastAt(lines)])
  {
    var n := LastAt(lines);
    TrimmedAt(lines);
    TrimmedFold(f, lines[n + 1..]);
    AroundAt(lines, n);
    FoldAround(f, lines[..n], lines[n], lines[n + 1..]);
  }

  lemma LastWins(head: map<string, string>, k: string, w: string, c: string)
    ensures (head + map[k := w])[k] == w && head + map[k := c] == (head + map[k := w])[k := c]
  {
  }

  /** A last line whose value ends in white space: what the lines assign, whole and cut. */
  lemma CutValues(out: seq<Line>)
    requires Trimmed(out) != [] && EndsInSpace(out[LastAt(out)])
    ensures var x := out[LastAt(out)];
            && KeyOf(x) in Values(out) && Values(out)[KeyOf(x)] == ValueOf(x)
            && Values(Trimmed(out)) == Values(out)[KeyOf(x) := RStrip(ValueOf(x))]
  {
    var x, head := out[LastAt(out)], out[..LastAt(out)];
    TrimmedAt(out);
    CutLines();
    FoldToLast(LineValues, out);
    LineAssigns(x);
    TrimmedAssignLine(x);
    FoldEnd(LineValues, head, RStrip(x));
    LastWins(Values(head), KeyOf(x), ValueOf(x), RStrip(ValueOf(x)));
  }

  // What the second run writes

  lemma SettledPair(l: Line, values: map<string, string>)
    requires IsAssign(l) && KeyOf(l) in values && Rewritten(l, values) == l
    ensures l == Pair(KeyOf(l), values[KeyOf(l)]) && ValueOf(l) == values[KeyOf(l)]
  {
    KeyOfIsKey(l);
    PairReadsBack(KeyOf(l), values[KeyOf(l)]);
  }

  lemma RewrittenOfPair(k: string, w: string, values: map<string, string>)
    requires IsKey(k) && k in values
    ensures Rewritten(Pair(k, w), values) == Pair(k, values[k])
  {
    PairReadsBack(k, w);
  }

  lemma PairTellsValue(k: string, v: string, w: string)
    requires Pair(k, v) == Pair(k, w)
    ensures v == w
  {
    assert Pair(k, v)[|k| + 1..] == v && Pair(k, w)[|k| + 1..] == w;
  }

  lemma OtherLineStays(l: Line, values: map<string, string>, k: string, c: string)
    requires Rewritten(l, values) == l && k in values && !(IsAssign(l) && KeyOf(l) == k)
    ensures Rewritten(l, values[k := c]) == l
  {
  }

  lemma PairChanges(k: string, w: string, values: map<string, string>, c: string)
    requires IsKey(k) && c != w
    ensures Rewritten(Pair(k, w), values[k := c]) != Pair(k, w)
  {
    RewrittenOfPair(k, w, values[k := c]);
    if Pair(k, c) == Pair(k, w) { PairTellsValue(k, c, w); }
  }

  lemma OwnLineChanges(l: Line, values: map<string, string>, k: string, c: string)
    requires Rewritten(l, values) == l && k in values && IsAssign(l) && KeyOf(l) == k && c != values[k]
    ensures Rewritten(l, values[k := c]) != l
  {
    RewrittenPair(l, values);
    PairChanges(k, values[k], values, c);
  }

  /** Changing the value of one key rewrites exactly the lines that assign it. */
  lemma RewrittenAnew(l: Line, values: map<string, string>, k: string, c: string)
    requires Rewritten(l, values) == l && k in values && c != values[k]
    ensures Rewritten(l, values[k := c]) == l <==> !(IsAssign(l) && KeyOf(l) == k)
  {
    if IsAssign(l) && KeyOf(l) == k {
      OwnLineChanges(l, values, k, c);
    } else {
      OtherLineStays(l, values, k, c);
    }
  }

  lemma {:induction false} RewriteAnew(lines: seq<Line>, values: map<string, string>, k: string, c: string)
    requires Settled(lines, values) && k in values && c != values[k]
    ensures Rewrite(lines, values[k := c]) == lines <==> !AssignedIn(lines, k)
  {
    forall i | 0 <= i < |lines|
      ensures Rewrite(lines, values[k := c])[i] == lines[i] <==> !(IsAssign(lines[i]) && KeyOf(lines[i]) == k)
    {
      RewriteAt(lines, values[k := c], i);
      assert lines[i] in lines;
      RewrittenAnew(lines[i], values, k, c);
    }
  }

  lemma AgainKnowsAll(v: map<string, string>, o: map<string, string>, k: string, c: string)
    requires forall x :: x in o ==> x in v && v[x] == o[x]
    requires k in v
    ensures v[k := c] + o == if k in o then v else v[k := c]
    ensures o.Keys <= v[k := c].Keys
  {
  }

  lemma OverridesAgree(lines: seq<Line>, os: seq<(string, string)>)
    ensures forall x :: x in Overrides(os) ==> x in Merged(lines, os) && Merged(lines, os)[x] == Overrides(os)[x]
  {
  }

  lemma SecondMerge(lines: seq<Line>, os: seq<(string, string)>, out: seq<Line>, k: string, c: string)
    requires Writable(os) && out == Output(lines, os) && Trimmed(out) != [] && EndsInSpace(out[LastAt(out)])
    requires k == KeyOf(out[LastAt(out)]) && c == RStrip(ValueOf(out[LastAt(out)]))
    ensures var v := Merged(lines, os);
            && k in v && v[k] == ValueOf(out[LastAt(out)])
            && Merged(Trimmed(out), os) == (if k in Overrides(os) then v else v[k := c])
            && Overrides(os).Keys <= Values(Trimmed(out)).Keys
  {
    OutputValues(lines, os);
    CutValues(out);
    OverridesAgree(lines, os);
    AgainKnowsAll(Merged(lines, os), Overrides(os), k, c);
  }

  lemma NoneMissing(lines: seq<Line>, os: seq<(string, string)>)
    requires Overrides(os).Keys <= Values(lines).Keys && DistinctKeys(os)
    ensures Output(lines, os) == Rewrite(lines, Merged(lines, os))
  {
    forall o | o in os ensures o.0 in Values(lines).Keys { OverridesOf(os, o); }
    NothingMissing(os, Values(lines).Keys);
  }

  lemma RewriteEnd(lines: seq<Line>, last: Line, values: map<string, string>)
    ensures Rewrite(lines + [last], values) == Rewrite(lines, values) + [Rewritten(last, values)]
  {
    RewriteConcat(lines, [last], values);
    assert [last][1..] == [] && Rewrite([last], values) == [Rewritten(last, values)] + Rewrite([last][1..], values);
  }

  lemma CutRewritten(x: Line, values: map<string, string>)
    requires EndsInSpace(x) && KeyOf(x) in values && Rewritten(x, values) == x
    ensures Rewritten(RStrip(x), values) == x
    ensures Rewritten(RStrip(x), values[KeyOf(x) := RStrip(ValueOf(x))]) == RStrip(x)
  {
    var k, v := KeyOf(x), ValueOf(x);
    SettledPair(x, values);
    KeyOfIsKey(x);
    PairCutValue(k, v);
    RewrittenOfPair(k, RStrip(v), values);
    RewrittenOfPair(k, RStrip(v), values[k := RStrip(v)]);
  }

  lemma PairCutValue(k: string, v: string)
    requires '=' !in k
    ensures RStrip(Pair(k, v)) == Pair(k, RStrip(v))
  {
    PairEq(k, v);
    RStripKeeps(Pair(k, v), |k|);
    CutBehind(Pair(k, v), |k| + 1);
    assert RStrip(Pair(k, v)) == RStrip(Pair(k, v))[..|k| + 1] + RStrip(Pair(k, v))[|k| + 1..];
    assert Pair(k, v)[..|k| + 1] == k + "=";
  }

  lemma SettledHead(out: seq<Line>, n: nat, values: map<string, string>)
    requires Settled(out, values) && n < |out|
    ensures Settled(out[..n], values) && Rewritten(out[n], values) == out[n]
  {
    assert forall l :: l in out[..n] ==> l in out;
    assert out[n] in out;
  }

  /** The lines of the second run, after an unclean end. */
  lemma SecondOutput(lines: seq<Line>, os: seq<(string, string)>, out: seq<Line>)
    requires Writable(os) && out == Output(lines, os) && Trimmed(out) != [] && EndsInSpace(out[LastAt(out)])
    ensures var n, x := LastAt(out), out[LastAt(out)];
            (Output(Trimmed(out), os)
             == if KeyOf(x) in Overrides(os) then out[..n] + [x]
                else Rewrite(out[..n], Merged(lines, os)[KeyOf(x) := RStrip(ValueOf(x))]) + [RStrip(x)])
  {
    var n, x, v := LastAt(out), out[LastAt(out)], Merged(lines, os);
    var k, c := KeyOf(x), RStrip(ValueOf(x));
    SecondMerge(lines, os, out, k, c);
    NoneMissing(Trimmed(out), os);
    TrimmedAt(out);
    OutputSettled(lines, os);
    SettledHead(out, n, v);
    CutRewritten(x, v);
    RewriteEnd(out[..n], RStrip(x), Merged(Trimmed(out), os));
    SettledStays(out[..n], v);
  }

  lemma SameWhenGivenAgain(out: seq<Line>)
    requires Trimmed(out) != []
    ensures Text(out[..LastAt(out)] + [out[LastAt(out)]]) == Text(out)
  {
    TrimmedAt(out);
    TrimmedOfEnd(out[..LastAt(out)], out[LastAt(out)]);
    TextOfTrimmed(out[..LastAt(out)] + [out[LastAt(out)]], out);
  }

  lemma TextTellsLines(a: seq<Line>, b: seq<Line>, last: Line)
    requires NoBreaks(a + [last]) && NoBreaks(b + [last]) && RStrip(last) == last != ""
    ensures Text(a + [last]) == Text(b + [last]) <==> a == b
  {
    TrimmedOfEnd(a, last);
    TrimmedOfEnd(b, last);
    LinesOfText(a + [last]);
    LinesOfText(b + [last]);
    if a + [last] == b + [last] { assert a == (a + [last])[..|a|] == (b + [last])[..|b|] == b; }
  }

  lemma CutNoBreak(s: string)
    requires NoBreak(s)
    ensures NoBreak(RStrip(s))
  {
    assert forall c :: c in RStrip(s) ==> c in s;
  }

  lemma ValueNoBreak(l: Line)
    requires IsAssign(l) && NoBreak(l)
    ensures NoBreak(ValueOf(l))
  {
    assert forall c :: c in ValueOf(l) ==> c in l;
  }

  lemma HeadNoBreaks(out: seq<Line>, n: nat)
    requires NoBreaks(out) && n < |out|
    ensures NoBreaks(out[..n]) && NoBreak(out[n])
  {
    assert out[n] in out && forall l :: l in out[..n] ==> l in out;
  }

  lemma EndNoBreaks(head: seq<Line>, last: Line)
    requires NoBreaks(head) && NoBreak(last)
    ensures NoBreaks(head + [last])
  {
  }

  ghost predicate ValuesNoBreaks(values: map<string, string>) { forall k :: k in values ==> NoBreak(values[k]) }

  /** Before the same last line, the second head gives the same text exactly when it rewrites no line. */
  lemma HeadDecides(head: seq<Line>, last: Line, values: map<string, string>, k: string, c: string)
    requires Settled(head, values) && k in values && c != values[k] && RStrip(last) == last != ""
    requires NoBreaks(head) && NoBreak(last) && ValuesNoBreaks(values) && NoBreak(c)
    ensures Text(Rewrite(head, values[k := c]) + [last]) == Text(head + [last]) <==> !AssignedIn(head, k)
  {
    RewriteAnew(head, values, k, c);
    RewriteNoBreaks(head, values[k := c]);
    EndNoBreaks(head, last);
    EndNoBreaks(Rewrite(head, values[k := c]), last);
    TextTellsLines(Rewrite(head, values[k := c]), head, last);
  }

  lemma MergedValuesNoBreaks(lines: seq<Line>, os: seq<(string, string)>)
    requires Readable(lines, os)
    ensures ValuesNoBreaks(Merged(lines, os))
  {
    forall k | k in Merged(lines, os) ensures NoBreak(Merged(lines, os)[k]) { MergedNoBreaks(lines, os, k); }
  }

  lemma CutIsTrimmed(x: Line)
    ensures RStrip(RStrip(x)) == RStrip(x)
  {
    RStripUnique(RStrip(x), |RStrip(x)|);
  }

  lemma CutTextIsText(out: seq<Line>)
    requires Trimmed(out) != []
    ensures Text(out[..LastAt(out)] + [RStrip(out[LastAt(out)])]) == Text(out)
  {
    TrimmedAt(out);
    CutIsTrimmed(out[LastAt(out)]);
    TrimmedOfEnd(out[..LastAt(out)], RStrip(out[LastAt(out)]));
    TextOfTrimmed(out[..LastAt(out)] + [RStrip(out[LastAt(out)])], out);
  }

  lemma LostIsWrittenAgain(lines: seq<Line>, os: seq<(string, string)>, out: seq<Line>, x: Line)
    requires Readable(lines, os) && out == Output(lines, os) && Trimmed(out) != [] && x == out[LastAt(out)]
    requires EndsInSpace(x) && KeyOf(x) !in Overrides(os)
    ensures Text(Output(Trimmed(out), os)) == Text(out) <==> !AssignedIn(out[..LastAt(out)], KeyOf(x))
  {
    var n, v, k, c := LastAt(out), Merged(lines, os), KeyOf(x), RStrip(ValueOf(x));
    SecondOutput(lines, os, out);
    SecondMerge(lines, os, out, k, c);
    OutputSettled(lines, os);
    SettledHead(out, n, v);
    OutputNoBreaks(lines, os);
    HeadNoBreaks(out, n);
    CutNoBreak(x);
    ValueNoBreak(x);
    CutNoBreak(ValueOf(x));
    MergedValuesNoBreaks(lines, os);
    CutIsTrimmed(x);
    TrimmedAt(out);
    HeadDecides(out[..n], RStrip(x), v, k, c);
    CutTextIsText(out);
  }

  /** With an unclean end, the second text is the first exactly when no white space is lost. */
  lemma UncleanIsWrittenAgain(lines: seq<Line>, os: seq<(string, string)>, out: seq<Line>)
    requires Readable(lines, os) && out == Output(lines, os) && !CleanEnd(out)
    ensures Text(Output(Trimmed(out), os)) == Text(out) <==> !LosesSpace(out, os)
  {
    UncleanEnd(out);
    var x := out[LastAt(out)];
    if KeyOf(x) in Overrides(os) {
      SecondOutput(lines, os, out);
      SameWhenGivenAgain(out);
    } else {
      LostIsWrittenAgain(lines, os, out, x);
    }
  }

  lemma BlankIsClean(out: seq<Line>)
    requires Trimmed(out) == []
    ensures CleanEnd(out)
  {
    CutLines();
    BlankIsKept(LineValues, out);
  }

  lemma CleanLosesNothing(out: seq<Line>, os: seq<(string, string)>)
    requires CleanEnd(out)
    ensures !LosesSpace(out, os)
  {
    if Trimmed(out) != [] { CleanEndIsKept(out); }
  }

  /** Writing the same settings again changes nothing, exactly unless the last written line that is not blank assigns a
      value that ends in white space, no setting gives that key, and an earlier line assigns it too. */
  lemma WritingTwiceIsWritingOnceExactly(lines: seq<Line>, os: seq<(string, string)>)
    requires Readable(lines, os)
    ensures var text := Text(Output(lines, os));
            (Text(Output(Lines(text), os)) == text <==> !LosesSpace(Output(lines, os), os))
  {
    var out := Output(lines, os);
    if CleanEnd(out) {
      CleanIsWrittenAgain(lines, os);
      CleanLosesNothing(out, os);
    } else {
      OutputNoBreaks(lines, os);
      LinesOfText(out);
      if Trimmed(out) == [] { BlankIsClean(out); }
      UncleanIsWrittenAgain(lines, os, out);
    }
  }

  // Files that lose white space

  /** The file assigns one key, always the same value. */
  ghost predicate Repeats(lines: seq<Line>, k: string, v: string) {
    lines != [] && IsKey(k) && forall i :: 0 <= i < |lines| ==> lines[i] == Pair(k, v)
  }

  lemma WritableNothing()
    ensures Writable([]) && Overrides([]) == map[]
  {
  }

  lemma ValueOfRepeated(lines: seq<Line>, k: string, v: string)
    requires Repeats(lines, k, v)
    ensures k in Values(lines) && Values(lines)[k] == v
  {
    var n := |lines| - 1;
    FoldEnd(LineValues, lines[..n], lines[n]);
    PairAssigns(k, v, lines[n]);
    assert lines == lines[..n] + [lines[n]];
    LastWins(Values(lines[..n]), k, v, v);
  }

  lemma NothingOverrides(m: map<string, string>)
    ensures m + Overrides([]) == m
  {
  }

  lemma RepeatedIsOutput(lines: seq<Line>, k: string, v: string)
    requires Repeats(lines, k, v)
    ensures Output(lines, []) == lines
  {
    ValueOfRepeated(lines, k, v);
    NothingOverrides(Values(lines));
    forall l | l in lines ensures Rewritten(l, Merged(lines, [])) == l {
      RewrittenOfPair(k, v, Merged(lines, []));
    }
    WritableNothing();
    FixedPoint(lines, []);
  }

  lemma PairEndsInSpace(l: Line, k: string, v: string)
    requires IsKey(k) && RStrip(v) != v && l == Pair(k, v)
    ensures EndsInSpace(l) && RStrip(l) != ""
  {
    PairReadsBack(k, v);
    TrimmedAssignLine(l);
  }

  lemma EndIsLast(lines: seq<Line>, head: seq<Line>, last: Line)
    requires lines == head + [last] && RStrip(last) != ""
    ensures Trimmed(lines) != [] && LastAt(lines) == |head|
  {
    TrimmedOfEnd(head, last);
    TrimmedAt(lines);
  }

  lemma FrontAndEnd(lines: seq<Line>)
    requires lines != []
    ensures lines == lines[..|lines| - 1] + [lines[|lines| - 1]]
  {
  }

  lemma SameEnd(lines: seq<Line>, last: Line)
    requires lines != [] && lines[|lines| - 1] == last && RStrip(last) != ""
    ensures Trimmed(lines) != [] && LastAt(lines) == |lines| - 1
  {
    FrontAndEnd(lines);
    EndIsLast(lines, lines[..|lines| - 1], last);
  }

  lemma RepeatedEnd(lines: seq<Line>, k: string, v: string)
    requires Repeats(lines, k, v) && RStrip(v) != v
    ensures Trimmed(lines) != [] && LastAt(lines) == |lines| - 1 && EndsInSpace(lines[|lines| - 1])
  {
    PairEndsInSpace(lines[|lines| - 1], k, v);
    SameEnd(lines, lines[|lines| - 1]);
  }

  lemma RepeatedIsReadable(lines: seq<Line>, k: string, v: string)
    requires Repeats(lines, k, v) && NoBreak(k) && NoBreak(v)
    ensures Readable(lines, [])
  {
    PairNoBreak(k, v);
    WritableNothing();
  }

  /** A value that ends in white space does not read back from such a file. */
  lemma LastSpaceIsLost(lines: seq<Line>, k: string, v: string)
    requires Repeats(lines, k, v) && NoBreak(k) && NoBreak(v) && RStrip(v) != v
    ensures Values(Lines(Text(Output(lines, [])))) != Merged(lines, [])
  {
    RepeatedIsReadable(lines, k, v);
    RepeatedIsOutput(lines, k, v);
    RepeatedEnd(lines, k, v);
    if CleanEnd(lines) { CleanEndIsKept(lines); }
    ReadsBack(lines, []);
  }

  lemma RepeatedLoses(lines: seq<Line>, k: string, v: string)
    requires Repeats(lines, k, v) && RStrip(v) != v && |lines| >= 2
    ensures LosesSpace(lines, [])
  {
    RepeatedEnd(lines, k, v);
    PairReadsBack(k, v);
    WritableNothing();
    assert lines[..LastAt(lines)][0] == Pair(k, v);
  }

  /** And when it is assigned more than once, the second write changes the file. */
  lemma RepeatedSpaceIsLostLater(lines: seq<Line>, k: string, v: string)
    requires Repeats(lines, k, v) && NoBreak(k) && NoBreak(v) && RStrip(v) != v && |lines| >= 2
    ensures var text := Text(Output(lines, []));
            (Text(Output(Lines(text), [])) != text)
  {
    RepeatedIsReadable(lines, k, v);
    RepeatedIsOutput(lines, k, v);
    RepeatedLoses(lines, k, v);
    WritingTwiceIsWritingOnceExactly(lines, []);
  }

  lemma PortIsKey(k: string, v: string, line: Line)
    requires k == "PORT" && v == "80 " && line == "PORT=80 "
    ensures IsKey(k) && NoBreak(k) && NoBreak(v) && RStrip(v) != v && line == Pair(k, v)
  {
    assert IsName(k);
    NameIsKey(k);
    RStripUnique(v, 2);
  }

  /** For example, one line PORT=80 with a blank behind it, or two of them. */
  lemma PortExamples(line: Line, lines: seq<Line>)
    requires line == "PORT=80 " && (lines == [line] || lines == [line, line])
    ensures Values(Lines(Text(Output(lines, [])))) != Merged(lines, [])
    ensures var text := Text(Output(lines, []));
            (|lines| == 2 ==> Text(Output(Lines(text), [])) != text)
  {
    PortRepeats("PORT", "80 ", line, lines);
    LastSpaceIsLost(lines, "PORT", "80 ");
    if |lines| == 2 { RepeatedSpaceIsLostLater(lines, "PORT", "80 "); }
  }

  lemma PortRepeats(k: string, v: string, line: Line, lines: seq<Line>)
    requires k == "PORT" && v == "80 " && line == "PORT=80 " && (lines == [line] || lines == [line, line])
    ensures Repeats(lines, k, v) && NoBreak(k) && NoBreak(v) && RStrip(v) != v
  {
    PortIsKey(k, v, line);
  }

  // The settings

  /** A setting as it comes in: absent or null, a text or number in its printed form, or a flag. */
  datatype Setting = Null | Printed(text: string) | Flag(on: bool)

  const ENV_KEYS: seq<(string, string)> := [
    ("discord_webhook_url", "DISCORD_WEBHOOK_URL"), ("sold_webhook_url", "SOLD_WEBHOOK_URL"),
    ("search_url", "SEARCH_URL"), ("poll_interval_sec", "POLL_INTERVAL_SEC"), ("poll_pages", "POLL_PAGES"),
    ("update_feed", "UPDATE_FEED"), ("auto_update", "AUTO_UPDATE"), ("host", "HOST"), ("port", "PORT")]

  predicate Given(settings: map<string, Setting>, key: string) {
    key in settings && settings[key] != Null && settings[key] != Printed("")
  }

  function Printing(s: Setting): string {
    match s
    case Null => ""
    case Printed(text) => text
    case Flag(on) => if on then "1" else "0"
  }

  /** The settings that are given, under their file keys, in table order. */
  function Chosen(settings: map<string, Setting>, table: seq<(string, string)>): seq<(string, string)> {
    if table == [] then []
    else (if Given(settings, table[0].0) then [(table[0].1, Printing(settings[table[0].0]))] else [])
         + Chosen(settings, table[1..])
  }

  lemma {:induction false} ChosenFromTable(settings: map<string, Setting>, table: seq<(string, string)>, o: (string, string))
      returns (i: nat)
    requires o in Chosen(settings, table)
    ensures i < |table| && table[i].1 == o.0
  {
    if Given(settings, table[0].0) && o == (table[0].1, Printing(settings[table[0].0])) {
      i := 0;
    } else {
      i := ChosenFromTable(settings, table[1..], o);
      i := i + 1;
    }
  }

  lemma {:induction false} ChosenDistinct(settings: map<string, Setting>, table: seq<(string, string)>)
    requires forall i, j :: 0 <= i < j < |table| ==> table[i].1 != table[j].1
    ensures DistinctKeys(Chosen(settings, table))
  {
    if table != [] {
      var rest := table[1..];
      assert forall i :: 0 <= i < |rest| ==> rest[i] == table[i + 1];
      ChosenDistinct(settings, rest);
      var tail := Chosen(settings, rest);
      forall j | 0 <= j < |tail| ensures tail[j].0 != table[0].1 {
        var k := ChosenFromTable(settings, rest, tail[j]);
        assert table[k + 1].1 != table[0].1;
      }
    }
  }

  lemma EnvKeysDistinct()
    ensures forall i, j :: 0 <= i < j < |ENV_KEYS| ==> ENV_KEYS[i].1 != ENV_KEYS[j].1
  {
  }

  /** Capitals and underscores make a key. */
  predicate IsName(k: string) {
    k != "" && forall i :: 0 <= i < |k| ==> 'A' <= k[i] <= 'Z' || k[i] == '_'
  }

  lemma NameIsKey(k: string)
    requires IsName(k)
    ensures IsKey(k) && NoBreak(k)
  {
    assert !IsSpace(k[0]) && !IsSpace(k[|k| - 1]);
  }

  lemma EnvKeysAreNames()
    ensures forall i :: 0 <= i < |ENV_KEYS| ==> IsName(ENV_KEYS[i].1)
  {
  }

  /** The chosen settings can be written, whatever the settings are, and no key holds a line break. */
  lemma ChosenIsWritable(settings: map<string, Setting>)
    ensures Writable(Chosen(settings, ENV_KEYS)) && forall o :: o in Chosen(settings, ENV_KEYS) ==> NoBreak(o.0)
  {
    EnvKeysDistinct();
    ChosenDistinct(settings, ENV_KEYS);
    EnvKeysAreNames();
    var os := Chosen(settings, ENV_KEYS);
    forall j | 0 <= j < |os| ensures IsKey(os[j].0) {
      var i := ChosenFromTable(settings, ENV_KEYS, os[j]);
      NameIsKey(os[j].0);
    }
    forall o | o in os ensures NoBreak(o.0) {
      var i := ChosenFromTable(settings, ENV_KEYS, o);
    }
  }

  // The merge as the program runs it

  method ReadLine(values: map<string, string>, line: Line) returns (after: map<string, string>)
    ensures after == values + LineValues(line)
  {
    after := values;
    if IsAssign(line) {
      NewValue(values, KeyOf(line), ValueOf(line));
      after := after[KeyOf(line) := ValueOf(line)];
    } else {
      NoValue(values);
    }
  }

  lemma NewValue(values: map<string, string>, k: string, v: string)
    ensures values + map[k := v] == values[k := v]
  {
  }

  lemma NoValue(values: map<string, string>)
    ensures values + map[] == values
  {
  }

  method ReadValues(lines: seq<Line>) returns (values: map<string, string>)
    ensures values == Values(lines)
  {
    values := map[];
    for i := 0 to |lines|
      invariant values == Values(lines[..i])
    {
      FoldNext(LineValues, lines, i);
      values := ReadLine(values, lines[i]);
    }
    assert lines[..|lines|] == lines;
  }

  lemma {:induction false} ChosenConcat(settings: map<string, Setting>, a: seq<(string, string)>, b: seq<(string, string)>)
    ensures Chosen(settings, a + b) == Chosen(settings, a) + Chosen(settings, b)
  {
    if a == [] {
      assert a + b == b;
    } else {
      ChosenConcat(settings, a[1..], b);
      assert (a + b)[1..] == a[1..] + b;
    }
  }

  method ChooseSettings(settings: map<string, Setting>) returns (os: seq<(string, string)>)
    ensures os == Chosen(settings, ENV_KEYS)
  {
    os := [];
    for i := 0 to |ENV_KEYS|
      invariant os == Chosen(settings, ENV_KEYS[..i])
    {
      ChosenConcat(settings, ENV_KEYS[..i], [ENV_KEYS[i]]);
      assert ENV_KEYS[..i + 1] == ENV_KEYS[..i] + [ENV_KEYS[i]];
      if Given(settings, ENV_KEYS[i].0) {
        os := os + [(ENV_KEYS[i].1, Printing(settings[ENV_KEYS[i].0]))];
      }
    }
    assert ENV_KEYS[..|ENV_KEYS|] == ENV_KEYS;
  }

  lemma {:induction false} AssignedAreKnown(lines: seq<Line>, l: Line)
    requires l in lines && IsAssign(l)
    ensures KeyOf(l) in Values(lines)
  {
    if l != lines[0] { AssignedAreKnown(lines[1..], l); }
  }

  method RewriteLine(line: Line, values: map<string, string>) returns (after: Line)
    requires IsAssign(line) ==> KeyOf(line) in values
    ensures after == Rewritten(line, values)
  {
    after := line;
    if IsAssign(line) {
      var key := KeyOf(line);
      after := Pair(key, if key in values then values[key] else "");
    }
  }

  method RewriteLines(lines: seq<Line>, values: map<string, string>) returns (out: seq<Line>)
    requires forall l :: l in lines && IsAssign(l) ==> KeyOf(l) in values
    ensures out == Rewrite(lines, values)
  {
    out := [];
    for i := 0 to |lines|
      invariant out + Rewrite(lines[i..], values) == Rewrite(lines, values)
    {
      assert lines[i..][1..] == lines[i + 1..];
      var line := RewriteLine(lines[i], values);
      out := out + [line];
    }
  }

  method AppendMissing(out: seq<Line>, os: seq<(string, string)>, written: set<string>) returns (all: seq<Line>)
    ensures all == out + Missing(os, written)
  {
    all := out;
    for i := 0 to |os|
      invariant all + Missing(os[i..], written) == out + Missing(os, written)
    {
      assert os[i..][1..] == os[i + 1..];
      if os[i].0 !in written {
        all := all + [Pair(os[i].0, os[i].1)];
      }
    }
  }

  /** `_write_env`: the text that replaces the file. */
  method WriteEnv(lines: seq<Line>, settings: map<string, Setting>) returns (text: string)
    ensures text == Text(Output(lines, Chosen(settings, ENV_KEYS)))
  {
    var values := ReadValues(lines);
    var os := ChooseSettings(settings);
    var merged := values + Overrides(os);
    forall l | l in lines && IsAssign(l) ensures KeyOf(l) in merged { AssignedAreKnown(lines, l); }
    var out := RewriteLines(lines, merged);
    out := AppendMissing(out, os, values.Keys);
    text := RStrip(Join(out)) + "\n";
  }
}
