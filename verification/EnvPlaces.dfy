/** Where the settings stand in the written `.env` file, and under which keys. */
module EnvPlaces {
  import opened Seqs
  import opened Texts
  import opened EnvFile

  // ------------------------------------------------------------------ what a line assigns --

  /** The line assigns a value to a key: its first visible character does not begin a comment, the key is what stands
      before the first equals sign, without white space around it, and the value all that stands behind. */
  ghost predicate Assigns(line: Line, key: string, value: string) {
    && (exists i :: 0 <= i < |line| && !IsSpace(line[i]) && line[i] != '#' && forall k :: 0 <= k < i ==> IsSpace(line[k]))
    && exists i :: 0 <= i < |line| && line[i] == '=' && (forall k :: 0 <= k < i ==> line[k] != '=')
                   && key == Strip(line[..i]) && value == line[i + 1..]
  }

  lemma LineAssigns(line: Line)
    ensures IsAssign(line) <==> exists key, value :: Assigns(line, key, value)
    ensures IsAssign(line) ==> forall key, value :: Assigns(line, key, value) <==> key == KeyOf(line) && value == ValueOf(line)
  {
    if IsAssign(line) { AssignHolds(line); }
    forall key, value | Assigns(line, key, value) ensures IsAssign(line) && key == KeyOf(line) && value == ValueOf(line) {
      AssignIsOnly(line, key, value);
    }
  }

  lemma AssignHolds(line: Line)
    requires IsAssign(line)
    ensures Assigns(line, KeyOf(line), ValueOf(line))
  {
    VisibleIs(line);
    var i := FirstEq(line);
    assert line[i] == '=' && forall k :: 0 <= k < i ==> line[k] != '=';
  }

  lemma AssignIsOnly(line: Line, key: string, value: string)
    requires Assigns(line, key, value)
    ensures IsAssign(line) && key == KeyOf(line) && value == ValueOf(line)
  {
    VisibleIs(line);
    var i :| 0 <= i < |line| && line[i] == '=' && (forall k :: 0 <= k < i ==> line[k] != '=')
             && key == Strip(line[..i]) && value == line[i + 1..];
    assert FirstEq(line) == i;
  }

  lemma VisibleIs(line: Line)
    ensures LStrip(line) != "" && LStrip(line)[0] != '#'
       <==> exists i :: 0 <= i < |line| && !IsSpace(line[i]) && line[i] != '#' && forall k :: 0 <= k < i ==> IsSpace(line[k])
  {
    LStripSpaces(line);
    var a := |line| - |LStrip(line)|;
    if LStrip(line) != "" { assert line[a] == LStrip(line)[0]; }
  }

  // ------------------------------------------------------------------ which value a key gets --

  /** The last line that assigns the key assigns it this value. */
  ghost predicate LastAssigned(lines: seq<Line>, key: string, value: string) {
    exists i :: 0 <= i < |lines| && Assigns(lines[i], key, value) && forall j, v :: i < j < |lines| ==> !Assigns(lines[j], key, v)
  }

  lemma {:induction false} ValuesAreLast(lines: seq<Line>, key: string)
    ensures key in Values(lines) <==> exists i, v :: 0 <= i < |lines| && Assigns(lines[i], key, v)
    ensures key in Values(lines) ==> LastAssigned(lines, key, Values(lines)[key])
  {
    if lines != [] {
      var rest := lines[1..];
      ValuesAreLast(rest, key);
      LineAssigns(lines[0]);
      assert forall i :: 0 <= i < |rest| ==> rest[i] == lines[i + 1];
      if key in Values(rest) {
        var i :| 0 <= i < |rest| && Assigns(rest[i], key, Values(rest)[key])
                 && forall j, v :: i < j < |rest| ==> !Assigns(rest[j], key, v);
        forall j, v | i + 1 < j < |lines| ensures !Assigns(lines[j], key, v) { assert lines[j] == rest[j - 1]; }
        assert Assigns(lines[i + 1], key, Values(lines)[key]);
      } else if key in LineValues(lines[0]) {
        forall j, v | 0 < j < |lines| ensures !Assigns(lines[j], key, v) { assert lines[j] == rest[j - 1]; }
        assert Assigns(lines[0], key, Values(lines)[key]);
      }
      if i, v :| 0 <= i < |lines| && Assigns(lines[i], key, v) {
        if i > 0 { assert Assigns(rest[i - 1], key, v); }
      }
    }
  }

  /** The last of the settings with this key has this value. */
  ghost predicate LastSet(os: seq<(string, string)>, key: string, value: string) {
    exists i :: 0 <= i < |os| && os[i] == (key, value) && forall j :: i < j < |os| ==> os[j].0 != key
  }

  lemma {:induction false} OverridesAreLast(os: seq<(string, string)>, key: string)
    ensures key in Overrides(os) <==> exists i :: 0 <= i < |os| && os[i].0 == key
    ensures key in Overrides(os) ==> LastSet(os, key, Overrides(os)[key])
  {
    if os != [] {
      var rest := os[1..];
      OverridesAreLast(rest, key);
      assert forall i :: 0 <= i < |rest| ==> rest[i] == os[i + 1];
      if key in Overrides(rest) {
        var i :| 0 <= i < |rest| && rest[i] == (key, Overrides(rest)[key]) && forall j :: i < j < |rest| ==> rest[j].0 != key;
        forall j | i + 1 < j < |os| ensures os[j].0 != key { assert os[j] == rest[j - 1]; }
        assert os[i + 1] == (key, Overrides(os)[key]);
      } else if os[0].0 == key {
        forall j | 0 < j < |os| ensures os[j].0 != key { assert os[j] == rest[j - 1]; }
        assert os[0] == (key, Overrides(os)[key]);
      }
    }
  }

  /** What a key is worth in the new file: its setting, or what the old file assigned last. */
  ghost predicate Worth(lines: seq<Line>, os: seq<(string, string)>, key: string, value: string) {
    if exists i :: 0 <= i < |os| && os[i].0 == key then LastSet(os, key, value) else LastAssigned(lines, key, value)
  }

  lemma MergedIsWorth(lines: seq<Line>, os: seq<(string, string)>, key: string)
    requires key in Merged(lines, os)
    ensures Worth(lines, os, key, Merged(lines, os)[key])
  {
    ValuesAreLast(lines, key);
    OverridesAreLast(os, key);
  }

  // ------------------------------------------------------------------ where the lines are --

  lemma {:induction false} RewriteAt(lines: seq<Line>, values: map<string, string>, i: nat)
    requires i < |lines|
    ensures Rewrite(lines, values)[i] == Rewritten(lines[i], values)
  {
    if i > 0 { RewriteAt(lines[1..], values, i - 1); }
  }

  lemma {:induction false} MissingIs(os: seq<(string, string)>, keys: set<string>, more: seq<(string, string)>)
    requires more == Filter((o: (string, string)) => o.0 !in keys, os)
    ensures |Missing(os, keys)| == |more| && forall i :: 0 <= i < |more| ==> Missing(os, keys)[i] == more[i].0 + "=" + more[i].1
  {
    if os != [] {
      MissingIs(os[1..], keys, Filter((o: (string, string)) => o.0 !in keys, os[1..]));
    }
  }

  /** Every line keeps its place. A line that assigns nothing stays as it is; one that assigns a key is that key with what
      it is worth now, also where the key is assigned twice. Behind them come the settings of keys that no line assigned,
      in their order. */
  lemma LinesKeepTheirPlace(lines: seq<Line>, os: seq<(string, string)>)
    ensures var out := Output(lines, os);
            var added := Filter((o: (string, string)) => o.0 !in Values(lines), os);
            && |out| == |lines| + |added|
            && (forall i :: 0 <= i < |lines| && (forall k, v :: !Assigns(lines[i], k, v)) ==> out[i] == lines[i])
            && (forall i, k, v :: 0 <= i < |lines| && Assigns(lines[i], k, v) ==>
                  exists now :: Worth(lines, os, k, now) && out[i] == k + "=" + now)
            && (forall j :: 0 <= j < |added| ==> out[|lines| + j] == added[j].0 + "=" + added[j].1)
  {
    var out, values := Output(lines, os), Merged(lines, os);
    var added := Filter((o: (string, string)) => o.0 !in Values(lines), os);
    FilterSame((o: (string, string)) => o.0 !in Values(lines), (o: (string, string)) => o.0 !in Values(lines).Keys, os);
    MissingIs(os, Values(lines).Keys, added);
    forall i | 0 <= i < |lines| ensures out[i] == Rewritten(lines[i], values) { RewriteAt(lines, values, i); }
    forall i | 0 <= i < |lines| && (forall k, v :: !Assigns(lines[i], k, v)) ensures out[i] == lines[i] { LineAssigns(lines[i]); }
    forall i, k, v | 0 <= i < |lines| && Assigns(lines[i], k, v)
      ensures exists now :: Worth(lines, os, k, now) && out[i] == k + "=" + now
    {
      LineAssigns(lines[i]);
      ValuesAreLast(lines, k);
      MergedIsWorth(lines, os, k);
      assert out[i] == k + "=" + values[k];
    }
  }

  // ------------------------------------------------------------------ the keys of the settings --

  /** The key is the name in capitals. */
  ghost predicate InCapitals(name: string, key: string) {
    |key| == |name| && forall i :: 0 <= i < |name| ==>
      key[i] == if 'a' <= name[i] <= 'z' then (name[i] as int - 32) as char else name[i]
  }

  ghost predicate IsSetting(name: string) {
    name in {"discord_webhook_url", "sold_webhook_url", "search_url", "poll_interval_sec", "poll_pages", "update_feed",
             "auto_update", "host", "port"}
  }

  lemma KeysAreCapitals(i: nat)
    requires i < |ENV_KEYS|
    ensures IsSetting(ENV_KEYS[i].0) && InCapitals(ENV_KEYS[i].0, ENV_KEYS[i].1)
  {
    if i < 3 { FirstKeys(i); } else if i < 6 { MiddleKeys(i); } else { LastKeys(i); }
  }

  lemma FirstKeys(i: nat)
    requires i < 3
    ensures IsSetting(ENV_KEYS[i].0) && InCapitals(ENV_KEYS[i].0, ENV_KEYS[i].1)
  {
  }

  lemma MiddleKeys(i: nat)
    requires 3 <= i < 6
    ensures IsSetting(ENV_KEYS[i].0) && InCapitals(ENV_KEYS[i].0, ENV_KEYS[i].1)
  {
  }

  lemma LastKeys(i: nat)
    requires 6 <= i < 9
    ensures IsSetting(ENV_KEYS[i].0) && InCapitals(ENV_KEYS[i].0, ENV_KEYS[i].1)
  {
  }

  lemma OneCapitals(name: string, a: string, b: string)
    requires InCapitals(name, a) && InCapitals(name, b)
    ensures a == b
  {
  }

  lemma EverySettingHasAKey(name: string) returns (i: nat)
    requires IsSetting(name)
    ensures i < |ENV_KEYS| && ENV_KEYS[i].0 == name
  {
    i := if name == "discord_webhook_url" then 0 else if name == "sold_webhook_url" then 1 else if name == "search_url" then 2
         else if name == "poll_interval_sec" then 3 else if name == "poll_pages" then 4 else if name == "update_feed" then 5
         else if name == "auto_update" then 6 else if name == "host" then 7 else 8;
  }

  lemma {:induction false} ChosenIs(settings: map<string, Setting>, table: seq<(string, string)>, o: (string, string))
    ensures o in Chosen(settings, table)
       <==> exists i :: 0 <= i < |table| && Given(settings, table[i].0) && o == (table[i].1, Printing(settings[table[i].0]))
  {
    if table != [] {
      var rest := table[1..];
      ChosenIs(settings, rest, o);
      assert forall i :: 0 <= i < |rest| ==> rest[i] == table[i + 1];
      if i :| 0 <= i < |table| && Given(settings, table[i].0) && o == (table[i].1, Printing(settings[table[i].0])) {
        if i > 0 { assert rest[i - 1] == table[i]; }
      }
    }
  }

  /** What is written of a setting: its text, one for a switch that is on and zero for one that is off; nothing of a
      setting without a value. */
  ghost predicate Shows(s: Setting, value: string) {
    (s == Printed(value) && value != "") || (s == Flag(true) && value == "1") || (s == Flag(false) && value == "0")
  }

  /** The settings that are written: each of the nine that has a value, under its name in capitals. */
  lemma SettingsAreCapitals(settings: map<string, Setting>, key: string, value: string)
    ensures (key, value) in Chosen(settings, ENV_KEYS)
       <==> exists name :: IsSetting(name) && name in settings && InCapitals(name, key) && Shows(settings[name], value)
  {
    ChosenIs(settings, ENV_KEYS, (key, value));
    if i :| 0 <= i < |ENV_KEYS| && Given(settings, ENV_KEYS[i].0)
            && (key, value) == (ENV_KEYS[i].1, Printing(settings[ENV_KEYS[i].0])) {
      KeysAreCapitals(i);
    }
    if name :| IsSetting(name) && name in settings && InCapitals(name, key) && Shows(settings[name], value) {
      var i := EverySettingHasAKey(name);
      KeysAreCapitals(i);
      OneCapitals(name, key, ENV_KEYS[i].1);
    }
  }
}
