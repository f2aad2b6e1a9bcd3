/** Which listings the further filters find: buildings by the names under which iDNES shows them, furnishing by the values
    that listings carry. Texts are given case-folded. */
module CatalogWords {
  import opened Seqs
  import opened CatalogExtra

  function Plain(s: string): string { s }

  lemma {:induction false} NotInside(s: string, part: string, c: char)
    requires c in part && c !in s
    ensures !Contains(s, part)
  {
    if s != "" { NotInside(s[1..], part, c); }
  }

  // ------------------------------------------------------------------ buildings --

  /** The name of a building, as iDNES shows it. */
  ghost function NameOf(building: string): string {
    if building == "cihlova" then "cihlová" else if building == "panelova" then "panelová"
    else if building == "drevena" then "dřevěná" else if building == "kamenna" then "kamenná"
    else if building == "skeletova" then "skeletová" else if building == "montovana" then "montovaná"
    else if building == "smisena" then "smíšená" else ""
  }

  ghost predicate IsBuilding(building: string) {
    building in {"cihlova", "panelova", "drevena", "kamenna", "skeletova", "montovana", "smisena"}
  }

  /** A letter of what is looked for of one building that the name of another does not have. */
  ghost function Telling(asked: string, own: string): char {
    if asked == "cihlova" then 'h' else if asked == "panelova" then 'p' else if asked == "drevena" then 'ř'
    else if asked == "kamenna" then (if own == "skeletova" then 'm' else 'k')
    else if asked == "skeletova" then (if own == "smisena" then 'k' else 's')
    else if asked == "montovana" then (if own == "skeletova" then 'm' else 't')
    else 'š'
  }

  /** What is looked for of a building is how its name begins. */
  lemma WordBegins(b: string)
    requires IsBuilding(b)
    ensures |BuildingPatterns(b)| == 1 && BuildingPatterns(b)[0] <= NameOf(b)
  {
  }

  lemma OthersDiffer(asked: string, own: string)
    requires IsBuilding(asked) && IsBuilding(own) && asked != own
    ensures Telling(asked, own) in BuildingPatterns(asked)[0] && Telling(asked, own) !in NameOf(own)
  {
    WordBegins(asked);
    if asked in {"cihlova", "panelova", "drevena"} { RareLetters(asked, own); }
    else if asked in {"kamenna", "skeletova"} { LettersOfStone(asked, own); }
    else { LettersOfRest(asked, own); }
  }

  lemma RareLetters(asked: string, own: string)
    requires asked in {"cihlova", "panelova", "drevena"} && IsBuilding(own) && asked != own
    ensures |BuildingPatterns(asked)| == 1
    ensures Telling(asked, own) in BuildingPatterns(asked)[0] && Telling(asked, own) !in NameOf(own)
  {
    assert "cihl"[2] == 'h' && "panel"[0] == 'p' && "dřev"[1] == 'ř';
  }

  lemma LettersOfStone(asked: string, own: string)
    requires asked in {"kamenna", "skeletova"} && IsBuilding(own) && asked != own
    ensures |BuildingPatterns(asked)| == 1
    ensures Telling(asked, own) in BuildingPatterns(asked)[0] && Telling(asked, own) !in NameOf(own)
  {
    assert "kamenn"[0] == 'k' && "kamenn"[2] == 'm' && "skelet"[0] == 's' && "skelet"[1] == 'k';
  }

  lemma LettersOfRest(asked: string, own: string)
    requires asked in {"montovana", "smisena"} && IsBuilding(own) && asked != own
    ensures |BuildingPatterns(asked)| == 1
    ensures Telling(asked, own) in BuildingPatterns(asked)[0] && Telling(asked, own) !in NameOf(own)
  {
    assert "montovan"[0] == 'm' && "montovan"[3] == 't' && "smíšen"[3] == 'š';
  }

  /** Asking for one building finds exactly the listings that name it, among those that name one. */
  lemma BuildingsAskExactly(asked: string, own: string)
    requires IsBuilding(asked) && IsBuilding(own)
    ensures ListOk(Plain, NameOf(own), [asked], BuildingPatterns) <==> asked == own
  {
    WordBegins(asked);
    var word := BuildingPatterns(asked)[0];
    assert BuildingPatterns(asked) == [word] && Plain(word) == word;
    if asked != own {
      OthersDiffer(asked, own);
      NotInside(NameOf(own), word, Telling(asked, own));
    }
    assert asked in [asked] && word in BuildingPatterns(asked);
  }

  // ------------------------------------------------------------------ furnishing --

  function Count(c: char, s: string): nat {
    if s == "" then 0 else (if s[0] == c then 1 else 0) + Count(c, s[1..])
  }

  lemma {:induction false} CountConcat(c: char, s: string, t: string)
    ensures Count(c, s + t) == Count(c, s) + Count(c, t)
  {
    if s == "" {
      assert s + t == t;
    } else {
      assert (s + t)[1..] == s[1..] + t;
      CountConcat(c, s[1..], t);
    }
  }

  lemma {:induction false} CountNone(c: char, s: string)
    requires c !in s
    ensures Count(c, s) == 0
  {
    if s != "" { CountNone(c, s[1..]); }
  }

  lemma {:induction false} CountInside(c: char, s: string, part: string)
    requires Contains(s, part)
    ensures Count(c, part) <= Count(c, s)
  {
    if part <= s {
      assert s == part + s[|part|..];
      CountConcat(c, part, s[|part|..]);
    } else {
      CountInside(c, s[1..], part);
    }
  }

  /** The beginning of a named value, up to the value. */
  function Opening(name: string): string { "\"" + name + "\", \"value\": \"" }

  lemma QuotesOfValued(name: string, value: string)
    requires '"' !in value
    ensures Valued(name, value) == Opening(name) + (value + "\"")
    ensures Count('"', Valued(name, value)) == Count('"', Opening(name)) + 1
  {
    CountConcat('"', Opening(name), value + "\"");
    CountConcat('"', value, "\"");
    CountNone('"', value);
    assert Count('"', "\"") == 1 + Count('"', "");
  }

  /** One value of a name stands in another only if they are the same. */
  lemma ValuedInside(name: string, u: string, v: string)
    requires '"' !in u && '"' !in v
    ensures Contains(Valued(name, v), Valued(name, u)) <==> u == v
  {
    var s, part, start := Valued(name, v), Valued(name, u), Opening(name);
    QuotesOfValued(name, u);
    QuotesOfValued(name, v);
    assert s[0] == '"';
    assert Count('"', s) == 1 + Count('"', s[1..]);
    if Contains(s[1..], part) { CountInside('"', s[1..], part); }
    if u == v { assert part == s && part <= s; }
    if part <= s {
      var n := |start|;
      assert part[n..] == u + "\"" && s[n..] == v + "\"";
      assert forall k :: n <= k < |part| ==> part[k] == s[k];
      SamePrefix(u, v);
    }
  }

  lemma SamePrefix(u: string, v: string)
    requires '"' !in u && '"' !in v
    ensures u + "\"" <= v + "\"" ==> u == v
  {
    var a, b := u + "\"", v + "\"";
    if a <= b {
      assert a[|u|] == '"' && b[|u|] == a[|u|];
      assert forall k :: 0 <= k < |v| ==> v[k] in v && b[k] == v[k];
      assert |u| == |v|;
      forall k | 0 <= k < |u| ensures u[k] == v[k] { assert a[k] == u[k] && b[k] == v[k]; }
    }
  }

  /** The furnishing that a value of the portals means. */
  ghost function FurnishingOf(value: string): string {
    if value in {"vybavený", "vybaveno", "ano", "zařízený"} then "vybaveny"
    else if value == "částečně" then "castecne" else "nevybaveny"
  }

  ghost predicate IsFurnishingValue(value: string) {
    value in {"vybavený", "vybaveno", "ano", "zařízený", "částečně", "nevybaven", "ne", "nezařízený"}
  }

  /** What is looked for of a furnishing, in a listing that carries one of these values. */
  lemma FurnishingHit(asked: string, value: string, p: string)
    requires IsFurnishingValue(value) && p in EquippedPatterns(asked)
    ensures Contains(Valued("vybavení", value), p) <==> p == Valued("vybavení", value)
  {
    ValuesAreFree(value);
    if u :| IsFurnishingValue(u) && p == Valued("vybavení", u) {
      ValuesAreFree(u);
      ValuedInside("vybavení", u, value);
    } else {
      KeyedHasQ(asked, p);
      NotInside(Valued("vybavení", value), p, 'q');
    }
  }

  lemma ValuesAreFree(value: string)
    requires IsFurnishingValue(value)
    ensures '"' !in value && 'q' !in Valued("vybavení", value)
  {
    PlainValue(value);
    OpeningHasNoQ();
    QuotesOfValued("vybavení", value);
  }

  lemma PlainValue(value: string)
    requires IsFurnishingValue(value)
    ensures '"' !in value && 'q' !in value
  {
  }

  lemma OpeningHasNoQ()
    ensures 'q' !in Opening("vybavení")
  {
  }

  lemma KeyedHasQ(asked: string, p: string)
    requires p in EquippedPatterns(asked) && forall u :: IsFurnishingValue(u) ==> p != Valued("vybavení", u)
    ensures 'q' in p
  {
    assert Keyed("equipped", "zařízený")[2] == 'q' && Keyed("equipped", "částečně zařízený")[2] == 'q'
        && Keyed("equipped", "nezařízený")[2] == 'q';
  }

  /** Asking for a furnishing finds exactly the listings whose value means it. */
  lemma FurnishingAsksExactly(asked: string, value: string)
    requires IsFurnishingValue(value)
    ensures ListOk(Plain, Valued("vybavení", value), [asked], EquippedPatterns) <==> asked == FurnishingOf(value)
  {
    var blob := Valued("vybavení", value);
    assert asked in [asked];
    forall p | p in EquippedPatterns(asked) ensures Contains(blob, Plain(p)) <==> p == blob { FurnishingHit(asked, value, p); }
    ListedIff(asked, value);
  }

  lemma ValuedInjective(name: string, u: string, v: string)
    requires Valued(name, u) == Valued(name, v)
    ensures u == v
  {
    var n := |Opening(name)|;
    assert Valued(name, u)[n..] == u + "\"" && Valued(name, v)[n..] == v + "\"";
    assert (u + "\"")[..|u|] == u && (v + "\"")[..|v|] == v;
  }

  lemma ListedIff(asked: string, value: string)
    requires IsFurnishingValue(value)
    ensures Valued("vybavení", value) in EquippedPatterns(asked) <==> asked == FurnishingOf(value)
  {
    var blob := Valued("vybavení", value);
    ValuesAreFree(value);
    assert Keyed("equipped", "zařízený")[2] == 'q' && Keyed("equipped", "částečně zařízený")[2] == 'q'
        && Keyed("equipped", "nezařízený")[2] == 'q';
    if blob in EquippedPatterns(asked) {
      assert exists u :: IsFurnishingValue(u) && FurnishingOf(u) == asked && blob == Valued("vybavení", u) by { Listed(asked, blob); }
      var u :| IsFurnishingValue(u) && FurnishingOf(u) == asked && blob == Valued("vybavení", u);
      ValuedInjective("vybavení", u, value);
    }
    if asked == FurnishingOf(value) { Lists(value); }
  }

  lemma Listed(asked: string, p: string)
    requires p in EquippedPatterns(asked) && 'q' !in p
    ensures exists u :: IsFurnishingValue(u) && FurnishingOf(u) == asked && p == Valued("vybavení", u)
  {
    assert Keyed("equipped", "zařízený")[2] == 'q' && Keyed("equipped", "částečně zařízený")[2] == 'q'
        && Keyed("equipped", "nezařízený")[2] == 'q';
    if asked == "vybaveny" {
      assert IsFurnishingValue("vybavený") && IsFurnishingValue("vybaveno") && IsFurnishingValue("ano") && IsFurnishingValue("zařízený");
    } else if asked == "castecne" {
      assert IsFurnishingValue("částečně");
    } else {
      assert IsFurnishingValue("nevybaven") && IsFurnishingValue("ne") && IsFurnishingValue("nezařízený");
    }
  }

  lemma Lists(value: string)
    requires IsFurnishingValue(value)
    ensures Valued("vybavení", value) in EquippedPatterns(FurnishingOf(value))
  {
  }

  // ------------------------------------------------------------------ other buildings and conditions --

  /** Other buildings are those of stone, of a skeleton, assembled or mixed. */
  lemma OtherBuildingsAskExactly(own: string)
    requires IsBuilding(own)
    ensures ListOk(Plain, NameOf(own), ["ostatni"], BuildingPatterns)
       <==> own in {"kamenna", "skeletova", "montovana", "smisena"}
  {
    var words := BuildingPatterns("ostatni");
    assert words == ["smíšená", "montovan", "skelet", "kamenn", "ostatní"];
    assert "ostatni" in ["ostatni"];
    forall w | w in words ensures Plain(w) == w { }
    if own in {"kamenna", "skeletova", "montovana", "smisena"} {
      OtherIsNamed(own);
    } else {
      forall w | w in words ensures !Contains(NameOf(own), w) { NoOtherWord(own, w); }
    }
  }

  lemma OtherIsNamed(own: string)
    requires own in {"kamenna", "skeletova", "montovana", "smisena"}
    ensures exists w :: w in BuildingPatterns("ostatni") && Contains(NameOf(own), w)
  {
    var words := BuildingPatterns("ostatni");
    assert words[0] <= "smíšená" && words[1] <= "montovaná" && words[2] <= "skeletová" && words[3] <= "kamenná";
    assert words[0] in words && words[1] in words && words[2] in words && words[3] in words;
  }

  lemma NoOtherWord(own: string, w: string)
    requires own in {"cihlova", "panelova", "drevena"} && w in ["smíšená", "montovan", "skelet", "kamenn", "ostatní"]
    ensures !Contains(NameOf(own), w)
  {
    assert "smíšená"[0] == 's' && "montovan"[0] == 'm' && "skelet"[0] == 's' && "kamenn"[0] == 'k' && "ostatní"[1] == 's';
    NotInside(NameOf(own), w, if w == "montovan" then 'm' else if w == "kamenn" then 'k' else 's');
  }

  /** The conditions that are looked for in running text too. */
  ghost function ConditionOf(text: string): string {
    if text == "dobrý stav" then "Dobrý" else if text == "špatný stav" then "Špatný" else "Projekt"
  }

  lemma TextsAskExactly(asked: string, text: string)
    requires text in {"dobrý stav", "špatný stav", "projekt"}
    ensures ListOk(Plain, text, [asked], ConditionPatterns) <==> asked == ConditionOf(text)
  {
    assert asked in [asked];
    QuotedPatterns(asked, text);
    var words := ConditionPatterns(asked);
    if asked == ConditionOf(text) {
      assert words[2] == text && text <= text && words[2] in words;
    } else {
      forall w | w in words ensures !Contains(text, Plain(w)) { OtherTexts(asked, text, w); }
    }
  }

  lemma QuotedPatterns(asked: string, text: string)
    requires text in {"dobrý stav", "špatný stav", "projekt"}
    ensures |ConditionPatterns(asked)| >= 2
    ensures asked == ConditionOf(text) ==> |ConditionPatterns(asked)| == 3 && ConditionPatterns(asked)[2] == text
  {
  }

  lemma OtherTexts(asked: string, text: string, w: string)
    requires text in {"dobrý stav", "špatný stav", "projekt"} && asked != ConditionOf(text) && w in ConditionPatterns(asked)
    ensures !Contains(text, w)
  {
    assert '"' !in text;
    if w == "dobrý stav" {
      assert "dobrý stav"[2] == 'b';
      NotInside(text, w, 'b');
    } else if w == "špatný stav" {
      assert "špatný stav"[0] == 'š';
      NotInside(text, w, 'š');
    } else if w == "projekt" {
      assert "projekt"[5] == 'k';
      NotInside(text, w, 'k');
    } else {
      assert w[0] == '"';
      NotInside(text, w, '"');
    }
  }

  /** A listing that states a partial reconstruction is found by asking for a reconstruction, and by its own words. */
  lemma PartialReconstructionIsFound(asked: string)
    requires '"' !in asked
    ensures ListOk(Plain, Valued("stav", "po částečné rekonstrukci"), [asked], ConditionPatterns)
       <==> asked == "Po rekonstrukci" || asked == "po částečné rekonstrukci"
  {
    var value := "po částečné rekonstrukci";
    var blob := Valued("stav", value);
    assert '"' !in value;
    assert asked in [asked] && ConditionPatterns(asked)[0] == Valued("stav", asked);
    ValuedInside("stav", asked, value);
    ValuedInside("stav", value, value);
    forall w | w in ConditionPatterns(asked) ensures Plain(w) == w { }
    if asked == "Po rekonstrukci" {
      assert ConditionPatterns(asked)[2] == blob;
      assert blob in ConditionPatterns(asked) && Contains(blob, blob) && Hit(Plain, blob, ConditionPatterns(asked));
    } else {
      PartialLetters(blob);
      assert Valued("stav", asked) in ConditionPatterns(asked);
      forall w | w in ConditionPatterns(asked) && w != Valued("stav", asked) ensures !Contains(blob, w) {
        OtherPatterns(asked, blob, w);
      }
    }
  }

  lemma PartialLetters(blob: string)
    requires blob == Valued("stav", "po částečné rekonstrukci")
    ensures 'd' !in blob && 'š' !in blob && 'j' !in blob
  {
  }

  lemma OtherPatterns(asked: string, blob: string, w: string)
    requires 'd' !in blob && 'š' !in blob && 'j' !in blob && asked != "Po rekonstrukci"
    requires w in ConditionPatterns(asked) && w != Valued("stav", asked)
    ensures !Contains(blob, w)
  {
    assert Keyed("condition", asked)[4] == 'd' && "dobrý stav"[0] == 'd' && "špatný stav"[0] == 'š' && "projekt"[3] == 'j';
    NotInside(blob, w, if w == "špatný stav" then 'š' else if w == "projekt" then 'j' else 'd');
  }

  // ------------------------------------------------------------------ signs --

  /** Asking for roommates finds the listings with one of four signs of them, and asking for none the others. */
  lemma RoommateAsksExactly(t: Texts)
    ensures var hit := || Contains(t.blob, "\"roommate\"") || Contains(t.words, "spolubydl") || t.disposition == "pokoj"
                       || Contains(t.url, "/pokoj/");
            && (ExtraMatches(Plain, t, NO_EXTRA.(roommate := "s")) <==> hit)
            && (ExtraMatches(Plain, t, NO_EXTRA.(roommate := "bez")) <==> !hit)
  {
    assert Given([]) == [];
  }

  lemma PetsAskExactly(t: Texts)
    ensures var hit := Contains(t.blob, "\"pets\"") || Contains(t.blob, "\"mazlíčci\", \"value\": \"povolení\"");
            && (ExtraMatches(Plain, t, NO_EXTRA.(pets := "s")) <==> hit)
            && (ExtraMatches(Plain, t, NO_EXTRA.(pets := "bez")) <==> !hit)
  {
    assert Given([]) == [];
  }

  lemma ShortTermAsksExactly(t: Texts)
    ensures ExtraMatches(Plain, t, NO_EXTRA.(shortTerm := "s")) <==> Contains(t.blob, "\"short_term\"")
    ensures ExtraMatches(Plain, t, NO_EXTRA.(shortTerm := "bez")) <==> !Contains(t.blob, "\"short_term\"")
  {
    assert Given([]) == [];
  }

  // ------------------------------------------------------------------ edits --

  /** Leaving a filter as it is, or clearing one of its choices, is among the edits that look like widenings. */
  lemma ClearingLooksWider(e: Extra)
    ensures ExtraLooksWider(e, e) && ExtraLooksWider(e, e.(roommate := "")) && ExtraLooksWider(e, e.(pets := ""))
    ensures ExtraLooksWider(e, e.(shortTerm := ""))
  {
  }
}
