/** The further filters of a monitor (app/catalog_extra_filters.py): ownership, condition, building, furnishing, amenities
    and three-way choices, matched against the text of a listing's extras. */
module CatalogExtra {
  import opened Seqs

  /** The texts the filters look at: the extras as JSON text, name and description, disposition and URL, all case-folded. */
  datatype Texts = Texts(blob: string, words: string, disposition: string, url: string)

  datatype Extra = Extra(ownership: seq<string>, condition: seq<string>, building: seq<string>, equipped: seq<string>,
                         amenities: seq<string>, roommate: string, pets: string, shortTerm: string)

  predicate Contains(s: string, part: string) {
    part <= s || (s != "" && Contains(s[1..], part))
  }

  /** The items that are not empty. */
  function Given(xs: seq<string>): (r: seq<string>)
    ensures forall x :: x in r <==> x in xs && x != ""
  {
    FilterMembers(x => x != "", xs);
    Filter(x => x != "", xs)
  }

  type Folding = string -> string

  type Patterns = string -> seq<string>

  // What each choice looks for

  function Valued(name: string, value: string): string { "\"" + name + "\", \"value\": \"" + value + "\"" }

  function Keyed(key: string, value: string): string { "\"" + key + "\": \"" + value + "\"" }

  function OwnershipPatterns(x: string): seq<string> { [Valued("vlastnictví", x), Keyed("ownership", x)] }

  function ConditionPatterns(x: string): seq<string> {
    [Valued("stav", x), Keyed("condition", x)]
    + if x == "Po rekonstrukci" then [Valued("stav", "po částečné rekonstrukci")]
      else if x == "Dobrý" then ["dobrý stav"]
      else if x == "Špatný" then ["špatný stav"]
      else if x == "Projekt" then ["projekt"] else []
  }

  function BuildingPatterns(x: string): seq<string> {
    if x == "cihlova" then ["cihl"] else if x == "panelova" then ["panel"] else if x == "drevena" then ["dřev"]
    else if x == "kamenna" then ["kamenn"] else if x == "skeletova" then ["skelet"]
    else if x == "montovana" then ["montovan"] else if x == "smisena" then ["smíšen"]
    else if x == "ostatni" then ["smíšená", "montovan", "skelet", "kamenn", "ostatní"] else []
  }

  function EquippedPatterns(x: string): seq<string> {
    if x == "vybaveny" then
      [Valued("vybavení", "vybavený"), Valued("vybavení", "vybaveno"), Valued("vybavení", "ano"),
       Valued("vybavení", "zařízený"), Keyed("equipped", "zařízený")]
    else if x == "castecne" then [Valued("vybavení", "částečně"), Keyed("equipped", "částečně zařízený")]
    else if x == "nevybaveny" then
      [Valued("vybavení", "nevybaven"), Valued("vybavení", "ne"), Valued("vybavení", "nezařízený"),
       Keyed("equipped", "nezařízený")]
    else []
  }

  /** `_any`. */
  predicate Hit(casefold: Folding, blob: string, patterns: seq<string>) {
    exists p :: p in patterns && Contains(blob, casefold(p))
  }

  /** An empty list filters nothing; otherwise one of its patterns must occur. */
  predicate ListOk(casefold: Folding, blob: string, xs: seq<string>, patterns: Patterns) {
    xs == [] || exists x :: x in xs && Hit(casefold, blob, patterns(x))
  }

  const CHOSEN: set<string> := {"roommate", "pets", "short_term"}

  function Quoted(name: string): string { "\"" + name + "\"" }

  predicate AmenitiesOk(casefold: Folding, blob: string, amenities: seq<string>) {
    forall a :: a in amenities && a !in CHOSEN ==> Contains(blob, casefold(Quoted(a)))
  }

  /** A three-way choice: its own value, or wanted when it is ticked among the amenities. */
  function Choice(value: string, name: string, amenities: seq<string>): string {
    if value != "" then value else if name in amenities then "s" else ""
  }

  /** `_tri`. */
  predicate TriOk(value: string, hit: bool) { (value == "s" ==> hit) && (value == "bez" ==> !hit) }

  predicate RoommateHit(t: Texts) {
    || Contains(t.blob, "\"roommate\"") || Contains(t.words, "spolubydl") || t.disposition == "pokoj"
    || Contains(t.url, "/pokoj/")
  }

  predicate PetsHit(t: Texts) {
    Contains(t.blob, "\"pets\"") || Contains(t.blob, "\"mazlíčci\", \"value\": \"povolení\"")
  }

  predicate ShortTermHit(t: Texts) { Contains(t.blob, "\"short_term\"") }

  predicate ExtraMatches(casefold: Folding, t: Texts, e: Extra) {
    && ListOk(casefold, t.blob, Given(e.ownership), OwnershipPatterns)
    && ListOk(casefold, t.blob, Given(e.condition), ConditionPatterns)
    && ListOk(casefold, t.blob, Given(e.building), BuildingPatterns)
    && ListOk(casefold, t.blob, Given(e.equipped), EquippedPatterns)
    && AmenitiesOk(casefold, t.blob, Given(e.amenities))
    && TriOk(Choice(e.roommate, "roommate", Given(e.amenities)), RoommateHit(t))
    && TriOk(Choice(e.pets, "pets", Given(e.amenities)), PetsHit(t))
    && TriOk(Choice(e.shortTerm, "short_term", Given(e.amenities)), ShortTermHit(t))
  }

  const NO_EXTRA := Extra([], [], [], [], [], "", "", "")

  /** Without further filters every listing passes. */
  lemma NoExtraMatchesAll(casefold: Folding, t: Texts)
    ensures ExtraMatches(casefold, t, NO_EXTRA)
  {
    assert Given([]) == [];
  }

  // Widening

  /** A list cleared, or a non-empty list extended. */
  ghost predicate Extended(a: seq<string>, b: seq<string>) {
    Given(b) == [] || (Given(a) != [] && forall x :: x in Given(a) ==> x in Given(b))
  }

  lemma ListWidens(casefold: Folding, blob: string, a: seq<string>, b: seq<string>, patterns: Patterns)
    requires Extended(a, b) && ListOk(casefold, blob, Given(a), patterns)
    ensures ListOk(casefold, blob, Given(b), patterns)
  {
    if Given(b) != [] {
      var x :| x in Given(a) && Hit(casefold, blob, patterns(x));
      assert x in Given(b);
    }
  }

  /** A choice that asks for the same as before, or for nothing by itself. */
  predicate ChoiceLooksWider(was: string, now: string, name: string, before: seq<string>, after: seq<string>) {
    Choice(now, name, after) == Choice(was, name, before) || (now != "s" && now != "bez")
  }

  /** What looks wider: longer or cleared lists, fewer amenities, choices kept or cleared. */
  ghost predicate ExtraLooksWider(e: Extra, f: Extra) {
    var before, after := Given(e.amenities), Given(f.amenities);
    && Extended(e.ownership, f.ownership) && Extended(e.condition, f.condition)
    && Extended(e.building, f.building) && Extended(e.equipped, f.equipped)
    && (forall a :: a in after ==> a in before)
    && ChoiceLooksWider(e.roommate, f.roommate, "roommate", before, after)
    && ChoiceLooksWider(e.pets, f.pets, "pets", before, after)
    && ChoiceLooksWider(e.shortTerm, f.shortTerm, "short_term", before, after)
  }

  /** A choice was cleared that is ticked among the amenities, and the listing shows no sign of it. */
  predicate ChoiceNarrows(was: string, now: string, name: string, amenities: seq<string>, hit: bool) {
    was != "" && now == "" && name in amenities && !hit
  }

  predicate ChoicesNarrow(t: Texts, e: Extra, f: Extra) {
    || ChoiceNarrows(e.roommate, f.roommate, "roommate", Given(f.amenities), RoommateHit(t))
    || ChoiceNarrows(e.pets, f.pets, "pets", Given(f.amenities), PetsHit(t))
    || ChoiceNarrows(e.shortTerm, f.shortTerm, "short_term", Given(f.amenities), ShortTermHit(t))
  }

  lemma ChoiceStays(was: string, now: string, name: string, before: seq<string>, after: seq<string>, hit: bool)
    requires ChoiceLooksWider(was, now, name, before, after) && (name in after ==> name in before)
    requires TriOk(Choice(was, name, before), hit)
    ensures TriOk(Choice(now, name, after), hit) <==> !ChoiceNarrows(was, now, name, after, hit)
  {
  }

  /** An edit that looks like a widening loses a matching listing exactly when a choice is cleared that is ticked among
      the amenities too and of which the listing has no sign. */
  lemma ExtraWidensExactly(casefold: Folding, t: Texts, e: Extra, f: Extra)
    requires ExtraLooksWider(e, f) && ExtraMatches(casefold, t, e)
    ensures ExtraMatches(casefold, t, f) <==> !ChoicesNarrow(t, e, f)
  {
    ListWidens(casefold, t.blob, e.ownership, f.ownership, OwnershipPatterns);
    ListWidens(casefold, t.blob, e.condition, f.condition, ConditionPatterns);
    ListWidens(casefold, t.blob, e.building, f.building, BuildingPatterns);
    ListWidens(casefold, t.blob, e.equipped, f.equipped, EquippedPatterns);
    var before, after := Given(e.amenities), Given(f.amenities);
    ChoiceStays(e.roommate, f.roommate, "roommate", before, after, RoommateHit(t));
    ChoiceStays(e.pets, f.pets, "pets", before, after, PetsHit(t));
    ChoiceStays(e.shortTerm, f.shortTerm, "short_term", before, after, ShortTermHit(t));
  }

  /** Clearing one of the three choices loses a matching listing exactly when the choice is ticked among the amenities
      too and the listing has no sign of it. */
  lemma ClearedChoiceNarrowsExactly(casefold: Folding, t: Texts, e: Extra)
    requires ExtraMatches(casefold, t, e)
    ensures ExtraMatches(casefold, t, e.(roommate := "")) <==> "roommate" !in Given(e.amenities) || RoommateHit(t)
    ensures ExtraMatches(casefold, t, e.(pets := "")) <==> "pets" !in Given(e.amenities) || PetsHit(t)
    ensures ExtraMatches(casefold, t, e.(shortTerm := "")) <==> "short_term" !in Given(e.amenities) || ShortTermHit(t)
  {
  }

  /** For example, one that excludes roommates and ticks them as well. */
  lemma ClearedRoommateExample(casefold: Folding)
    ensures var e := NO_EXTRA.(amenities := ["roommate"], roommate := "bez");
            ExtraMatches(casefold, Texts("", "", "", ""), e)
            && !ExtraMatches(casefold, Texts("", "", "", ""), e.(roommate := ""))
  {
    assert Given([]) == [];
    assert forall a :: a in Given(["roommate"]) ==> a == "roommate";
  }

  // The tests as loops with early returns

  method AnyPattern(casefold: Folding, blob: string, patterns: seq<string>) returns (hit: bool)
    ensures hit == Hit(casefold, blob, patterns)
  {
    for i := 0 to |patterns|
      invariant forall j :: 0 <= j < i ==> !Contains(blob, casefold(patterns[j]))
    {
      if Contains(blob, casefold(patterns[i])) {
        return true;
      }
    }
    return false;
  }

  /** The patterns of all choices of a list, one after another, and whether one of them occurs. */
  method ListTest(casefold: Folding, blob: string, xs: seq<string>, patterns: Patterns) returns (ok: bool)
    ensures ok == ListOk(casefold, blob, xs, patterns)
  {
    if xs == [] {
      return true;
    }
    for i := 0 to |xs|
      invariant forall j :: 0 <= j < i ==> !Hit(casefold, blob, patterns(xs[j]))
    {
      var hit := AnyPattern(casefold, blob, patterns(xs[i]));
      if hit {
        return true;
      }
    }
    return false;
  }

  method AmenitiesTest(casefold: Folding, blob: string, amenities: seq<string>) returns (ok: bool)
    ensures ok == AmenitiesOk(casefold, blob, amenities)
  {
    for i := 0 to |amenities|
      invariant forall j :: 0 <= j < i && amenities[j] !in CHOSEN ==> Contains(blob, casefold(Quoted(amenities[j])))
    {
      if amenities[i] !in CHOSEN && !Contains(blob, casefold(Quoted(amenities[i]))) {
        return false;
      }
    }
    return true;
  }

  /** `matches`. */
  method ExtraTest(casefold: Folding, t: Texts, e: Extra) returns (ok: bool)
    ensures ok == ExtraMatches(casefold, t, e)
  {
    ok := ListTest(casefold, t.blob, Given(e.ownership), OwnershipPatterns);
    if !ok {
      return;
    }
    ok := ListTest(casefold, t.blob, Given(e.condition), ConditionPatterns);
    if !ok {
      return;
    }
    ok := ListTest(casefold, t.blob, Given(e.building), BuildingPatterns);
    if !ok {
      return;
    }
    ok := ListTest(casefold, t.blob, Given(e.equipped), EquippedPatterns);
    if !ok {
      return;
    }
    var amenities := Given(e.amenities);
    ok := AmenitiesTest(casefold, t.blob, amenities);
    if !ok {
      return;
    }
    ok := TriOk(Choice(e.roommate, "roommate", amenities), RoommateHit(t))
          && TriOk(Choice(e.pets, "pets", amenities), PetsHit(t))
          && TriOk(Choice(e.shortTerm, "short_term", amenities), ShortTermHit(t));
  }
}
