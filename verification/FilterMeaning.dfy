/** What translated filter tokens mean: read off the spelling of the size tokens and the labels under which the portals
    show their tokens, and not off the translator's tables. */
module FilterMeaning {
  import opened Seqs
  import opened FilterLists
  import opened FilterBridge

  /** A converted list holds exactly the tokens that mean the same as one of the given ones. */
  ghost predicate SameMeaning(same: (Token, Token) -> bool, ts: seq<Token>, result: seq<Token>) {
    forall u :: u in result <==> exists t :: t in ts && same(t, u)
  }

  lemma TranslatedMeansSame(out: Token -> seq<Token>, same: (Token, Token) -> bool, ts: seq<Token>)
    requires forall t, u :: u in out(t) <==> same(t, u)
    ensures SameMeaning(same, ts, FlatMap(out, ts)) && SameMeaning(same, ts, Dedup(FlatMap(out, ts)))
  {
    DedupMembers(FlatMap(out, ts));
    forall u ensures u in FlatMap(out, ts) <==> exists t :: t in ts && same(t, u) {
      if u in FlatMap(out, ts) { var t := FlatMapSource(out, ts, u); }
      if t :| t in ts && same(t, u) { FlatMapMembers(out, ts, t, u); }
    }
  }

  // ------------------------------------------------------------------ sizes --

  /** A flat with this many rooms, with a kitchenette or a kitchen, as the three portals spell it. */
  function SrSize(rooms: char, kk: bool): Token { [rooms] + if kk then "+kk" else "+1" }

  function BrSize(rooms: char, kk: bool): Token { "DISP_" + [rooms] + if kk then "_KK" else "_1" }

  function IdnesSize(rooms: char, kk: bool): Token { [rooms] + if kk then "-kk" else "-1" }

  /** The sizes that Bezrealitky offers: one to seven rooms and two more. */
  ghost predicate IsBrSize(b: Token) {
    (exists d, kk :: '1' <= d <= '7' && b == BrSize(d, kk)) || b == "GARSONIERA" || b == "OSTATNI"
  }

  /** A Sreality size and a Bezrealitky size name the same flats. */
  ghost predicate SameSize(s: Token, b: Token) {
    || (exists d, kk :: '1' <= d <= '5' && s == SrSize(d, kk) && b == BrSize(d, kk))
    || (s == "6-a-vice" && exists d, kk :: '6' <= d <= '7' && b == BrSize(d, kk))
    || (s == "pokoj" && b == "GARSONIERA") || (s == "atypicky" && b == "OSTATNI")
  }

  lemma SmallSizes(d: char, kk: bool)
    requires '1' <= d <= '5'
    ensures SrSize(d, kk) in SR_SIZES && SR_SIZES[SrSize(d, kk)] == BrSize(d, kk)
  {
    if kk { WithKitchenette(d); } else { WithKitchen(d); }
  }

  lemma WithKitchenette(d: char)
    requires '1' <= d <= '5'
    ensures SrSize(d, true) in SR_SIZES && SR_SIZES[SrSize(d, true)] == BrSize(d, true)
  {
    assert SrSize('1', true) == "1+kk" && SrSize('2', true) == "2+kk" && SrSize('3', true) == "3+kk";
    assert SrSize('4', true) == "4+kk" && SrSize('5', true) == "5+kk";
    assert d == '1' || d == '2' || d == '3' || d == '4' || d == '5';
  }

  lemma WithKitchen(d: char)
    requires '1' <= d <= '5'
    ensures SrSize(d, false) in SR_SIZES && SR_SIZES[SrSize(d, false)] == BrSize(d, false)
  {
    assert SrSize('1', false) == "1+1" && SrSize('2', false) == "2+1" && SrSize('3', false) == "3+1";
    assert SrSize('4', false) == "4+1" && SrSize('5', false) == "5+1";
    assert d == '1' || d == '2' || d == '3' || d == '4' || d == '5';
  }

  lemma SizesInvert(t: Token)
    requires t in SR_SIZES
    ensures SR_SIZES[t] in BR_SIZES && BR_SIZES[SR_SIZES[t]] == t
  {
  }

  lemma SizesInvertBack(u: Token)
    requires u in BR_SIZES
    ensures BR_SIZES[u] in SR_SIZES && SR_SIZES[BR_SIZES[u]] == u
  {
  }

  /** The sizes in the table are those with a number of rooms, and the two special ones. */
  lemma TableSizes(t: Token)
    requires t in SR_SIZES
    ensures t == "pokoj" || t == "atypicky" || exists d, kk :: '1' <= d <= '5' && t == SrSize(d, kk)
  {
    assert SR_SIZES.Keys == {"1+1", "1+kk", "2+1", "2+kk", "3+1", "3+kk", "4+1", "4+kk", "5+1", "5+kk", "pokoj", "atypicky"};
    if t != "pokoj" && t != "atypicky" {
      assert t == SrSize(t[0], t[2] == 'k');
    }
  }

  lemma SizeToBrMeans(t: Token, u: Token)
    ensures u in SizeToBr(t) <==> SameSize(t, u)
  {
    BigSizes(u);
    if t in SR_SIZES {
      TableSizes(t);
      if d, kk :| '1' <= d <= '5' && t == SrSize(d, kk) { SmallSizes(d, kk); }
    }
    if d, kk :| '1' <= d <= '5' && t == SrSize(d, kk) && u == BrSize(d, kk) { SmallSizes(d, kk); }
  }

  lemma SizeToSrMeans(u: Token, t: Token)
    ensures t in SizeToSr(u) <==> SameSize(t, u)
  {
    BigSizes(u);
    if u in BIG_SIZES {
      var d, kk :| '6' <= d <= '7' && u == BrSize(d, kk);
      assert u[5] == d;
    } else {
      SizeToBrMeans(t, u);
      if u in BR_SIZES { SizesInvertBack(u); }
      if t in SR_SIZES { SizesInvert(t); }
    }
  }

  lemma BigSizes(b: Token)
    ensures b in BIG_SIZES <==> exists d, kk :: '6' <= d <= '7' && b == BrSize(d, kk)
  {
    assert BrSize('6', true) == "DISP_6_KK" && BrSize('6', false) == "DISP_6_1";
    assert BrSize('7', true) == "DISP_7_KK" && BrSize('7', false) == "DISP_7_1";
    forall d, kk | '6' <= d <= '7' ensures BrSize(d, kk) in BIG_SIZES {
      assert d == '6' || d == '7';
    }
  }

  // ------------------------------------------------------------------ buildings --

  /** The buildings that Bezrealitky offers. */
  ghost predicate IsBrBuilding(b: Token) { b in {"BRICK", "MIXED", "PANEL", "PREFAB", "SKELET", "STONE"} }

  /** The other buildings of Sreality are all that Bezrealitky has besides brick and panel. */
  ghost predicate SameBuilding(s: Token, b: Token) {
    || (s == "cihlova" && b == "BRICK") || (s == "panelova" && b == "PANEL")
    || (s == "ostatni" && IsBrBuilding(b) && b != "BRICK" && b != "PANEL")
  }

  lemma BuildingToBrMeans(t: Token, u: Token)
    ensures u in BuildingToBr(t) <==> SameBuilding(t, u)
  {
  }

  lemma BuildingToSrMeans(u: Token, t: Token)
    ensures t in BuildingToSr(u) <==> SameBuilding(t, u)
  {
  }

  ghost predicate IsIdnesBuilding(i: Token) {
    i in {"cihlova", "panelova", "drevena", "kamenna", "skeletova", "montovana", "smisena"}
  }

  ghost predicate SameIdnesBuilding(s: Token, i: Token) {
    IsIdnesBuilding(i) && s == if i == "cihlova" || i == "panelova" then i else "ostatni"
  }

  /** Sreality filters that already carry an iDNES building keep it. */
  ghost predicate IdnesBuildingOf(s: Token, i: Token) { SameIdnesBuilding(s, i) || (s == i && IsIdnesBuilding(i)) }

  lemma BuildingToIdnesMeans(t: Token, u: Token)
    ensures u in BuildingToIdnes(t) <==> IdnesBuildingOf(t, u)
  {
  }

  lemma BuildingFromIdnesMeans(u: Token, t: Token)
    ensures t in By(IDNES_TO_SR_BUILD)(u) <==> SameIdnesBuilding(t, u)
  {
  }

  // ------------------------------------------------------------------ labels --

  /** The label of each Sreality token, as its portal shows it. */
  const SR_NAMES: map<Token, string> := map[
    "developerske-projekty" := "Projekt", "dobry-stav" := "Dobrý", "k-demolici" := "K demolici",
    "novostavby" := "Novostavba", "po-rekonstrukci" := "Po rekonstrukci", "pred-rekonstrukci" := "Před rekonstrukcí",
    "spatny-stav" := "Špatný", "v-rekonstrukci" := "V rekonstrukci", "ve-vystavbe" := "Ve výstavbě",
    "velmi-dobry-stav" := "Velmi dobrý"]

  /** The condition that Bezrealitky shows under each label. */
  const BR_CONDITION_OF: map<string, Token> := map[
    "Po částečné rekonstrukci" := "AFTER_PARTIAL_RECONSTRUCTION", "Po rekonstrukci" := "AFTER_RECONSTRUCTION",
    "Špatný" := "BAD", "Před rekonstrukcí" := "BEFORE_RECONSTRUCTION", "Ve výstavbě" := "CONSTRUCTION",
    "K demolici" := "DEMOLITION", "Dobrý" := "GOOD", "V rekonstrukci" := "IN_RECONSTRUCTION", "Novostavba" := "NEW",
    "Projekt" := "PROJECT", "Velmi dobrý" := "VERY_GOOD"]

  /** Both portals show the two tokens under one label. */
  ghost predicate SameLabel(labels: map<Token, string>, tokens: map<string, Token>, t: Token, u: Token) {
    t in labels && labels[t] in tokens && tokens[labels[t]] == u
  }

  ghost predicate SameCondition(s: Token, b: Token) { SameLabel(SR_NAMES, BR_CONDITION_OF, s, b) }

  lemma ConditionToBrMeans(t: Token, u: Token)
    ensures u in By(SR_CONDITIONS)(t) <==> SameCondition(t, u)
  {
    assert t in SR_CONDITIONS <==> t in SR_NAMES;
    if t in SR_CONDITIONS { ConditionLabels(t); }
  }

  lemma ConditionLabels(t: Token)
    requires t in SR_CONDITIONS
    ensures t in SR_NAMES && SR_NAMES[t] in BR_CONDITION_OF && BR_CONDITION_OF[SR_NAMES[t]] == SR_CONDITIONS[t]
  {
  }

  /** A partial reconstruction is taken for a reconstruction. */
  ghost predicate ConditionOf(s: Token, b: Token) {
    SameCondition(s, b) || (s == "po-rekonstrukci" && b == "AFTER_PARTIAL_RECONSTRUCTION")
  }

  lemma ConditionToSrMeans(u: Token, t: Token)
    ensures t in ConditionToSr(u) <==> ConditionOf(t, u)
  {
    ConditionToBrMeans(t, u);
    if u in BR_CONDITIONS { ConditionsInvertBack(u); }
    if t in SR_CONDITIONS { ConditionsInvert(t); }
    NotPartial(t);
  }

  lemma NotPartial(t: Token)
    ensures !SameCondition(t, "AFTER_PARTIAL_RECONSTRUCTION")
  {
  }

  lemma ConditionsInvert(t: Token)
    requires t in SR_CONDITIONS
    ensures SR_CONDITIONS[t] in BR_CONDITIONS && BR_CONDITIONS[SR_CONDITIONS[t]] == t
  {
  }

  lemma ConditionsInvertBack(u: Token)
    requires u in BR_CONDITIONS
    ensures BR_CONDITIONS[u] in SR_CONDITIONS && SR_CONDITIONS[BR_CONDITIONS[u]] == u
  {
  }

  /** The condition that iDNES shows under each label; it says "stav" where Sreality leaves it out. */
  const IDNES_CONDITION_OF: map<string, Token> := map[
    "Novostavba" := "novostavba", "Projekt" := "projekt", "Ve výstavbě" := "ve-vystavbe", "Dobrý" := "dobry-stav",
    "Udržovaný" := "udrzovany", "Špatný" := "spatny-stav", "Po rekonstrukci" := "po-rekonstrukci",
    "V rekonstrukci" := "v-rekonstrukci", "Před rekonstrukcí" := "pred-rekonstrukci", "K demolici" := "k-demolici"]

  /** What is very good is good on iDNES. */
  ghost predicate IdnesConditionOf(s: Token, i: Token) {
    SameLabel(SR_NAMES, IDNES_CONDITION_OF, s, i) || (s == "velmi-dobry-stav" && i == "dobry-stav")
  }

  /** What is kept up is good on Sreality. */
  ghost predicate ConditionOfIdnes(s: Token, i: Token) {
    SameLabel(SR_NAMES, IDNES_CONDITION_OF, s, i) || (s == "dobry-stav" && i == "udrzovany")
  }

  lemma ConditionToIdnesMeans(t: Token, u: Token)
    ensures u in By(SR_TO_IDNES_COND)(t) <==> IdnesConditionOf(t, u)
  {
    assert t in SR_TO_IDNES_COND <==> t in SR_NAMES;
    if t in SR_TO_IDNES_COND { IdnesConditionLabels(t); }
  }

  lemma IdnesConditionLabels(t: Token)
    requires t in SR_TO_IDNES_COND
    ensures t in SR_NAMES
    ensures if t == "velmi-dobry-stav" then SR_NAMES[t] !in IDNES_CONDITION_OF && SR_TO_IDNES_COND[t] == "dobry-stav"
            else SR_NAMES[t] in IDNES_CONDITION_OF && IDNES_CONDITION_OF[SR_NAMES[t]] == SR_TO_IDNES_COND[t]
  {
  }

  lemma ConditionFromIdnesMeans(u: Token, t: Token)
    ensures t in By(IDNES_TO_SR_COND)(u) <==> ConditionOfIdnes(t, u)
  {
    if u in IDNES_TO_SR_COND { IdnesConditionBackLabels(u); }
    if t in SR_NAMES && SR_NAMES[t] in IDNES_CONDITION_OF { IdnesConditionThereLabels(t); }
  }

  lemma IdnesConditionBackLabels(u: Token)
    requires u in IDNES_TO_SR_COND
    ensures IDNES_TO_SR_COND[u] in SR_NAMES
    ensures u != "udrzovany" ==> SameLabel(SR_NAMES, IDNES_CONDITION_OF, IDNES_TO_SR_COND[u], u)
    ensures u == "udrzovany" ==> IDNES_TO_SR_COND[u] == "dobry-stav"
  {
  }

  lemma IdnesConditionThereLabels(t: Token)
    requires t in SR_NAMES && SR_NAMES[t] in IDNES_CONDITION_OF
    ensures var u := IDNES_CONDITION_OF[SR_NAMES[t]]; u in IDNES_TO_SR_COND && IDNES_TO_SR_COND[u] == t && u != "udrzovany"
  {
  }

  // ------------------------------------------------------------------ offers, ownership, extras, districts --

  ghost predicate SameOffer(s: Token, b: Token) {
    (s == "pronajem" && b == "PRONAJEM") || (s == "prodej" && b == "PRODEJ")
  }

  ghost predicate SameIdnesOffer(s: Token, i: Token) {
    (s == i && (s == "pronajem" || s == "prodej")) || (s == "drazby" && i == "drazba")
  }

  ghost predicate SameOwnership(s: Token, b: Token) {
    (s == "druzstevni" && b == "DRUZSTEVNI") || (s == "osobni" && b == "OSOBNI") || (s == "statni-obecni" && b == "OBECNI")
  }

  ghost predicate SameIdnesOwnership(s: Token, i: Token) { s == i && (s == "osobni" || s == "druzstevni") }

  /** State and municipal ownership is other ownership on iDNES, but not the other way round. */
  ghost predicate IdnesOwnershipOf(s: Token, i: Token) { SameIdnesOwnership(s, i) || (s == "statni-obecni" && i == "jine") }

  ghost predicate SameExtra(s: Token, b: Token) {
    || (s == "balkon" && b == "balcony") || (s == "lodzie" && b == "loggia") || (s == "terasa" && b == "terrace")
    || (s == "sklep" && b == "cellar") || (s == "garaz" && b == "garage") || (s == "parkovani" && b == "parking")
    || (s == "vytah" && b == "lift") || (s == "bezbarierovy" && b == "barrierFree")
  }

  /** The extras that Sreality and iDNES have in common. */
  ghost predicate SameIdnesExtra(s: Token, i: Token) {
    s == i && s in {"balkon", "lodzie", "terasa", "zahrada", "sklep", "garaz", "parkovani", "vytah", "bezbarierovy"}
  }

  lemma SmallTablesMean(t: Token, u: Token)
    ensures u in By(SR_OFFERS)(t) <==> SameOffer(t, u)
    ensures t in By(BR_OFFERS)(u) <==> SameOffer(t, u)
    ensures u in By(SR_OWNERSHIP)(t) <==> SameOwnership(t, u)
    ensures t in By(BR_OWNERSHIP)(u) <==> SameOwnership(t, u)
  {
  }

  lemma ExtrasMean(t: Token, u: Token)
    ensures u in By(SR_EXTRAS)(t) <==> SameExtra(t, u)
    ensures t in By(BR_EXTRAS)(u) <==> SameExtra(t, u)
  {
  }

  lemma IdnesTablesMean(t: Token, u: Token)
    ensures u in By(SR_TO_IDNES_OFFER)(t) <==> SameIdnesOffer(t, u)
    ensures t in By(IDNES_TO_SR_OFFER)(u) <==> SameIdnesOffer(t, u)
    ensures u in By(SR_TO_IDNES_OWN)(t) <==> IdnesOwnershipOf(t, u)
    ensures t in By(IDNES_TO_SR_OWN)(u) <==> SameIdnesOwnership(t, u)
    ensures u in SharedExtra(t) <==> SameIdnesExtra(t, u)
  {
  }

  /** The places that Sreality names by a slug and Bezrealitky by the number of a map area. */
  const SR_PLACES: map<Token, string> := map[
    "praha" := "Praha", "praha-1" := "Praha 1", "praha-2" := "Praha 2", "praha-3" := "Praha 3", "praha-4" := "Praha 4",
    "praha-5" := "Praha 5", "praha-6" := "Praha 6", "praha-7" := "Praha 7", "praha-8" := "Praha 8",
    "praha-9" := "Praha 9", "praha-10" := "Praha 10", "brno" := "Brno", "ostrava" := "Ostrava", "plzen" := "Plzeň"]
  const BR_PLACE_OF: map<string, Token> := map[
    "Česko" := "R51684", "Praha" := "R435514", "Praha 1" := "R15107966", "Praha 2" := "R19999122",
    "Praha 3" := "R19999121", "Praha 4" := "R19999068", "Praha 5" := "R19999086", "Praha 6" := "R19999115",
    "Praha 7" := "R19999114", "Praha 8" := "R19999109", "Praha 9" := "R19999082", "Praha 10" := "R19999075",
    "Brno" := "R438171", "Ostrava" := "R437354", "Plzeň" := "R438344"]

  ghost predicate SamePlace(s: Token, b: Token) { SameLabel(SR_PLACES, BR_PLACE_OF, s, b) }

  lemma DistrictToBrMeans(t: Token, u: Token)
    ensures u in By(SR_DISTRICTS)(t) <==> SamePlace(t, u)
  {
    assert t in SR_DISTRICTS <==> t in SR_PLACES;
    if t in SR_DISTRICTS { PlaceLabels(t); }
  }

  lemma PlaceLabels(t: Token)
    requires t in SR_DISTRICTS
    ensures t in SR_PLACES && SR_PLACES[t] in BR_PLACE_OF && BR_PLACE_OF[SR_PLACES[t]] == SR_DISTRICTS[t]
  {
  }

  // ------------------------------------------------------------------ iDNES sizes --

  ghost predicate SameIdnesSize(s: Token, i: Token) {
    || (exists d, kk :: '1' <= d <= '5' && s == SrSize(d, kk) && i == IdnesSize(d, kk))
    || (s == "6-a-vice" && i == "6-kk-a-vetsi") || (s == "pokoj" && i == "pokoj") || (s == "atypicky" && i == "atypicke")
  }

  lemma IdnesWithKitchenette(d: char)
    requires '1' <= d <= '5'
    ensures SrSize(d, true) in SR_TO_IDNES_SIZE && SR_TO_IDNES_SIZE[SrSize(d, true)] == IdnesSize(d, true)
  {
    assert SrSize('1', true) == "1+kk" && SrSize('2', true) == "2+kk" && SrSize('3', true) == "3+kk";
    assert SrSize('4', true) == "4+kk" && SrSize('5', true) == "5+kk";
    assert d == '1' || d == '2' || d == '3' || d == '4' || d == '5';
  }

  lemma IdnesWithKitchen(d: char)
    requires '1' <= d <= '5'
    ensures SrSize(d, false) in SR_TO_IDNES_SIZE && SR_TO_IDNES_SIZE[SrSize(d, false)] == IdnesSize(d, false)
  {
    assert SrSize('1', false) == "1+1" && SrSize('2', false) == "2+1" && SrSize('3', false) == "3+1";
    assert SrSize('4', false) == "4+1" && SrSize('5', false) == "5+1";
    assert d == '1' || d == '2' || d == '3' || d == '4' || d == '5';
  }

  lemma SizeToIdnesMeans(t: Token, u: Token)
    ensures u in By(SR_TO_IDNES_SIZE)(t) <==> SameIdnesSize(t, u)
  {
    if t in SR_TO_IDNES_SIZE && t != "6-a-vice" {
      assert t in SR_SIZES;
      TableSizes(t);
      if d, kk :| '1' <= d <= '5' && t == SrSize(d, kk) {
        if kk { IdnesWithKitchenette(d); } else { IdnesWithKitchen(d); }
      }
    }
    if d, kk :| '1' <= d <= '5' && t == SrSize(d, kk) && u == IdnesSize(d, kk) {
      if kk { IdnesWithKitchenette(d); } else { IdnesWithKitchen(d); }
    }
  }

  lemma IdnesSizesInvert(t: Token)
    requires t in SR_TO_IDNES_SIZE
    ensures SR_TO_IDNES_SIZE[t] in IDNES_TO_SR_SIZE && IDNES_TO_SR_SIZE[SR_TO_IDNES_SIZE[t]] == t
  {
  }

  lemma IdnesSizesInvertBack(u: Token)
    requires u in IDNES_TO_SR_SIZE
    ensures IDNES_TO_SR_SIZE[u] in SR_TO_IDNES_SIZE && SR_TO_IDNES_SIZE[IDNES_TO_SR_SIZE[u]] == u
  {
  }

  lemma SizeFromIdnesMeans(u: Token, t: Token)
    ensures t in By(IDNES_TO_SR_SIZE)(u) <==> SameIdnesSize(t, u)
  {
    SizeToIdnesMeans(t, u);
    if u in IDNES_TO_SR_SIZE { IdnesSizesInvertBack(u); }
    if t in SR_TO_IDNES_SIZE { IdnesSizesInvert(t); }
  }

  // ------------------------------------------------------------------ the whole country --

  /** The fourteen regions. */
  ghost predicate IsRegion(s: Token) {
    s in {"jihocesky-kraj", "jihomoravsky-kraj", "karlovarsky-kraj", "kralovehradecky-kraj", "liberecky-kraj",
          "moravskoslezsky-kraj", "olomoucky-kraj", "pardubicky-kraj", "plzensky-kraj", "praha", "stredocesky-kraj",
          "ustecky-kraj", "vysocina-kraj", "zlinsky-kraj"}
  }

  lemma RegionsAre(s: Token)
    ensures s in REGIONS <==> IsRegion(s)
  {
  }

  /** A filter means the whole country if it has all regions or names it. */
  ghost predicate Everywhere(ts: seq<Token>, names: Naming) {
    (forall r :: IsRegion(r) ==> r in ts) || exists t :: t in ts && names.isCountry(t, t)
  }

  lemma CountryIs(ts: seq<Token>, names: Naming)
    ensures WholeCountry(ts, names) <==> Everywhere(ts, names)
  {
    forall r ensures r in REGIONS <==> IsRegion(r) { RegionsAre(r); }
  }

  /** `t` is one of the non-empty texts between the commas of `s`. */
  ghost predicate IsPart(s: string, t: string) {
    exists i, j :: PartAt(s, t, i, j)
  }

  ghost predicate PartAt(s: string, t: string, i: int, j: int) {
    && 0 <= i < j <= |s| && s[i..j] == t && (forall k :: i <= k < j ==> s[k] != ',')
    && (i == 0 || s[i - 1] == ',') && (j == |s| || s[j] == ',')
  }

  /** Behind a comma, the parts are those of the rest. */
  lemma PartBehind(s: string, t: string, c: nat, i: int, j: int)
    requires c < |s| && s[c] == ',' && i >= 0
    ensures PartAt(s[c + 1..], t, i, j) <==> PartAt(s, t, c + 1 + i, c + 1 + j)
  {
    var rest := s[c + 1..];
    assert forall k :: 0 <= k < |rest| ==> rest[k] == s[c + 1 + k];
    if 0 <= i < j <= |rest| {
      assert rest[i..j] == s[c + 1 + i..c + 1 + j];
      if PartAt(s, t, c + 1 + i, c + 1 + j) {
        assert forall k :: i <= k < j ==> rest[k] == s[c + 1 + k];
      }
      if PartAt(rest, t, i, j) {
        forall k | c + 1 + i <= k < c + 1 + j ensures s[k] != ',' { assert s[k] == rest[k - c - 1]; }
      }
    }
  }

  lemma FirstPart(s: string, t: string, c: nat)
    requires c <= |s| && ',' !in s[..c] && (c < |s| ==> s[c] == ',')
    ensures t in NonEmpty(s[..c]) <==> PartAt(s, t, 0, c)
    ensures forall i, j :: PartAt(s, t, i, j) && i <= c ==> i == 0 && j == c
  {
    forall k | 0 <= k < c ensures s[k] != ',' { assert s[k] == s[..c][k]; }
  }

  lemma {:induction false} PartsAre(s: string, t: string)
    ensures t in Parts(s) <==> IsPart(s, t)
  {
    if ',' in s {
      var c := FirstComma(s);
      PartsAre(s[c + 1..], t);
      FirstPart(s, t, c);
      LaterParts(s, t, c);
    } else {
      assert s[..|s|] == s;
      FirstPart(s, t, |s|);
    }
  }

  lemma LaterParts(s: string, t: string, c: nat)
    requires c < |s| && s[c] == ','
    ensures IsPart(s[c + 1..], t) <==> exists i, j :: PartAt(s, t, i, j) && i > c
  {
    var rest := s[c + 1..];
    if i, j :| PartAt(rest, t, i, j) { PartBehind(s, t, c, i, j); }
    if i, j :| PartAt(s, t, i, j) && i > c { PartBehind(s, t, c, i - c - 1, j - c - 1); }
  }

  /** A Bezrealitky locality on Sreality: all regions for the country, the place of the same name where there is one, and
      otherwise what its slug is guessed to be. */
  ghost predicate PlaceFor(names: Naming, u: Token, t: Token) {
    var name := Label(BR_DISTRICT_LABELS)(u);
    if u == "R51684" || names.isCountry(u, name) then IsRegion(t)
    else if exists s :: SamePlace(s, u) then SamePlace(t, u)
    else u != "" && IsPart(names.guess(u, name), t)
  }

  lemma DistrictToSrMeans(names: Naming, u: Token, t: Token)
    ensures t in DistrictToSr(names)(u) <==> PlaceFor(names, u, t)
  {
    RegionsAre(t);
    if u == "R51684" || names.isCountry(u, Label(BR_DISTRICT_LABELS)(u)) {
    } else if u in BR_DISTRICTS {
      KnownPlace(u, BR_DISTRICTS[u]);
      KnownPlace(u, t);
    } else {
      UnknownPlace(u);
      PartsAre(names.guess(u, Label(BR_DISTRICT_LABELS)(u)), t);
    }
  }

  lemma KnownPlace(u: Token, t: Token)
    requires u in BR_DISTRICTS
    ensures t == BR_DISTRICTS[u] <==> SamePlace(t, u)
  {
    PlacesInvertBack(u);
    DistrictToBrMeans(BR_DISTRICTS[u], u);
    DistrictToBrMeans(t, u);
    if t in SR_DISTRICTS { PlacesInvert(t); }
  }

  lemma UnknownPlace(u: Token)
    requires u !in BR_DISTRICTS
    ensures forall s :: !SamePlace(s, u)
  {
    forall s ensures !SamePlace(s, u) {
      DistrictToBrMeans(s, u);
      if s in SR_DISTRICTS { PlacesInvert(s); }
    }
  }

  lemma DistrictsMeanTheSame(g: BrFilters, names: Naming)
    ensures forall t :: t in BrToSr(g, names).filters.districts <==> exists u :: u in g.districts && PlaceFor(names, u, t)
  {
    var same := (u: Token, t: Token) => PlaceFor(names, u, t);
    forall u, t ensures t in DistrictToSr(names)(u) <==> same(u, t) { DistrictToSrMeans(names, u, t); }
    TranslatedMeansSame(DistrictToSr(names), same, g.districts);
    assert SameMeaning(same, g.districts, BrToSr(g, names).filters.districts);
  }

  lemma PlacesInvert(t: Token)
    requires t in SR_DISTRICTS
    ensures SR_DISTRICTS[t] in BR_DISTRICTS && BR_DISTRICTS[SR_DISTRICTS[t]] == t
  {
  }

  lemma PlacesInvertBack(u: Token)
    requires u in BR_DISTRICTS
    ensures BR_DISTRICTS[u] in SR_DISTRICTS && SR_DISTRICTS[BR_DISTRICTS[u]] == u
  {
  }

  // ------------------------------------------------------------------ the filters as a whole --

  /** The Bezrealitky search means what the Sreality search means: list by list, and with the same price and area. */
  lemma BezrealitkyMeansTheSame(f: SrFilters, names: Naming)
    ensures var r := SrToBr(f, names).filters;
            && SameMeaning(SameSize, f.sizes, r.sizes) && SameMeaning(SameBuilding, f.buildings, r.buildings)
            && SameMeaning(SameCondition, f.conditions, r.conditions) && SameMeaning(SameOwnership, f.ownership, r.ownership)
            && SameMeaning(SameExtra, f.extras, r.extras)
            && (if exists t, u :: t in f.offers && SameOffer(t, u) then SameMeaning(SameOffer, f.offers, r.offers)
                else r.offers == ["PRONAJEM"])
            && (if Everywhere(f.districts, names) then r.districts == ["R51684"] && r.wholeCountryOutline && r.osmValue == "Česko"
                else SameMeaning(SamePlace, f.districts, r.districts) && !r.wholeCountryOutline)
            && r.price == f.price && r.area == f.area && r.estates == ["BYT"]
  {
    var r := SrToBr(f, names).filters;
    forall t, u ensures u in SizeToBr(t) <==> SameSize(t, u) { SizeToBrMeans(t, u); }
    TranslatedMeansSame(SizeToBr, SameSize, f.sizes);
    forall t, u ensures u in BuildingToBr(t) <==> SameBuilding(t, u) { BuildingToBrMeans(t, u); }
    TranslatedMeansSame(BuildingToBr, SameBuilding, f.buildings);
    forall t, u ensures u in By(SR_CONDITIONS)(t) <==> SameCondition(t, u) { ConditionToBrMeans(t, u); }
    TranslatedMeansSame(By(SR_CONDITIONS), SameCondition, f.conditions);
    forall t, u ensures u in By(SR_EXTRAS)(t) <==> SameExtra(t, u) { ExtrasMean(t, u); }
    TranslatedMeansSame(By(SR_EXTRAS), SameExtra, f.extras);
    OffersAndOwnership(f, names);
    PlacesMeanTheSame(f, names);
  }

  lemma OffersAndOwnership(f: SrFilters, names: Naming)
    ensures var r := SrToBr(f, names).filters;
            && SameMeaning(SameOwnership, f.ownership, r.ownership)
            && (if exists t, u :: t in f.offers && SameOffer(t, u) then SameMeaning(SameOffer, f.offers, r.offers)
                else r.offers == ["PRONAJEM"])
  {
    forall t, u
      ensures u in By(SR_OFFERS)(t) <==> SameOffer(t, u)
      ensures u in By(SR_OWNERSHIP)(t) <==> SameOwnership(t, u)
    {
      SmallTablesMean(t, u);
    }
    TranslatedMeansSame(By(SR_OFFERS), SameOffer, f.offers);
    TranslatedMeansSame(By(SR_OWNERSHIP), SameOwnership, f.ownership);
    DefaultIfNone(SameOffer, f.offers, Dedup(FlatMap(By(SR_OFFERS), f.offers)), "PRONAJEM");
  }

  /** An empty result stands for the default. */
  lemma DefaultIfNone(same: (Token, Token) -> bool, ts: seq<Token>, result: seq<Token>, default: Token)
    requires SameMeaning(same, ts, result)
    ensures if exists t, u :: t in ts && same(t, u) then Or(result, default) == result else Or(result, default) == [default]
  {
    if t, u :| t in ts && same(t, u) {
      assert u in result;
    } else if result != [] {
      assert result[0] in result;
    }
  }

  lemma PlacesMeanTheSame(f: SrFilters, names: Naming)
    ensures var r := SrToBr(f, names).filters;
            if Everywhere(f.districts, names) then r.districts == ["R51684"] && r.wholeCountryOutline && r.osmValue == "Česko"
            else SameMeaning(SamePlace, f.districts, r.districts) && !r.wholeCountryOutline
  {
    CountryIs(f.districts, names);
    forall t, u ensures u in By(SR_DISTRICTS)(t) <==> SamePlace(t, u) { DistrictToBrMeans(t, u); }
    TranslatedMeansSame(By(SR_DISTRICTS), SamePlace, f.districts);
  }

  /** The same relation read backwards. */
  ghost function Back(same: (Token, Token) -> bool): (Token, Token) -> bool { (u, t) => same(t, u) }

  /** An extra that Sreality has for an area range of Bezrealitky. */
  ghost predicate ExtraForArea(rest: BrRest, s: Token) {
    || (s == "balkon" && rest.balcony.Given()) || (s == "lodzie" && rest.loggia.Given())
    || (s == "sklep" && rest.cellar.Given()) || (s == "terasa" && rest.terrace.Given())
    || (s == "zahrada" && rest.garden.Given())
  }

  /** And the Sreality search means what the Bezrealitky search means, as far as Sreality can say it. */
  lemma SrealityMeansTheSame(g: BrFilters, names: Naming)
    ensures var r := BrToSr(g, names).filters;
            && SameMeaning(Back(SameSize), g.sizes, r.sizes) && SameMeaning(Back(SameBuilding), g.buildings, r.buildings)
            && SameMeaning(Back(ConditionOf), g.conditions, r.conditions)
            && SameMeaning(Back(SameOwnership), g.ownership, r.ownership)
            && (if exists u, t :: u in g.offers && Back(SameOffer)(u, t) then SameMeaning(Back(SameOffer), g.offers, r.offers)
                else r.offers == ["pronajem"])
            && (forall s :: s in r.extras <==> (exists u :: u in g.extras && SameExtra(s, u)) || ExtraForArea(g.rest, s))
            && (forall t :: t in r.districts <==> exists u :: u in g.districts && PlaceFor(names, u, t))
            && r.price == g.price && r.area == g.area && r.category == "byty"
  {
    var r := BrToSr(g, names).filters;
    forall u, t ensures t in SizeToSr(u) <==> Back(SameSize)(u, t) { SizeToSrMeans(u, t); }
    TranslatedMeansSame(SizeToSr, Back(SameSize), g.sizes);
    forall u, t ensures t in BuildingToSr(u) <==> Back(SameBuilding)(u, t) { BuildingToSrMeans(u, t); }
    TranslatedMeansSame(BuildingToSr, Back(SameBuilding), g.buildings);
    forall u, t ensures t in ConditionToSr(u) <==> Back(ConditionOf)(u, t) { ConditionToSrMeans(u, t); }
    TranslatedMeansSame(ConditionToSr, Back(ConditionOf), g.conditions);
    OffersBack(g, names);
    OwnershipBack(g, names);
    DistrictsMeanTheSame(g, names);
    ExtrasBack(g, names);
  }

  lemma OwnershipBack(g: BrFilters, names: Naming)
    ensures SameMeaning(Back(SameOwnership), g.ownership, BrToSr(g, names).filters.ownership)
  {
    forall u, t ensures t in By(BR_OWNERSHIP)(u) <==> Back(SameOwnership)(u, t) { SmallTablesMean(t, u); }
    TranslatedMeansSame(By(BR_OWNERSHIP), Back(SameOwnership), g.ownership);
  }

  lemma OffersBack(g: BrFilters, names: Naming)
    ensures var offers := BrToSr(g, names).filters.offers;
            if exists u, t :: u in g.offers && Back(SameOffer)(u, t) then SameMeaning(Back(SameOffer), g.offers, offers)
            else offers == ["pronajem"]
  {
    forall u, t ensures t in By(BR_OFFERS)(u) <==> Back(SameOffer)(u, t) { SmallTablesMean(t, u); }
    TranslatedMeansSame(By(BR_OFFERS), Back(SameOffer), g.offers);
    DefaultIfNone(Back(SameOffer), g.offers, Dedup(FlatMap(By(BR_OFFERS), g.offers)), "pronajem");
  }

  lemma ExtrasBack(g: BrFilters, names: Naming)
    ensures forall s :: s in BrToSr(g, names).filters.extras
                   <==> (exists u :: u in g.extras && SameExtra(s, u)) || ExtraForArea(g.rest, s)
  {
    var listed := FlatMap(By(BR_EXTRAS), g.extras);
    forall u, t ensures t in By(BR_EXTRAS)(u) <==> Back(SameExtra)(u, t) { ExtrasMean(t, u); }
    TranslatedMeansSame(By(BR_EXTRAS), Back(SameExtra), g.extras);
    DedupMembers(listed + AreaExtras(g.rest));
    forall s ensures s in listed <==> exists u :: u in g.extras && SameExtra(s, u) {
      assert (exists u :: u in g.extras && SameExtra(s, u)) <==> exists u :: u in g.extras && Back(SameExtra)(u, s);
    }
    forall s ensures s in AreaExtras(g.rest) <==> ExtraForArea(g.rest, s) { AreaExtrasAre(g.rest, s); }
  }

  lemma AreaExtrasAre(rest: BrRest, s: Token)
    ensures s in AreaExtras(rest) <==> ExtraForArea(rest, s)
  {
  }

  // ------------------------------------------------------------------ nothing of the vocabulary is skipped --

  lemma {:induction false} NothingSkipped(out: Token -> seq<Token>, caption: Token -> string, ts: seq<Token>)
    requires forall t :: t in ts ==> out(t) != []
    ensures FlatMap(Skip(out, caption), ts) == []
  {
    if ts != [] {
      NothingSkipped(out, caption, Front(ts));
    }
  }

  /** Every size and every building that Bezrealitky offers has a translation: a search with only such leaves the list of
      skipped filters as it is without them. */
  lemma VocabularyIsTranslated(g: BrFilters, names: Naming)
    requires forall u :: u in g.sizes ==> IsBrSize(u)
    requires forall u :: u in g.buildings ==> IsBrBuilding(u)
    ensures BrToSr(g, names).skipped == BrToSr(g.(sizes := [], buildings := []), names).skipped
  {
    forall u | u in g.sizes ensures SizeToSr(u) != [] { SizeIsTranslated(u); }
    NothingSkipped(SizeToSr, SizeLabel, g.sizes);
    forall u | u in g.buildings ensures BuildingToSr(u) != [] { BuildingIsTranslated(u); }
    NothingSkipped(BuildingToSr, BuildingLabel, g.buildings);
  }

  lemma SizeIsTranslated(u: Token)
    requires IsBrSize(u)
    ensures SizeToSr(u) != []
  {
    if d, kk :| '1' <= d <= '7' && u == BrSize(d, kk) {
      SizeToSrMeans(u, if d <= '5' then SrSize(d, kk) else "6-a-vice");
    } else {
      SizeToSrMeans(u, if u == "GARSONIERA" then "pokoj" else "atypicky");
    }
  }

  lemma BuildingIsTranslated(u: Token)
    requires IsBrBuilding(u)
    ensures BuildingToSr(u) != []
  {
  }

  /** A locality that means nothing to Sreality: not the country, not a known place, and no slug is guessed for it. */
  ghost predicate IsLost(names: Naming, u: Token) {
    var name := Label(BR_DISTRICT_LABELS)(u);
    && u != "R51684" && !names.isCountry(u, name) && (forall s :: !SamePlace(s, u)) && u != "" && names.guess(u, name) == ""
  }

  lemma LostIsNamed(names: Naming, u: Token)
    ensures DistrictSkipSr(names)(u) == if IsLost(names, u) then ["Lokalita " + Label(BR_DISTRICT_LABELS)(u)] else []
  {
    if u in BR_DISTRICTS { KnownPlace(u, BR_DISTRICTS[u]); } else { UnknownPlace(u); }
  }

  /** The localities that mean nothing to Sreality are named in the skipped list, and no others are. */
  lemma LostAreNamed(g: BrFilters, names: Naming)
    ensures forall u :: u in g.districts && IsLost(names, u) ==> "Lokalita " + Label(BR_DISTRICT_LABELS)(u) in BrToSr(g, names).skipped
    ensures (forall u :: u in g.districts ==> !IsLost(names, u))
            ==> BrToSr(g, names).skipped == BrToSr(g.(districts := []), names).skipped
  {
    var skip := DistrictSkipSr(names);
    forall u ensures skip(u) == if IsLost(names, u) then ["Lokalita " + Label(BR_DISTRICT_LABELS)(u)] else [] { LostIsNamed(names, u); }
    forall u | u in g.districts && IsLost(names, u) ensures "Lokalita " + Label(BR_DISTRICT_LABELS)(u) in FlatMap(skip, g.districts) {
      FlatMapMembers(skip, g.districts, u, "Lokalita " + Label(BR_DISTRICT_LABELS)(u));
    }
    if forall u :: u in g.districts ==> !IsLost(names, u) { AllEmpty(skip, g.districts); }
  }

  lemma {:induction false} AllEmpty(f: Token -> seq<string>, ts: seq<Token>)
    requires forall t :: t in ts ==> f(t) == []
    ensures FlatMap(f, ts) == []
  {
    if ts != [] { AllEmpty(f, Front(ts)); }
  }

  /** Kinds of property other than flats are all named, since Sreality is searched for flats. */
  lemma EstatesAreNamed(g: BrFilters, names: Naming)
    ensures forall u :: u in g.estates && u != "BYT" ==>
              "Typ nemovitosti " + Label(BR_ESTATE_LABELS)(u) in BrToSr(g, names).skipped
    ensures (forall u :: u in g.estates ==> u == "BYT") ==> BrToSr(g, names).skipped == BrToSr(g.(estates := []), names).skipped
  {
    forall u | u in g.estates && u != "BYT" ensures "Typ nemovitosti " + Label(BR_ESTATE_LABELS)(u) in FlatMap(EstateSkip, g.estates) {
      FlatMapMembers(EstateSkip, g.estates, u, "Typ nemovitosti " + Label(BR_ESTATE_LABELS)(u));
    }
    if forall u :: u in g.estates ==> u == "BYT" { AllEmpty(EstateSkip, g.estates); }
  }

  // ------------------------------------------------------------------ the name of the place --

  lemma {:induction false} JoinAppend(parts: seq<string>, part: string)
    ensures Join(parts + [part]) == if parts == [] then part else Join(parts) + ", " + part
  {
    if |parts| > 1 {
      assert (parts + [part])[1..] == parts[1..] + [part];
      JoinAppend(parts[1..], part);
    } else if |parts| == 1 {
      assert (parts + [part])[1..] == [part];
    } else {
      assert parts + [part] == [part];
    }
  }

  /** What the search calls its place: nothing without districts; each district that Bezrealitky knows adds its name, behind
      a comma if there is one before. */
  lemma PlaceIsNamed(ts: seq<Token>, t: Token, names: Naming)
    requires !Everywhere(ts + [t], names)
    ensures OsmValue([], names) == ""
    ensures t !in SR_PLACES ==> OsmValue(ts + [t], names) == OsmValue(ts, names)
    ensures t in SR_PLACES ==>
              OsmValue(ts + [t], names)
              == if exists s :: s in ts && s in SR_PLACES then OsmValue(ts, names) + ", " + SR_PLACES[t] else SR_PLACES[t]
  {
    assert forall s :: s in ts ==> s in ts + [t];
    CountryIs(ts, names);
    CountryIs(ts + [t], names);
    CountryIs([], names);
    FlatMapAppend(By(SR_DISTRICTS), ts, t);
    PlaceNames(t);
    var before := FlatMap(By(SR_DISTRICTS), ts);
    if t in SR_PLACES {
      LabelsAppend(before, SR_DISTRICTS[t]);
      JoinAppend(Labels(BR_DISTRICT_LABELS, before), SR_PLACES[t]);
      KnownBefore(ts);
    } else {
      assert before + [] == before;
    }
  }

  lemma LabelsAppend(ts: seq<Token>, t: Token)
    ensures Labels(BR_DISTRICT_LABELS, ts + [t]) == Labels(BR_DISTRICT_LABELS, ts) + [Label(BR_DISTRICT_LABELS)(t)]
  {
  }

  lemma PlaceNames(t: Token)
    ensures t in SR_DISTRICTS <==> t in SR_PLACES
    ensures t in SR_PLACES ==> Label(BR_DISTRICT_LABELS)(SR_DISTRICTS[t]) == SR_PLACES[t]
  {
    assert t in SR_DISTRICTS <==> t in SR_PLACES;
    if t in SR_DISTRICTS {
      PlaceLabels(t);
      LabelOfPlace(SR_PLACES[t]);
    }
  }

  /** The label tables agree on the places. */
  lemma LabelOfPlace(name: string)
    requires name in BR_PLACE_OF
    ensures BR_PLACE_OF[name] in BR_DISTRICT_LABELS && BR_DISTRICT_LABELS[BR_PLACE_OF[name]] == name
  {
  }

  lemma {:induction false} KnownBefore(ts: seq<Token>)
    ensures FlatMap(By(SR_DISTRICTS), ts) != [] <==> exists s :: s in ts && s in SR_PLACES
  {
    if ts != [] {
      FrontEnd(ts);
      PlaceNames(End(ts));
      KnownBefore(Front(ts));
    }
  }

  // ------------------------------------------------------------------ iDNES --

  lemma {:induction false} GivenDistricts(ts: seq<Token>)
    ensures forall t :: t in FlatMap(NonEmpty, ts) <==> t in ts && t != ""
  {
    if ts != [] {
      FrontEnd(ts);
      GivenDistricts(Front(ts));
    }
  }

  /** The kind of property: the categories of iDNES by their names, three by other names, and flats for anything else. */
  ghost predicate SameCategory(s: Token, i: Token) {
    if s in {"byty", "domy", "pozemky", "komercni-nemovitosti", "male-objekty-garaze", "projekty"} then i == s
    else if s == "komercni" then i == "komercni-nemovitosti"
    else if s == "ostatni" || s == "garaze" then i == "male-objekty-garaze"
    else i == "byty"
  }

  lemma CategoryMeans(s: Token)
    ensures SameCategory(s, IdnesCategory(s))
  {
  }

  /** The iDNES search means what the Sreality search means, up to its coarser conditions and ownership and its one offer. */
  lemma IdnesMeansTheSame(f: SrFilters)
    ensures var r := SrToIdnes(f).filters;
            && SameMeaning(SameIdnesSize, f.sizes, r.sizes) && SameMeaning(IdnesBuildingOf, f.buildings, r.buildings)
            && SameMeaning(IdnesConditionOf, f.conditions, r.conditions)
            && SameMeaning(IdnesOwnershipOf, f.ownership, r.ownership) && SameMeaning(SameIdnesExtra, f.extras, r.extras)
            && |r.offers| == 1
            && (if exists t, u :: t in f.offers && SameIdnesOffer(t, u)
                then exists t :: t in f.offers && SameIdnesOffer(t, r.offers[0]) else r.offers[0] == "pronajem")
            && (forall t :: t in r.districts <==> t in f.districts && t != "") && SameCategory(f.category, r.category)
            && r.price == f.price && r.area == f.area
  {
    GivenDistricts(f.districts);
    CategoryMeans(f.category);
    forall t, u ensures u in By(SR_TO_IDNES_SIZE)(t) <==> SameIdnesSize(t, u) { SizeToIdnesMeans(t, u); }
    TranslatedMeansSame(By(SR_TO_IDNES_SIZE), SameIdnesSize, f.sizes);
    forall t, u ensures u in BuildingToIdnes(t) <==> IdnesBuildingOf(t, u) { BuildingToIdnesMeans(t, u); }
    TranslatedMeansSame(BuildingToIdnes, IdnesBuildingOf, f.buildings);
    forall t, u ensures u in By(SR_TO_IDNES_COND)(t) <==> IdnesConditionOf(t, u) { ConditionToIdnesMeans(t, u); }
    TranslatedMeansSame(By(SR_TO_IDNES_COND), IdnesConditionOf, f.conditions);
    IdnesSmallTables(f);
  }

  lemma IdnesSmallTables(f: SrFilters)
    ensures var r := SrToIdnes(f).filters;
            && SameMeaning(IdnesOwnershipOf, f.ownership, r.ownership) && SameMeaning(SameIdnesExtra, f.extras, r.extras)
            && |r.offers| == 1
            && (if exists t, u :: t in f.offers && SameIdnesOffer(t, u)
                then exists t :: t in f.offers && SameIdnesOffer(t, r.offers[0]) else r.offers[0] == "pronajem")
  {
    forall t, u
      ensures u in By(SR_TO_IDNES_OFFER)(t) <==> SameIdnesOffer(t, u)
      ensures u in By(SR_TO_IDNES_OWN)(t) <==> IdnesOwnershipOf(t, u)
      ensures u in SharedExtra(t) <==> SameIdnesExtra(t, u)
    {
      IdnesTablesMean(t, u);
    }
    TranslatedMeansSame(By(SR_TO_IDNES_OWN), IdnesOwnershipOf, f.ownership);
    TranslatedMeansSame(SharedExtra, SameIdnesExtra, f.extras);
    TranslatedMeansSame(By(SR_TO_IDNES_OFFER), SameIdnesOffer, f.offers);
    var offers := Dedup(FlatMap(By(SR_TO_IDNES_OFFER), f.offers));
    DefaultIfNone(SameIdnesOffer, f.offers, offers, "pronajem");
    if offers != [] { assert offers[0] in offers; }
  }

  /** And the Sreality search means what the iDNES search means. */
  lemma SrealityMeansIdnes(g: IdnesFilters)
    ensures var r := IdnesToSr(g).filters;
            && SameMeaning(Back(SameIdnesSize), g.sizes, r.sizes)
            && SameMeaning(Back(SameIdnesBuilding), g.buildings, r.buildings)
            && SameMeaning(Back(ConditionOfIdnes), g.conditions, r.conditions)
            && SameMeaning(Back(SameIdnesOwnership), g.ownership, r.ownership)
            && SameMeaning(Back(SameIdnesExtra), g.extras, r.extras)
            && (forall t :: t in r.districts <==> t in g.districts && t != "")
            && r.price == g.price && r.area == g.area && r.category == "byty"
  {
    GivenDistricts(g.districts);
    forall u, t ensures t in By(IDNES_TO_SR_SIZE)(u) <==> Back(SameIdnesSize)(u, t) { SizeFromIdnesMeans(u, t); }
    TranslatedMeansSame(By(IDNES_TO_SR_SIZE), Back(SameIdnesSize), g.sizes);
    forall u, t ensures t in By(IDNES_TO_SR_BUILD)(u) <==> Back(SameIdnesBuilding)(u, t) { BuildingFromIdnesMeans(u, t); }
    TranslatedMeansSame(By(IDNES_TO_SR_BUILD), Back(SameIdnesBuilding), g.buildings);
    forall u, t ensures t in By(IDNES_TO_SR_COND)(u) <==> Back(ConditionOfIdnes)(u, t) { ConditionFromIdnesMeans(u, t); }
    TranslatedMeansSame(By(IDNES_TO_SR_COND), Back(ConditionOfIdnes), g.conditions);
    IdnesSmallTablesBack(g);
  }

  lemma IdnesSmallTablesBack(g: IdnesFilters)
    ensures var r := IdnesToSr(g).filters;
            && SameMeaning(Back(SameIdnesOwnership), g.ownership, r.ownership)
            && SameMeaning(Back(SameIdnesExtra), g.extras, r.extras)
  {
    forall u, t
      ensures t in By(IDNES_TO_SR_OWN)(u) <==> Back(SameIdnesOwnership)(u, t)
      ensures t in SharedExtra(u) <==> Back(SameIdnesExtra)(u, t)
    {
      IdnesTablesMean(t, u);
      IdnesTablesMean(u, t);
    }
    TranslatedMeansSame(By(IDNES_TO_SR_OWN), Back(SameIdnesOwnership), g.ownership);
    TranslatedMeansSame(SharedExtra, Back(SameIdnesExtra), g.extras);
  }

  // ------------------------------------------------------------------ what else is named --

  /** The filters that the other portal does not have at all are named in the skipped list when they are given. */
  lemma FurtherAreNamed(f: SrFilters, names: Naming)
    ensures var (br, idnes) := (SrToBr(f, names).skipped, SrToIdnes(f).skipped);
            && (f.energy != [] ==> "Energetická náročnost" in br && "Energetická náročnost" in idnes)
            && (f.pois != [] ==> "V okolí nemovitosti (zastávky, školy, obchody…)" in br && "V okolí nemovitosti" in idnes)
            && (f.floor.from.Some? || f.floor.upto.Some? ==> "Patro od–do" in br && "Patro od–do" in idnes)
            && (f.category != "" && f.category != "byty" ==> CategoryLabel(f.category) in br)
  {
  }

  /** And those that only Bezrealitky has. */
  lemma RestIsNamed(g: BrFilters, names: Naming)
    ensures var skipped := BrToSr(g, names).skipped;
            && (g.rest.transfers != [] ==> "Převod do osobního vlastnictví" in skipped)
            && (g.rest.equipped != [] ==> "Vybavenost" in skipped)
            && ("discountedOnly" in g.rest.flags ==> "Pouze zlevněné" in skipped)
            && (g.rest.roommate != [] && g.rest.roommate[0] in {"true", "false"} ==> "Spolubydlení (jen / bez)" in skipped)
            && (g.rest.currency != "" && g.rest.currency != "CZK" ==> "Měna EUR" in skipped)
            && (g.rest.neighborhood != 0 ==> "Okolí v km" in skipped)
            && (g.rest.availableFrom != "" ==> "Dostupné od" in skipped)
            && (g.rest.advertId != "" ==> "Číslo inzerátu" in skipped)
            && (g.wholeCountryOutline ==> "Oblast z mapy" in skipped)
            && (g.rest.annuity.from.Some? || g.rest.annuity.upto.Some? ==> "Anuita" in skipped)
  {
    forall x | x in RestSkipped(g.rest, g.wholeCountryOutline) ensures x in BrToSr(g, names).skipped { }
    RestIsListed(g.rest, g.wholeCountryOutline, RestSkipped(g.rest, g.wholeCountryOutline));
  }

  /** And those that only iDNES has. */
  lemma IdnesRestIsNamed(g: IdnesFilters)
    ensures var skipped := IdnesToSr(g).skipped;
            && (g.equipped != [] ==> "Vybavenost (zařízený / částečně / nezařízený)" in skipped)
            && (g.articleAge != "" ==> "Aktuálnost inzerátu" in skipped)
            && (g.category != "" && g.category != "byty" ==> IdnesCategoryLabel(g.category) in skipped)
  {
  }

  lemma RestIsListed(rest: BrRest, outline: bool, skipped: seq<string>)
    requires skipped == RestSkipped(rest, outline)
    ensures rest.transfers != [] ==> "Převod do osobního vlastnictví" in skipped
    ensures rest.equipped != [] ==> "Vybavenost" in skipped
    ensures "discountedOnly" in rest.flags ==> "Pouze zlevněné" in skipped
    ensures rest.roommate != [] && rest.roommate[0] in {"true", "false"} ==> "Spolubydlení (jen / bez)" in skipped
    ensures rest.currency != "" && rest.currency != "CZK" ==> "Měna EUR" in skipped
    ensures rest.neighborhood != 0 ==> "Okolí v km" in skipped
    ensures rest.availableFrom != "" ==> "Dostupné od" in skipped
    ensures rest.advertId != "" ==> "Číslo inzerátu" in skipped
    ensures outline ==> "Oblast z mapy" in skipped
    ensures rest.annuity.from.Some? || rest.annuity.upto.Some? ==> "Anuita" in skipped
  {
  }
}
