/** The filter translator of app/filter_bridge.py between Sreality, Bezrealitky and iDNES.
    The explanatory notes are not modelled. Label tables keep only the entries of tokens that have no
    translation, since no other entry is ever read. */
module FilterBridge {
  import opened Seqs
  import opened FilterLists

  /** A pair of optional bounds. */
  datatype Range = Range(from: Option<int>, upto: Option<int>) {
    predicate Given() { from.Some? || upto.Some? }
  }

  const NO_RANGE := Range(None, None)

  datatype SrFilters = SrFilters(offers: seq<Token>, category: Token, sizes: seq<Token>, districts: seq<Token>,
                                 ownership: seq<Token>, conditions: seq<Token>, buildings: seq<Token>,
                                 extras: seq<Token>, price: Range, area: Range, sort: Token,
                                 energy: seq<Token>, pois: seq<Token>, floor: Range)

  datatype BrFilters = BrFilters(offers: seq<Token>, estates: seq<Token>, sizes: seq<Token>, districts: seq<Token>,
                                 osmValue: string, wholeCountryOutline: bool,
                                 ownership: seq<Token>, conditions: seq<Token>, buildings: seq<Token>,
                                 extras: seq<Token>, price: Range, area: Range, sort: Token, rest: BrRest)

  /** The Bezrealitky filters that Sreality does not have. */
  datatype BrRest = BrRest(transfers: seq<Token>, equipped: seq<Token>, flags: seq<Token>, roommate: seq<Token>,
                           annuity: Range, balcony: Range, loggia: Range, cellar: Range, terrace: Range,
                           garden: Range, neighborhood: int, currency: Token, availableFrom: string, advertId: string)

  datatype IdnesFilters = IdnesFilters(offers: seq<Token>, category: Token, sizes: seq<Token>, districts: seq<Token>,
                                       ownership: seq<Token>, conditions: seq<Token>, buildings: seq<Token>,
                                       extras: seq<Token>, price: Range, area: Range, sort: Token,
                                       equipped: seq<Token>, articleAge: string)

  datatype Converted<T> = Converted(filters: T, skipped: seq<string>)

  /** The Unicode folding of app/localities.py: whether an identifier and label name the whole country, and
      the slug guessed for an identifier outside the tables. */
  datatype Naming = Naming(isCountry: (string, string) -> bool, guess: (string, string) -> string)

  // Tables

  const SR_OFFERS: map<Token, Token> := map["pronajem" := "PRONAJEM", "prodej" := "PRODEJ"]
  const BR_OFFERS: map<Token, Token> := map["PRONAJEM" := "pronajem", "PRODEJ" := "prodej"]
  const SR_OFFER_LABELS: map<Token, string> := map["drazby" := "Dražby", "podily" := "Podíly"]

  const SR_SIZES: map<Token, Token> := map[
    "1+1" := "DISP_1_1", "1+kk" := "DISP_1_KK", "2+1" := "DISP_2_1", "2+kk" := "DISP_2_KK",
    "3+1" := "DISP_3_1", "3+kk" := "DISP_3_KK", "4+1" := "DISP_4_1", "4+kk" := "DISP_4_KK",
    "5+1" := "DISP_5_1", "5+kk" := "DISP_5_KK", "atypicky" := "OSTATNI", "pokoj" := "GARSONIERA"]
  const BR_SIZES: map<Token, Token> := map[
    "DISP_1_1" := "1+1", "DISP_1_KK" := "1+kk", "DISP_2_1" := "2+1", "DISP_2_KK" := "2+kk",
    "DISP_3_1" := "3+1", "DISP_3_KK" := "3+kk", "DISP_4_1" := "4+1", "DISP_4_KK" := "4+kk",
    "DISP_5_1" := "5+1", "DISP_5_KK" := "5+kk", "OSTATNI" := "atypicky", "GARSONIERA" := "pokoj"]
  const BIG_SIZES: seq<Token> := ["DISP_6_1", "DISP_6_KK", "DISP_7_1", "DISP_7_KK"]

  const CZECH_OSM := "R51684"
  const REGIONS: seq<Token> := [
    "jihocesky-kraj", "jihomoravsky-kraj", "karlovarsky-kraj", "kralovehradecky-kraj", "liberecky-kraj",
    "moravskoslezsky-kraj", "olomoucky-kraj", "pardubicky-kraj", "plzensky-kraj", "praha", "stredocesky-kraj",
    "ustecky-kraj", "vysocina-kraj", "zlinsky-kraj"]
  const SR_DISTRICTS: map<Token, Token> := map[
    "praha" := "R435514", "praha-1" := "R15107966", "praha-2" := "R19999122", "praha-3" := "R19999121",
    "praha-4" := "R19999068", "praha-5" := "R19999086", "praha-6" := "R19999115", "praha-7" := "R19999114",
    "praha-8" := "R19999109", "praha-9" := "R19999082", "praha-10" := "R19999075",
    "brno" := "R438171", "ostrava" := "R437354", "plzen" := "R438344"]
  const BR_DISTRICTS: map<Token, Token> := map[
    "R435514" := "praha", "R15107966" := "praha-1", "R19999122" := "praha-2", "R19999121" := "praha-3",
    "R19999068" := "praha-4", "R19999086" := "praha-5", "R19999115" := "praha-6", "R19999114" := "praha-7",
    "R19999109" := "praha-8", "R19999082" := "praha-9", "R19999075" := "praha-10",
    "R438171" := "brno", "R437354" := "ostrava", "R438344" := "plzen"]
  const BR_DISTRICT_LABELS: map<Token, string> := map[
    "R51684" := "Česko", "R435514" := "Praha", "R15107966" := "Praha 1", "R19999122" := "Praha 2",
    "R19999121" := "Praha 3", "R19999068" := "Praha 4", "R19999086" := "Praha 5", "R19999115" := "Praha 6",
    "R19999114" := "Praha 7", "R19999109" := "Praha 8", "R19999082" := "Praha 9", "R19999075" := "Praha 10",
    "R438171" := "Brno", "R437354" := "Ostrava", "R438344" := "Plzeň"]

  const SR_OWNERSHIP: map<Token, Token> := map[
    "druzstevni" := "DRUZSTEVNI", "osobni" := "OSOBNI", "statni-obecni" := "OBECNI"]
  const BR_OWNERSHIP: map<Token, Token> := map[
    "DRUZSTEVNI" := "druzstevni", "OSOBNI" := "osobni", "OBECNI" := "statni-obecni"]
  const BR_OWNERSHIP_LABELS: map<Token, string> := map["OSTATNI" := "Ostatní"]

  const SR_CONDITIONS: map<Token, Token> := map[
    "developerske-projekty" := "PROJECT", "dobry-stav" := "GOOD", "k-demolici" := "DEMOLITION",
    "novostavby" := "NEW", "po-rekonstrukci" := "AFTER_RECONSTRUCTION",
    "pred-rekonstrukci" := "BEFORE_RECONSTRUCTION", "spatny-stav" := "BAD",
    "v-rekonstrukci" := "IN_RECONSTRUCTION", "ve-vystavbe" := "CONSTRUCTION", "velmi-dobry-stav" := "VERY_GOOD"]
  const BR_CONDITIONS: map<Token, Token> := map[
    "PROJECT" := "developerske-projekty", "GOOD" := "dobry-stav", "DEMOLITION" := "k-demolici",
    "NEW" := "novostavby", "AFTER_RECONSTRUCTION" := "po-rekonstrukci",
    "BEFORE_RECONSTRUCTION" := "pred-rekonstrukci", "BAD" := "spatny-stav",
    "IN_RECONSTRUCTION" := "v-rekonstrukci", "CONSTRUCTION" := "ve-vystavbe", "VERY_GOOD" := "velmi-dobry-stav"]

  const OTHER_BUILDINGS: seq<Token> := ["MIXED", "PREFAB", "SKELET", "STONE"]

  const SR_EXTRAS: map<Token, Token> := map[
    "balkon" := "balcony", "bezbarierovy" := "barrierFree", "garaz" := "garage", "lodzie" := "loggia",
    "parkovani" := "parking", "sklep" := "cellar", "terasa" := "terrace", "vytah" := "lift"]
  const BR_EXTRAS: map<Token, Token> := map[
    "balcony" := "balkon", "barrierFree" := "bezbarierovy", "garage" := "garaz", "loggia" := "lodzie",
    "parking" := "parkovani", "cellar" := "sklep", "terrace" := "terasa", "lift" := "vytah"]
  const SR_EXTRA_LABELS: map<Token, string> := map["zahrada" := "Zahrada"]
  const BR_EXTRA_LABELS: map<Token, string> := map[
    "petFriendly" := "Domácí mazlíčci vítáni", "searchPriceWithCharges" := "Včetně energií a služeb"]
  const BR_ESTATE_LABELS: map<Token, string> := map[
    "BYT" := "Byt", "DUM" := "Dům", "GARAZ" := "Garáž", "KANCELAR" := "Kancelář",
    "NEBYTOVY_PROSTOR" := "Nebytový prostor", "POZEMEK" := "Pozemek", "REKREACNI_OBJEKT" := "Chaty a chalupy"]

  const SR_TO_IDNES_OFFER: map<Token, Token> := map["pronajem" := "pronajem", "prodej" := "prodej", "drazby" := "drazba"]
  const IDNES_TO_SR_OFFER: map<Token, Token> := map["pronajem" := "pronajem", "prodej" := "prodej", "drazba" := "drazby"]
  const SR_TO_IDNES_SIZE: map<Token, Token> := map[
    "1+1" := "1-1", "1+kk" := "1-kk", "2+1" := "2-1", "2+kk" := "2-kk", "3+1" := "3-1", "3+kk" := "3-kk",
    "4+1" := "4-1", "4+kk" := "4-kk", "5+1" := "5-1", "5+kk" := "5-kk", "6-a-vice" := "6-kk-a-vetsi",
    "atypicky" := "atypicke", "pokoj" := "pokoj"]
  const IDNES_TO_SR_SIZE: map<Token, Token> := map[
    "1-1" := "1+1", "1-kk" := "1+kk", "2-1" := "2+1", "2-kk" := "2+kk", "3-1" := "3+1", "3-kk" := "3+kk",
    "4-1" := "4+1", "4-kk" := "4+kk", "5-1" := "5+1", "5-kk" := "5+kk", "6-kk-a-vetsi" := "6-a-vice",
    "atypicke" := "atypicky", "pokoj" := "pokoj"]
  const SR_TO_IDNES_COND: map<Token, Token> := map[
    "novostavby" := "novostavba", "developerske-projekty" := "projekt", "ve-vystavbe" := "ve-vystavbe",
    "dobry-stav" := "dobry-stav", "velmi-dobry-stav" := "dobry-stav", "spatny-stav" := "spatny-stav",
    "po-rekonstrukci" := "po-rekonstrukci", "v-rekonstrukci" := "v-rekonstrukci",
    "pred-rekonstrukci" := "pred-rekonstrukci", "k-demolici" := "k-demolici"]
  const IDNES_TO_SR_COND: map<Token, Token> := map[
    "novostavba" := "novostavby", "projekt" := "developerske-projekty", "ve-vystavbe" := "ve-vystavbe",
    "dobry-stav" := "dobry-stav", "udrzovany" := "dobry-stav", "spatny-stav" := "spatny-stav",
    "po-rekonstrukci" := "po-rekonstrukci", "v-rekonstrukci" := "v-rekonstrukci",
    "pred-rekonstrukci" := "pred-rekonstrukci", "k-demolici" := "k-demolici"]
  const SR_TO_IDNES_OWN: map<Token, Token> := map["osobni" := "osobni", "druzstevni" := "druzstevni", "statni-obecni" := "jine"]
  const IDNES_TO_SR_OWN: map<Token, Token> := map["osobni" := "osobni", "druzstevni" := "druzstevni"]
  const IDNES_OWN_LABELS: map<Token, string> := map["s-r-o" := "S.r.o.", "podilove" := "Podílové", "jine" := "Jiné"]
  const IDNES_BUILDINGS: seq<Token> := [
    "cihlova", "panelova", "drevena", "kamenna", "skeletova", "montovana", "smisena"]
  const IDNES_OTHER_BUILDINGS: seq<Token> := ["drevena", "kamenna", "skeletova", "montovana", "smisena"]
  const IDNES_TO_SR_BUILD: map<Token, Token> := map[
    "cihlova" := "cihlova", "panelova" := "panelova", "drevena" := "ostatni", "kamenna" := "ostatni",
    "skeletova" := "ostatni", "montovana" := "ostatni", "smisena" := "ostatni"]
  const SHARED_EXTRAS: seq<Token> := [
    "balkon", "lodzie", "terasa", "zahrada", "sklep", "garaz", "parkovani", "vytah", "bezbarierovy"]
  const IDNES_EXTRA_LABELS: map<Token, string> := map[
    "telefon" := "Telefon", "kabelova-tv" := "Kabelová televize", "internet" := "Internet"]
  const CATEGORY_ALIASES: map<Token, Token> := map[
    "komercni" := "komercni-nemovitosti", "ostatni" := "male-objekty-garaze", "garaze" := "male-objekty-garaze"]
  const CATEGORIES: seq<Token> := [
    "byty", "domy", "pozemky", "komercni-nemovitosti", "male-objekty-garaze", "projekty"]

  // Token conversions

  /** Translation by a table; a token outside it is translated to nothing. */
  function By(table: map<Token, Token>): Token -> seq<Token> {
    t => if t in table then [table[t]] else []
  }

  function Label(labels: map<Token, string>): Token -> string {
    t => if t in labels then labels[t] else t
  }


  /** What a token adds to the skipped list: its caption, unless it is empty or translated. */
  function Skip(out: Token -> seq<Token>, caption: Token -> string): Token -> seq<string> {
    t => if out(t) != [] || t == "" then [] else [caption(t)]
  }

  function SizeToBr(t: Token): seq<Token> {
    if t == "6-a-vice" then BIG_SIZES else By(SR_SIZES)(t)
  }

  function SizeToSr(t: Token): seq<Token> {
    if t in BIG_SIZES then ["6-a-vice"] else By(BR_SIZES)(t)
  }

  function ConditionToSr(t: Token): seq<Token> {
    if t == "AFTER_PARTIAL_RECONSTRUCTION" then ["po-rekonstrukci"] else By(BR_CONDITIONS)(t)
  }

  function BuildingToBr(t: Token): seq<Token> {
    if t == "cihlova" then ["BRICK"] else if t == "panelova" then ["PANEL"]
    else if t == "ostatni" then OTHER_BUILDINGS else []
  }

  function BuildingToSr(t: Token): seq<Token> {
    if t == "BRICK" then ["cihlova"] else if t == "PANEL" then ["panelova"]
    else if t in OTHER_BUILDINGS then ["ostatni"] else []
  }

  function BuildingToIdnes(t: Token): seq<Token> {
    if t == "ostatni" then IDNES_OTHER_BUILDINGS else if t in IDNES_BUILDINGS then [t] else []
  }

  function SharedExtra(t: Token): seq<Token> {
    if t in SHARED_EXTRAS then [t] else []
  }

  function NonEmpty(t: Token): seq<Token> {
    if t != "" then [t] else []
  }

  /** The comma-separated non-empty parts of a string. */
  function Parts(s: string): seq<string> {
    if ',' in s then NonEmpty(s[..FirstComma(s)]) + Parts(s[FirstComma(s) + 1..]) else NonEmpty(s)
  }

  function FirstComma(s: string): (i: nat)
    requires ',' in s
    ensures i < |s| && s[i] == ',' && ',' !in s[..i]
  {
    if s[0] == ',' then 0 else 1 + FirstComma(s[1..])
  }

  /** A Bezrealitky locality as Sreality districts; `praha` and the table entries contain no comma. */
  function DistrictToSr(names: Naming): Token -> seq<Token> {
    t => if t == CZECH_OSM || names.isCountry(t, Label(BR_DISTRICT_LABELS)(t)) then REGIONS
         else if t in BR_DISTRICTS then [BR_DISTRICTS[t]]
         else if t == "" then []
         else Parts(names.guess(t, Label(BR_DISTRICT_LABELS)(t)))
  }

  function DistrictSkipSr(names: Naming): Token -> seq<string> {
    t => if (t == CZECH_OSM || names.isCountry(t, Label(BR_DISTRICT_LABELS)(t)) || t in BR_DISTRICTS || t == ""
             || names.guess(t, Label(BR_DISTRICT_LABELS)(t)) != "") then []
         else ["Lokalita " + Label(BR_DISTRICT_LABELS)(t)]
  }

  /** Whether the Sreality districts mean the whole country: all fourteen regions, or a country name. */
  predicate WholeCountry(districts: seq<Token>, names: Naming) {
    || (forall r :: r in REGIONS ==> r in districts)
    || (exists t :: t in districts && names.isCountry(t, t))
  }

  function Join(parts: seq<string>): string {
    if parts == [] then "" else if |parts| == 1 then parts[0] else parts[0] + ", " + Join(parts[1..])
  }

  function Labels(labels: map<Token, string>, ts: seq<Token>): (r: seq<string>)
    ensures |r| == |ts|
  {
    seq(|ts|, i requires 0 <= i < |ts| => Label(labels)(ts[i]))
  }

  function Or(ts: seq<Token>, t: Token): seq<Token> {
    if ts == [] then [t] else ts
  }

  function When(b: bool, caption: string): seq<string> {
    if b then [caption] else []
  }

  function OrText(s: string, t: string): string {
    if s == "" then t else s
  }

  function IdnesCategory(category: Token): Token {
    var key := Label(CATEGORY_ALIASES)(OrText(category, "byty"));
    if key in CATEGORIES then key else "byty"
  }

  // The four converters, as functions of the filters

  function SrToBr(src: SrFilters, names: Naming): Converted<BrFilters> {
    Converted(
      BrFilters(
        Or(Dedup(FlatMap(By(SR_OFFERS), src.offers)), "PRONAJEM"), ["BYT"],
        Dedup(FlatMap(SizeToBr, src.sizes)),
        DistrictsToBr(src.districts, names), OsmValue(src.districts, names), WholeCountry(src.districts, names),
        Dedup(FlatMap(By(SR_OWNERSHIP), src.ownership)),
        Dedup(FlatMap(By(SR_CONDITIONS), src.conditions)),
        Dedup(FlatMap(BuildingToBr, src.buildings)),
        FlatMap(By(SR_EXTRAS), src.extras),
        src.price, src.area, "TIMEORDER_DESC", DEFAULT_REST),
      [] + FlatMap(Skip(By(SR_OFFERS), Label(SR_OFFER_LABELS)), src.offers)
      + When(OrText(src.category, "byty") != "byty", CategoryLabel(src.category))
      + FlatMap(Skip(SizeToBr, SizeLabel), src.sizes)
      + DistrictsSkippedBr(src.districts, names)
      + FlatMap(Skip(By(SR_OWNERSHIP), Plain), src.ownership)
      + FlatMap(Skip(By(SR_CONDITIONS), Plain), src.conditions)
      + FlatMap(Skip(BuildingToBr, BuildingLabel), src.buildings)
      + FlatMap(Skip(By(SR_EXTRAS), BrExtraLabel), src.extras)
      + When(src.energy != [], "Energetická náročnost")
      + When(src.pois != [], "V okolí nemovitosti (zastávky, školy, obchody…)")
      + When(src.floor.Given(), "Patro od–do"))
  }

  const DEFAULT_REST := BrRest([], [], ["includeImports", "includeShortTerm"], [""], NO_RANGE, NO_RANGE, NO_RANGE,
                               NO_RANGE, NO_RANGE, NO_RANGE, 0, "CZK", "", "")

  function DistrictsToBr(districts: seq<Token>, names: Naming): seq<Token> {
    if WholeCountry(districts, names) then [CZECH_OSM] else Dedup(FlatMap(By(SR_DISTRICTS), districts))
  }

  function OsmValue(districts: seq<Token>, names: Naming): string {
    if WholeCountry(districts, names) then "Česko"
    else Join(Labels(BR_DISTRICT_LABELS, FlatMap(By(SR_DISTRICTS), districts)))
  }

  function DistrictsSkippedBr(districts: seq<Token>, names: Naming): seq<string> {
    if WholeCountry(districts, names) then [] else FlatMap(Skip(By(SR_DISTRICTS), DistrictLabel), districts)
  }

  function CategoryLabel(category: Token): string { "Typ nemovitosti „" + category + "“" }

  function IdnesCategoryLabel(category: Token): string {
    "Typ nemovitosti „" + category + "“ na Sreality v tomto hlídači zůstane u bytů"
  }

  function Plain(t: Token): string { t }

  function SizeLabel(t: Token): string { "Dispozice " + t }

  function DistrictLabel(t: Token): string { "Lokalita " + t }

  function BuildingLabel(t: Token): string { "Konstrukce " + t }

  function ConditionLabel(t: Token): string { "Stav " + t }

  function BrExtraLabel(t: Token): string { Label(SR_EXTRA_LABELS)(t) + " (na Bezrealitky nejde stejně)" }

  function EstateSkip(t: Token): seq<string> {
    if t == "BYT" then [] else ["Typ nemovitosti " + Label(BR_ESTATE_LABELS)(t)]
  }

  /** The area ranges that Sreality can only express as an extra. */
  function AreaExtras(rest: BrRest): seq<Token> {
    When(rest.balcony.Given(), "balkon") + When(rest.loggia.Given(), "lodzie") + When(rest.cellar.Given(), "sklep")
    + When(rest.terrace.Given(), "terasa") + When(rest.garden.Given(), "zahrada")
  }

  function RestSkipped(rest: BrRest, outline: bool): seq<string> {
    When(rest.transfers != [], "Převod do osobního vlastnictví")
    + When(rest.equipped != [], "Vybavenost")
    + When("discountedOnly" in rest.flags, "Pouze zlevněné")
    + When(rest.roommate != [] && (rest.roommate[0] == "true" || rest.roommate[0] == "false"), "Spolubydlení (jen / bez)")
    + When(OrText(rest.currency, "CZK") != "CZK", "Měna EUR")
    + When(rest.neighborhood != 0, "Okolí v km")
    + When(rest.availableFrom != "", "Dostupné od")
    + When(rest.advertId != "", "Číslo inzerátu")
    + When(outline, "Oblast z mapy")
    + When(rest.annuity.Given(), "Anuita")
  }

  function BrToSr(src: BrFilters, names: Naming): Converted<SrFilters> {
    Converted(
      SrFilters(
        Or(Dedup(FlatMap(By(BR_OFFERS), src.offers)), "pronajem"), "byty",
        Dedup(FlatMap(SizeToSr, src.sizes)),
        Dedup(FlatMap(DistrictToSr(names), src.districts)),
        Dedup(FlatMap(By(BR_OWNERSHIP), src.ownership)),
        Dedup(FlatMap(ConditionToSr, src.conditions)),
        Dedup(FlatMap(BuildingToSr, src.buildings)),
        Dedup(FlatMap(By(BR_EXTRAS), src.extras) + AreaExtras(src.rest)),
        src.price, src.area, "nejnovejsi", [], [], NO_RANGE),
      [] + FlatMap(Skip(By(BR_OFFERS), Plain), src.offers)
      + FlatMap(EstateSkip, src.estates)
      + FlatMap(Skip(SizeToSr, SizeLabel), src.sizes)
      + FlatMap(DistrictSkipSr(names), src.districts)
      + FlatMap(Skip(By(BR_OWNERSHIP), Label(BR_OWNERSHIP_LABELS)), src.ownership)
      + When("OSTATNI" in src.ownership, "Vlastnictví ostatní")
      + FlatMap(Skip(ConditionToSr, ConditionLabel), src.conditions)
      + FlatMap(Skip(BuildingToSr, BuildingLabel), src.buildings)
      + FlatMap(Skip(By(BR_EXTRAS), Label(BR_EXTRA_LABELS)), src.extras)
      + RestSkipped(src.rest, src.wholeCountryOutline))
  }

  function SrToIdnes(src: SrFilters): Converted<IdnesFilters> {
    Converted(
      IdnesFilters(
        Or(Dedup(FlatMap(By(SR_TO_IDNES_OFFER), src.offers)), "pronajem")[..1], IdnesCategory(src.category),
        Dedup(FlatMap(By(SR_TO_IDNES_SIZE), src.sizes)),
        FlatMap(NonEmpty, src.districts),
        Dedup(FlatMap(By(SR_TO_IDNES_OWN), src.ownership)),
        Dedup(FlatMap(By(SR_TO_IDNES_COND), src.conditions)),
        Dedup(FlatMap(BuildingToIdnes, src.buildings)),
        FlatMap(SharedExtra, src.extras),
        src.price, src.area, "nejnovejsi", [], ""),
      [] + FlatMap(Skip(By(SR_TO_IDNES_OFFER), Label(SR_OFFER_LABELS)), src.offers)
      + FlatMap(Skip(By(SR_TO_IDNES_SIZE), Plain), src.sizes)
      + FlatMap(Skip(By(SR_TO_IDNES_OWN), Plain), src.ownership)
      + FlatMap(Skip(By(SR_TO_IDNES_COND), Plain), src.conditions)
      + FlatMap(Skip(BuildingToIdnes, BuildingLabel), src.buildings)
      + FlatMap(Skip(SharedExtra, Plain), src.extras)
      + When(src.energy != [], "Energetická náročnost")
      + When(src.pois != [], "V okolí nemovitosti")
      + When(src.floor.Given(), "Patro od–do"))
  }

  function IdnesToSr(src: IdnesFilters): Converted<SrFilters> {
    Converted(
      SrFilters(
        Or(Dedup(FlatMap(By(IDNES_TO_SR_OFFER), src.offers)), "pronajem"), "byty",
        Dedup(FlatMap(By(IDNES_TO_SR_SIZE), src.sizes)),
        FlatMap(NonEmpty, src.districts),
        Dedup(FlatMap(By(IDNES_TO_SR_OWN), src.ownership)),
        Dedup(FlatMap(By(IDNES_TO_SR_COND), src.conditions)),
        Dedup(FlatMap(By(IDNES_TO_SR_BUILD), src.buildings)),
        FlatMap(SharedExtra, src.extras),
        src.price, src.area, "nejnovejsi", [], [], NO_RANGE),
      [] + FlatMap(Skip(By(IDNES_TO_SR_OFFER), Plain), src.offers)
      + When(OrText(src.category, "byty") != "byty", IdnesCategoryLabel(src.category))
      + FlatMap(Skip(By(IDNES_TO_SR_SIZE), Plain), src.sizes)
      + FlatMap(Skip(By(IDNES_TO_SR_OWN), Label(IDNES_OWN_LABELS)), src.ownership)
      + FlatMap(Skip(By(IDNES_TO_SR_COND), Plain), src.conditions)
      + FlatMap(Skip(By(IDNES_TO_SR_BUILD), Plain), src.buildings)
      + FlatMap(Skip(SharedExtra, Label(IDNES_EXTRA_LABELS)), src.extras)
      + When(src.equipped != [], "Vybavenost (zařízený / částečně / nezařízený)")
      + When(src.articleAge != "", "Aktuálnost inzerátu"))
  }

  // The same converters as the program runs them: loops that append to lists

  /** `_map_list`: appends to the result or to the caller's skipped list, then deduplicates. */
  method MapList(values: seq<Token>, mapping: map<Token, Token>, caption: Token -> string, skipped: seq<string>)
    returns (result: seq<Token>, after: seq<string>)
    ensures result == Dedup(FlatMap(By(mapping), values))
    ensures after == skipped + FlatMap(Skip(By(mapping), caption), values)
  {
    result, after := [], skipped;
    for i := 0 to |values|
      invariant result == FlatMap(By(mapping), values[..i])
      invariant after == skipped + FlatMap(Skip(By(mapping), caption), values[..i])
    {
      FlatMapAppend(By(mapping), values[..i], values[i]);
      FlatMapAppend(Skip(By(mapping), caption), values[..i], values[i]);
      assert values[..i + 1] == values[..i] + [values[i]];
      var item := values[i];
      if item in mapping {
        result := result + [mapping[item]];
      } else if item != "" {
        after := after + [caption(item)];
      }
    }
    assert values[..|values|] == values;
    result := DedupList(result);
  }

  lemma FlatMapNext(f: Token -> seq<Token>, xs: seq<Token>, i: nat, before: seq<Token>)
    requires i < |xs|
    ensures before + FlatMap(f, xs[..i + 1]) == (before + FlatMap(f, xs[..i])) + f(xs[i])
  {
    FlatMapAppend(f, xs[..i], xs[i]);
    assert xs[..i + 1] == xs[..i] + [xs[i]];
  }

  /** The converters' own loops: a token is replaced by several tokens or by one, or named in the skipped list. */
  method ConvertList(values: seq<Token>, several: map<Token, seq<Token>>, one: map<Token, Token>,
                     caption: Token -> string, skipped: seq<string>, ghost out: Token -> seq<Token>)
    returns (result: seq<Token>, after: seq<string>)
    requires forall t :: out(t) == Replacement(several, one, t)
    requires forall t :: t in several ==> several[t] != []
    ensures result == FlatMap(out, values)
    ensures after == skipped + FlatMap(Skip(out, caption), values)
  {
    result, after := [], skipped;
    for i := 0 to |values|
      invariant result == [] + FlatMap(out, values[..i])
      invariant after == skipped + FlatMap(Skip(out, caption), values[..i])
    {
      FlatMapNext(out, values, i, []);
      FlatMapNext(Skip(out, caption), values, i, skipped);
      var item := values[i];
      if item in several {
        result := result + several[item];
      } else if item in one {
        result := result + [one[item]];
      } else if item != "" {
        after := after + [caption(item)];
      }
    }
    assert values[..|values|] == values;
  }

  function Replacement(several: map<Token, seq<Token>>, one: map<Token, Token>, t: Token): seq<Token> {
    if t in several then several[t] else if t in one then [one[t]] else []
  }

  lemma OneReplaced(key: Token, several: seq<Token>, table: map<Token, Token>, t: Token)
    ensures Replacement(map[key := several], table, t) == if t == key then several else By(table)(t)
  {
  }

  /** Tokens of a list that all become the same one. */
  function Merged(keys: seq<Token>, target: Token): map<Token, seq<Token>> { map t | t in keys :: [target] }

  lemma MergedReplaced(keys: seq<Token>, target: Token, table: map<Token, Token>, t: Token)
    ensures Replacement(Merged(keys, target), table, t) == if t in keys then [target] else By(table)(t)
  {
  }

  /** The tokens of a list, each standing for itself. */
  function Same(tokens: seq<Token>): map<Token, Token> { map t | t in tokens :: t }

  lemma SameReplaced(several: map<Token, seq<Token>>, tokens: seq<Token>, t: Token)
    ensures Replacement(several, Same(tokens), t)
         == if t in several then several[t] else if t in tokens then [t] else []
  {
  }

  method TableList(values: seq<Token>, table: map<Token, Token>, caption: Token -> string, skipped: seq<string>)
    returns (result: seq<Token>, after: seq<string>)
    ensures result == FlatMap(By(table), values) && after == skipped + FlatMap(Skip(By(table), caption), values)
  {
    result, after := ConvertList(values, map[], table, caption, skipped, By(table));
  }

  method SizesToBr(sizes: seq<Token>, skipped: seq<string>) returns (result: seq<Token>, after: seq<string>)
    ensures result == Dedup(FlatMap(SizeToBr, sizes)) && after == skipped + FlatMap(Skip(SizeToBr, SizeLabel), sizes)
  {
    forall t { OneReplaced("6-a-vice", BIG_SIZES, SR_SIZES, t); }
    result, after := ConvertList(sizes, map["6-a-vice" := BIG_SIZES], SR_SIZES, SizeLabel, skipped, SizeToBr);
    result := DedupList(result);
  }

  method SizesToSr(sizes: seq<Token>, skipped: seq<string>) returns (result: seq<Token>, after: seq<string>)
    ensures result == Dedup(FlatMap(SizeToSr, sizes)) && after == skipped + FlatMap(Skip(SizeToSr, SizeLabel), sizes)
  {
    forall t { MergedReplaced(BIG_SIZES, "6-a-vice", BR_SIZES, t); }
    result, after := ConvertList(sizes, Merged(BIG_SIZES, "6-a-vice"), BR_SIZES, SizeLabel, skipped, SizeToSr);
    result := DedupList(result);
  }

  method ConditionsToSr(conditions: seq<Token>, skipped: seq<string>) returns (result: seq<Token>, after: seq<string>)
    ensures result == Dedup(FlatMap(ConditionToSr, conditions))
    ensures after == skipped + FlatMap(Skip(ConditionToSr, ConditionLabel), conditions)
  {
    forall t { OneReplaced("AFTER_PARTIAL_RECONSTRUCTION", ["po-rekonstrukci"], BR_CONDITIONS, t); }
    result, after := ConvertList(conditions, map["AFTER_PARTIAL_RECONSTRUCTION" := ["po-rekonstrukci"]], BR_CONDITIONS,
                                 ConditionLabel, skipped, ConditionToSr);
    result := DedupList(result);
  }

  method BuildingsToBr(buildings: seq<Token>, skipped: seq<string>) returns (result: seq<Token>, after: seq<string>)
    ensures result == Dedup(FlatMap(BuildingToBr, buildings))
    ensures after == skipped + FlatMap(Skip(BuildingToBr, BuildingLabel), buildings)
  {
    var table := map["cihlova" := "BRICK", "panelova" := "PANEL"];
    forall t { OneReplaced("ostatni", OTHER_BUILDINGS, table, t); }
    result, after := ConvertList(buildings, map["ostatni" := OTHER_BUILDINGS], table, BuildingLabel, skipped, BuildingToBr);
    result := DedupList(result);
  }

  method BuildingsToSr(buildings: seq<Token>, skipped: seq<string>) returns (result: seq<Token>, after: seq<string>)
    ensures result == Dedup(FlatMap(BuildingToSr, buildings))
    ensures after == skipped + FlatMap(Skip(BuildingToSr, BuildingLabel), buildings)
  {
    var table := map["BRICK" := "cihlova", "PANEL" := "panelova"];
    forall t { MergedReplaced(OTHER_BUILDINGS, "ostatni", table, t); }
    result, after := ConvertList(buildings, Merged(OTHER_BUILDINGS, "ostatni"), table, BuildingLabel, skipped, BuildingToSr);
    result := DedupList(result);
  }

  method BuildingsToIdnes(buildings: seq<Token>, skipped: seq<string>) returns (result: seq<Token>, after: seq<string>)
    ensures result == Dedup(FlatMap(BuildingToIdnes, buildings))
    ensures after == skipped + FlatMap(Skip(BuildingToIdnes, BuildingLabel), buildings)
  {
    forall t { SameReplaced(map["ostatni" := IDNES_OTHER_BUILDINGS], IDNES_BUILDINGS, t); }
    result, after := ConvertList(buildings, map["ostatni" := IDNES_OTHER_BUILDINGS], Same(IDNES_BUILDINGS), BuildingLabel,
                                 skipped, BuildingToIdnes);
    result := DedupList(result);
  }

  method SharedExtras(extras: seq<Token>, caption: Token -> string, skipped: seq<string>)
    returns (result: seq<Token>, after: seq<string>)
    ensures result == FlatMap(SharedExtra, extras)
    ensures after == skipped + FlatMap(Skip(SharedExtra, caption), extras)
  {
    forall t { SameReplaced(map[], SHARED_EXTRAS, t); }
    result, after := ConvertList(extras, map[], Same(SHARED_EXTRAS), caption, skipped, SharedExtra);
  }

  method NameEstates(estates: seq<Token>, skipped: seq<string>) returns (after: seq<string>)
    ensures after == skipped + FlatMap(EstateSkip, estates)
  {
    after := skipped;
    for i := 0 to |estates|
      invariant after == skipped + FlatMap(EstateSkip, estates[..i])
    {
      FlatMapNext(EstateSkip, estates, i, skipped);
      if estates[i] != "BYT" {
        after := after + ["Typ nemovitosti " + Label(BR_ESTATE_LABELS)(estates[i])];
      }
    }
    assert estates[..|estates|] == estates;
  }

  method ConvertDistrictToSr(item: Token, names: Naming) returns (slugs: seq<Token>, skipped: seq<string>)
    ensures slugs == DistrictToSr(names)(item) && skipped == DistrictSkipSr(names)(item)
  {
    var name := Label(BR_DISTRICT_LABELS)(item);
    slugs, skipped := [], [];
    if item == CZECH_OSM || names.isCountry(item, name) {
      slugs := REGIONS;
    } else if item in BR_DISTRICTS {
      slugs := [BR_DISTRICTS[item]];
    } else if item != "" {
      var guess := names.guess(item, name);
      if guess != "" && ',' !in guess {
        slugs := [guess];
      } else if ',' in guess {
        slugs := Parts(guess);
      } else {
        skipped := ["Lokalita " + name];
      }
    }
  }

  method ConvertDistrictsToSr(src: seq<Token>, names: Naming, skipped: seq<string>,
                              ghost out: Token -> seq<Token>, ghost skip: Token -> seq<string>)
    returns (districts: seq<Token>, after: seq<string>)
    requires out == DistrictToSr(names) && skip == DistrictSkipSr(names)
    ensures districts == FlatMap(out, src) && after == skipped + FlatMap(skip, src)
  {
    districts, after := [], skipped;
    for i := 0 to |src|
      invariant districts == [] + FlatMap(out, src[..i])
      invariant after == skipped + FlatMap(skip, src[..i])
    {
      FlatMapNext(out, src, i, []);
      FlatMapNext(skip, src, i, skipped);
      var more, unnamed := ConvertDistrictToSr(src[i], names);
      districts, after := districts + more, after + unnamed;
    }
    assert src[..|src|] == src;
  }

  /** `_skip_if`, and the inline conditional appends. */
  method SkipIf(skipped: seq<string>, given: bool, caption: string) returns (after: seq<string>)
    ensures after == skipped + When(given, caption)
  {
    after := skipped;
    if given {
      after := after + [caption];
    }
  }

  method ConvertDistrictsToBr(src: seq<Token>, names: Naming, skipped: seq<string>)
    returns (districts: seq<Token>, osmValue: string, outline: bool, after: seq<string>)
    ensures (districts, osmValue) == (DistrictsToBr(src, names), OsmValue(src, names))
    ensures outline == WholeCountry(src, names) && after == skipped + DistrictsSkippedBr(src, names)
  {
    outline := WholeCountry(src, names);
    if outline {
      districts, osmValue, after := [CZECH_OSM], "Česko", skipped;
    } else {
      districts, after := TableList(src, SR_DISTRICTS, DistrictLabel, skipped);
      osmValue := Join(Labels(BR_DISTRICT_LABELS, districts));
      districts := DedupList(districts);
    }
  }

  method ConvertSrToBr(src: SrFilters, names: Naming) returns (dst: BrFilters, skipped: seq<string>)
    ensures Converted(dst, skipped) == SrToBr(src, names)
  {
    var offers, sizes, districts, osmValue, outline, ownership, conditions, buildings, extras;
    offers, skipped := MapList(src.offers, SR_OFFERS, Label(SR_OFFER_LABELS), []);
    skipped := SkipIf(skipped, OrText(src.category, "byty") != "byty", CategoryLabel(src.category));
    sizes, skipped := SizesToBr(src.sizes, skipped);
    districts, osmValue, outline, skipped := ConvertDistrictsToBr(src.districts, names, skipped);
    ownership, skipped := MapList(src.ownership, SR_OWNERSHIP, Plain, skipped);
    conditions, skipped := MapList(src.conditions, SR_CONDITIONS, Plain, skipped);
    buildings, skipped := BuildingsToBr(src.buildings, skipped);
    extras, skipped := TableList(src.extras, SR_EXTRAS, BrExtraLabel, skipped);
    skipped := SkipIf(skipped, src.energy != [], "Energetická náročnost");
    skipped := SkipIf(skipped, src.pois != [], "V okolí nemovitosti (zastávky, školy, obchody…)");
    skipped := SkipIf(skipped, src.floor.Given(), "Patro od–do");
    dst := BrFilters(Or(offers, "PRONAJEM"), ["BYT"], sizes, districts, osmValue, outline, ownership, conditions,
                     buildings, extras, src.price, src.area, "TIMEORDER_DESC", DEFAULT_REST);
  }

  method ConvertBrToSr(src: BrFilters, names: Naming) returns (dst: SrFilters, skipped: seq<string>)
    ensures Converted(dst, skipped) == BrToSr(src, names)
  {
    var offers, sizes, districts, ownership, conditions, buildings, extras;
    offers, skipped := MapList(src.offers, BR_OFFERS, Plain, []);
    skipped := NameEstates(src.estates, skipped);
    sizes, skipped := SizesToSr(src.sizes, skipped);
    districts, skipped := ConvertDistrictsToSr(src.districts, names, skipped, DistrictToSr(names), DistrictSkipSr(names));
    districts := DedupList(districts);
    ownership, skipped := MapList(src.ownership, BR_OWNERSHIP, Label(BR_OWNERSHIP_LABELS), skipped);
    skipped := SkipIf(skipped, "OSTATNI" in src.ownership, "Vlastnictví ostatní");
    conditions, skipped := ConditionsToSr(src.conditions, skipped);
    buildings, skipped := BuildingsToSr(src.buildings, skipped);
    extras, skipped := TableList(src.extras, BR_EXTRAS, Label(BR_EXTRA_LABELS), skipped);
    extras := extras + AreaExtras(src.rest);
    extras := DedupList(extras);
    skipped := skipped + RestSkipped(src.rest, src.wholeCountryOutline);
    dst := SrFilters(Or(offers, "pronajem"), "byty", sizes, districts, ownership, conditions, buildings, extras,
                     src.price, src.area, "nejnovejsi", [], [], NO_RANGE);
  }

  method ConvertSrToIdnes(src: SrFilters) returns (dst: IdnesFilters, skipped: seq<string>)
    ensures Converted(dst, skipped) == SrToIdnes(src)
  {
    var offers, sizes, districts, ownership, conditions, buildings, extras;
    offers, skipped := MapList(src.offers, SR_TO_IDNES_OFFER, Label(SR_OFFER_LABELS), []);
    sizes, skipped := MapList(src.sizes, SR_TO_IDNES_SIZE, Plain, skipped);
    districts := KeepNonEmpty(src.districts);
    ownership, skipped := MapList(src.ownership, SR_TO_IDNES_OWN, Plain, skipped);
    conditions, skipped := MapList(src.conditions, SR_TO_IDNES_COND, Plain, skipped);
    buildings, skipped := BuildingsToIdnes(src.buildings, skipped);
    extras, skipped := SharedExtras(src.extras, Plain, skipped);
    skipped := SkipIf(skipped, src.energy != [], "Energetická náročnost");
    skipped := SkipIf(skipped, src.pois != [], "V okolí nemovitosti");
    skipped := SkipIf(skipped, src.floor.Given(), "Patro od–do");
    dst := IdnesFilters(Or(offers, "pronajem")[..1], IdnesCategory(src.category), sizes, districts, ownership,
                        conditions, buildings, extras, src.price, src.area, "nejnovejsi", [], "");
  }

  method KeepNonEmpty(districts: seq<Token>) returns (kept: seq<Token>)
    ensures kept == FlatMap(NonEmpty, districts)
  {
    kept := [];
    for i := 0 to |districts|
      invariant kept == FlatMap(NonEmpty, districts[..i])
    {
      FlatMapAppend(NonEmpty, districts[..i], districts[i]);
      assert districts[..i + 1] == districts[..i] + [districts[i]];
      if districts[i] != "" {
        kept := kept + [districts[i]];
      }
    }
    assert districts[..|districts|] == districts;
  }

  method ConvertIdnesToSr(src: IdnesFilters) returns (dst: SrFilters, skipped: seq<string>)
    ensures Converted(dst, skipped) == IdnesToSr(src)
  {
    var offers, sizes, districts, ownership, conditions, buildings, extras;
    offers, skipped := MapList(src.offers, IDNES_TO_SR_OFFER, Plain, []);
    skipped := SkipIf(skipped, OrText(src.category, "byty") != "byty", IdnesCategoryLabel(src.category));
    sizes, skipped := MapList(src.sizes, IDNES_TO_SR_SIZE, Plain, skipped);
    districts := KeepNonEmpty(src.districts);
    ownership, skipped := MapList(src.ownership, IDNES_TO_SR_OWN, Label(IDNES_OWN_LABELS), skipped);
    conditions, skipped := MapList(src.conditions, IDNES_TO_SR_COND, Plain, skipped);
    buildings, skipped := MapList(src.buildings, IDNES_TO_SR_BUILD, Plain, skipped);
    extras, skipped := SharedExtras(src.extras, Label(IDNES_EXTRA_LABELS), skipped);
    skipped := SkipIf(skipped, src.equipped != [], "Vybavenost (zařízený / částečně / nezařízený)");
    skipped := SkipIf(skipped, src.articleAge != "", "Aktuálnost inzerátu");
    dst := SrFilters(Or(offers, "pronajem"), "byty", sizes, districts, ownership, conditions, buildings, extras,
                     src.price, src.area, "nejnovejsi", [], [], NO_RANGE);
  }
}
