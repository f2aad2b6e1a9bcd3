/** What the filter translator promises: Bezrealitky round trips, an idempotent coarsening through iDNES, and
    no token silently dropped. */
module FilterBridgeLaws {
  import opened Seqs
  import opened FilterLists
  import opened FilterBridge

  /** What is assumed of the Unicode folding: it does not take a locality of the table for the country. */
  ghost predicate TellsCitiesFromCountry(names: Naming) {
    forall t :: t in BR_DISTRICTS ==> !names.isCountry(t, Label(BR_DISTRICT_LABELS)(t))
  }

  predicate IsSize(t: Token) { t in SR_SIZES || t == "6-a-vice" }

  predicate IsBuilding(t: Token) { t == "cihlova" || t == "panelova" || t == "ostatni" }

  function In(table: map<Token, Token>): Token -> bool {
    t => t in table
  }

  /** One table is the inverse of the other. */
  ghost predicate Inverse(there: map<Token, Token>, back: map<Token, Token>) {
    forall t :: t in there ==> there[t] in back && back[there[t]] == t
  }

  lemma One(f: Token -> seq<Token>, t: Token)
    ensures FlatMap(f, [t]) == f(t) && Dedup([t]) == [t]
  {
    FlatMapAppend(f, [], t);
    assert [] + [t] == [t];
    DedupAppend([], t);
  }

  lemma TableUndone(there: map<Token, Token>, back: map<Token, Token>, t: Token)
    requires Inverse(there, back)
    ensures Dedup(FlatMap(By(back), By(there)(t))) == if In(there)(t) then [t] else []
  {
    if t in there {
      One(By(back), there[t]);
      One(By(back), t);
    }
  }

  lemma TableRoundTrip(there: map<Token, Token>, back: map<Token, Token>, ts: seq<Token>)
    requires Inverse(there, back)
    ensures Dedup(FlatMap(By(back), Dedup(FlatMap(By(there), ts)))) == Supported(In(there), ts)
    ensures Dedup(FlatMap(By(back), FlatMap(By(there), ts))) == Supported(In(there), ts)
  {
    forall t | t in ts ensures Dedup(FlatMap(By(back), By(there)(t))) == if In(there)(t) then [t] else [] {
      TableUndone(there, back, t);
    }
    RoundTrip(By(there), By(back), In(there), ts);
  }

  lemma SizesInverse()
    ensures Inverse(SR_SIZES, BR_SIZES)
  {
  }

  lemma ConditionsInverse()
    ensures Inverse(SR_CONDITIONS, BR_CONDITIONS)
  {
  }

  lemma DistrictsInverse()
    ensures Inverse(SR_DISTRICTS, BR_DISTRICTS)
  {
  }

  lemma SmallTablesInverse()
    ensures Inverse(SR_OFFERS, BR_OFFERS) && Inverse(SR_OWNERSHIP, BR_OWNERSHIP)
  {
  }

  lemma ExtrasInverse()
    ensures Inverse(SR_EXTRAS, BR_EXTRAS)
  {
  }

  lemma SizeUndone(t: Token)
    ensures Dedup(FlatMap(SizeToSr, SizeToBr(t))) == if IsSize(t) then [t] else []
  {
    if t == "6-a-vice" {
      SameTarget(SizeToSr, BIG_SIZES, t);
    } else if t in SR_SIZES {
      SizesInverse();
      One(SizeToSr, SR_SIZES[t]);
      One(SizeToSr, t);
      NoBigSize(t);
    }
  }

  lemma NoBigSize(t: Token)
    requires t in SR_SIZES
    ensures SR_SIZES[t] !in BIG_SIZES
  {
  }

  lemma ConditionUndone(t: Token)
    ensures Dedup(FlatMap(ConditionToSr, By(SR_CONDITIONS)(t))) == if In(SR_CONDITIONS)(t) then [t] else []
  {
    if t in SR_CONDITIONS {
      ConditionsInverse();
      NotPartial(t);
      One(ConditionToSr, SR_CONDITIONS[t]);
      One(ConditionToSr, t);
    }
  }

  lemma NotPartial(t: Token)
    requires t in SR_CONDITIONS
    ensures SR_CONDITIONS[t] != "AFTER_PARTIAL_RECONSTRUCTION"
  {
  }

  lemma BuildingUndone(t: Token)
    ensures Dedup(FlatMap(BuildingToSr, BuildingToBr(t))) == if IsBuilding(t) then [t] else []
  {
    if t == "ostatni" {
      SameTarget(BuildingToSr, OTHER_BUILDINGS, t);
    } else if t == "cihlova" {
      One(BuildingToSr, "BRICK");
      One(BuildingToSr, t);
    } else if t == "panelova" {
      One(BuildingToSr, "PANEL");
      One(BuildingToSr, t);
    }
  }

  lemma DistrictUndone(names: Naming, t: Token)
    requires TellsCitiesFromCountry(names)
    ensures Dedup(FlatMap(DistrictToSr(names), By(SR_DISTRICTS)(t))) == if In(SR_DISTRICTS)(t) then [t] else []
  {
    if t in SR_DISTRICTS {
      DistrictsInverse();
      NotCountryId(SR_DISTRICTS[t]);
      One(DistrictToSr(names), SR_DISTRICTS[t]);
      One(DistrictToSr(names), t);
    }
  }

  lemma NotCountryId(t: Token)
    requires t in BR_DISTRICTS
    ensures t != CZECH_OSM
  {
  }

  lemma RegionsDistinct()
    ensures Dedup(REGIONS) == REGIONS
  {
    assert forall i, j :: 0 <= i < j < |REGIONS| ==> REGIONS[i] != REGIONS[j];
    DedupOfDistinct(REGIONS);
  }

  /** What Sreality filters look like after a trip to Bezrealitky and back. */
  function Returned(f: SrFilters, names: Naming): SrFilters {
    SrFilters(Or(Supported(In(SR_OFFERS), f.offers), "pronajem"), "byty",
              Supported(IsSize, f.sizes),
              if WholeCountry(f.districts, names) then REGIONS else Supported(In(SR_DISTRICTS), f.districts),
              Supported(In(SR_OWNERSHIP), f.ownership), Supported(In(SR_CONDITIONS), f.conditions),
              Supported(IsBuilding, f.buildings), Supported(In(SR_EXTRAS), f.extras),
              f.price, f.area, "nejnovejsi", [], [], NO_RANGE)
  }

  lemma DistrictsReturn(ts: seq<Token>, names: Naming)
    requires TellsCitiesFromCountry(names)
    ensures Dedup(FlatMap(DistrictToSr(names), DistrictsToBr(ts, names)))
         == if WholeCountry(ts, names) then REGIONS else Supported(In(SR_DISTRICTS), ts)
  {
    if WholeCountry(ts, names) {
      One(DistrictToSr(names), CZECH_OSM);
      RegionsDistinct();
    } else {
      forall t | t in ts
        ensures Dedup(FlatMap(DistrictToSr(names), By(SR_DISTRICTS)(t))) == if In(SR_DISTRICTS)(t) then [t] else []
      {
        DistrictUndone(names, t);
      }
      RoundTrip(By(SR_DISTRICTS), DistrictToSr(names), In(SR_DISTRICTS), ts);
    }
  }

  lemma ListsReturn(f: SrFilters)
    ensures Dedup(FlatMap(SizeToSr, Dedup(FlatMap(SizeToBr, f.sizes)))) == Supported(IsSize, f.sizes)
    ensures Dedup(FlatMap(ConditionToSr, Dedup(FlatMap(By(SR_CONDITIONS), f.conditions))))
         == Supported(In(SR_CONDITIONS), f.conditions)
    ensures Dedup(FlatMap(BuildingToSr, Dedup(FlatMap(BuildingToBr, f.buildings)))) == Supported(IsBuilding, f.buildings)
  {
    forall t | t in f.sizes ensures Dedup(FlatMap(SizeToSr, SizeToBr(t))) == if IsSize(t) then [t] else [] {
      SizeUndone(t);
    }
    RoundTrip(SizeToBr, SizeToSr, IsSize, f.sizes);
    forall t | t in f.conditions
      ensures Dedup(FlatMap(ConditionToSr, By(SR_CONDITIONS)(t))) == if In(SR_CONDITIONS)(t) then [t] else []
    {
      ConditionUndone(t);
    }
    RoundTrip(By(SR_CONDITIONS), ConditionToSr, In(SR_CONDITIONS), f.conditions);
    forall t | t in f.buildings ensures Dedup(FlatMap(BuildingToSr, BuildingToBr(t))) == if IsBuilding(t) then [t] else [] {
      BuildingUndone(t);
    }
    RoundTrip(BuildingToBr, BuildingToSr, IsBuilding, f.buildings);
  }

  lemma OffersReturn(ts: seq<Token>)
    ensures Or(Dedup(FlatMap(By(BR_OFFERS), Or(Dedup(FlatMap(By(SR_OFFERS), ts)), "PRONAJEM"))), "pronajem")
         == Or(Supported(In(SR_OFFERS), ts), "pronajem")
  {
    SmallTablesInverse();
    TableRoundTrip(SR_OFFERS, BR_OFFERS, ts);
    One(By(BR_OFFERS), "PRONAJEM");
    One(By(BR_OFFERS), "pronajem");
  }

  lemma ExtrasReturn(ts: seq<Token>)
    ensures Dedup(FlatMap(By(BR_EXTRAS), FlatMap(By(SR_EXTRAS), ts)) + AreaExtras(DEFAULT_REST))
         == Supported(In(SR_EXTRAS), ts)
  {
    ExtrasInverse();
    TableRoundTrip(SR_EXTRAS, BR_EXTRAS, ts);
    NoAreas();
    assert FlatMap(By(BR_EXTRAS), FlatMap(By(SR_EXTRAS), ts)) + [] == FlatMap(By(BR_EXTRAS), FlatMap(By(SR_EXTRAS), ts));
  }

  lemma NoAreas()
    ensures AreaExtras(DEFAULT_REST) == []
  {
  }

  lemma OwnershipReturns(ts: seq<Token>)
    ensures Dedup(FlatMap(By(BR_OWNERSHIP), Dedup(FlatMap(By(SR_OWNERSHIP), ts)))) == Supported(In(SR_OWNERSHIP), ts)
  {
    SmallTablesInverse();
    TableRoundTrip(SR_OWNERSHIP, BR_OWNERSHIP, ts);
  }

  /** Through Bezrealitky and back: exactly the supported tokens of every list, each once, in order; the same
      price and area bounds; the whole country as the fourteen regions. */
  lemma BezrealitkyRoundTrip(f: SrFilters, names: Naming)
    requires TellsCitiesFromCountry(names)
    ensures BrToSr(SrToBr(f, names).filters, names).filters == Returned(f, names)
  {
    OffersReturn(f.offers);
    ListsReturn(f);
    DistrictsReturn(f.districts, names);
    OwnershipReturns(f.ownership);
    ExtrasReturn(f.extras);
  }

  lemma SupportedIdempotent(p: Token -> bool, ts: seq<Token>)
    ensures Supported(p, Supported(p, ts)) == Supported(p, ts)
  {
    FilterMembers(p, ts);
    DedupMembers(Filter(p, ts));
    FilterAll(p, Supported(p, ts));
    DedupIdempotent(Filter(p, ts));
  }

  /** The trip is a projection: a second one changes nothing. */
  lemma BezrealitkyRoundTripIsProjection(f: SrFilters, names: Naming)
    requires TellsCitiesFromCountry(names)
    ensures var once := BrToSr(SrToBr(f, names).filters, names).filters;
            (BrToSr(SrToBr(once, names).filters, names).filters == once)
  {
    BezrealitkyRoundTrip(f, names);
    BezrealitkyRoundTrip(Returned(f, names), names);
    ReturnedTwice(f, names);
  }

  lemma ReturnedTwice(f: SrFilters, names: Naming)
    requires TellsCitiesFromCountry(names)
    ensures Returned(Returned(f, names), names) == Returned(f, names)
  {
    SupportedIdempotent(In(SR_OFFERS), f.offers);
    One(By(SR_OFFERS), "pronajem");
    SupportedIdempotent(IsSize, f.sizes);
    SupportedIdempotent(In(SR_OWNERSHIP), f.ownership);
    SupportedIdempotent(In(SR_CONDITIONS), f.conditions);
    SupportedIdempotent(IsBuilding, f.buildings);
    SupportedIdempotent(In(SR_EXTRAS), f.extras);
    SupportedIdempotent(In(SR_DISTRICTS), f.districts);
    assert Filter(In(SR_OFFERS), ["pronajem"]) == ["pronajem"];
    if !WholeCountry(f.districts, names) {
      FilterMembers(In(SR_DISTRICTS), f.districts);
      DedupMembers(Filter(In(SR_DISTRICTS), f.districts));
    }
  }

  // Through iDNES

  function CoarseCondition(t: Token): seq<Token> {
    if t == "velmi-dobry-stav" then ["dobry-stav"] else if t in SR_CONDITIONS then [t] else []
  }

  function CoarseBuilding(t: Token): seq<Token> {
    if t == "cihlova" || t == "panelova" then [t]
    else if t == "ostatni" || t in IDNES_OTHER_BUILDINGS then ["ostatni"] else []
  }

  predicate IsShared(t: Token) { t in SHARED_EXTRAS }

  predicate IsGiven(t: Token) { t != "" }

  /** What Sreality filters look like after a trip to iDNES and back. */
  function Coarsened(f: SrFilters): SrFilters {
    SrFilters(Or(Supported(In(SR_TO_IDNES_OFFER), f.offers), "pronajem")[..1], "byty",
              Supported(In(SR_TO_IDNES_SIZE), f.sizes), Filter(IsGiven, f.districts),
              Supported(In(IDNES_TO_SR_OWN), f.ownership), Dedup(FlatMap(CoarseCondition, f.conditions)),
              Dedup(FlatMap(CoarseBuilding, f.buildings)), Filter(IsShared, f.extras),
              f.price, f.area, "nejnovejsi", [], [], NO_RANGE)
  }

  lemma IdnesSizesInverse()
    ensures Inverse(SR_TO_IDNES_SIZE, IDNES_TO_SR_SIZE)
  {
  }

  lemma IdnesOffersInverse()
    ensures Inverse(SR_TO_IDNES_OFFER, IDNES_TO_SR_OFFER)
  {
  }

  lemma IdnesOwnBack(t: Token)
    requires t in SR_TO_IDNES_OWN
    ensures By(IDNES_TO_SR_OWN)(SR_TO_IDNES_OWN[t]) == if In(IDNES_TO_SR_OWN)(t) then [t] else []
  {
  }

  lemma OwnershipKept(t: Token)
    ensures t in IDNES_TO_SR_OWN ==> t in SR_TO_IDNES_OWN
  {
  }

  lemma IdnesOwnership(t: Token)
    ensures Dedup(FlatMap(By(IDNES_TO_SR_OWN), By(SR_TO_IDNES_OWN)(t))) == if In(IDNES_TO_SR_OWN)(t) then [t] else []
  {
    OwnershipKept(t);
    if t in SR_TO_IDNES_OWN {
      IdnesOwnBack(t);
      One(By(IDNES_TO_SR_OWN), SR_TO_IDNES_OWN[t]);
      One(By(IDNES_TO_SR_OWN), t);
    }
  }

  lemma IdnesConditionBack(t: Token)
    requires t in SR_TO_IDNES_COND
    ensures By(IDNES_TO_SR_COND)(SR_TO_IDNES_COND[t]) == CoarseCondition(t)
  {
  }

  lemma SameConditions(t: Token)
    ensures t in SR_TO_IDNES_COND <==> t in SR_CONDITIONS
  {
  }

  lemma IdnesCondition(t: Token)
    ensures FlatMap(By(IDNES_TO_SR_COND), By(SR_TO_IDNES_COND)(t)) == CoarseCondition(t)
  {
    SameConditions(t);
    if t in SR_TO_IDNES_COND {
      IdnesConditionBack(t);
      One(By(IDNES_TO_SR_COND), SR_TO_IDNES_COND[t]);
    }
  }

  lemma IdnesBuildingBack(t: Token)
    requires t in IDNES_BUILDINGS
    ensures By(IDNES_TO_SR_BUILD)(t) == CoarseBuilding(t)
  {
  }

  lemma OtherBuildingBack(t: Token)
    requires t in IDNES_OTHER_BUILDINGS
    ensures By(IDNES_TO_SR_BUILD)(t) == ["ostatni"]
  {
  }

  lemma RawBuildings(t: Token)
    ensures t in IDNES_BUILDINGS <==> t == "cihlova" || t == "panelova" || t in IDNES_OTHER_BUILDINGS
  {
  }

  lemma IdnesBuilding(t: Token)
    ensures Dedup(FlatMap(By(IDNES_TO_SR_BUILD), BuildingToIdnes(t))) == Dedup(CoarseBuilding(t))
  {
    RawBuildings(t);
    if t == "ostatni" {
      forall u | u in IDNES_OTHER_BUILDINGS ensures By(IDNES_TO_SR_BUILD)(u) == [t] { OtherBuildingBack(u); }
      SameTarget(By(IDNES_TO_SR_BUILD), IDNES_OTHER_BUILDINGS, t);
      One(CoarseBuilding, t);
    } else if t in IDNES_BUILDINGS {
      IdnesBuildingBack(t);
      One(By(IDNES_TO_SR_BUILD), t);
    }
  }

  lemma {:induction false} SharedIsFilter(ts: seq<Token>)
    ensures FlatMap(SharedExtra, ts) == Filter(IsShared, ts)
  {
    if ts != [] {
      SharedIsFilter(Front(ts));
      FrontEnd(ts);
      FilterConcat(IsShared, Front(ts), [End(ts)]);
    }
  }

  lemma {:induction false} NonEmptyIsFilter(ts: seq<Token>)
    ensures FlatMap(NonEmpty, ts) == Filter(IsGiven, ts)
  {
    if ts != [] {
      NonEmptyIsFilter(Front(ts));
      FrontEnd(ts);
      FilterConcat(IsGiven, Front(ts), [End(ts)]);
    }
  }

  lemma FilterTwice(p: Token -> bool, ts: seq<Token>)
    ensures Filter(p, Filter(p, ts)) == Filter(p, ts)
  {
    FilterMembers(p, ts);
    FilterAll(p, Filter(p, ts));
  }

  lemma {:induction false} DedupFirst(xs: seq<Token>)
    requires xs != []
    ensures Dedup(xs) != [] && Dedup(xs)[0] == xs[0]
  {
    if |xs| > 1 { DedupFirst(Front(xs)); }
  }

  lemma {:induction false} TranslatedFirst(there: map<Token, Token>, ts: seq<Token>)
    ensures var out, kept := FlatMap(By(there), ts), Filter(In(there), ts);
            ((out == [] <==> kept == []) && (out != [] ==> kept[0] in there && out[0] == there[kept[0]]))
  {
    if ts != [] {
      TranslatedFirst(there, Front(ts));
      FrontEnd(ts);
      FilterConcat(In(there), Front(ts), [End(ts)]);
    }
  }

  /** The first translated token goes back to the first supported one. */
  lemma FirstSurvives(there: map<Token, Token>, ts: seq<Token>)
    ensures var out, kept := Dedup(FlatMap(By(there), ts)), Supported(In(there), ts);
            ((out == [] <==> kept == []) && (out != [] ==> kept[0] in there && out[0] == there[kept[0]]))
  {
    TranslatedFirst(there, ts);
    if FlatMap(By(there), ts) != [] {
      DedupFirst(FlatMap(By(there), ts));
      DedupFirst(Filter(In(there), ts));
    }
  }

  lemma SingleReturns(there: map<Token, Token>, back: map<Token, Token>, out: seq<Token>, kept: seq<Token>)
    requires Inverse(there, back) && out != [] && kept != [] && kept[0] in there && out[0] == there[kept[0]]
    ensures Dedup(FlatMap(By(back), out[..1])) == kept[..1]
  {
    assert out[..1] == [out[0]] && kept[..1] == [kept[0]];
    One(By(back), out[0]);
    One(By(back), kept[0]);
  }

  lemma DefaultOfferReturns()
    ensures Dedup(FlatMap(By(IDNES_TO_SR_OFFER), ["pronajem"])) == ["pronajem"]
  {
    One(By(IDNES_TO_SR_OFFER), "pronajem");
  }

  /** The single offer kept for iDNES, taken back, is the first supported one. */
  lemma OfferReturns(ts: seq<Token>)
    ensures Or(Dedup(FlatMap(By(IDNES_TO_SR_OFFER), Or(Dedup(FlatMap(By(SR_TO_IDNES_OFFER), ts)), "pronajem")[..1])), "pronajem")
         == Or(Supported(In(SR_TO_IDNES_OFFER), ts), "pronajem")[..1]
  {
    FirstSurvives(SR_TO_IDNES_OFFER, ts);
    var out := Dedup(FlatMap(By(SR_TO_IDNES_OFFER), ts));
    var kept := Supported(In(SR_TO_IDNES_OFFER), ts);
    if out == [] {
      DefaultOfferReturns();
      assert ["pronajem"][..1] == ["pronajem"];
    } else {
      IdnesOffersInverse();
      SingleReturns(SR_TO_IDNES_OFFER, IDNES_TO_SR_OFFER, out, kept);
    }
  }

  /** Through iDNES and back the filters are exactly coarsened. */
  lemma IdnesRoundTrip(f: SrFilters)
    ensures IdnesToSr(SrToIdnes(f).filters).filters == Coarsened(f)
  {
    OfferReturns(f.offers);
    IdnesSizesInverse();
    TableRoundTrip(SR_TO_IDNES_SIZE, IDNES_TO_SR_SIZE, f.sizes);
    IdnesLists(f);
    NonEmptyIsFilter(f.districts);
    NonEmptyIsFilter(FlatMap(NonEmpty, f.districts));
    FilterTwice(IsGiven, f.districts);
    SharedIsFilter(f.extras);
    SharedIsFilter(FlatMap(SharedExtra, f.extras));
    FilterTwice(IsShared, f.extras);
  }

  lemma IdnesLists(f: SrFilters)
    ensures Dedup(FlatMap(By(IDNES_TO_SR_OWN), Dedup(FlatMap(By(SR_TO_IDNES_OWN), f.ownership))))
         == Supported(In(IDNES_TO_SR_OWN), f.ownership)
    ensures Dedup(FlatMap(By(IDNES_TO_SR_COND), Dedup(FlatMap(By(SR_TO_IDNES_COND), f.conditions))))
         == Dedup(FlatMap(CoarseCondition, f.conditions))
    ensures Dedup(FlatMap(By(IDNES_TO_SR_BUILD), Dedup(FlatMap(BuildingToIdnes, f.buildings))))
         == Dedup(FlatMap(CoarseBuilding, f.buildings))
  {
    forall t | t in f.ownership
      ensures Dedup(FlatMap(By(IDNES_TO_SR_OWN), By(SR_TO_IDNES_OWN)(t))) == if In(IDNES_TO_SR_OWN)(t) then [t] else []
    {
      IdnesOwnership(t);
    }
    RoundTrip(By(SR_TO_IDNES_OWN), By(IDNES_TO_SR_OWN), In(IDNES_TO_SR_OWN), f.ownership);
    ThereAndBack(By(SR_TO_IDNES_COND), By(IDNES_TO_SR_COND), f.conditions);
    forall t | t in f.conditions
      ensures Dedup(Compose(By(IDNES_TO_SR_COND), By(SR_TO_IDNES_COND))(t)) == Dedup(CoarseCondition(t))
    {
      IdnesCondition(t);
    }
    DedupPointwise(Compose(By(IDNES_TO_SR_COND), By(SR_TO_IDNES_COND)), CoarseCondition, f.conditions);
    ThereAndBack(BuildingToIdnes, By(IDNES_TO_SR_BUILD), f.buildings);
    forall t | t in f.buildings
      ensures Dedup(Compose(By(IDNES_TO_SR_BUILD), BuildingToIdnes)(t)) == Dedup(CoarseBuilding(t))
    {
      IdnesBuilding(t);
    }
    DedupPointwise(Compose(By(IDNES_TO_SR_BUILD), BuildingToIdnes), CoarseBuilding, f.buildings);
  }

  /** Applying the pair of conversions twice equals applying it once, although it coarsens. */
  lemma IdnesRoundTripIsIdempotent(f: SrFilters)
    ensures var once := IdnesToSr(SrToIdnes(f).filters).filters;
            (IdnesToSr(SrToIdnes(once).filters).filters == once)
  {
    IdnesRoundTrip(f);
    IdnesRoundTrip(Coarsened(f));
    CoarsenedTwice(f);
  }

  lemma ConditionsCoarsenedTwice(ts: seq<Token>)
    ensures Dedup(FlatMap(CoarseCondition, Dedup(FlatMap(CoarseCondition, ts)))) == Dedup(FlatMap(CoarseCondition, ts))
  {
    forall t, u | t in ts && u in CoarseCondition(t) ensures Dedup(CoarseCondition(u)) == [u] {
      One(CoarseCondition, u);
    }
    CoarseningIsIdempotent(CoarseCondition, ts);
  }

  lemma BuildingsCoarsenedTwice(ts: seq<Token>)
    ensures Dedup(FlatMap(CoarseBuilding, Dedup(FlatMap(CoarseBuilding, ts)))) == Dedup(FlatMap(CoarseBuilding, ts))
  {
    forall t, u | t in ts && u in CoarseBuilding(t) ensures Dedup(CoarseBuilding(u)) == [u] {
      One(CoarseBuilding, u);
    }
    CoarseningIsIdempotent(CoarseBuilding, ts);
  }

  lemma CoarsenedTwice(f: SrFilters)
    ensures Coarsened(Coarsened(f)) == Coarsened(f)
  {
    OfferCoarsenedTwice(f.offers);
    SupportedIdempotent(In(SR_TO_IDNES_SIZE), f.sizes);
    FilterTwice(IsGiven, f.districts);
    SupportedIdempotent(In(IDNES_TO_SR_OWN), f.ownership);
    ConditionsCoarsenedTwice(f.conditions);
    BuildingsCoarsenedTwice(f.buildings);
    FilterTwice(IsShared, f.extras);
  }

  lemma OfferCoarsenedTwice(ts: seq<Token>)
    ensures var one := Or(Supported(In(SR_TO_IDNES_OFFER), ts), "pronajem")[..1];
            (Or(Supported(In(SR_TO_IDNES_OFFER), one), "pronajem")[..1] == one)
  {
    var kept := Supported(In(SR_TO_IDNES_OFFER), ts);
    FilterMembers(In(SR_TO_IDNES_OFFER), ts);
    DedupMembers(Filter(In(SR_TO_IDNES_OFFER), ts));
    var t := Or(kept, "pronajem")[0];
    if kept != [] { assert kept[0] in kept; }
    assert Or(kept, "pronajem")[..1] == [t];
    One(By(SR_TO_IDNES_OFFER), t);
    FilterAll(In(SR_TO_IDNES_OFFER), [t]);
  }

  // Nothing silently dropped

  /** Every non-empty token of a list is translated into the result or named in the skipped list. */
  ghost predicate Accounted(ts: seq<Token>, out: Token -> seq<Token>, caption: Token -> string,
                            result: seq<Token>, skipped: seq<string>) {
    forall t :: t in ts && t != "" ==>
      ((out(t) != [] && forall u :: u in out(t) ==> u in result) || caption(t) in skipped)
  }

  lemma ListAccounted(ts: seq<Token>, out: Token -> seq<Token>, caption: Token -> string,
                      result: seq<Token>, skipped: seq<string>)
    requires forall u :: u in FlatMap(out, ts) ==> u in result
    requires forall s :: s in FlatMap(Skip(out, caption), ts) ==> s in skipped
    ensures Accounted(ts, out, caption, result, skipped)
  {
    forall t | t in ts && t != ""
      ensures (out(t) != [] && forall u :: u in out(t) ==> u in result) || caption(t) in skipped
    {
      if out(t) == [] {
        FlatMapMembers(Skip(out, caption), ts, t, caption(t));
      } else {
        forall u | u in out(t) ensures u in result { FlatMapMembers(out, ts, t, u); }
      }
    }
  }

  /** To Bezrealitky nothing is silently dropped. */
  lemma BezrealitkyDropsNothing(f: SrFilters, names: Naming)
    ensures var r := SrToBr(f, names);
            && Accounted(f.offers, By(SR_OFFERS), Label(SR_OFFER_LABELS), r.filters.offers, r.skipped)
            && (if WholeCountry(f.districts, names) then r.filters.districts == [CZECH_OSM]
                else Accounted(f.districts, By(SR_DISTRICTS), DistrictLabel, r.filters.districts, r.skipped))
            && Accounted(f.sizes, SizeToBr, SizeLabel, r.filters.sizes, r.skipped)
            && Accounted(f.ownership, By(SR_OWNERSHIP), Plain, r.filters.ownership, r.skipped)
            && Accounted(f.conditions, By(SR_CONDITIONS), Plain, r.filters.conditions, r.skipped)
            && Accounted(f.buildings, BuildingToBr, BuildingLabel, r.filters.buildings, r.skipped)
            && Accounted(f.extras, By(SR_EXTRAS), BrExtraLabel, r.filters.extras, r.skipped)
  {
    var r := SrToBr(f, names);
    DedupMembers(FlatMap(By(SR_OFFERS), f.offers));
    ListAccounted(f.offers, By(SR_OFFERS), Label(SR_OFFER_LABELS), r.filters.offers, r.skipped);
    DedupMembers(FlatMap(By(SR_DISTRICTS), f.districts));
    if !WholeCountry(f.districts, names) {
      ListAccounted(f.districts, By(SR_DISTRICTS), DistrictLabel, r.filters.districts, r.skipped);
    }
    DedupMembers(FlatMap(SizeToBr, f.sizes));
    ListAccounted(f.sizes, SizeToBr, SizeLabel, r.filters.sizes, r.skipped);
    DedupMembers(FlatMap(By(SR_OWNERSHIP), f.ownership));
    ListAccounted(f.ownership, By(SR_OWNERSHIP), Plain, r.filters.ownership, r.skipped);
    DedupMembers(FlatMap(By(SR_CONDITIONS), f.conditions));
    ListAccounted(f.conditions, By(SR_CONDITIONS), Plain, r.filters.conditions, r.skipped);
    DedupMembers(FlatMap(BuildingToBr, f.buildings));
    ListAccounted(f.buildings, BuildingToBr, BuildingLabel, r.filters.buildings, r.skipped);
    ListAccounted(f.extras, By(SR_EXTRAS), BrExtraLabel, r.filters.extras, r.skipped);
  }

  /** The district list is kept; of the offers the first that has a translation is used, and those that have none are
      named. */
  lemma IdnesKeepsFirstOffer(f: SrFilters)
    ensures var r := SrToIdnes(f);
            var offers := Dedup(FlatMap(By(SR_TO_IDNES_OFFER), f.offers));
            && Accounted(f.offers, By(SR_TO_IDNES_OFFER), Label(SR_OFFER_LABELS), offers, r.skipped)
            && r.filters.offers == (if offers == [] then ["pronajem"] else [offers[0]])
            && (forall t :: t in f.districts && t != "" ==> t in r.filters.districts)
  {
    var r := SrToIdnes(f);
    DedupMembers(FlatMap(By(SR_TO_IDNES_OFFER), f.offers));
    ListAccounted(f.offers, By(SR_TO_IDNES_OFFER), Label(SR_OFFER_LABELS),
                  Dedup(FlatMap(By(SR_TO_IDNES_OFFER), f.offers)), r.skipped);
    NonEmptyIsFilter(f.districts);
    FilterMembers(IsGiven, f.districts);
  }

  /** To iDNES nothing is silently dropped. */
  lemma IdnesDropsNothing(f: SrFilters)
    ensures var r := SrToIdnes(f);
            && Accounted(f.sizes, By(SR_TO_IDNES_SIZE), Plain, r.filters.sizes, r.skipped)
            && Accounted(f.ownership, By(SR_TO_IDNES_OWN), Plain, r.filters.ownership, r.skipped)
            && Accounted(f.conditions, By(SR_TO_IDNES_COND), Plain, r.filters.conditions, r.skipped)
            && Accounted(f.buildings, BuildingToIdnes, BuildingLabel, r.filters.buildings, r.skipped)
            && Accounted(f.extras, SharedExtra, Plain, r.filters.extras, r.skipped)
  {
    var r := SrToIdnes(f);
    DedupMembers(FlatMap(By(SR_TO_IDNES_SIZE), f.sizes));
    ListAccounted(f.sizes, By(SR_TO_IDNES_SIZE), Plain, r.filters.sizes, r.skipped);
    DedupMembers(FlatMap(By(SR_TO_IDNES_OWN), f.ownership));
    ListAccounted(f.ownership, By(SR_TO_IDNES_OWN), Plain, r.filters.ownership, r.skipped);
    DedupMembers(FlatMap(By(SR_TO_IDNES_COND), f.conditions));
    ListAccounted(f.conditions, By(SR_TO_IDNES_COND), Plain, r.filters.conditions, r.skipped);
    DedupMembers(FlatMap(BuildingToIdnes, f.buildings));
    ListAccounted(f.buildings, BuildingToIdnes, BuildingLabel, r.filters.buildings, r.skipped);
    ListAccounted(f.extras, SharedExtra, Plain, r.filters.extras, r.skipped);
  }
}
