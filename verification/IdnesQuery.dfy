/** What a written iDNES URL says, under the parameter names that the portal reads. */
module IdnesQuery {
  import opened Seqs
  import opened FilterLists
  import opened Texts
  import opened Decimals
  import opened FormEncoding
  import opened UrlSplit
  import opened IdnesUrl
  import FilterMeaning

  /** The values that a URL gives to a parameter, by its name. */
  type Saying = string -> seq<string>

  ghost predicate Writes(says: Saying, f: Filters) { forall k :: says(Text(k)) == Written(f, k) }

  // ------------------------------------------------------------------ lists --

  /** The sizes that iDNES offers. */
  ghost predicate IsSize(t: Token) {
    (exists d, kk :: '1' <= d <= '5' && t == FilterMeaning.IdnesSize(d, kk)) || t in {"6-kk-a-vetsi", "pokoj", "atypicke"}
  }

  ghost predicate IsCondition(t: Token) {
    t in {"novostavba", "projekt", "ve-vystavbe", "dobry-stav", "udrzovany", "spatny-stav", "po-rekonstrukci",
          "v-rekonstrukci", "pred-rekonstrukci", "k-demolici"}
  }

  ghost predicate IsOwner(t: Token) { t in {"osobni", "druzstevni", "s-r-o", "podilove", "jine"} }

  ghost predicate IsBuilding(t: Token) {
    t in {"cihlova", "panelova", "drevena", "kamenna", "skeletova", "montovana", "smisena"}
  }

  ghost predicate IsExtra(t: Token) {
    t in {"balkon", "lodzie", "terasa", "zahrada", "sklep", "garaz", "parkovani", "vytah", "bezbarierovy", "telefon",
          "kabelova-tv", "internet"}
  }

  ghost predicate IsEquipment(t: Token) { t in {"zarizeny", "castecne", "nezarizeny"} }

  /** A list is one value, its tokens with bars between them; an empty list is not written. */
  ghost predicate Barred(values: seq<string>, tokens: seq<Token>) {
    values == if tokens == [] then [] else [Join('|', tokens)]
  }

  /** Of each list, the tokens that the portal offers, in their order; equipment follows the extras. */
  ghost predicate SaysLists(says: Saying, f: Filters) {
    && Barred(says("dispozice"), Filter(IsSize, f.sizes)) && Barred(says("stav"), Filter(IsCondition, f.conditions))
    && Barred(says("vlastnictvi"), Filter(IsOwner, f.ownership))
    && Barred(says("konstrukce"), Filter(IsBuilding, f.buildings))
    && Barred(says("vybaveni"), Filter(IsExtra, f.extras) + Filter(IsEquipment, f.equipped))
  }

  lemma SizeKeys(t: Token)
    ensures In(SIZE_KEYS, t) <==> IsSize(t)
  {
    if d, kk :| '1' <= d <= '5' && t == FilterMeaning.IdnesSize(d, kk) {
      if kk { SizesWithKitchenette(d); } else { SizesWithKitchen(d); }
    }
    if t in SIZE_KEYS && t !in {"6-kk-a-vetsi", "pokoj", "atypicke"} {
      assert t == FilterMeaning.IdnesSize(t[0], t[2] == 'k');
    }
  }

  lemma SizesWithKitchenette(d: char)
    requires '1' <= d <= '5'
    ensures FilterMeaning.IdnesSize(d, true) in SIZE_KEYS
  {
    assert d == '1' || d == '2' || d == '3' || d == '4' || d == '5';
    assert SIZE_KEYS[0] == FilterMeaning.IdnesSize('1', true) && SIZE_KEYS[2] == FilterMeaning.IdnesSize('2', true);
    assert SIZE_KEYS[4] == FilterMeaning.IdnesSize('3', true) && SIZE_KEYS[6] == FilterMeaning.IdnesSize('4', true);
    assert SIZE_KEYS[8] == FilterMeaning.IdnesSize('5', true);
  }

  lemma SizesWithKitchen(d: char)
    requires '1' <= d <= '5'
    ensures FilterMeaning.IdnesSize(d, false) in SIZE_KEYS
  {
    assert d == '1' || d == '2' || d == '3' || d == '4' || d == '5';
    assert SIZE_KEYS[1] == FilterMeaning.IdnesSize('1', false) && SIZE_KEYS[3] == FilterMeaning.IdnesSize('2', false);
    assert SIZE_KEYS[5] == FilterMeaning.IdnesSize('3', false) && SIZE_KEYS[7] == FilterMeaning.IdnesSize('4', false);
    assert SIZE_KEYS[9] == FilterMeaning.IdnesSize('5', false);
  }

  lemma ConditionKeys(t: Token)
    ensures In(COND_KEYS, t) <==> IsCondition(t)
  {
  }

  lemma ExtraKeys(t: Token)
    ensures In(EXTRA_KEYS, t) <==> IsExtra(t)
  {
  }

  lemma SmallKeys(t: Token)
    ensures In(OWNER_KEYS, t) <==> IsOwner(t)
    ensures In(FilterBridge.IDNES_BUILDINGS, t) <==> IsBuilding(t)
    ensures In(EQUIP_KEYS, t) <==> IsEquipment(t)
  {
  }

  lemma SelectedIs(values: seq<Token>, keys: seq<Token>, offered: Token -> bool)
    requires forall t :: In(keys, t) <==> offered(t)
    ensures Selected(values, keys) == Filter(offered, values)
  {
    FilterSame(t => In(keys, t), offered, values);
  }

  lemma ListsAreSaid(says: Saying, f: Filters)
    requires Writes(says, f)
    ensures SaysLists(says, f)
  {
    ListNames(says, f);
    TableListsAreSelected(f);
    SmallListsAreSelected(f);
  }

  lemma TableListsAreSelected(f: Filters)
    ensures Selected(f.sizes, SIZE_KEYS) == Filter(IsSize, f.sizes)
    ensures Selected(f.conditions, COND_KEYS) == Filter(IsCondition, f.conditions)
    ensures Selected(f.extras, EXTRA_KEYS) == Filter(IsExtra, f.extras)
  {
    forall t ensures In(SIZE_KEYS, t) <==> IsSize(t) { SizeKeys(t); }
    forall t ensures In(COND_KEYS, t) <==> IsCondition(t) { ConditionKeys(t); }
    forall t ensures In(EXTRA_KEYS, t) <==> IsExtra(t) { ExtraKeys(t); }
    SelectedIs(f.sizes, SIZE_KEYS, IsSize);
    SelectedIs(f.conditions, COND_KEYS, IsCondition);
    SelectedIs(f.extras, EXTRA_KEYS, IsExtra);
  }

  lemma SmallListsAreSelected(f: Filters)
    ensures Selected(f.ownership, OWNER_KEYS) == Filter(IsOwner, f.ownership)
    ensures Selected(f.buildings, FilterBridge.IDNES_BUILDINGS) == Filter(IsBuilding, f.buildings)
    ensures Selected(f.equipped, EQUIP_KEYS) == Filter(IsEquipment, f.equipped)
  {
    forall t
      ensures In(OWNER_KEYS, t) <==> IsOwner(t)
      ensures In(FilterBridge.IDNES_BUILDINGS, t) <==> IsBuilding(t)
      ensures In(EQUIP_KEYS, t) <==> IsEquipment(t)
    {
      SmallKeys(t);
    }
    SelectedIs(f.ownership, OWNER_KEYS, IsOwner);
    SelectedIs(f.buildings, FilterBridge.IDNES_BUILDINGS, IsBuilding);
    SelectedIs(f.equipped, EQUIP_KEYS, IsEquipment);
  }

  lemma ListNames(says: Saying, f: Filters)
    requires Writes(says, f)
    ensures says("dispozice") == Written(f, Sizes) && says("stav") == Written(f, Conditions)
    ensures says("vlastnictvi") == Written(f, Ownership) && says("konstrukce") == Written(f, Buildings)
    ensures says("vybaveni") == Written(f, Amenities)
  {
    assert Text(Sizes) == "dispozice" && Text(Conditions) == "stav" && Text(Ownership) == "vlastnictvi";
    assert Text(Buildings) == "konstrukce" && Text(Amenities) == "vybaveni";
  }

  // ------------------------------------------------------------------ numbers and switches --

  /** A bound is a decimal number; none or zero is not written. */
  ghost predicate Bounded(values: seq<string>, n: Option<int>) {
    values == if n.Some? && n.value != 0 then [Printed(n.value)] else []
  }

  ghost predicate SaysBounds(says: Saying, f: Filters) {
    && Bounded(says("s-qc[priceMin]"), f.priceFrom) && Bounded(says("s-qc[priceMax]"), f.priceTo)
    && Bounded(says("s-qc[usableAreaMin]"), f.areaFrom) && Bounded(says("s-qc[usableAreaMax]"), f.areaTo)
  }

  lemma BoundsAreSaid(says: Saying, f: Filters)
    requires Writes(says, f)
    ensures SaysBounds(says, f)
  {
    assert says(Text(PriceMin)) == Written(f, PriceMin) && says(Text(PriceMax)) == Written(f, PriceMax);
    assert says(Text(AreaMin)) == Written(f, AreaMin) && says(Text(AreaMax)) == Written(f, AreaMax);
  }

  /** The three ages that the portal knows, the three switches, and an order that is not its usual one. */
  ghost predicate SaysSwitches(says: Saying, f: Filters) {
    var age := Strip(f.articleAge.Get());
    && says("s-qc[articleAge]") == (if age in {"1", "7", "30"} then [age] else [])
    && says("s-qc[video]") == (if "video" in f.flags then ["1"] else [])
    && says("s-qc[sale]") == (if "sale" in f.flags || "discounted" in f.flags then ["1"] else [])
    && says("s-qc[openHouse]") == (if "openHouse" in f.flags then ["1"] else [])
    && says("sort") == (if f.sort in {"nejlevnejsi", "nejdrazsi"} then [f.sort] else [])
  }

  lemma FlagsAreSaid(says: Saying, f: Filters)
    requires Writes(says, f)
    ensures says("s-qc[video]") == Flag("video" in f.flags) && says("s-qc[sale]") == Flag(OnSale(f.flags))
    ensures says("s-qc[openHouse]") == Flag("openHouse" in f.flags)
  {
    assert says(Text(Video)) == Written(f, Video) && says(Text(Sale)) == Written(f, Sale);
    assert says(Text(OpenHouse)) == Written(f, OpenHouse);
  }

  lemma SwitchesAreSaid(says: Saying, f: Filters)
    requires Writes(says, f)
    ensures SaysSwitches(says, f)
  {
    FlagsAreSaid(says, f);
    AgeAndOrderAreSaid(says, f);
  }

  lemma AgeAndOrderAreSaid(says: Saying, f: Filters)
    requires Writes(says, f)
    ensures says("s-qc[articleAge]") == Given(AgeOf(f.articleAge)) && says("sort") == Given(SortOf(f.sort))
  {
    assert says(Text(Age)) == Written(f, Age) && says(Text(Sort)) == Written(f, Sort);
  }

  // ------------------------------------------------------------------ the path --

  ghost predicate InPrague(slug: string) { |slug| >= 5 && slug[..5] == "praha" }

  /** The slugs agree on one locality: on the one that they all are, on Prague if they are all of Prague, or on none. */
  ghost predicate AgreesOn(slugs: seq<string>, locality: string) {
    if slugs != [] && Single(slugs) then locality == slugs[0]
    else if slugs != [] && forall t :: t in slugs ==> InPrague(t) then locality == "praha"
    else locality == ""
  }

  ghost predicate Single(slugs: seq<string>)
    requires slugs != []
  {
    forall t :: t in slugs ==> t == slugs[0]
  }

  lemma ChosenIsAgreed(slugs: seq<string>)
    ensures AgreesOn(slugs, Chosen(slugs))
  {
    if slugs == [] {
    } else if Single(slugs) {
      OneIsChosen(slugs[0]);
      AllSame(slugs);
      AllSame([slugs[0]]);
    } else {
      DedupMembers(slugs);
      SeveralAgree(slugs, Dedup(slugs), FilterBridge.REGIONS, Chosen(slugs));
    }
  }

  lemma SeveralAgree(slugs: seq<string>, unique: seq<string>, regions: seq<string>, chosen: string)
    requires slugs != [] && !Single(slugs) && forall t :: t in unique <==> t in slugs
    requires regions == FilterBridge.REGIONS
    requires (forall r :: r in regions ==> r in unique) ==> chosen == ""
    requires |unique| > 1 && !(forall r :: r in regions ==> r in unique)
             ==> chosen == if forall s :: s in unique ==> OfPrague(s) then "praha" else ""
    ensures AgreesOn(slugs, chosen)
  {
    assert |unique| > 1 by {
      var t :| t in slugs && t != slugs[0];
      assert slugs[0] in unique && t in unique;
    }
    RegionOutsidePrague();
    var r :| r in regions && !OfPrague(r);
    PragueIs(r);
    if forall s :: s in unique ==> OfPrague(s) {
      forall t | t in slugs ensures InPrague(t) { PragueIs(t); }
    } else {
      var s :| s in unique && !OfPrague(s);
      PragueIs(s);
    }
  }

  lemma PragueIs(slug: string)
    ensures OfPrague(slug) <==> InPrague(slug)
  {
  }

  lemma RegionOutsidePrague()
    ensures exists r :: r in FilterBridge.REGIONS && !OfPrague(r)
  {
    assert FilterBridge.REGIONS[0] in FilterBridge.REGIONS && FilterBridge.REGIONS[0][0] == 'j';
  }

  lemma {:induction false} AllSame(slugs: seq<string>)
    requires slugs != [] && forall t :: t in slugs ==> t == slugs[0]
    ensures Dedup(slugs) == [slugs[0]]
  {
    FrontEnd(slugs);
    if |slugs| > 1 {
      assert forall t :: t in Front(slugs) ==> t in slugs;
      assert Front(slugs)[0] == slugs[0] && End(slugs) in slugs;
      AllSame(Front(slugs));
    } else {
      assert Front(slugs) == [];
    }
  }

  /** Offer and category, with what they are when the search names none that the portal has. */
  ghost predicate FolderIs(f: Filters, offer: string, category: string) {
    && offer == (if f.offers != [] && f.offers[0] in {"pronajem", "prodej", "drazba"} then f.offers[0] else "pronajem")
    && FilterMeaning.SameCategory(f.category.Get(), category)
  }

  lemma AddressIs(f: Filters, slug: string -> string) returns (offer: string, category: string, rest: string)
    ensures FolderIs(f, offer, category)
    ensures BuildUrl(f, slug) == "https://reality.idnes.cz/s/" + (offer + "/" + category + "/" + rest)
  {
    offer, category := OfferOf(f.offers), CategoryOf(f.category);
    rest := Segment(LocalityOf(f.districts, slug)) + Behind(QueryOf(f));
    FolderIsSo(f, offer, category);
    AddressParts(offer, category, Segment(LocalityOf(f.districts, slug)), Behind(QueryOf(f)));
  }

  lemma FolderIsSo(f: Filters, offer: string, category: string)
    requires offer == OfferOf(f.offers) && category == CategoryOf(f.category)
    ensures FolderIs(f, offer, category)
  {
    FilterMeaning.CategoryMeans(f.category.Get());
  }

  lemma AddressParts(offer: string, category: string, segment: string, tail: string)
    ensures HOST + ("/s/" + offer + "/" + category + "/" + segment) + tail
         == "https://reality.idnes.cz/s/" + (offer + "/" + category + "/" + (segment + tail))
  {
    assert HOST + "/s/" == "https://reality.idnes.cz/s/";
  }

  /** A district that names the whole country, by its OSM id or one of four slugs, makes the search nationwide. */
  lemma CountryIsNoLocality(f: Filters, d: string, slug: string -> string)
    requires d in f.districts && d != "" && d[0] != '/' && d[|d| - 1] != '/' && Strip(d) != ""
    requires d == "R51684" || slug(ShortLabel(d)) in {"cesko", "ceska-republika", "czech-republic", "czechia"}
    ensures LocalityOf(f.districts, slug) == ""
  {
    assert TrimSlashes(d) == d;
    CountryIsNamed(d, Strip(d), slug(ShortLabel(d)));
    CountryInSlugs(f.districts, d, slug);
  }

  lemma CountryIsNamed(d: string, stripped: string, name: string)
    requires d == "R51684" || name in {"cesko", "ceska-republika", "czech-republic", "czechia"}
    ensures NamesCountry(d, stripped, name)
  {
  }

  lemma {:induction false} CountryInSlugs(districts: seq<string>, d: string, slug: string -> string)
    requires d in districts && d != "" && TrimSlashes(d) == d && Strip(d) != "" && IsCountry(d, slug)
    ensures Slugs(districts, slug) == None
  {
    if districts[0] == d {
      assert Slugs(districts, slug) == None;
    } else {
      CountryInSlugs(districts[1..], d, slug);
    }
  }

  // ------------------------------------------------------------------ the URL --

  /** What the URL of a search says, unless its locality holds a mark that ends the path: every filter under the portal's
      name for it, and nothing under the name of a filter that is not set. */
  lemma UrlSays(f: Filters, slug: string -> string) returns (says: Saying)
    requires Free(LocalityOf(f.districts, slug), MARKS)
    ensures forall p :: says(p) == FormEncoding.Get(ParseQsl(SplitUrl(BuildUrl(f, slug)).query), p)
    ensures SaysLists(says, f) && SaysBounds(says, f) && SaysSwitches(says, f)
  {
    var query := ParseQsl(QueryOf(f));
    UrlIsSplit(f, slug);
    QueryStays(f, LocalityOf(f.districts, slug));
    says := (p: string) => FormEncoding.Get(query, p);
    forall k ensures says(Text(k)) == Written(f, k) { QueryReadsBack(f, k); }
    ListsAreSaid(says, f);
    BoundsAreSaid(says, f);
    SwitchesAreSaid(says, f);
  }

  // ------------------------------------------------------------------ reading any URL --

  /** The tokens of a value stand between bars, which may be escaped as %7C; empty ones do not count. */
  lemma BarsPart(a: string, b: string)
    requires Free(a, {'%', '|'})
    ensures SplitPipe(a) == if a == "" then [] else [a]
    ensures SplitPipe(a + ("%7C" + b)) == SplitPipe(a) + SplitPipe(b) && SplitPipe(a + ("|" + b)) == SplitPipe(a) + SplitPipe(b)
  {
    UnpipedSame(a);
    SplitFree('|', a);
    UnpipedBehind(a, "%7C" + b);
    UnpipedBehind(a, "|" + b);
    UnpipedEscape(b);
    UnpipedBar(b);
    BarredSplits(a, Unpiped(b));
  }

  lemma BarredSplits(a: string, rest: string)
    requires Free(a, {'|'})
    ensures Filter(NonEmpty, Split('|', a + ("|" + rest))) == Filter(NonEmpty, [a]) + Filter(NonEmpty, Split('|', rest))
    ensures Filter(NonEmpty, [a]) == if a == "" then [] else [a]
  {
    SplitNext('|', a, rest);
    assert a + ("|" + rest) == a + ['|'] + rest;
    FilterConcat(NonEmpty, [a], Split('|', rest));
    if a == "" { FilterNone(NonEmpty, [a]); } else { FilterAll(NonEmpty, [a]); }
  }

  lemma {:induction false} UnpipedBehind(a: string, t: string)
    requires Free(a, {'%'})
    ensures Unpiped(a + t) == a + Unpiped(t)
  {
    if a == "" {
      assert a + t == t && a + Unpiped(t) == Unpiped(t);
    } else {
      var rest := a[1..];
      assert forall i :: 0 <= i < |rest| ==> rest[i] == a[i + 1];
      UnpipedBehind(rest, t);
      UnpipedNext(a + t, a[0], rest + t);
      assert a + Unpiped(t) == [a[0]] + (rest + Unpiped(t));
    }
  }

  lemma UnpipedNext(s: string, c: char, rest: string)
    requires s == [c] + rest && c != '%'
    ensures Unpiped(s) == [c] + Unpiped(rest)
  {
    assert s[1..] == rest;
    if |s| < 3 { UnpipedShort(rest); }
  }

  lemma UnpipedShort(t: string)
    requires |t| < 3
    ensures Unpiped(t) == t
  {
  }

  lemma UnpipedEscape(b: string)
    ensures Unpiped("%7C" + b) == "|" + Unpiped(b)
  {
    assert ("%7C" + b)[3..] == b;
  }

  lemma UnpipedBar(b: string)
    ensures Unpiped("|" + b) == "|" + Unpiped(b)
  {
    UnpipedNext("|" + b, '|', b);
  }

  /** The first value of a parameter, or else of its plain name. */
  ghost function EitherSaid(says: Saying, name: string, plain: string): Option<string> {
    if says(name) != [] then Some(says(name)[0]) else if says(plain) != [] then Some(says(plain)[0]) else None
  }

  ghost function NumberSaid(said: Option<string>): Option<int> { if said.Some? then ParseInt(said.value) else None }

  ghost function TextSaid(said: Option<string>, default: string): string { if said.Some? then said.value else default }

  /** The lists, as the tokens of one value each; amenities by what the portal offers as extras and as equipment. */
  ghost predicate ReadsLists(says: Saying, f: Filters) {
    && f.sizes == SplitPipe(First(says("dispozice"), "")) && f.conditions == SplitPipe(First(says("stav"), ""))
    && f.ownership == SplitPipe(First(says("vlastnictvi"), "")) && f.buildings == SplitPipe(First(says("konstrukce"), ""))
    && f.extras == Filter(IsExtra, SplitPipe(First(says("vybaveni"), "")))
    && f.equipped == Filter(IsEquipment, SplitPipe(First(says("vybaveni"), "")))
  }

  /** Numbers and switches under their names in the portal's form or their plain ones. */
  ghost predicate ReadsRest(says: Saying, f: Filters) {
    && f.priceFrom == NumberSaid(EitherSaid(says, "s-qc[priceMin]", "priceMin"))
    && f.priceTo == NumberSaid(EitherSaid(says, "s-qc[priceMax]", "priceMax"))
    && f.areaFrom == NumberSaid(EitherSaid(says, "s-qc[usableAreaMin]", "usableAreaMin"))
    && f.areaTo == NumberSaid(EitherSaid(says, "s-qc[usableAreaMax]", "usableAreaMax"))
    && f.articleAge == One(TextSaid(EitherSaid(says, "s-qc[articleAge]", "articleAge"), ""))
    && f.flags == (if EitherSaid(says, "s-qc[video]", "video") == Some("1") then ["video"] else [])
                  + (if EitherSaid(says, "s-qc[sale]", "sale") == Some("1") then ["sale"] else [])
                  + (if EitherSaid(says, "s-qc[openHouse]", "openHouse") == Some("1") then ["openHouse"] else [])
    && f.sort == First(says("sort"), "nejnovejsi")
  }

  ghost predicate Gives(says: Saying, v: Key -> seq<string>) { forall k :: v(k) == says(Text(k)) }

  lemma ListsAreRead(says: Saying, v: Key -> seq<string>, f: Filters)
    requires Gives(says, v)
    requires f.sizes == ListOf(v, Sizes) && f.conditions == ListOf(v, Conditions) && f.ownership == ListOf(v, Ownership)
    requires f.buildings == ListOf(v, Buildings) && f.extras == Selected(ListOf(v, Amenities), EXTRA_KEYS)
    requires f.equipped == Selected(ListOf(v, Amenities), EQUIP_KEYS)
    ensures ReadsLists(says, f)
  {
    ListIsRead(says, v, Sizes, "dispozice");
    ListIsRead(says, v, Conditions, "stav");
    ListIsRead(says, v, Ownership, "vlastnictvi");
    ListIsRead(says, v, Buildings, "konstrukce");
    ListIsRead(says, v, Amenities, "vybaveni");
    AmenitiesAre(ListOf(v, Amenities));
  }

  lemma ListIsRead(says: Saying, v: Key -> seq<string>, k: Key, name: string)
    requires Gives(says, v) && Text(k) == name
    ensures ListOf(v, k) == SplitPipe(First(says(name), ""))
  {
    assert v(k) == says(Text(k));
  }

  lemma AmenitiesAre(tokens: seq<Token>)
    ensures Selected(tokens, EXTRA_KEYS) == Filter(IsExtra, tokens) && Selected(tokens, EQUIP_KEYS) == Filter(IsEquipment, tokens)
  {
    forall t ensures In(EXTRA_KEYS, t) <==> IsExtra(t) { ExtraKeys(t); }
    forall t ensures In(EQUIP_KEYS, t) <==> IsEquipment(t) { SmallKeys(t); }
    SelectedIs(tokens, EXTRA_KEYS, IsExtra);
    SelectedIs(tokens, EQUIP_KEYS, IsEquipment);
  }

  lemma PairIsRead(says: Saying, v: Key -> seq<string>, k: Key, plain: Key, name: string, second: string)
    requires Gives(says, v) && Text(k) == name && Text(plain) == second
    ensures NumberOf(v, k, plain) == NumberSaid(EitherSaid(says, name, second))
    ensures TextOf(v, k, plain) == TextSaid(EitherSaid(says, name, second), "")
    ensures TextOf(v, k, plain) == "1" <==> EitherSaid(says, name, second) == Some("1")
  {
    assert v(k) == says(Text(k)) && v(plain) == says(Text(plain));
  }

  lemma BoundsAreRead(says: Saying, v: Key -> seq<string>)
    requires Gives(says, v)
    ensures NumberOf(v, PriceMin, PlainPriceMin) == NumberSaid(EitherSaid(says, "s-qc[priceMin]", "priceMin"))
    ensures NumberOf(v, PriceMax, PlainPriceMax) == NumberSaid(EitherSaid(says, "s-qc[priceMax]", "priceMax"))
    ensures NumberOf(v, AreaMin, PlainAreaMin) == NumberSaid(EitherSaid(says, "s-qc[usableAreaMin]", "usableAreaMin"))
    ensures NumberOf(v, AreaMax, PlainAreaMax) == NumberSaid(EitherSaid(says, "s-qc[usableAreaMax]", "usableAreaMax"))
  {
    PairIsRead(says, v, PriceMin, PlainPriceMin, "s-qc[priceMin]", "priceMin");
    PairIsRead(says, v, PriceMax, PlainPriceMax, "s-qc[priceMax]", "priceMax");
    PairIsRead(says, v, AreaMin, PlainAreaMin, "s-qc[usableAreaMin]", "usableAreaMin");
    PairIsRead(says, v, AreaMax, PlainAreaMax, "s-qc[usableAreaMax]", "usableAreaMax");
  }

  lemma FlagsAreRead(says: Saying, v: Key -> seq<string>)
    requires Gives(says, v)
    ensures ReadFlags(v)
         == (if EitherSaid(says, "s-qc[video]", "video") == Some("1") then ["video"] else [])
            + (if EitherSaid(says, "s-qc[sale]", "sale") == Some("1") then ["sale"] else [])
            + (if EitherSaid(says, "s-qc[openHouse]", "openHouse") == Some("1") then ["openHouse"] else [])
  {
    PairIsRead(says, v, Video, PlainVideo, "s-qc[video]", "video");
    PairIsRead(says, v, Sale, PlainSale, "s-qc[sale]", "sale");
    PairIsRead(says, v, OpenHouse, PlainOpenHouse, "s-qc[openHouse]", "openHouse");
  }

  lemma RestIsRead(says: Saying, v: Key -> seq<string>, f: Filters)
    requires Gives(says, v)
    requires f.priceFrom == NumberOf(v, PriceMin, PlainPriceMin) && f.priceTo == NumberOf(v, PriceMax, PlainPriceMax)
    requires f.areaFrom == NumberOf(v, AreaMin, PlainAreaMin) && f.areaTo == NumberOf(v, AreaMax, PlainAreaMax)
    requires f.articleAge == One(TextOf(v, Age, PlainAge)) && f.flags == ReadFlags(v) && f.sort == First(v(Sort), "nejnovejsi")
    ensures ReadsRest(says, f)
  {
    BoundsAreRead(says, v);
    FlagsAreRead(says, v);
    AgeAndOrderAreRead(says, v);
  }

  lemma AgeAndOrderAreRead(says: Saying, v: Key -> seq<string>)
    requires Gives(says, v)
    ensures TextOf(v, Age, PlainAge) == TextSaid(EitherSaid(says, "s-qc[articleAge]", "articleAge"), "")
    ensures v(Sort) == says("sort")
  {
    PairIsRead(says, v, Age, PlainAge, "s-qc[articleAge]", "articleAge");
    assert v(Sort) == says(Text(Sort));
  }

  /** What the query of any URL means, written by whomever. */
  lemma UrlMeans(url: string) returns (says: Saying)
    ensures forall p :: says(p) == FormEncoding.Get(ParseQsl(SplitUrl(url).query), p)
    ensures ReadsLists(says, ParseUrl(url)) && ReadsRest(says, ParseUrl(url))
  {
    var query := ParseQsl(SplitUrl(url).query);
    says := (p: string) => FormEncoding.Get(query, p);
    ListsAreRead(says, Values(query), ParseUrl(url));
    RestIsRead(says, Values(query), ParseUrl(url));
  }
}
