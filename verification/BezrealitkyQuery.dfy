/** What a written Bezrealitky URL says, under the parameter names that the portal reads. */
module BezrealitkyQuery {
  import opened Seqs
  import opened Decimals
  import opened Calendar
  import opened FormEncoding
  import opened UrlSplit
  import opened BezrealitkyUrl

  /** The values that a URL gives to a parameter, by its name. */
  type Saying = string -> seq<string>

  ghost predicate Writes(says: Saying, f: Filters, x: Fields) { forall k :: says(Text(k)) == Written(f, x, k) }

  // ------------------------------------------------------------------ numbers --

  /** What a bound is about, in the portal's words. */
  ghost function Quantity(k: Key): string
    requires IsNumber(k)
  {
    if k.PriceFrom? || k.PriceTo? then "price" else if k.SurfaceFrom? || k.SurfaceTo? then "surface"
    else if k.AnnuityFrom? || k.AnnuityTo? then "annuity" else if k.BalconyFrom? || k.BalconyTo? then "balcony"
    else if k.LoggiaFrom? || k.LoggiaTo? then "loggia" else if k.CellarFrom? || k.CellarTo? then "cellar"
    else if k.TerraceFrom? || k.TerraceTo? then "terrace" else "frontGarden"
  }

  ghost predicate IsLower(k: Key) {
    k.PriceFrom? || k.SurfaceFrom? || k.AnnuityFrom? || k.BalconyFrom? || k.LoggiaFrom? || k.CellarFrom? || k.TerraceFrom?
    || k.GardenFrom?
  }

  ghost function BoundName(k: Key): string
    requires IsNumber(k)
  {
    Quantity(k) + if IsLower(k) then "From" else "To"
  }

  /** A lower bound is the decimal number of the parameter named after the quantity and `From`, an upper bound of the one
      with `To`; a bound that is not given is not written. */
  ghost predicate SaysBounds(says: Saying, f: Filters) {
    forall k :: IsNumber(k) ==> says(BoundName(k)) == if k in f.nums then [Printed(f.nums[k])] else []
  }

  lemma LowerNames(k: Key)
    requires IsNumber(k) && IsLower(k)
    ensures Text(k) == BoundName(k)
  {
  }

  lemma UpperNames(k: Key)
    requires IsNumber(k) && !IsLower(k)
    ensures Text(k) == BoundName(k)
  {
  }

  lemma BoundsAreSaid(says: Saying, f: Filters, x: Fields)
    requires Writes(says, f, x)
    ensures SaysBounds(says, f)
  {
    forall k | IsNumber(k) ensures says(BoundName(k)) == if k in f.nums then [Printed(f.nums[k])] else [] {
      if IsLower(k) { LowerNames(k); } else { UpperNames(k); }
      assert says(Text(k)) == Written(f, x, k);
    }
  }

  // ------------------------------------------------------------------ lists --

  ghost function Given(f: Filters, k: Key, default: seq<string>): seq<string> {
    if k in f.lists && f.lists[k] != [] then f.lists[k] else default
  }

  /** The lists are written value by value, offer and kind of property with a default. */
  ghost predicate SaysLists(says: Saying, f: Filters) {
    && says("offerType") == Given(f, Offer, ["PRONAJEM"]) && says("estateType") == Given(f, Estate, ["BYT"])
    && says("disposition") == Given(f, Disposition, []) && says("regionOsmIds") == Given(f, District, [])
    && says("ownership") == Given(f, Ownership, []) && says("transferToPersonalOwnership") == Given(f, Transfer, [])
    && says("condition") == Given(f, Condition, []) && says("construction") == Given(f, Construction, [])
    && says("equipped") == Given(f, Equipped, [])
  }

  lemma ListsAreSaid(says: Saying, f: Filters, x: Fields)
    requires Writes(says, f, x)
    ensures SaysLists(says, f)
  {
    ListIsSaid(says, f, x, Offer);
    ListIsSaid(says, f, x, Estate);
    ListIsSaid(says, f, x, Disposition);
    ListIsSaid(says, f, x, District);
    ListIsSaid(says, f, x, Ownership);
    ListIsSaid(says, f, x, Transfer);
    ListIsSaid(says, f, x, Condition);
    ListIsSaid(says, f, x, Construction);
    ListIsSaid(says, f, x, Equipped);
  }

  lemma ListIsSaid(says: Saying, f: Filters, x: Fields, k: Key)
    requires Writes(says, f, x) && IsList(k)
    ensures says(Text(k)) == Given(f, k, if k == Offer then ["PRONAJEM"] else if k == Estate then ["BYT"] else [])
  {
    assert says(Text(k)) == Written(f, x, k);
  }

  // ------------------------------------------------------------------ switches --

  /** The extras of a flat, each of which is its own parameter. */
  ghost predicate IsExtraName(e: string) {
    e in {"balcony", "loggia", "cellar", "terrace", "barrierFree", "garage", "lift", "parking", "petFriendly",
          "searchPriceWithCharges"}
  }

  ghost predicate SaysExtras(says: Saying, f: Filters) {
    forall e :: IsExtraName(e) ==> says(e) == if e in f.extras then ["true"] else []
  }

  ghost function ExtraKey(e: string): Key {
    if e == "balcony" then Balcony else if e == "loggia" then Loggia else if e == "cellar" then Cellar
    else if e == "terrace" then Terrace else if e == "barrierFree" then BarrierFree else if e == "garage" then Garage
    else if e == "lift" then Lift else if e == "parking" then Parking else if e == "petFriendly" then PetFriendly
    else WithCharges
  }

  lemma ExtraKeyIs(e: string)
    requires IsExtraName(e)
    ensures IsExtra(ExtraKey(e)) && Text(ExtraKey(e)) == e
  {
  }

  lemma ExtrasAreSaid(says: Saying, f: Filters, x: Fields)
    requires Writes(says, f, x)
    ensures SaysExtras(says, f)
  {
    forall e | IsExtraName(e) ensures says(e) == if e in f.extras then ["true"] else [] {
      ExtraKeyIs(e);
      assert says(Text(ExtraKey(e))) == Written(f, x, ExtraKey(e));
    }
  }

  /** A switch is written when it differs from what the portal takes for granted. */
  ghost predicate SaysSwitches(says: Saying, f: Filters) {
    && says("discountedOnly") == (if "discountedOnly" in f.flags then ["true"] else [])
    && says("includeImports") == (if "includeImports" in f.flags then [] else ["false"])
    && says("includeShortTerm") == (if "includeShortTerm" in f.flags then [] else ["false"])
    && says("roommate") == (if f.roommate == "true" || f.roommate == "false" then [f.roommate] else [])
    && says("currency") == (if f.currency == "" || f.currency == "CZK" then [] else [f.currency])
    && says("order") == ["TIMEORDER_DESC"]
  }

  lemma FlagsAreSaid(says: Saying, f: Filters, x: Fields)
    requires Writes(says, f, x)
    ensures says("discountedOnly") == Flagged(f, DiscountedOnly) && says("includeImports") == Flagged(f, IncludeImports)
    ensures says("includeShortTerm") == Flagged(f, IncludeShortTerm) && says("order") == ["TIMEORDER_DESC"]
  {
    assert says(Text(DiscountedOnly)) == Written(f, x, DiscountedOnly);
    assert says(Text(IncludeImports)) == Written(f, x, IncludeImports);
    assert says(Text(IncludeShortTerm)) == Written(f, x, IncludeShortTerm);
    assert says(Text(Order)) == Written(f, x, Order);
  }

  lemma ChoicesAreSaid(says: Saying, f: Filters, x: Fields)
    requires Writes(says, f, x)
    ensures says("roommate") == x.mates && says("currency") == x.money
  {
    assert says(Text(Roommate)) == Written(f, x, Roommate);
    assert says(Text(Currency)) == Written(f, x, Currency);
  }

  lemma SwitchesAreSaid(says: Saying, f: Filters, x: Fields)
    requires Writes(says, f, x) && x.mates == Mates(f.roommate) && x.money == Money(f.currency)
    ensures SaysSwitches(says, f)
  {
    FlagsAreSaid(says, f, x);
    ChoicesAreSaid(says, f, x);
  }

  // ------------------------------------------------------------------ place, time, advert --

  /** The place is shown under its given name or that of the first district. */
  ghost predicate SaysPlace(says: Saying, f: Filters, names: Names) {
    var districts, shown := Given(f, District, []), names.strip(f.osmValue);
    && says("osm_value") == (if shown != "" then [shown]
                             else if districts != [] && names.caption(districts[0]) != "" then [names.caption(districts[0])]
                             else [])
    && says("location") == (if districts == [] then [] else if f.location == "" then ["exact"] else [f.location])
    && says("boundaryPoints") == (if f.boundary == "" then [] else [f.boundary])
  }

  lemma PlaceIsSaid(says: Saying, f: Filters, x: Fields, names: Names)
    requires Writes(says, f, x) && x.osm == One(Osm(f, names)) && x.place == Place(ListOf(f, District), f.location)
    requires x.boundary == One(f.boundary)
    ensures SaysPlace(says, f, names)
  {
    assert says(Text(OsmValue)) == Written(f, x, OsmValue);
    assert says(Text(Location)) == Written(f, x, Location);
    assert says(Text(Boundary)) == Written(f, x, Boundary);
    assert ListOf(f, District) == Given(f, District, []);
  }

  /** The surroundings are written twice; a date is written as the seconds from 1970 to it, unless these are none. */
  ghost predicate SaysNumbers(says: Saying, f: Filters, names: Names) {
    && says("neighborhood") == (if f.neighborhood == 0 then [] else [Printed(f.neighborhood)])
    && says("locationRadius") == says("neighborhood")
    && says("id") == (if names.strip(f.advertId) == "" then [] else [names.strip(f.advertId)])
    && forall d :: IsDate(d) && f.available == Iso(d) ==>
         says("availableFrom") == if DayNumber(d) == 0 then [] else [Printed(86400 * DayNumber(d))]
  }

  lemma DistancesAreSaid(says: Saying, f: Filters, x: Fields)
    requires Writes(says, f, x)
    ensures says("neighborhood") == x.distance && says("locationRadius") == x.distance
  {
    assert says(Text(Neighborhood)) == Written(f, x, Neighborhood);
    assert says(Text(Radius)) == Written(f, x, Radius);
  }

  lemma IdsAreSaid(says: Saying, f: Filters, x: Fields)
    requires Writes(says, f, x)
    ensures says("id") == x.advert && says("availableFrom") == x.date
  {
    assert says(Text(AdvertId)) == Written(f, x, AdvertId);
    assert says(Text(AvailableFrom)) == Written(f, x, AvailableFrom);
  }

  lemma NumbersAreSaid(says: Saying, f: Filters, x: Fields, names: Names)
    requires Writes(says, f, x) && x.distance == Distance(f.neighborhood) && x.advert == One(names.strip(f.advertId))
    requires x.date == Available(f.available)
    ensures SaysNumbers(says, f, names)
  {
    DistancesAreSaid(says, f, x);
    IdsAreSaid(says, f, x);
    forall d | IsDate(d) && f.available == Iso(d)
      ensures x.date == if DayNumber(d) == 0 then [] else [Printed(86400 * DayNumber(d))]
    {
      SecondsOfDate(f.available, d);
    }
  }

  lemma SecondsOfDate(value: string, d: Date)
    requires IsDate(d) && value == Iso(d)
    ensures Available(value) == if DayNumber(d) == 0 then [] else [Printed(86400 * DayNumber(d))]
  {
    IsoIsInverse(d);
    IsoHasDash(d, value);
    assert Head(value) == value;
  }

  lemma IsoHasDash(d: Date, value: string)
    requires IsDate(d) && value == Iso(d)
    ensures !AllDigits(value)
  {
    assert value[4] == '-';
  }

  // ------------------------------------------------------------------ the URL --

  lemma AddressIs(f: Filters, names: Names) returns (query: string)
    ensures BuildUrl(f, names) == "https://www.bezrealitky.cz/vyhledat?" + query
  {
    query := UrlEncode(Params(f, FieldsOf(f, names)), {});
    AddressParts(query);
  }

  lemma AddressParts(query: string)
    ensures HOST + (PATH + "?" + query) == "https://www.bezrealitky.cz/vyhledat?" + query
  {
    var host, path := HOST, PATH + "?";
    assert host == "https://www.bezrealitky.cz" && path == "/vyhledat?";
    assert host + (path + query) == (host + path) + query;
  }

  /** What the URL of a search says: every filter under the portal's name for it, and nothing under the name of a filter
      that is not set. */
  lemma UrlSays(f: Filters, names: Names) returns (says: Saying)
    ensures forall p :: says(p) == Get(ParseQsl(SplitUrl(BuildUrl(f, names)).query), p)
    ensures SaysBounds(says, f) && SaysLists(says, f) && SaysExtras(says, f) && SaysSwitches(says, f)
    ensures SaysPlace(says, f, names) && SaysNumbers(says, f, names)
  {
    var x, query := FieldsOf(f, names), ParseQsl(SplitUrl(BuildUrl(f, names)).query);
    says := (p: string) => Get(query, p);
    forall k ensures says(Text(k)) == Written(f, x, k) { UrlReadsBack(f, x, k); }
    BoundsAreSaid(says, f, x);
    ListsAreSaid(says, f, x);
    ExtrasAreSaid(says, f, x);
    SwitchesAreSaid(says, f, x);
    PlaceIsSaid(says, f, x, names);
    NumbersAreSaid(says, f, x, names);
  }

  // ------------------------------------------------------------------ reading any URL --

  ghost function Upper(c: char): char { if 'a' <= c <= 'z' then (c as int - 32) as char else c }

  /** The text is this word of small letters, in letters of either case. */
  ghost predicate IsWord(s: string, word: string) {
    |s| == |word| && forall i :: 0 <= i < |s| ==> s[i] == word[i] || s[i] == Upper(word[i])
  }

  ghost predicate MeansYes(s: string) { IsWord(s, "1") || IsWord(s, "true") || IsWord(s, "yes") }

  ghost predicate IsSmall(word: string) { forall i :: 0 <= i < |word| ==> 'a' <= word[i] <= 'z' || '0' <= word[i] <= '9' }

  lemma {:induction false} LoweredIsWord(s: string, word: string)
    requires IsSmall(word)
    ensures Lowered(s) == word <==> IsWord(s, word)
  {
    if s != "" && word != "" {
      LoweredIsWord(s[1..], word[1..]);
      assert Lowered(s)[1..] == Lowered(s[1..]);
      assert Lowered(s) == word <==> Lower(s[0]) == word[0] && Lowered(s[1..]) == word[1..];
      assert IsWord(s, word) <==> (s[0] == word[0] || s[0] == Upper(word[0])) && IsWord(s[1..], word[1..]) by { WordSplits(s, word); }
    }
  }

  lemma WordSplits(s: string, word: string)
    requires s != "" && word != ""
    ensures IsWord(s, word) <==> (s[0] == word[0] || s[0] == Upper(word[0])) && IsWord(s[1..], word[1..])
  {
    var t, w := s[1..], word[1..];
    if |s| == |word| {
      assert forall i :: 0 <= i < |t| ==> t[i] == s[i + 1] && w[i] == word[i + 1];
      if IsWord(t, w) && (s[0] == word[0] || s[0] == Upper(word[0])) {
        forall i | 0 <= i < |s| ensures s[i] == word[i] || s[i] == Upper(word[i]) {
          if i > 0 { assert t[i - 1] == w[i - 1] || t[i - 1] == Upper(w[i - 1]); }
        }
      }
    }
  }

  lemma YesIsTruthy(s: string)
    ensures Truthy(s) <==> MeansYes(s)
    ensures Lowered(s) == "false" <==> IsWord(s, "false")
  {
    LoweredIsWord(s, "1");
    LoweredIsWord(s, "true");
    LoweredIsWord(s, "yes");
    LoweredIsWord(s, "false");
  }

  /** What a URL says in its first value of a parameter, if anything. */
  ghost function FirstSaid(says: Saying, parameter: string): Option<string> {
    if says(parameter) == [] then None else Some(says(parameter)[0])
  }

  /** Bounds are read as whole numbers from the first value, if that is one. */
  ghost predicate ReadsBounds(says: Saying, f: Filters) {
    forall k :: IsNumber(k) ==>
      && (k in f.nums <==> FirstSaid(says, BoundName(k)).Some? && ParseInt(FirstSaid(says, BoundName(k)).value).Some?)
      && (k in f.nums ==> ParseInt(FirstSaid(says, BoundName(k)).value) == Some(f.nums[k]))
  }

  ghost predicate ReadsSwitches(says: Saying, f: Filters) {
    && (forall e :: e in f.extras <==>
          IsExtraName(e) && FirstSaid(says, e).Some? && MeansYes(FirstSaid(says, e).value))
    && ("discountedOnly" in f.flags <==> FirstSaid(says, "discountedOnly").Some? && MeansYes(FirstSaid(says, "discountedOnly").value))
    && ("includeImports" in f.flags
        <==> !(FirstSaid(says, "includeImports").Some? && IsWord(FirstSaid(says, "includeImports").value, "false")))
    && ("includeShortTerm" in f.flags
        <==> !(FirstSaid(says, "includeShortTerm").Some? && IsWord(FirstSaid(says, "includeShortTerm").value, "false")))
  }

  /** What the parameters of one URL give the reader. */
  ghost predicate Gives(says: Saying, v: Key -> seq<string>) { forall k :: v(k) == says(Text(k)) }

  lemma BoundsAreRead(says: Saying, v: Key -> seq<string>)
    requires Gives(says, v)
    ensures ReadsBounds(says, Read(v))
  {
    forall k | IsNumber(k)
      ensures k in Read(v).nums <==> FirstSaid(says, BoundName(k)).Some? && ParseInt(FirstSaid(says, BoundName(k)).value).Some?
      ensures k in Read(v).nums ==> ParseInt(FirstSaid(says, BoundName(k)).value) == Some(Read(v).nums[k])
    {
      if IsLower(k) { LowerNames(k); } else { UpperNames(k); }
      assert v(k) == says(Text(k));
      EmptyIsNoNumber();
    }
  }

  lemma ExtrasAreRead(says: Saying, v: Key -> seq<string>)
    requires Gives(says, v)
    ensures forall e :: e in ReadExtras(v) <==>
              IsExtraName(e) && FirstSaid(says, e).Some? && MeansYes(FirstSaid(says, e).value)
  {
    forall e ensures e in ReadExtras(v) <==> IsExtraName(e) && FirstSaid(says, e).Some? && MeansYes(FirstSaid(says, e).value) {
      YesIsTruthy("");
      if IsExtraName(e) {
        ExtraKeyIs(e);
        assert v(ExtraKey(e)) == says(e);
        if says(e) != [] { YesIsTruthy(says(e)[0]); }
      }
      if e in ReadExtras(v) {
        var k :| IsExtra(k) && Truthy(First(v(k), "")) && Text(k) == e;
        ExtraHasName(k);
        TextInjective(k, ExtraKey(e));
      }
    }
  }

  lemma ExtraHasName(k: Key)
    requires IsExtra(k)
    ensures IsExtraName(Text(k)) && Text(ExtraKey(Text(k))) == Text(k)
  {
  }

  lemma FlagsAreRead(says: Saying, v: Key -> seq<string>)
    requires says("discountedOnly") == v(DiscountedOnly) && says("includeImports") == v(IncludeImports)
    requires says("includeShortTerm") == v(IncludeShortTerm)
    ensures var flags := ReadFlags(v);
            && ("discountedOnly" in flags <==> FirstSaid(says, "discountedOnly").Some? && MeansYes(FirstSaid(says, "discountedOnly").value))
            && ("includeImports" in flags
                <==> !(FirstSaid(says, "includeImports").Some? && IsWord(FirstSaid(says, "includeImports").value, "false")))
            && ("includeShortTerm" in flags
                <==> !(FirstSaid(says, "includeShortTerm").Some? && IsWord(FirstSaid(says, "includeShortTerm").value, "false")))
  {
    YesIsTruthy(First(v(DiscountedOnly), ""));
    YesIsTruthy("");
    YesIsTruthy(First(v(IncludeImports), "true"));
    YesIsTruthy(First(v(IncludeShortTerm), "true"));
    YesIsTruthy("true");
    assert !IsWord("true", "false") && !MeansYes("");
    FlagNames();
  }

  lemma FlagNames()
    ensures "discountedOnly" != "includeImports" && "discountedOnly" != "includeShortTerm" && "includeImports" != "includeShortTerm"
  {
  }

  lemma SwitchesAreRead(says: Saying, v: Key -> seq<string>)
    requires Gives(says, v)
    ensures ReadsSwitches(says, Read(v))
  {
    ExtrasAreRead(says, v);
    assert v(DiscountedOnly) == says(Text(DiscountedOnly)) && v(IncludeImports) == says(Text(IncludeImports));
    assert v(IncludeShortTerm) == says(Text(IncludeShortTerm));
    FlagsAreRead(says, v);
  }

  /** The first value of the first of two parameters that has one. */
  ghost function EitherSaid(says: Saying, a: string, b: string): Option<string> {
    if says(a) != [] then FirstSaid(says, a) else FirstSaid(says, b)
  }

  ghost function OrElse(o: Option<string>, default: string): string { if o.Some? then o.value else default }

  /** The remaining parameters: their first value, some with a second name or a default. */
  ghost predicate ReadsRest(says: Saying, f: Filters) {
    && f.roommate == (if OrElse(FirstSaid(says, "roommate"), "") in {"true", "false"} then OrElse(FirstSaid(says, "roommate"), "") else "")
    && f.currency == (if OrElse(FirstSaid(says, "currency"), "") == "" then "CZK" else OrElse(FirstSaid(says, "currency"), ""))
    && f.advertId == OrElse(EitherSaid(says, "id", "ids"), "")
    && f.location == OrElse(FirstSaid(says, "location"), "exact")
    && f.osmValue == Unquote(OrElse(FirstSaid(says, "osm_value"), ""))
    && f.boundary == Unquote(OrElse(FirstSaid(says, "boundaryPoints"), ""))
    && f.neighborhood == (match ParseInt(OrElse(EitherSaid(says, "neighborhood", "locationRadius"), "0"))
                          case None => 0 case Some(n) => n)
  }

  lemma TextsAreRead(says: Saying, v: Key -> seq<string>)
    requires v(Roommate) == says("roommate") && v(Currency) == says("currency") && v(Location) == says("location")
    requires v(OsmValue) == says("osm_value") && v(Boundary) == says("boundaryPoints") && v(AdvertId) == says("id")
    requires v(Ids) == says("ids") && v(Neighborhood) == says("neighborhood") && v(Radius) == says("locationRadius")
    ensures ReadsRest(says, Read(v))
  {
    ZeroIsRead();
  }

  lemma ZeroIsRead()
    ensures ParseInt("0") == Some(0)
  {
    ParseIsPrintInverse(0);
    assert Printed(0) == "0";
  }

  lemma TextNames(says: Saying, v: Key -> seq<string>)
    requires Gives(says, v)
    ensures v(Roommate) == says("roommate") && v(Currency) == says("currency") && v(Location) == says("location")
    ensures v(OsmValue) == says("osm_value") && v(Boundary) == says("boundaryPoints") && v(AdvertId) == says("id")
  {
    assert v(Roommate) == says(Text(Roommate)) && v(Currency) == says(Text(Currency)) && v(Location) == says(Text(Location));
    assert v(OsmValue) == says(Text(OsmValue)) && v(Boundary) == says(Text(Boundary)) && v(AdvertId) == says(Text(AdvertId));
  }

  lemma SecondNames(says: Saying, v: Key -> seq<string>)
    requires Gives(says, v)
    ensures v(Ids) == says("ids") && v(Neighborhood) == says("neighborhood") && v(Radius) == says("locationRadius")
  {
    assert v(Ids) == says(Text(Ids)) && v(Neighborhood) == says(Text(Neighborhood)) && v(Radius) == says(Text(Radius));
  }

  ghost predicate ReadsList(said: seq<string>, f: Filters, k: Key, default: seq<string>) {
    k in f.lists && f.lists[k] == if said == [] then default else said
  }

  ghost predicate ReadsLists(says: Saying, f: Filters) {
    && ReadsList(says("offerType"), f, Offer, ["PRONAJEM"]) && ReadsList(says("estateType"), f, Estate, ["BYT"])
    && ReadsList(says("disposition"), f, Disposition, []) && ReadsList(says("regionOsmIds"), f, District, [])
    && ReadsList(says("ownership"), f, Ownership, []) && ReadsList(says("transferToPersonalOwnership"), f, Transfer, [])
    && ReadsList(says("condition"), f, Condition, []) && ReadsList(says("construction"), f, Construction, [])
    && ReadsList(says("equipped"), f, Equipped, [])
  }

  lemma ListIsRead(says: Saying, v: Key -> seq<string>, k: Key)
    requires Gives(says, v) && IsList(k)
    ensures ReadsList(says(Text(k)), Read(v), k, if k == Offer then ["PRONAJEM"] else if k == Estate then ["BYT"] else [])
  {
    assert v(k) == says(Text(k));
  }

  lemma ListsAreRead(says: Saying, v: Key -> seq<string>)
    requires Gives(says, v)
    ensures ReadsLists(says, Read(v))
  {
    ListIsRead(says, v, Offer);
    ListIsRead(says, v, Estate);
    ListIsRead(says, v, Disposition);
    ListIsRead(says, v, District);
    ListIsRead(says, v, Ownership);
    ListIsRead(says, v, Transfer);
    ListIsRead(says, v, Condition);
    ListIsRead(says, v, Construction);
    ListIsRead(says, v, Equipped);
  }

  /** A date given in seconds from 1970 is the day in which they fall. */
  ghost predicate ReadsDate(says: Saying, f: Filters) {
    forall d :: IsDate(d) && d.year >= 1970 && SecondsIn(OrElse(FirstSaid(says, "availableFrom"), ""), d) ==> f.available == Iso(d)
  }

  ghost predicate SecondsIn(value: string, d: Date)
    requires IsDate(d)
  {
    AllDigits(value) && 86400 * DayNumber(d) <= Value(value) < 86400 * (DayNumber(d) + 1)
  }

  lemma DateIsRead(value: string, d: Date)
    requires IsDate(d) && d.year >= 1970 && SecondsIn(value, d)
    ensures DateFromUnix(value) == Iso(d)
  {
    DateOfItsDay(d);
    assert Value(value) / 86400 == DayNumber(d);
  }

  lemma DateName(says: Saying, v: Key -> seq<string>)
    requires Gives(says, v)
    ensures First(v(AvailableFrom), "") == OrElse(FirstSaid(says, "availableFrom"), "")
  {
    assert v(AvailableFrom) == says(Text(AvailableFrom));
  }

  lemma DatesAreRead(says: Saying, f: Filters, value: string)
    requires value == OrElse(FirstSaid(says, "availableFrom"), "") && f.available == DateFromUnix(value)
    ensures ReadsDate(says, f)
  {
    forall d | IsDate(d) && d.year >= 1970 && SecondsIn(value, d) ensures DateFromUnix(value) == Iso(d) { DateIsRead(value, d); }
  }

  /** What any URL means, written by whomever: lists value by value, bounds as whole numbers, extras and switches by words in
      letters of either case, advert and surroundings under either of two names, a date as the day of its seconds. */
  lemma UrlMeans(url: string) returns (says: Saying)
    ensures forall p :: says(p) == Get(ParseQsl(SplitUrl(url).query), p)
    ensures ReadsLists(says, ParseUrl(url)) && ReadsBounds(says, ParseUrl(url)) && ReadsSwitches(says, ParseUrl(url))
    ensures ReadsRest(says, ParseUrl(url)) && ReadsDate(says, ParseUrl(url))
  {
    var query := ParseQsl(SplitUrl(url).query);
    says := (p: string) => Get(query, p);
    var v := Values(query);
    forall k ensures v(k) == says(Text(k)) { }
    ListsAreRead(says, v);
    BoundsAreRead(says, v);
    SwitchesAreRead(says, v);
    TextNames(says, v);
    SecondNames(says, v);
    TextsAreRead(says, v);
    DateName(says, v);
    DatesAreRead(says, ParseUrl(url), First(v(AvailableFrom), ""));
  }
}
