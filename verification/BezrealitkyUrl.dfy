/** Search filters as a Bezrealitky URL and back: build_url and parse_url of app/bezrealitky_url.py. Text is taken as
    its UTF-8 bytes; map areas are the text they are written as. */
module BezrealitkyUrl {
  import opened Seqs
  import opened Decimals
  import opened Calendar
  import opened FormEncoding
  import opened UrlSplit

  /** The query parameters, in the order in which they are written; `Ids` is only read. */
  datatype Key =
    | Offer | Estate | Disposition | District | OsmValue | Location
    | Ownership | Transfer | Condition | Construction | Equipped
    | Balcony | Loggia | Cellar | Terrace | BarrierFree | Garage | Lift | Parking | PetFriendly | WithCharges
    | DiscountedOnly | IncludeImports | IncludeShortTerm | Roommate | Currency
    | PriceFrom | PriceTo | SurfaceFrom | SurfaceTo | AnnuityFrom | AnnuityTo | BalconyFrom | BalconyTo
    | LoggiaFrom | LoggiaTo | CellarFrom | CellarTo | TerraceFrom | TerraceTo | GardenFrom | GardenTo
    | Neighborhood | Radius | AvailableFrom | AdvertId | Boundary | Order | Ids

  const CHOICES: seq<Key> := [
    Offer, Estate, Disposition, District, OsmValue, Location, Ownership, Transfer, Condition, Construction, Equipped]
  const SWITCHES: seq<Key> := [
    Balcony, Loggia, Cellar, Terrace, BarrierFree, Garage, Lift, Parking, PetFriendly, WithCharges, DiscountedOnly,
    IncludeImports, IncludeShortTerm, Roommate, Currency]
  const BOUNDS: seq<Key> := [
    PriceFrom, PriceTo, SurfaceFrom, SurfaceTo, AnnuityFrom, AnnuityTo, BalconyFrom, BalconyTo,
    LoggiaFrom, LoggiaTo, CellarFrom, CellarTo, TerraceFrom, TerraceTo, GardenFrom, GardenTo]
  const OTHERS: seq<Key> := [Neighborhood, Radius, AvailableFrom, AdvertId, Boundary, Order, Ids]

  const KEYS: nat := 49

  /** The i-th parameter. */
  function KeyAt(i: nat): Key {
    if i < 11 then CHOICES[i] else if i < 26 then SWITCHES[i - 11] else if i < 42 then BOUNDS[i - 26]
    else if i < KEYS then OTHERS[i - 42] else Ids
  }

  function Text(k: Key): string {
    match k
    case Offer => "offerType" case Estate => "estateType" case Disposition => "disposition"
    case District => "regionOsmIds" case OsmValue => "osm_value" case Location => "location"
    case Ownership => "ownership" case Transfer => "transferToPersonalOwnership" case Condition => "condition"
    case Construction => "construction" case Equipped => "equipped"
    case Balcony => "balcony" case Loggia => "loggia" case Cellar => "cellar" case Terrace => "terrace"
    case BarrierFree => "barrierFree" case Garage => "garage" case Lift => "lift" case Parking => "parking"
    case PetFriendly => "petFriendly" case WithCharges => "searchPriceWithCharges"
    case DiscountedOnly => "discountedOnly" case IncludeImports => "includeImports"
    case IncludeShortTerm => "includeShortTerm" case Roommate => "roommate" case Currency => "currency"
    case PriceFrom => "priceFrom" case PriceTo => "priceTo" case SurfaceFrom => "surfaceFrom"
    case SurfaceTo => "surfaceTo" case AnnuityFrom => "annuityFrom" case AnnuityTo => "annuityTo"
    case BalconyFrom => "balconyFrom" case BalconyTo => "balconyTo" case LoggiaFrom => "loggiaFrom"
    case LoggiaTo => "loggiaTo" case CellarFrom => "cellarFrom" case CellarTo => "cellarTo"
    case TerraceFrom => "terraceFrom" case TerraceTo => "terraceTo" case GardenFrom => "frontGardenFrom"
    case GardenTo => "frontGardenTo" case Neighborhood => "neighborhood" case Radius => "locationRadius"
    case AvailableFrom => "availableFrom" case AdvertId => "id" case Boundary => "boundaryPoints"
    case Order => "order" case Ids => "ids"
  }

  /** The position of a parameter. */
  function Rank(k: Key): nat {
    match k
    case Offer => 0 case Estate => 1 case Disposition => 2 case District => 3 case OsmValue => 4 case Location => 5
    case Ownership => 6 case Transfer => 7 case Condition => 8 case Construction => 9 case Equipped => 10
    case Balcony => 11 case Loggia => 12 case Cellar => 13 case Terrace => 14 case BarrierFree => 15
    case Garage => 16 case Lift => 17 case Parking => 18 case PetFriendly => 19 case WithCharges => 20
    case DiscountedOnly => 21 case IncludeImports => 22 case IncludeShortTerm => 23 case Roommate => 24
    case Currency => 25 case PriceFrom => 26 case PriceTo => 27 case SurfaceFrom => 28 case SurfaceTo => 29
    case AnnuityFrom => 30 case AnnuityTo => 31 case BalconyFrom => 32 case BalconyTo => 33 case LoggiaFrom => 34
    case LoggiaTo => 35 case CellarFrom => 36 case CellarTo => 37 case TerraceFrom => 38 case TerraceTo => 39
    case GardenFrom => 40 case GardenTo => 41 case Neighborhood => 42 case Radius => 43 case AvailableFrom => 44
    case AdvertId => 45 case Boundary => 46 case Order => 47 case Ids => 48
  }

  lemma RankIsPositionLow(k: Key)
    requires Rank(k) < 11
    ensures KeyAt(Rank(k)) == k
  {
  }

  lemma RankIsPositionMiddle(k: Key)
    requires 11 <= Rank(k) < 26
    ensures KeyAt(Rank(k)) == k
  {
  }

  lemma RankIsPositionHigh(k: Key)
    requires Rank(k) >= 26
    ensures Rank(k) < KEYS && KeyAt(Rank(k)) == k
  {
  }

  lemma RankIsPosition(k: Key)
    ensures Rank(k) < KEYS && KeyAt(Rank(k)) == k
  {
    if Rank(k) < 11 { RankIsPositionLow(k); } else if Rank(k) < 26 { RankIsPositionMiddle(k); }
    else { RankIsPositionHigh(k); }
  }

  lemma PositionIsRankLow(i: nat)
    requires i < 26
    ensures Rank(KeyAt(i)) == i
  {
  }

  lemma PositionIsRank(i: nat)
    requires i < KEYS
    ensures Rank(KeyAt(i)) == i
  {
    if i < 26 { PositionIsRankLow(i); }
  }

  /** Length, first, second and last character of a name, weighted so that no two parameter names agree. */
  function Fingerprint(s: string): int
    requires |s| >= 2
  {
    |s| + 2 * s[0] as int + 7 * s[1] as int + 6 * s[|s| - 1] as int
  }

  function FingerprintOf(k: Key): int {
    match k
    case Offer => 1551 case Estate => 1623 case Disposition => 1606 case District => 1637 case OsmValue => 1642
    case Location => 1661 case Ownership => 1736 case Transfer => 1729 case Condition => 1644
    case Construction => 1647 case Equipped => 1601 case Balcony => 1608 case Loggia => 1581 case Cellar => 1595
    case Terrace => 1552 case BarrierFree => 1492 case Garage => 1497 case Lift => 1651 case Parking => 1528
    case PetFriendly => 1668 case WithCharges => 1649 case DiscountedOnly => 1675 case IncludeImports => 1684
    case IncludeShortTerm => 1650 case Roommate => 1619 case Currency => 1751 case PriceFrom => 1685
    case PriceTo => 1695 case SurfaceFrom => 1714 case SurfaceTo => 1724 case AnnuityFrom => 1629
    case AnnuityTo => 1639 case BalconyFrom => 1540 case BalconyTo => 1550 case LoggiaFrom => 1657
    case LoggiaTo => 1667 case CellarFrom => 1569 case CellarTo => 1579 case TerraceFrom => 1604
    case TerraceTo => 1614 case GardenFrom => 1671 case GardenTo => 1681 case Neighborhood => 1539 case Radius => 1697
    case AvailableFrom => 1687 case AdvertId => 1512 case Boundary => 1677 case Order => 1709 case Ids => 1603
  }

  lemma FingerprintOfChoice(k: Key)
    requires Rank(k) < 11
    ensures |Text(k)| >= 2 && Fingerprint(Text(k)) == FingerprintOf(k)
  {
  }

  lemma FingerprintOfSwitch(k: Key)
    requires 11 <= Rank(k) < 26
    ensures |Text(k)| >= 2 && Fingerprint(Text(k)) == FingerprintOf(k)
  {
  }

  lemma FingerprintOfBound(k: Key)
    requires 26 <= Rank(k) < 42
    ensures |Text(k)| >= 2 && Fingerprint(Text(k)) == FingerprintOf(k)
  {
  }

  lemma FingerprintOfOther(k: Key)
    requires 42 <= Rank(k)
    ensures |Text(k)| >= 2 && Fingerprint(Text(k)) == FingerprintOf(k)
  {
  }

  lemma TextFingerprint(k: Key)
    ensures |Text(k)| >= 2 && Fingerprint(Text(k)) == FingerprintOf(k)
  {
    if Rank(k) < 11 { FingerprintOfChoice(k); } else if Rank(k) < 26 { FingerprintOfSwitch(k); }
    else if Rank(k) < 42 { FingerprintOfBound(k); } else { FingerprintOfOther(k); }
  }

  lemma ChoicesApart(a: Key, b: Key)
    requires Rank(a) < 11 && FingerprintOf(a) == FingerprintOf(b)
    ensures a == b
  {
    if Rank(a) < 6 { FirstChoicesApart(a, b); } else { LastChoicesApart(a, b); }
  }

  lemma FirstChoicesApart(a: Key, b: Key)
    requires Rank(a) < 6 && FingerprintOf(a) == FingerprintOf(b)
    ensures a == b
  {
  }

  lemma LastChoicesApart(a: Key, b: Key)
    requires 6 <= Rank(a) < 11 && FingerprintOf(a) == FingerprintOf(b)
    ensures a == b
  {
  }

  lemma SwitchesApart(a: Key, b: Key)
    requires 11 <= Rank(a) < 26 && FingerprintOf(a) == FingerprintOf(b)
    ensures a == b
  {
    if Rank(a) < 16 { FirstSwitchesApart(a, b); } else if Rank(a) < 21 { MiddleSwitchesApart(a, b); } else { LastSwitchesApart(a, b); }
  }

  lemma FirstSwitchesApart(a: Key, b: Key)
    requires 11 <= Rank(a) < 16 && FingerprintOf(a) == FingerprintOf(b)
    ensures a == b
  {
  }

  lemma MiddleSwitchesApart(a: Key, b: Key)
    requires 16 <= Rank(a) < 21 && FingerprintOf(a) == FingerprintOf(b)
    ensures a == b
  {
  }

  lemma LastSwitchesApart(a: Key, b: Key)
    requires 21 <= Rank(a) < 26 && FingerprintOf(a) == FingerprintOf(b)
    ensures a == b
  {
  }

  lemma BoundsApart(a: Key, b: Key)
    requires 26 <= Rank(a) < 42 && FingerprintOf(a) == FingerprintOf(b)
    ensures a == b
  {
    if Rank(a) < 31 { FirstBoundsApart(a, b); } else if Rank(a) < 37 { MiddleBoundsApart(a, b); } else { LastBoundsApart(a, b); }
  }

  lemma FirstBoundsApart(a: Key, b: Key)
    requires 26 <= Rank(a) < 31 && FingerprintOf(a) == FingerprintOf(b)
    ensures a == b
  {
  }

  lemma MiddleBoundsApart(a: Key, b: Key)
    requires 31 <= Rank(a) < 37 && FingerprintOf(a) == FingerprintOf(b)
    ensures a == b
  {
  }

  lemma LastBoundsApart(a: Key, b: Key)
    requires 37 <= Rank(a) < 42 && FingerprintOf(a) == FingerprintOf(b)
    ensures a == b
  {
  }

  lemma OthersApart(a: Key, b: Key)
    requires 42 <= Rank(a) && FingerprintOf(a) == FingerprintOf(b)
    ensures a == b
  {
    if Rank(a) < 45 { FirstOthersApart(a, b); } else { LastOthersApart(a, b); }
  }

  lemma FirstOthersApart(a: Key, b: Key)
    requires 42 <= Rank(a) < 45 && FingerprintOf(a) == FingerprintOf(b)
    ensures a == b
  {
  }

  lemma LastOthersApart(a: Key, b: Key)
    requires 45 <= Rank(a) < 49 && FingerprintOf(a) == FingerprintOf(b)
    ensures a == b
  {
  }

  lemma FingerprintInjective(a: Key, b: Key)
    requires FingerprintOf(a) == FingerprintOf(b)
    ensures a == b
  {
    if Rank(a) < 11 { ChoicesApart(a, b); } else if Rank(a) < 26 { SwitchesApart(a, b); }
    else if Rank(a) < 42 { BoundsApart(a, b); } else { OthersApart(a, b); }
  }

  /** Parameters have different names. */
  lemma TextInjective(a: Key, b: Key)
    requires Text(a) == Text(b)
    ensures a == b
  {
    TextFingerprint(a);
    TextFingerprint(b);
    FingerprintInjective(a, b);
  }

  // Filters

  predicate IsList(k: Key) {
    k.Offer? || k.Estate? || k.Disposition? || k.District? || k.Ownership? || k.Transfer? || k.Condition?
    || k.Construction? || k.Equipped?
  }

  predicate IsExtra(k: Key) {
    k.Balcony? || k.Loggia? || k.Cellar? || k.Terrace? || k.BarrierFree? || k.Garage? || k.Lift? || k.Parking?
    || k.PetFriendly? || k.WithCharges?
  }

  predicate IsNumber(k: Key) {
    k.PriceFrom? || k.PriceTo? || k.SurfaceFrom? || k.SurfaceTo? || k.AnnuityFrom? || k.AnnuityTo? || k.BalconyFrom?
    || k.BalconyTo? || k.LoggiaFrom? || k.LoggiaTo? || k.CellarFrom? || k.CellarTo? || k.TerraceFrom? || k.TerraceTo?
    || k.GardenFrom? || k.GardenTo?
  }

  /** Search filters. A list or number that is absent has no entry. */
  datatype Filters = Filters(lists: map<Key, seq<string>>, extras: set<string>, flags: set<string>, roommate: string,
                             currency: string, nums: map<Key, int>, neighborhood: int, osmValue: string,
                             location: string, available: string, advertId: string, boundary: string)

  /** Cutting off white space; doing it again changes nothing. */
  type Stripping = f: string -> string | forall s :: f(f(s)) == f(s) witness (s: string) => s

  /** The label of a district, and cutting white space off texts. */
  datatype Names = Names(caption: string -> string, strip: Stripping)

  function ListOf(f: Filters, k: Key): seq<string> {
    EitherOf(if k in f.lists then f.lists[k] else [], Default(k))
  }

  function OrText(s: string, t: string): string { if s == "" then t else s }

  function Osm(f: Filters, names: Names): string {
    var given, districts := names.strip(f.osmValue), ListOf(f, District);
    if given == "" && districts != [] then names.caption(districts[0]) else given
  }

  // Dates as text

  function Head(s: string): string { if |s| <= 10 then s else s[..10] }

  /** `_unix`: seconds since 1970 of a date, or of digits. */
  function Unix(value: string): Option<int> {
    if value == "" then None
    else if AllDigits(value) then Some(Value(value))
    else match ParseIso(Head(value)) case None => None case Some(d) => Some(DayNumber(d) * SECONDS_PER_DAY)
  }

  /** `_date_from_unix`, with "" for no date. */
  function DateFromUnix(raw: string): string {
    if raw == "" then ""
    else if !AllDigits(raw) then Head(raw)
    else match DateOfDay(Value(raw) / SECONDS_PER_DAY) case None => "" case Some(d) => Iso(d)
  }

  // Writing

  function One(s: string): seq<string> { if s == "" then [] else [s] }

  function Only(b: bool, s: string): seq<string> { if b then [s] else [] }

  function ReadRoommate(r: string): string { if r == "true" || r == "false" then r else "" }

  function Place(districts: seq<string>, location: string): seq<string> {
    if districts == [] then [] else [OrText(location, "exact")]
  }

  function Mates(roommate: string): seq<string> { One(ReadRoommate(roommate)) }

  function Money(currency: string): seq<string> { if OrText(currency, "CZK") == "CZK" then [] else [currency] }

  function Distance(n: int): seq<string> { if n == 0 then [] else [Printed(n)] }

  function Flagged(f: Filters, k: Key): seq<string> {
    if k.DiscountedOnly? then Only("discountedOnly" in f.flags, "true")
    else if k.IncludeImports? then Only("includeImports" !in f.flags, "false")
    else Only("includeShortTerm" !in f.flags, "false")
  }

  /** The values of the parameters that have a rule of their own. */
  datatype Fields = Fields(osm: seq<string>, place: seq<string>, mates: seq<string>, money: seq<string>,
                           distance: seq<string>, date: seq<string>, advert: seq<string>, boundary: seq<string>)

  function FieldsOf(f: Filters, names: Names): Fields {
    Fields(One(Osm(f, names)), Place(ListOf(f, District), f.location), Mates(f.roommate), Money(f.currency),
           Distance(f.neighborhood), Available(f.available), One(names.strip(f.advertId)), One(f.boundary))
  }

  /** The values written for one parameter. */
  function Written(f: Filters, x: Fields, k: Key): seq<string> {
    if IsList(k) then ListOf(f, k)
    else if IsExtra(k) then Only(Text(k) in f.extras, "true")
    else if IsNumber(k) then (if k in f.nums then [Printed(f.nums[k])] else [])
    else match k
      case OsmValue => x.osm
      case Location => x.place
      case DiscountedOnly => Flagged(f, k)
      case IncludeImports => Flagged(f, k)
      case IncludeShortTerm => Flagged(f, k)
      case Roommate => x.mates
      case Currency => x.money
      case Neighborhood => x.distance
      case Radius => x.distance
      case AvailableFrom => x.date
      case AdvertId => x.advert
      case Boundary => x.boundary
      case Order => ["TIMEORDER_DESC"]
      case _ => []
  }

  function Available(value: string): seq<string> {
    match Unix(value) case None => [] case Some(n) => Only(n != 0, Printed(n))
  }

  /** The parameters from the i-th on, for given names and values. */
  function ParamsFrom(t: nat -> string, w: nat -> seq<string>, i: nat): seq<Pair>
    requires i <= KEYS
    decreases KEYS - i
  {
    if i == KEYS then [] else Section(t(i), w(i)) + ParamsFrom(t, w, i + 1)
  }

  function TextAt(): nat -> string { (i: nat) => Text(KeyAt(i)) }

  function WrittenAt(f: Filters, x: Fields): nat -> seq<string> { (i: nat) => Written(f, x, KeyAt(i)) }

  function WrittenBy(f: Filters, x: Fields): Key -> seq<string> { k => Written(f, x, k) }

  function Params(f: Filters, x: Fields): seq<Pair> { ParamsFrom(TextAt(), WrittenAt(f, x), 0) }

  const SITE := "www.bezrealitky.cz"
  const HOST := SCHEME + ("//" + SITE)
  const PATH := "/vyhledat"

  function BuildFrom(f: Filters, x: Fields): string { HOST + (PATH + "?" + UrlEncode(Params(f, x), {})) }

  function BuildUrl(f: Filters, names: Names): string { BuildFrom(f, FieldsOf(f, names)) }

  // Reading

  function First(xs: seq<string>, default: string): string { if xs == [] then default else xs[0] }

  function Lower(c: char): char { if 'A' <= c <= 'Z' then c + ('a' - 'A') else c }

  function Lowered(s: string): string { if s == "" then "" else [Lower(s[0])] + Lowered(s[1..]) }

  predicate Truthy(s: string) { Lowered(s) == "1" || Lowered(s) == "true" || Lowered(s) == "yes" }

  function OrZero(n: Option<int>): int { match n case None => 0 case Some(v) => v }

  function EitherOf(a: seq<string>, b: seq<string>): seq<string> { if a == [] then b else a }

  /** What the parameters mean; `v` gives the values of each in the query. */
  function Read(v: Key -> seq<string>): Filters {
    Filters(ReadLists(v), ReadExtras(v), ReadFlags(v), ReadRoommate(First(v(Roommate), "")),
            OrText(First(v(Currency), "CZK"), "CZK"), ReadNumbers(v),
            OrZero(ParseInt(First(EitherOf(v(Neighborhood), v(Radius)), "0"))),
            Unquote(First(v(OsmValue), "")), First(v(Location), "exact"), DateFromUnix(First(v(AvailableFrom), "")),
            First(EitherOf(v(AdvertId), v(Ids)), ""), Unquote(First(v(Boundary), "")))
  }

  function Default(k: Key): seq<string> {
    if k == Offer then ["PRONAJEM"] else if k == Estate then ["BYT"] else []
  }

  function ReadLists(v: Key -> seq<string>): map<Key, seq<string>> {
    map k | IsList(k) :: EitherOf(v(k), Default(k))
  }

  function ReadExtras(v: Key -> seq<string>): set<string> {
    set k | IsExtra(k) && Truthy(First(v(k), "")) :: Text(k)
  }

  function ReadFlags(v: Key -> seq<string>): set<string> {
    (if Truthy(First(v(DiscountedOnly), "")) then {"discountedOnly"} else {})
    + (if Lowered(First(v(IncludeImports), "true")) != "false" then {"includeImports"} else {})
    + (if Lowered(First(v(IncludeShortTerm), "true")) != "false" then {"includeShortTerm"} else {})
  }

  function ReadNumbers(v: Key -> seq<string>): map<Key, int> {
    map k | IsNumber(k) && ParseInt(First(v(k), "")).Some? :: ParseInt(First(v(k), "")).value
  }

  function Values(ps: seq<Pair>): Key -> seq<string> { k => Get(ps, Text(k)) }

  function ParseUrl(url: string): Filters { Read(Values(ParseQsl(SplitUrl(url).query))) }

  // Each parameter reads back

  lemma {:induction false} GetParams(t: nat -> string, w: nat -> seq<string>, i: nat, r: nat)
    requires i <= KEYS && r < KEYS && forall a: nat, b: nat :: a < KEYS && b < KEYS && t(a) == t(b) ==> a == b
    ensures Get(ParamsFrom(t, w, i), t(r)) == if i <= r then w(r) else []
    decreases KEYS - i
  {
    if i < KEYS {
      GetParams(t, w, i + 1, r);
      GetSection(t(i), w(i), t(r));
      GetConcat(Section(t(i), w(i)), ParamsFrom(t, w, i + 1), t(r));
    }
  }

  lemma PathIsFree()
    ensures Free(SITE, {'/', '?', '#', '\t', '\r', '\n'}) && Free(PATH, {'?', '#', '\t', '\r', '\n'})
  {
  }

  lemma QueryIsRead(q: string)
    requires forall i :: 0 <= i < |q| ==> InQuery(q[i])
    ensures SplitUrl(HOST + (PATH + "?" + q)).query == q
  {
    PathIsFree();
    HostOfName(SITE);
    QueryBehind(HOST, PATH, q);
  }

  lemma TextsDiffer()
    ensures forall a: nat, b: nat :: a < KEYS && b < KEYS && TextAt()(a) == TextAt()(b) ==> a == b
  {
    forall a: nat, b: nat | a < KEYS && b < KEYS && TextAt()(a) == TextAt()(b) ensures a == b {
      TextInjective(KeyAt(a), KeyAt(b));
      PositionIsRank(a);
      PositionIsRank(b);
    }
  }

  lemma ParamsReadBack(f: Filters, x: Fields)
    ensures ParseQsl(SplitUrl(BuildFrom(f, x)).query) == Params(f, x)
  {
    ParseIsInverse(Params(f, x), {});
    QueryIsRead(UrlEncode(Params(f, x), {}));
  }

  lemma ReadAt(f: Filters, x: Fields, k: Key)
    ensures TextAt()(Rank(k)) == Text(k) && WrittenAt(f, x)(Rank(k)) == Written(f, x, k)
  {
    RankIsPosition(k);
  }

  /** Reading a written URL finds for every parameter exactly the values written for it. */
  lemma UrlReadsBack(f: Filters, x: Fields, k: Key)
    ensures Get(ParseQsl(SplitUrl(BuildFrom(f, x)).query), Text(k)) == Written(f, x, k)
  {
    ParamsReadBack(f, x);
    TextsDiffer();
    RankIsPosition(k);
    GetParams(TextAt(), WrittenAt(f, x), 0, Rank(k));
    ReadAt(f, x, k);
  }

  lemma ReadSame(v: Key -> seq<string>, w: Key -> seq<string>)
    requires forall k :: v(k) == w(k)
    ensures Read(v) == Read(w)
  {
    assert ReadLists(v) == ReadLists(w);
    assert ReadExtras(v) == ReadExtras(w);
    assert ReadNumbers(v) == ReadNumbers(w);
  }

  // The canonical form

  /** A date as it comes back. */
  function CanonicalDate(value: string): string {
    match Unix(value)
    case None => ""
    case Some(n) =>
      if n == 0 then "" else if n < 0 then Head(Printed(n))
      else match DateOfDay(n / SECONDS_PER_DAY) case None => "" case Some(d) => Iso(d)
  }

  /** Defaults filled in, what the URL cannot carry dropped, and texts stripped and unescaped. */
  function Canonical(f: Filters, names: Names): Filters {
    Filters(
      map k | IsList(k) :: ListOf(f, k),
      set k | IsExtra(k) && Text(k) in f.extras :: Text(k),
      f.flags * {"discountedOnly", "includeImports", "includeShortTerm"},
      ReadRoommate(f.roommate),
      OrText(f.currency, "CZK"),
      map k | IsNumber(k) && k in f.nums :: f.nums[k],
      f.neighborhood,
      Unquote(Osm(f, names)),
      if ListOf(f, District) == [] then "exact" else OrText(f.location, "exact"),
      CanonicalDate(f.available),
      names.strip(f.advertId),
      Unquote(f.boundary))
  }

  lemma TrueIsTruthy()
    ensures Truthy("true") && !Truthy("") && Lowered("true") != "false" && Lowered("false") == "false"
  {
    assert "true"[1..] == "rue" && "rue"[1..] == "ue" && "ue"[1..] == "e" && "e"[1..] == "";
    assert "false"[1..] == "alse" && "alse"[1..] == "lse" && "lse"[1..] == "se" && "se"[1..] == "e";
    assert Lowered("e") == "e" && Lowered("ue") == "ue" && Lowered("rue") == "rue" && Lowered("true") == "true";
    assert Lowered("se") == "se" && Lowered("lse") == "lse" && Lowered("alse") == "alse";
  }

  lemma ExtrasReturn(f: Filters, x: Fields, k: Key)
    requires IsExtra(k)
    ensures Truthy(First(Written(f, x, k), "")) <==> Text(k) in f.extras
  {
    TrueIsTruthy();
  }

  lemma EmptyIsNoNumber()
    ensures ParseInt("") == None && ParseInt("0") == Some(0)
  {
    assert AllDigits("0") && "0"[..0] == "" && Value("0") == 0;
  }

  lemma NumberIsWritten(f: Filters, x: Fields, k: Key)
    requires IsNumber(k)
    ensures Written(f, x, k) == if k in f.nums then [Printed(f.nums[k])] else []
  {
  }

  lemma NumbersReturn(f: Filters, x: Fields, k: Key)
    requires IsNumber(k)
    ensures ParseInt(First(WrittenBy(f, x)(k), "")) == if k in f.nums then Some(f.nums[k]) else None
  {
    NumberIsWritten(f, x, k);
    EmptyIsNoNumber();
    if k in f.nums { ParseIsPrintInverse(f.nums[k]); }
  }

  lemma DateReturns(value: string)
    ensures DateFromUnix(First(Available(value), "")) == CanonicalDate(value)
  {
    match Unix(value)
    case None =>
    case Some(n) =>
      ParseIsPrintInverse(n);
      if n > 0 { DecimalDigits(n); }
  }

  lemma FlagReturns(given: bool)
    ensures Truthy(First(Only(given, "true"), "")) <==> given
    ensures Lowered(First(Only(!given, "false"), "true")) != "false" <==> given
  {
    TrueIsTruthy();
  }

  lemma FlagsReturn(v: Key -> seq<string>, flags: set<string>)
    requires v(DiscountedOnly) == Only("discountedOnly" in flags, "true")
    requires v(IncludeImports) == Only("includeImports" !in flags, "false")
    requires v(IncludeShortTerm) == Only("includeShortTerm" !in flags, "false")
    ensures ReadFlags(v) == flags * {"discountedOnly", "includeImports", "includeShortTerm"}
  {
    FlagReturns("discountedOnly" in flags);
    FlagReturns("includeImports" in flags);
    FlagReturns("includeShortTerm" in flags);
    FlagSets(flags);
  }

  lemma FlagSets(flags: set<string>)
    ensures flags * {"discountedOnly", "includeImports", "includeShortTerm"}
         == (if "discountedOnly" in flags then {"discountedOnly"} else {})
            + (if "includeImports" in flags then {"includeImports"} else {})
            + (if "includeShortTerm" in flags then {"includeShortTerm"} else {})
  {
  }

  lemma ListsReturn(f: Filters, x: Fields)
    ensures ReadLists(WrittenBy(f, x)) == map k | IsList(k) :: ListOf(f, k)
  {
    forall k | IsList(k) ensures EitherOf(WrittenBy(f, x)(k), Default(k)) == ListOf(f, k) {}
  }

  lemma AllExtrasReturn(f: Filters, x: Fields)
    ensures ReadExtras(WrittenBy(f, x)) == set k | IsExtra(k) && Text(k) in f.extras :: Text(k)
  {
    forall k | IsExtra(k) ensures Truthy(First(WrittenBy(f, x)(k), "")) <==> Text(k) in f.extras {
      ExtrasReturn(f, x, k);
    }
  }

  lemma AllNumbersReturn(f: Filters, x: Fields)
    ensures ReadNumbers(WrittenBy(f, x)) == map k | IsNumber(k) && k in f.nums :: f.nums[k]
  {
    forall k | IsNumber(k)
      ensures ParseInt(First(WrittenBy(f, x)(k), "")) == if k in f.nums then Some(f.nums[k]) else None
    {
      NumbersReturn(f, x, k);
    }
  }

  lemma RoommateReturns(r: string)
    ensures ReadRoommate(First(Mates(r), "")) == ReadRoommate(r)
  {
  }

  lemma CurrencyReturns(c: string)
    ensures OrText(First(Money(c), "CZK"), "CZK") == OrText(c, "CZK")
  {
  }

  lemma DistanceReturns(n: int)
    ensures OrZero(ParseInt(First(EitherOf(Distance(n), Distance(n)), "0"))) == n
  {
    EmptyIsNoNumber();
    ParseIsPrintInverse(n);
  }

  lemma OneReturns(s: string)
    ensures First(One(s), "") == s && First(EitherOf(One(s), []), "") == s
  {
  }

  lemma PlaceReturns(districts: seq<string>, location: string)
    ensures First(Place(districts, location), "exact") == if districts == [] then "exact" else OrText(location, "exact")
  {
  }

  lemma FlagsAreWritten(f: Filters, x: Fields)
    ensures ReadFlags(WrittenBy(f, x)) == f.flags * {"discountedOnly", "includeImports", "includeShortTerm"}
  {
    FlagsReturn(WrittenBy(f, x), f.flags);
  }

  lemma TextsAreWritten(f: Filters, x: Fields)
    ensures var v := WrittenBy(f, x);
            v(OsmValue) == x.osm && v(Location) == x.place && v(Roommate) == x.mates && v(Currency) == x.money
  {
  }

  lemma NumbersAreWritten(f: Filters, x: Fields)
    ensures var v := WrittenBy(f, x);
            v(Neighborhood) == v(Radius) == x.distance && v(AvailableFrom) == x.date
  {
  }

  lemma IdsAreWritten(f: Filters, x: Fields)
    ensures var v := WrittenBy(f, x);
            v(AdvertId) == x.advert && v(Ids) == [] && v(Boundary) == x.boundary
  {
  }

  /** What is read from the written values. */
  function ReadBack(f: Filters, x: Fields): Filters {
    Filters(
      map k | IsList(k) :: ListOf(f, k),
      set k | IsExtra(k) && Text(k) in f.extras :: Text(k),
      f.flags * {"discountedOnly", "includeImports", "includeShortTerm"},
      ReadRoommate(First(x.mates, "")),
      OrText(First(x.money, "CZK"), "CZK"),
      map k | IsNumber(k) && k in f.nums :: f.nums[k],
      OrZero(ParseInt(First(EitherOf(x.distance, x.distance), "0"))),
      Unquote(First(x.osm, "")),
      First(x.place, "exact"),
      DateFromUnix(First(x.date, "")),
      First(EitherOf(x.advert, []), ""),
      Unquote(First(x.boundary, "")))
  }

  lemma WrittenIsRead(f: Filters, x: Fields)
    ensures Read(WrittenBy(f, x)) == ReadBack(f, x)
  {
    ListsReturn(f, x);
    AllExtrasReturn(f, x);
    FlagsAreWritten(f, x);
    AllNumbersReturn(f, x);
    TextsAreWritten(f, x);
    NumbersAreWritten(f, x);
    IdsAreWritten(f, x);
  }

  lemma FieldsReturn(f: Filters, names: Names)
    ensures ReadBack(f, FieldsOf(f, names)) == Canonical(f, names)
  {
    RoommateReturns(f.roommate);
    CurrencyReturns(f.currency);
    DistanceReturns(f.neighborhood);
    OneReturns(Osm(f, names));
    PlaceReturns(ListOf(f, District), f.location);
    DateReturns(f.available);
    OneReturns(names.strip(f.advertId));
    OneReturns(f.boundary);
  }

  lemma UrlIsRead(f: Filters, x: Fields)
    ensures ParseUrl(BuildFrom(f, x)) == ReadBack(f, x)
  {
    var v := Values(ParseQsl(SplitUrl(BuildFrom(f, x)).query));
    forall k ensures v(k) == WrittenBy(f, x)(k) { UrlReadsBack(f, x, k); }
    ReadSame(v, WrittenBy(f, x));
    WrittenIsRead(f, x);
  }

  /** Reading a written URL gives the canonical form of the filters. */
  lemma ParseOfBuildIsCanonical(f: Filters, names: Names)
    ensures ParseUrl(BuildUrl(f, names)) == Canonical(f, names)
  {
    UrlIsRead(f, FieldsOf(f, names));
    FieldsReturn(f, names);
  }

  // Writing the canonical form again

  /** The date survives: there is none, or it is the epoch day, or a later whole day the calendar can print. */
  predicate DateStable(value: string) {
    match Unix(value)
    case None => true
    case Some(n) => n == 0 || (n > 0 && n % SECONDS_PER_DAY == 0 && DateOfDay(n / SECONDS_PER_DAY).Some?)
  }

  /** The name of the place survives unescaping and stripping, or what is left is nothing and the district gives it
      again. */
  predicate PlaceStable(f: Filters, names: Names) {
    var name, back, districts := Osm(f, names), names.strip(Unquote(Osm(f, names))), ListOf(f, District);
    back == name || (back == "" && districts != [] && names.caption(districts[0]) == name)
  }

  /** The texts survive: the map area holds no escape, and neither does the name of the place. */
  predicate TextsStable(f: Filters, names: Names) { PlaceStable(f, names) && Unquote(f.boundary) == f.boundary }

  lemma IsoHasNoSign(d: Date)
    requires IsDate(d)
    ensures !AllDigits(Iso(d)) && Iso(d) != "" && Head(Iso(d)) == Iso(d)
  {
    assert Iso(d)[4] == '-';
  }

  lemma NegativeIsNoDate(n: int)
    requires n < 0
    ensures Unix(Head(Printed(n))) == None
  {
    var s := Head(Printed(n));
    assert s[0] == '-';
    assert Head(s)[0] == '-';
  }

  lemma DateWrittenAgain(value: string)
    ensures Available(CanonicalDate(value)) == Available(value) <==> DateStable(value)
  {
    match Unix(value)
    case None =>
    case Some(n) =>
      if n < 0 {
        NegativeIsNoDate(n);
      } else if n > 0 {
        match DateOfDay(n / SECONDS_PER_DAY)
        case None =>
        case Some(d) =>
          IsoHasNoSign(d);
          IsoIsInverse(d);
          DayOfDate(n / SECONDS_PER_DAY);
          assert Unix(Iso(d)) == Some(n / SECONDS_PER_DAY * SECONDS_PER_DAY);
          ParseIsPrintInverse(n);
          ParseIsPrintInverse(n / SECONDS_PER_DAY * SECONDS_PER_DAY);
      }
  }

  lemma OsmWrittenAgain(f: Filters, names: Names)
    ensures Osm(Canonical(f, names), names) == Osm(f, names) <==> PlaceStable(f, names)
  {
    ListsWrittenAgain(f, names, District);
  }

  lemma ListsWrittenAgain(f: Filters, names: Names, k: Key)
    requires IsList(k)
    ensures ListOf(Canonical(f, names), k) == ListOf(f, k)
  {
  }

  lemma ExtrasWrittenAgain(f: Filters, names: Names, k: Key)
    requires IsExtra(k)
    ensures Text(k) in Canonical(f, names).extras <==> Text(k) in f.extras
  {
  }

  lemma NumbersWrittenAgain(f: Filters, names: Names, k: Key)
    requires IsNumber(k)
    ensures k in Canonical(f, names).nums <==> k in f.nums
    ensures k in f.nums ==> Canonical(f, names).nums[k] == f.nums[k]
  {
    NumbersAreKept(f.nums, Canonical(f, names).nums, k);
  }

  lemma NumbersAreKept(before: map<Key, int>, after: map<Key, int>, k: Key)
    requires after == (map x | IsNumber(x) && x in before :: before[x]) && IsNumber(k)
    ensures k in after <==> k in before
    ensures k in before ==> after[k] == before[k]
  {
  }

  lemma MoneyWrittenAgain(currency: string)
    ensures Money(OrText(currency, "CZK")) == Money(currency)
  {
  }

  lemma MatesWrittenAgain(roommate: string)
    ensures Mates(ReadRoommate(roommate)) == Mates(roommate)
  {
  }

  lemma PlaceWrittenAgain(districts: seq<string>, location: string)
    ensures Place(districts, if districts == [] then "exact" else OrText(location, "exact")) == Place(districts, location)
  {
  }

  lemma FlagsWrittenAgain(f: Filters, names: Names, k: Key)
    ensures Flagged(Canonical(f, names), k) == Flagged(f, k)
  {
  }

  lemma FieldsWrittenAgain(f: Filters, names: Names)
    requires TextsStable(f, names) && DateStable(f.available)
    ensures FieldsOf(Canonical(f, names), names) == FieldsOf(f, names)
  {
    OsmWrittenAgain(f, names);
    ListsWrittenAgain(f, names, District);
    PlaceWrittenAgain(ListOf(f, District), f.location);
    MatesWrittenAgain(f.roommate);
    MoneyWrittenAgain(f.currency);
    DateWrittenAgain(f.available);
    assert names.strip(names.strip(f.advertId)) == names.strip(f.advertId);
  }

  lemma WrittenAgain(f: Filters, names: Names, x: Fields, k: Key)
    ensures Written(Canonical(f, names), x, k) == Written(f, x, k)
  {
    if IsList(k) {
      ListsWrittenAgain(f, names, k);
    } else if IsExtra(k) {
      ExtrasWrittenAgain(f, names, k);
    } else if IsNumber(k) {
      NumbersWrittenAgain(f, names, k);
    } else {
      FlagsWrittenAgain(f, names, k);
    }
  }

  lemma {:induction false} SameParams(t: nat -> string, v: nat -> seq<string>, w: nat -> seq<string>, i: nat)
    requires i <= KEYS && forall r :: v(r) == w(r)
    ensures ParamsFrom(t, v, i) == ParamsFrom(t, w, i)
    decreases KEYS - i
  {
    if i < KEYS { SameParams(t, v, w, i + 1); }
  }

  lemma FieldsAreWritten(f: Filters, x: Fields)
    ensures Written(f, x, AvailableFrom) == x.date && Written(f, x, OsmValue) == x.osm
    ensures Written(f, x, Boundary) == x.boundary
  {
  }

  lemma UrlTells(f: Filters, x: Fields, g: Filters, y: Fields, k: Key)
    requires BuildFrom(f, x) == BuildFrom(g, y)
    ensures Written(f, x, k) == Written(g, y, k)
  {
    UrlReadsBack(f, x, k);
    UrlReadsBack(g, y, k);
  }

  lemma UrlTellsFields(f: Filters, x: Fields, g: Filters, y: Fields)
    requires BuildFrom(f, x) == BuildFrom(g, y)
    ensures x.date == y.date && x.osm == y.osm && x.boundary == y.boundary
  {
    UrlTells(f, x, g, y, AvailableFrom);
    UrlTells(f, x, g, y, OsmValue);
    UrlTells(f, x, g, y, Boundary);
    FieldsAreWritten(f, x);
    FieldsAreWritten(g, y);
  }

  lemma CanonicalBuildsSame(f: Filters, names: Names, x: Fields)
    ensures BuildFrom(Canonical(f, names), x) == BuildFrom(f, x)
  {
    var v, w := WrittenAt(Canonical(f, names), x), WrittenAt(f, x);
    forall i: nat ensures v(i) == w(i) { WrittenAgain(f, names, x, KeyAt(i)); }
    SameParams(TextAt(), v, w, 0);
  }

  lemma StableIsWrittenAgain(f: Filters, names: Names)
    requires TextsStable(f, names) && DateStable(f.available)
    ensures BuildUrl(Canonical(f, names), names) == BuildUrl(f, names)
  {
    FieldsWrittenAgain(f, names);
    CanonicalBuildsSame(f, names, FieldsOf(f, names));
  }

  lemma UnstableIsNotWrittenAgain(f: Filters, names: Names)
    requires BuildUrl(Canonical(f, names), names) == BuildUrl(f, names)
    ensures TextsStable(f, names) && DateStable(f.available)
  {
    var x, y := FieldsOf(f, names), FieldsOf(Canonical(f, names), names);
    UrlTellsFields(Canonical(f, names), y, f, x);
    DateWrittenAgain(f.available);
    OsmWrittenAgain(f, names);
    OneTells(Osm(f, names), Osm(Canonical(f, names), names));
    OneTells(f.boundary, Unquote(f.boundary));
  }

  lemma OneTells(s: string, t: string)
    requires One(s) == One(t)
    ensures s == t
  {
    if s != "" { assert One(s)[0] == s; }
  }

  /** For all filters: writing, reading and writing again gives the same URL exactly when the texts and the date are
      stable. */
  lemma BuildAfterParseIsStableExactly(f: Filters, names: Names)
    ensures BuildUrl(ParseUrl(BuildUrl(f, names)), names) == BuildUrl(f, names)
       <==> TextsStable(f, names) && DateStable(f.available)
  {
    ParseOfBuildIsCanonical(f, names);
    if TextsStable(f, names) && DateStable(f.available) {
      StableIsWrittenAgain(f, names);
    } else if BuildUrl(Canonical(f, names), names) == BuildUrl(f, names) {
      UnstableIsNotWrittenAgain(f, names);
    }
  }

  /** Then the canonical form is its own canonical form. */
  lemma CanonicalIsIdempotent(f: Filters, names: Names)
    requires TextsStable(f, names) && DateStable(f.available)
    ensures Canonical(Canonical(f, names), names) == Canonical(f, names)
  {
    BuildAfterParseIsStableExactly(f, names);
    ParseOfBuildIsCanonical(f, names);
    ParseOfBuildIsCanonical(Canonical(f, names), names);
  }

  /** A date written YYYY-MM-DD is stable exactly from 1970 on. */
  lemma DatesFrom1970AreStable(d: Date)
    requires IsDate(d)
    ensures DateStable(Iso(d)) <==> d.year >= EPOCH_YEAR
  {
    IsoHasNoSign(d);
    IsoIsInverse(d);
    if d.year >= EPOCH_YEAR {
      DateOfItsDay(d);
    } else {
      EarlyDays(d);
    }
  }

  lemma {:induction false} EarlyYears(y: int)
    requires y < EPOCH_YEAR
    ensures YearStart(y) <= -YearDays(y)
    decreases EPOCH_YEAR - y
  {
    if y < EPOCH_YEAR - 1 { EarlyYears(y + 1); }
  }

  lemma EarlyDays(d: Date)
    requires IsDate(d) && d.year < EPOCH_YEAR
    ensures DayNumber(d) < 0
  {
    EarlyYears(d.year);
    MonthStartGrows(d.year, d.month);
    MonthsFillYear(d.year);
  }

  /** A date before 1970 is lost. */
  lemma EarlyDateIsLost(f: Filters, names: Names, d: Date)
    requires IsDate(d) && d.year < EPOCH_YEAR && f.available == Iso(d)
    ensures BuildUrl(ParseUrl(BuildUrl(f, names)), names) != BuildUrl(f, names)
  {
    DatesFrom1970AreStable(d);
    BuildAfterParseIsStableExactly(f, names);
  }

  /** For example, a search for flats available since the last day of 1969. */
  lemma EarlyDateExample(names: Names)
    requires names.strip("") == ""
    ensures var f := Filters(map[], {}, {}, "", "", map[], 0, "", "", "1969-12-31", "", "");
            BuildUrl(ParseUrl(BuildUrl(f, names)), names) != BuildUrl(f, names)
  {
    var f := Filters(map[], {}, {}, "", "", map[], 0, "", "", "1969-12-31", "", "");
    LastDayOf1969();
    EarlyDateIsLost(f, names, Date(1969, 12, 31));
  }

  /** For example, an escape in the map area, whatever else is searched. */
  lemma EscapeExample(f: Filters, names: Names)
    requires f.boundary == "%41"
    ensures BuildUrl(ParseUrl(BuildUrl(f, names)), names) != BuildUrl(f, names)
  {
    assert IsEscape(f.boundary) && f.boundary[3..] == "";
    assert |Unquote(f.boundary)| == 1;
    BuildAfterParseIsStableExactly(f, names);
  }

  lemma LastDayOf1969()
    ensures IsDate(Date(1969, 12, 31)) && Iso(Date(1969, 12, 31)) == "1969-12-31"
  {
  }

  // Writing as the program does it: appending to a list of pairs

  method AppendSection(ps: seq<Pair>, key: string, values: seq<string>) returns (after: seq<Pair>)
    ensures after == ps + Section(key, values)
  {
    after := ps;
    for j := 0 to |values|
      invariant after == ps + Section(key, values)[..j]
    {
      after := after + [(key, values[j])];
    }
  }

  lemma ParamsAssoc(a: seq<Pair>, b: seq<Pair>, c: seq<Pair>)
    ensures (a + b) + c == a + (b + c)
  {
  }

  lemma SectionMoved(ps: seq<Pair>, t: nat -> string, w: nat -> seq<string>, i: nat)
    requires i < KEYS
    ensures ps + ParamsFrom(t, w, i) == ps + Section(t(i), w(i)) + ParamsFrom(t, w, i + 1)
  {
    ParamsAssoc(ps, Section(t(i), w(i)), ParamsFrom(t, w, i + 1));
  }

  method AppendIf(ps: seq<Pair>, key: string, given: bool, value: string) returns (after: seq<Pair>)
    ensures after == ps + Section(key, if given then [value] else [])
  {
    after := ps;
    if given {
      after := after + [(key, value)];
    }
  }

  /** One parameter: a list is appended item by item, an extra or a number when it is given. */
  method AppendParam(ps: seq<Pair>, f: Filters, x: Fields, k: Key) returns (after: seq<Pair>)
    ensures after == ps + Section(Text(k), Written(f, x, k))
  {
    if IsList(k) {
      after := AppendSection(ps, Text(k), ListOf(f, k));
    } else if IsExtra(k) {
      after := AppendIf(ps, Text(k), Text(k) in f.extras, "true");
    } else if IsNumber(k) {
      after := AppendIf(ps, Text(k), k in f.nums, if k in f.nums then Printed(f.nums[k]) else "");
    } else if k.DiscountedOnly? {
      after := AppendIf(ps, Text(k), "discountedOnly" in f.flags, "true");
    } else if k.IncludeImports? {
      after := AppendIf(ps, Text(k), "includeImports" !in f.flags, "false");
    } else if k.IncludeShortTerm? {
      after := AppendIf(ps, Text(k), "includeShortTerm" !in f.flags, "false");
    } else {
      after := AppendSection(ps, Text(k), Written(f, x, k));
    }
  }

  method WriteParams(f: Filters, x: Fields, ghost t: nat -> string, ghost w: nat -> seq<string>) returns (ps: seq<Pair>)
    requires t == TextAt() && w == WrittenAt(f, x)
    ensures ps == ParamsFrom(t, w, 0)
  {
    ps := [];
    for i := 0 to KEYS
      invariant ps + ParamsFrom(t, w, i) == ParamsFrom(t, w, 0)
    {
      SectionMoved(ps, t, w, i);
      ps := AppendParam(ps, f, x, KeyAt(i));
    }
  }

  method WriteUrl(f: Filters, names: Names) returns (url: string)
    ensures url == BuildUrl(f, names)
  {
    var x := FieldsOf(f, names);
    var ps := WriteParams(f, x, TextAt(), WrittenAt(f, x));
    url := HOST + (PATH + "?" + UrlEncode(ps, {}));
  }
}
