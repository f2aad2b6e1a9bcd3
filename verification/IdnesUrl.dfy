/** Search filters as an iDNES URL and back: build_url and parse_url of app/idnes_url.py. The floor bounds, which the
    URL does not carry, are left out. */
module IdnesUrl {
  import opened Seqs
  import opened FilterLists
  import opened Texts
  import opened Decimals
  import opened FormEncoding
  import opened UrlSplit
  import FilterBridge

  const OFFERS: seq<Token> := ["pronajem", "prodej", "drazba"]
  const SIZE_KEYS: seq<Token> := [
    "1-kk", "1-1", "2-kk", "2-1", "3-kk", "3-1", "4-kk", "4-1", "5-kk", "5-1", "6-kk-a-vetsi", "pokoj", "atypicke"]
  const OWNER_KEYS: seq<Token> := ["osobni", "druzstevni", "s-r-o", "podilove", "jine"]
  const COND_KEYS: seq<Token> := [
    "novostavba", "projekt", "ve-vystavbe", "dobry-stav", "udrzovany", "spatny-stav", "po-rekonstrukci",
    "v-rekonstrukci", "pred-rekonstrukci", "k-demolici"]
  const EQUIP_KEYS: seq<Token> := ["zarizeny", "castecne", "nezarizeny"]
  const EXTRA_KEYS: seq<Token> := [
    "balkon", "lodzie", "terasa", "zahrada", "sklep", "garaz", "parkovani", "vytah", "bezbarierovy", "telefon",
    "kabelova-tv", "internet"]

  /** A text, or a list of which the first text counts. */
  datatype Choice = One(text: string) | Many(texts: seq<string>) {
    function Get(): string {
      if One? then text else if texts == [] then "" else texts[0]
    }
  }

  datatype Filters = Filters(offers: seq<string>, category: Choice, districts: seq<string>, sizes: seq<string>,
                             conditions: seq<string>, ownership: seq<string>, buildings: seq<string>,
                             extras: seq<string>, equipped: seq<string>, priceFrom: Option<int>, priceTo: Option<int>,
                             areaFrom: Option<int>, areaTo: Option<int>, articleAge: Choice, flags: seq<string>,
                             sort: string)

  /** The query parameters in the order in which they are written, and the plain names that are only read. */
  datatype Key =
    | Sizes | Conditions | Ownership | Buildings | Amenities | PriceMin | PriceMax | AreaMin | AreaMax
    | Age | Video | Sale | OpenHouse | Sort
    | PlainPriceMin | PlainPriceMax | PlainAreaMin | PlainAreaMax | PlainAge | PlainVideo | PlainSale | PlainOpenHouse

  const ORDER: seq<Key> := [
    Sizes, Conditions, Ownership, Buildings, Amenities, PriceMin, PriceMax, AreaMin, AreaMax, Age, Video, Sale,
    OpenHouse, Sort]

  function Text(k: Key): string {
    match k
    case Sizes => "dispozice" case Conditions => "stav" case Ownership => "vlastnictvi" case Buildings => "konstrukce"
    case Amenities => "vybaveni" case PriceMin => "s-qc[priceMin]" case PriceMax => "s-qc[priceMax]"
    case AreaMin => "s-qc[usableAreaMin]" case AreaMax => "s-qc[usableAreaMax]" case Age => "s-qc[articleAge]"
    case Video => "s-qc[video]" case Sale => "s-qc[sale]" case OpenHouse => "s-qc[openHouse]" case Sort => "sort"
    case PlainPriceMin => "priceMin" case PlainPriceMax => "priceMax" case PlainAreaMin => "usableAreaMin"
    case PlainAreaMax => "usableAreaMax" case PlainAge => "articleAge" case PlainVideo => "video"
    case PlainSale => "sale" case PlainOpenHouse => "openHouse"
  }

  /** Parameters have different names. */
  lemma TextInjective(a: Key, b: Key)
    requires Text(a) == Text(b)
    ensures a == b
  {
    assert |Text(a)| == |Text(b)|;
  }

  // The locality in the path

  const COUNTRY_SLUGS: set<string> := {"cesko", "ceska-republika", "czech-republic", "czechia"}

  function LTrim(s: string): (r: string)
    ensures |r| <= |s| && r == s[|s| - |r|..]
  {
    if s != "" && s[0] == '/' then LTrim(s[1..]) else s
  }

  function RTrim(s: string): (r: string)
    ensures |r| <= |s| && r == s[..|r|]
  {
    if s != "" && s[|s| - 1] == '/' then RTrim(s[..|s| - 1]) else s
  }

  /** `strip("/")`. */
  function TrimSlashes(s: string): string { RTrim(LTrim(s)) }

  function ShortLabel(s: string): string { Strip(Split(',', s)[0]) }

  /** A name of the whole country; `slug` is the Unicode folding of app/localities.py. */
  predicate IsCountry(raw: string, slug: string -> string) { NamesCountry(raw, Strip(raw), slug(ShortLabel(raw))) }

  predicate NamesCountry(raw: string, stripped: string, name: string) {
    raw == FilterBridge.CZECH_OSM || stripped == FilterBridge.CZECH_OSM || name in COUNTRY_SLUGS
    || raw == "cesko" || raw == "ceska-republika"
  }

  /** The slug of a known OSM id; the country itself has been dealt with. */
  function Mapped(raw: string): string {
    if raw in FilterBridge.BR_DISTRICTS then FilterBridge.BR_DISTRICTS[raw] else raw
  }

  predicate NonEmpty(s: string) { s != "" }

  function Stripped(parts: seq<string>): (r: seq<string>)
    ensures |r| == |parts| && forall i :: 0 <= i < |r| ==> r[i] == Strip(parts[i])
  {
    seq(|parts|, i requires 0 <= i < |parts| => Strip(parts[i]))
  }

  /** The slugs between the commas. */
  function Pieces(s: string): seq<string> { Filter(NonEmpty, Stripped(Split(',', s))) }

  /** The slugs of the districts, or nothing when one of them is the country. */
  function Slugs(districts: seq<string>, slug: string -> string): Option<seq<string>> {
    if districts == [] then Some([]) else
      var raw := TrimSlashes(districts[0]);
      if Strip(districts[0]) == "" || raw == "" then Slugs(districts[1..], slug)
      else if IsCountry(raw, slug) then None
      else match Slugs(districts[1..], slug)
        case None => None
        case Some(more) => Some(Pieces(Mapped(raw)) + more)
  }

  predicate OfPrague(s: string) { "praha" <= s }

  /** `_locality`: the one locality the slugs agree on, or none. */
  function Chosen(slugs: seq<string>): string {
    var unique := Dedup(slugs);
    if unique == [] || forall r :: r in FilterBridge.REGIONS ==> r in unique then ""
    else if |unique| == 1 then unique[0]
    else if forall s :: s in unique ==> OfPrague(s) then "praha"
    else ""
  }

  function LocalityOf(districts: seq<string>, slug: string -> string): string {
    match Slugs(districts, slug) case None => "" case Some(slugs) => Chosen(slugs)
  }

  // Writing

  predicate In(keys: seq<Token>, t: Token) { t in keys }

  function Selected(values: seq<Token>, keys: seq<Token>): seq<Token> { Filter(t => In(keys, t), values) }

  function OfferOf(offers: seq<string>): string {
    if offers != [] && offers[0] in OFFERS then offers[0] else "pronajem"
  }

  /** `_category`. */
  function CategoryOf(c: Choice): string { FilterBridge.IdnesCategory(c.Get()) }

  function Piped(values: seq<Token>): seq<string> { if values == [] then [] else [Join('|', values)] }

  function AmenitiesOf(f: Filters): seq<Token> { Selected(f.extras, EXTRA_KEYS) + Selected(f.equipped, EQUIP_KEYS) }

  /** `_add_qc`: zero counts as absent. */
  function Bound(n: Option<int>): seq<string> {
    if n.None? || n.value == 0 then [] else [Printed(n.value)]
  }

  function AgeOf(c: Choice): string {
    var age := Strip(c.Get());
    if age == "1" || age == "7" || age == "30" then age else ""
  }

  function Given(s: string): seq<string> { if s == "" then [] else [s] }

  function Flag(given: bool): seq<string> { if given then ["1"] else [] }

  predicate OnSale(flags: seq<string>) { "sale" in flags || "discounted" in flags }

  function SortOf(sort: string): string { if sort == "nejlevnejsi" || sort == "nejdrazsi" then sort else "" }

  /** The values written for one parameter. */
  function Written(f: Filters, k: Key): seq<string> {
    match k
    case Sizes => Piped(Selected(f.sizes, SIZE_KEYS))
    case Conditions => Piped(Selected(f.conditions, COND_KEYS))
    case Ownership => Piped(Selected(f.ownership, OWNER_KEYS))
    case Buildings => Piped(Selected(f.buildings, FilterBridge.IDNES_BUILDINGS))
    case Amenities => Piped(AmenitiesOf(f))
    case PriceMin => Bound(f.priceFrom)
    case PriceMax => Bound(f.priceTo)
    case AreaMin => Bound(f.areaFrom)
    case AreaMax => Bound(f.areaTo)
    case Age => Given(AgeOf(f.articleAge))
    case Video => Flag("video" in f.flags)
    case Sale => Flag(OnSale(f.flags))
    case OpenHouse => Flag("openHouse" in f.flags)
    case Sort => Given(SortOf(f.sort))
    case _ => []
  }

  function Params(keys: seq<Key>, w: Key -> seq<string>): seq<Pair> {
    if keys == [] then [] else Section(Text(keys[0]), w(keys[0])) + Params(keys[1..], w)
  }

  function WrittenBy(f: Filters): Key -> seq<string> { k => Written(f, k) }

  const SITE := "reality.idnes.cz"
  const HOST := SCHEME + ("//" + SITE)
  const SAFE: set<char> := {'[', ']', '|'}

  function Folder(f: Filters): string { "/s/" + OfferOf(f.offers) + "/" + CategoryOf(f.category) }

  /** A locality as a segment of the path. */
  function Segment(locality: string): string { if locality == "" then "" else locality + "/" }

  function PathOf(f: Filters, locality: string): string { Folder(f) + "/" + Segment(locality) }

  function QueryOf(f: Filters): string { UrlEncode(Params(ORDER, WrittenBy(f)), SAFE) }

  function Behind(query: string): string { if query == "" then "" else "?" + query }

  function BuildUrl(f: Filters, slug: string -> string): string {
    HOST + PathOf(f, LocalityOf(f.districts, slug)) + Behind(QueryOf(f))
  }

  // Reading

  /** The path parts that are read: neither empty nor the site folder `s`. */
  predicate IsPart(p: string) { p != "" && p != "s" }

  function PathParts(path: string): seq<string> { Filter(IsPart, Split('/', path)) }

  /** `replace("%7C", "|")`. */
  function Unpiped(s: string): string {
    if |s| < 3 then s
    else if s[0] == '%' && s[1] == '7' && s[2] == 'C' then "|" + Unpiped(s[3..])
    else [s[0]] + Unpiped(s[1..])
  }

  function SplitPipe(raw: string): seq<string> { Filter(NonEmpty, Split('|', Unpiped(raw))) }

  function First(values: seq<string>, default: string): string { if values == [] then default else values[0] }

  function EitherOf(a: seq<string>, b: seq<string>): seq<string> { if a == [] then b else a }

  function Number(values: seq<string>): Option<int> { if values == [] then None else ParseInt(values[0]) }

  function ListOf(v: Key -> seq<string>, k: Key): seq<string> { SplitPipe(First(v(k), "")) }

  /** The number or text of a parameter: its own name counts first, then the plain one. */
  function NumberOf(v: Key -> seq<string>, k: Key, plain: Key): Option<int> { Number(EitherOf(v(k), v(plain))) }

  function TextOf(v: Key -> seq<string>, k: Key, plain: Key): string { First(EitherOf(v(k), v(plain)), "") }

  function FlagOf(v: Key -> seq<string>, k: Key, plain: Key, flag: string): seq<string> {
    if TextOf(v, k, plain) == "1" then [flag] else []
  }

  function ReadFlags(v: Key -> seq<string>): seq<string> {
    FlagOf(v, Video, PlainVideo, "video") + FlagOf(v, Sale, PlainSale, "sale")
    + FlagOf(v, OpenHouse, PlainOpenHouse, "openHouse")
  }

  /** What path parts and parameters mean; `v` gives the values of each parameter in the query. */
  function Read(parts: seq<string>, v: Key -> seq<string>): Filters {
    Filters(
      if parts != [] && parts[0] in OFFERS then [parts[0]] else ["pronajem"],
      One(if |parts| > 1 then CategoryOf(One(parts[1])) else "byty"),
      [if |parts| > 2 then parts[2] else "praha"],
      ListOf(v, Sizes), ListOf(v, Conditions), ListOf(v, Ownership), ListOf(v, Buildings),
      Selected(ListOf(v, Amenities), EXTRA_KEYS), Selected(ListOf(v, Amenities), EQUIP_KEYS),
      NumberOf(v, PriceMin, PlainPriceMin), NumberOf(v, PriceMax, PlainPriceMax),
      NumberOf(v, AreaMin, PlainAreaMin), NumberOf(v, AreaMax, PlainAreaMax),
      One(TextOf(v, Age, PlainAge)),
      ReadFlags(v),
      First(v(Sort), "nejnovejsi"))
  }

  function Values(ps: seq<Pair>): Key -> seq<string> { k => FormEncoding.Get(ps, Text(k)) }

  function ParseUrl(url: string): Filters {
    var split := SplitUrl(url);
    Read(PathParts(split.path), Values(ParseQsl(split.query)))
  }

  // The canonical form

  /** The district that comes back: the first path part of the locality, or the default. */
  function Returned(locality: string): string { First(PathParts(Visible(locality)), "praha") }

  function NonZero(n: Option<int>): Option<int> { if n == Some(0) then None else n }

  function FlagsOf(flags: seq<string>): seq<string> {
    (if "video" in flags then ["video"] else []) + (if OnSale(flags) then ["sale"] else [])
    + (if "openHouse" in flags then ["openHouse"] else [])
  }

  /** Unsupported values dropped, defaults filled in. */
  function Canonical(f: Filters, slug: string -> string): Filters {
    Filters(
      [OfferOf(f.offers)], One(CategoryOf(f.category)), [Returned(LocalityOf(f.districts, slug))],
      Selected(f.sizes, SIZE_KEYS), Selected(f.conditions, COND_KEYS), Selected(f.ownership, OWNER_KEYS),
      Selected(f.buildings, FilterBridge.IDNES_BUILDINGS), Selected(f.extras, EXTRA_KEYS), Selected(f.equipped, EQUIP_KEYS),
      NonZero(f.priceFrom), NonZero(f.priceTo), NonZero(f.areaFrom), NonZero(f.areaTo),
      One(AgeOf(f.articleAge)),
      FlagsOf(f.flags),
      First(Given(SortOf(f.sort)), "nejnovejsi"))
  }

  // Lists come back

  /** Small letters, digits and hyphens. */
  predicate IsSlug(t: string) {
    t != "" && forall i :: 0 <= i < |t| ==> 'a' <= t[i] <= 'z' || '0' <= t[i] <= '9' || t[i] == '-'
  }

  predicate AllSlugs(keys: seq<Token>) { forall i :: 0 <= i < |keys| ==> IsSlug(keys[i]) }

  lemma SizesAreSlugs()
    ensures AllSlugs(SIZE_KEYS)
  {
  }

  lemma StatesAreSlugs()
    ensures IsSlug("novostavba") && IsSlug("projekt") && IsSlug("ve-vystavbe") && IsSlug("dobry-stav")
    ensures IsSlug("udrzovany") && IsSlug("spatny-stav")
  {
  }

  lemma RepairsAreSlugs()
    ensures IsSlug("po-rekonstrukci") && IsSlug("v-rekonstrukci") && IsSlug("pred-rekonstrukci") && IsSlug("k-demolici")
  {
  }

  lemma ConditionsAreSlugs()
    ensures AllSlugs(COND_KEYS)
  {
    StatesAreSlugs();
    RepairsAreSlugs();
  }

  lemma ExtrasAreSlugs()
    ensures AllSlugs(EXTRA_KEYS)
  {
  }

  lemma OwnersAreSlugs()
    ensures AllSlugs(OWNER_KEYS)
  {
  }

  lemma BuildingsAreSlugs()
    ensures AllSlugs(FilterBridge.IDNES_BUILDINGS)
  {
  }

  lemma EquipmentIsSlugs()
    ensures AllSlugs(EQUIP_KEYS)
  {
  }

  lemma {:induction false} UnpipedSame(s: string)
    requires Free(s, {'%'})
    ensures Unpiped(s) == s
  {
    if |s| >= 3 { UnpipedSame(s[1..]); }
  }

  lemma {:induction false} JoinFree(sep: char, parts: seq<string>, stops: set<char>)
    requires sep !in stops && forall p :: p in parts ==> Free(p, stops)
    ensures Free(Join(sep, parts), stops)
  {
    if parts != [] {
      assert parts[0] in parts;
      assert forall q :: q in parts[1..] ==> q in parts;
      JoinFree(sep, parts[1..], stops);
    }
  }

  /** Slugs joined by bars split back. */
  lemma SlugsSplitBack(values: seq<Token>)
    requires forall t :: t in values ==> IsSlug(t)
    ensures SplitPipe(First(Piped(values), "")) == values
  {
    if values == [] {
      SplitFree('|', "");
      FilterNone(NonEmpty, [""]);
    } else {
      JoinFree('|', values, {'%'});
      UnpipedSame(Join('|', values));
      SplitOfJoin('|', values);
      FilterAll(NonEmpty, values);
    }
  }

  lemma SelectedAreKeys(values: seq<Token>, keys: seq<Token>)
    requires AllSlugs(keys)
    ensures forall t :: t in Selected(values, keys) ==> t in keys && IsSlug(t)
  {
    FilterMembers(t => In(keys, t), values);
  }

  lemma SelectedReturns(w: Key -> seq<string>, k: Key, values: seq<Token>, keys: seq<Token>)
    requires AllSlugs(keys) && w(k) == Piped(Selected(values, keys))
    ensures ListOf(w, k) == Selected(values, keys)
  {
    SelectedAreKeys(values, keys);
    SlugsSplitBack(Selected(values, keys));
  }

  lemma KeysAreDisjoint()
    ensures forall t :: t in EXTRA_KEYS ==> t !in EQUIP_KEYS
  {
    assert forall i :: 0 <= i < |EXTRA_KEYS| ==> EXTRA_KEYS[i] !in EQUIP_KEYS;
  }

  lemma SelectedTwice(keys: seq<Token>, others: seq<Token>, values: seq<Token>)
    requires forall t :: t in others ==> t !in keys
    ensures Selected(Selected(values, others), keys) == []
    ensures Selected(Selected(values, keys), keys) == Selected(values, keys)
  {
    FilterMembers(t => In(others, t), values);
    FilterNone(t => In(keys, t), Selected(values, others));
    FilterMembers(t => In(keys, t), values);
    FilterAll(t => In(keys, t), Selected(values, keys));
  }

  /** The merged amenity list splits back into exactly the selected extras and the selected equipment. */
  lemma AmenitiesSplitBack(f: Filters)
    ensures var back := SplitPipe(First(Piped(AmenitiesOf(f)), ""));
            && Selected(back, EXTRA_KEYS) == Selected(f.extras, EXTRA_KEYS)
            && Selected(back, EQUIP_KEYS) == Selected(f.equipped, EQUIP_KEYS)
  {
    var extras, equipped := Selected(f.extras, EXTRA_KEYS), Selected(f.equipped, EQUIP_KEYS);
    ExtrasAreSlugs();
    EquipmentIsSlugs();
    SelectedAreKeys(f.extras, EXTRA_KEYS);
    SelectedAreKeys(f.equipped, EQUIP_KEYS);
    SlugsSplitBack(extras + equipped);
    KeysAreDisjoint();
    SelectedTwice(EXTRA_KEYS, EQUIP_KEYS, f.extras);
    SelectedTwice(EXTRA_KEYS, EQUIP_KEYS, f.equipped);
    SelectedTwice(EQUIP_KEYS, EXTRA_KEYS, f.extras);
    SelectedTwice(EQUIP_KEYS, EXTRA_KEYS, f.equipped);
    FilterConcat(t => In(EXTRA_KEYS, t), extras, equipped);
    FilterConcat(t => In(EQUIP_KEYS, t), extras, equipped);
  }

  lemma BoundReturns(w: Key -> seq<string>, k: Key, plain: Key, n: Option<int>)
    requires w(k) == Bound(n) && w(plain) == []
    ensures NumberOf(w, k, plain) == NonZero(n)
  {
    if n.Some? { ParseIsPrintInverse(n.value); }
  }

  lemma FlagReturns(w: Key -> seq<string>, k: Key, plain: Key, given: bool, flag: string)
    requires w(k) == Flag(given) && w(plain) == []
    ensures FlagOf(w, k, plain, flag) == if given then [flag] else []
  {
  }

  lemma PlainIsNotWritten(f: Filters)
    ensures var w := WrittenBy(f);
            && w(PlainAge) == w(PlainVideo) == w(PlainSale) == w(PlainOpenHouse) == []
  {
  }

  lemma BoundsAreWritten(f: Filters)
    ensures var w := WrittenBy(f);
            && w(PriceMin) == Bound(f.priceFrom) && w(PriceMax) == Bound(f.priceTo)
            && w(AreaMin) == Bound(f.areaFrom) && w(AreaMax) == Bound(f.areaTo)
            && w(PlainPriceMin) == w(PlainPriceMax) == w(PlainAreaMin) == w(PlainAreaMax) == []
  {
  }

  lemma BoundsReturn(f: Filters)
    ensures NumberOf(WrittenBy(f), PriceMin, PlainPriceMin) == NonZero(f.priceFrom)
    ensures NumberOf(WrittenBy(f), PriceMax, PlainPriceMax) == NonZero(f.priceTo)
    ensures NumberOf(WrittenBy(f), AreaMin, PlainAreaMin) == NonZero(f.areaFrom)
    ensures NumberOf(WrittenBy(f), AreaMax, PlainAreaMax) == NonZero(f.areaTo)
  {
    BoundsAreWritten(f);
    BoundReturns(WrittenBy(f), PriceMin, PlainPriceMin, f.priceFrom);
    BoundReturns(WrittenBy(f), PriceMax, PlainPriceMax, f.priceTo);
    BoundReturns(WrittenBy(f), AreaMin, PlainAreaMin, f.areaFrom);
    BoundReturns(WrittenBy(f), AreaMax, PlainAreaMax, f.areaTo);
  }

  lemma FlagsReturn(f: Filters)
    ensures ReadFlags(WrittenBy(f)) == FlagsOf(f.flags)
  {
    PlainIsNotWritten(f);
    FlagReturns(WrittenBy(f), Video, PlainVideo, "video" in f.flags, "video");
    FlagReturns(WrittenBy(f), Sale, PlainSale, OnSale(f.flags), "sale");
    FlagReturns(WrittenBy(f), OpenHouse, PlainOpenHouse, "openHouse" in f.flags, "openHouse");
  }

  lemma TextsReturn(f: Filters)
    ensures TextOf(WrittenBy(f), Age, PlainAge) == AgeOf(f.articleAge)
    ensures First(WrittenBy(f)(Sort), "nejnovejsi") == First(Given(SortOf(f.sort)), "nejnovejsi")
  {
    PlainIsNotWritten(f);
    assert WrittenBy(f)(Age) == Given(AgeOf(f.articleAge));
    assert WrittenBy(f)(Sort) == Given(SortOf(f.sort));
  }

  lemma ListsReturn(f: Filters)
    ensures ListOf(WrittenBy(f), Sizes) == Selected(f.sizes, SIZE_KEYS)
    ensures ListOf(WrittenBy(f), Conditions) == Selected(f.conditions, COND_KEYS)
    ensures ListOf(WrittenBy(f), Ownership) == Selected(f.ownership, OWNER_KEYS)
    ensures ListOf(WrittenBy(f), Buildings) == Selected(f.buildings, FilterBridge.IDNES_BUILDINGS)
  {
    SizesAreSlugs();
    ConditionsAreSlugs();
    OwnersAreSlugs();
    BuildingsAreSlugs();
    SelectedReturns(WrittenBy(f), Sizes, f.sizes, SIZE_KEYS);
    SelectedReturns(WrittenBy(f), Conditions, f.conditions, COND_KEYS);
    SelectedReturns(WrittenBy(f), Ownership, f.ownership, OWNER_KEYS);
    SelectedReturns(WrittenBy(f), Buildings, f.buildings, FilterBridge.IDNES_BUILDINGS);
  }

  lemma AmenitiesReturn(f: Filters)
    ensures Selected(ListOf(WrittenBy(f), Amenities), EXTRA_KEYS) == Selected(f.extras, EXTRA_KEYS)
    ensures Selected(ListOf(WrittenBy(f), Amenities), EQUIP_KEYS) == Selected(f.equipped, EQUIP_KEYS)
  {
    assert WrittenBy(f)(Amenities) == Piped(AmenitiesOf(f));
    AmenitiesSplitBack(f);
  }

  lemma OfferIsOffer(f: Filters)
    ensures OfferOf(f.offers) in OFFERS
  {
    assert OFFERS[0] == "pronajem";
  }

  lemma CategoryIsCategory(c: Choice)
    ensures CategoryOf(c) in FilterBridge.CATEGORIES && CategoryOf(One(CategoryOf(c))) == CategoryOf(c)
  {
    assert FilterBridge.CATEGORIES[0] == "byty";
    CategoryIsFixed(CategoryOf(c));
  }

  lemma CategoryIsFixed(key: string)
    requires key in FilterBridge.CATEGORIES
    ensures CategoryOf(One(key)) == key
  {
  }

  /** The written values mean the canonical filters. */
  lemma WrittenIsRead(f: Filters, slug: string -> string, parts: seq<string>)
    requires PathMeans(f, slug, parts)
    ensures Read(parts, WrittenBy(f)) == Canonical(f, slug)
  {
    OfferIsOffer(f);
    CategoryIsCategory(f.category);
    ListsReturn(f);
    AmenitiesReturn(f);
    BoundsReturn(f);
    TextsReturn(f);
    FlagsReturn(f);
  }

  // Parameters come back

  lemma {:induction false} GetParams(keys: seq<Key>, w: Key -> seq<string>, k: Key)
    requires forall i, j :: 0 <= i < j < |keys| ==> keys[i] != keys[j]
    ensures FormEncoding.Get(Params(keys, w), Text(k)) == if k in keys then w(k) else []
  {
    if keys != [] {
      var rest := keys[1..];
      assert forall i :: 0 <= i < |rest| ==> rest[i] == keys[i + 1] != keys[0];
      GetParams(rest, w, k);
      GetSection(Text(keys[0]), w(keys[0]), Text(k));
      GetConcat(Section(Text(keys[0]), w(keys[0])), Params(rest, w), Text(k));
      if Text(keys[0]) == Text(k) { TextInjective(keys[0], k); }
    }
  }

  lemma OrderIsDistinct()
    ensures forall i, j :: 0 <= i < j < |ORDER| ==> ORDER[i] != ORDER[j]
  {
  }

  lemma UnorderedAreNotWritten(f: Filters, k: Key)
    requires k !in ORDER
    ensures Written(f, k) == []
  {
    assert ORDER[0] == Sizes && ORDER[1] == Conditions && ORDER[2] == Ownership && ORDER[3] == Buildings;
    assert ORDER[4] == Amenities && ORDER[5] == PriceMin && ORDER[6] == PriceMax && ORDER[7] == AreaMin;
    assert ORDER[8] == AreaMax && ORDER[9] == Age && ORDER[10] == Video && ORDER[11] == Sale;
    assert ORDER[12] == OpenHouse && ORDER[13] == Sort;
  }

  lemma GetAllParams(keys: seq<Key>, w: Key -> seq<string>, k: Key)
    requires keys == ORDER && (k !in keys ==> w(k) == [])
    ensures FormEncoding.Get(Params(keys, w), Text(k)) == w(k)
  {
    OrderIsDistinct();
    GetParams(keys, w, k);
  }

  lemma GetWritten(f: Filters, k: Key)
    ensures FormEncoding.Get(Params(ORDER, WrittenBy(f)), Text(k)) == Written(f, k)
  {
    if k !in ORDER { UnorderedAreNotWritten(f, k); }
    GetAllParams(ORDER, WrittenBy(f), k);
  }

  lemma EncodedReadsBack(ps: seq<Pair>)
    ensures ParseQsl(UrlEncode(ps, SAFE)) == ps
    ensures forall i :: 0 <= i < |UrlEncode(ps, SAFE)| ==> InQuery(UrlEncode(ps, SAFE)[i])
  {
    ParseIsInverse(ps, SAFE);
  }

  /** Reading a written query finds for every parameter exactly the values written for it. */
  lemma QueryReadsBack(f: Filters, k: Key)
    ensures Values(ParseQsl(QueryOf(f)))(k) == Written(f, k)
  {
    EncodedReadsBack(Params(ORDER, WrittenBy(f)));
    GetWritten(f, k);
  }

  lemma ReadSame(parts: seq<string>, v: Key -> seq<string>, w: Key -> seq<string>)
    requires forall k :: v(k) == w(k)
    ensures Read(parts, v) == Read(parts, w)
  {
  }

  // The path comes back

  /** What the path parts of a written URL must say. */
  ghost predicate PathMeans(f: Filters, slug: string -> string, parts: seq<string>) {
    && |parts| >= 2 && parts[0] == OfferOf(f.offers) && parts[1] == CategoryOf(f.category)
    && First(parts[2..], "praha") == Returned(LocalityOf(f.districts, slug))
  }

  predicate IsPathSlug(t: string) { IsSlug(t) && t != "s" }

  lemma OffersAreSlugs(offer: string)
    requires offer in OFFERS
    ensures IsPathSlug(offer)
  {
  }

  lemma CategoriesAreSlugs(category: string)
    requires category in FilterBridge.CATEGORIES
    ensures IsPathSlug(category)
  {
    assert IsSlug("byty") && IsSlug("domy") && IsSlug("pozemky") && IsSlug("komercni-nemovitosti");
    assert IsSlug("male-objekty-garaze") && IsSlug("projekty");
  }

  lemma SlugIsFree(t: string)
    requires IsSlug(t)
    ensures Free(t, {'/', '?', '#', '\t', '\r', '\n', ','})
  {
  }

  lemma FolderSplits(offer: string, category: string)
    requires IsPathSlug(offer) && IsPathSlug(category)
    ensures Split('/', "/s/" + offer + "/" + category) == ["", "s", offer, category]
  {
    SlugIsFree(offer);
    SlugIsFree(category);
    SplitFree('/', "s");
    SplitFree('/', offer);
    SplitFree('/', category);
    SplitNext('/', "", "s");
    SplitConcat('/', "/s", offer);
    SplitConcat('/', "/s/" + offer, category);
    assert "" + "/" + "s" == "/s" && "/s" + "/" + offer == "/s/" + offer;
  }

  lemma FolderIsFree(offer: string, category: string)
    requires IsPathSlug(offer) && IsPathSlug(category)
    ensures Free("/s/" + offer + "/" + category, {'?', '#', '\t', '\r', '\n'})
  {
    SlugIsFree(offer);
    SlugIsFree(category);
  }

  lemma FolderIsSlugs(f: Filters)
    ensures IsPathSlug(OfferOf(f.offers)) && IsPathSlug(CategoryOf(f.category))
  {
    OfferIsOffer(f);
    OffersAreSlugs(OfferOf(f.offers));
    CategoryIsCategory(f.category);
    CategoriesAreSlugs(CategoryOf(f.category));
  }

  /** The parts of a path that starts with the folder. */
  lemma PartsBehindFolder(f: Filters, t: string)
    ensures PathParts(Folder(f) + "/" + t) == [OfferOf(f.offers), CategoryOf(f.category)] + PathParts(t)
  {
    var offer, category := OfferOf(f.offers), CategoryOf(f.category);
    FolderIsSlugs(f);
    FolderSplits(offer, category);
    SplitConcat('/', Folder(f), t);
    FilterConcat(IsPart, ["", "s", offer, category], Split('/', t));
    FilterConcat(IsPart, ["", "s"], [offer, category]);
    FilterNone(IsPart, ["", "s"]);
    FilterAll(IsPart, [offer, category]);
  }

  lemma ClosingSlash(t: string)
    ensures PathParts(t + "/") == PathParts(t)
  {
    assert t + "/" == t + "/" + "";
    SplitConcat('/', t, "");
    SplitFree('/', "");
    FilterConcat(IsPart, Split('/', t), [""]);
    FilterNone(IsPart, [""]);
  }

  lemma SegmentIsCleaned(locality: string)
    ensures Cleaned(Segment(locality)) == if locality == "" then "" else Cleaned(locality) + "/"
  {
    FilterConcat(Kept, locality, "/");
    CleanedFree("/");
  }

  lemma SegmentParts(locality: string, clean: string)
    requires Cleaned(Segment(locality)) == clean
    ensures PathParts(clean) == PathParts(Cleaned(locality))
  {
    SegmentIsCleaned(locality);
    ClosingSlash(Cleaned(locality));
  }

  lemma FolderIsClean(f: Filters)
    ensures Cleaned(Folder(f) + "/") == Folder(f) + "/" && Free(Folder(f) + "/", MARKS)
  {
    FolderIsSlugs(f);
    FolderIsFree(OfferOf(f.offers), CategoryOf(f.category));
    CleanedFree(Folder(f) + "/");
  }

  /** A tail that leaves the path alone and that cleaning leaves alone. */
  ghost predicate IsTail(tail: string) { Cleaned(tail) == tail && (tail == "" || tail[0] == '?') }

  lemma SegmentIsSeen(start: string, locality: string, tail: string)
    requires Free(start, MARKS) && IsTail(tail)
    ensures PathAndQuery(start + Cleaned(Segment(locality)) + tail).path == start + Visible(locality)
         || (PathAndQuery(start + Cleaned(Segment(locality)) + tail).path == start + Cleaned(Segment(locality))
             && Visible(locality) == Cleaned(locality))
  {
    var clean := Cleaned(locality);
    SegmentIsCleaned(locality);
    if Find(clean, MARKS) < |clean| {
      MarkHides(start, clean, tail);
    } else {
      PathEnds(start + Cleaned(Segment(locality)), tail);
      assert clean[..|clean|] == clean;
    }
  }

  /** The path ends at the first mark, which may stand in the locality. */
  lemma PathIsVisible(f: Filters, locality: string, tail: string)
    requires IsTail(tail)
    ensures PathParts(PathAndQuery(Cleaned(PathOf(f, locality) + tail)).path)
         == [OfferOf(f.offers), CategoryOf(f.category)] + PathParts(Visible(locality))
  {
    FolderIsClean(f);
    CleanedAround(Folder(f) + "/", Segment(locality), tail);
    SegmentIsSeen(Folder(f) + "/", locality, tail);
    SegmentParts(locality, Cleaned(Segment(locality)));
    PartsBehindFolder(f, Visible(locality));
    PartsBehindFolder(f, Cleaned(Segment(locality)));
  }

  lemma BehindIsTail(query: string)
    requires forall i :: 0 <= i < |query| ==> InQuery(query[i])
    ensures IsTail(Behind(query)) && Free(query, {'#'})
  {
    CleanedFree(Behind(query));
  }

  lemma QueryIsTail(f: Filters)
    ensures IsTail(Behind(QueryOf(f))) && Free(QueryOf(f), {'#'})
  {
    EncodedReadsBack(Params(ORDER, WrittenBy(f)));
    BehindIsTail(QueryOf(f));
  }

  lemma SiteIsFree()
    ensures Free(SITE, {'/', '?', '#', '\t', '\r', '\n'})
  {
  }

  lemma HostIsHost()
    ensures IsHost(HOST)
  {
    SiteIsFree();
    HostOfName(SITE);
  }

  lemma RestIsSplit(path: string, tail: string)
    requires path != "" && path[0] == '/'
    ensures SplitUrl(HOST + path + tail) == PathAndQuery(Cleaned(path + tail))
  {
    HostIsHost();
    HostIsSkipped(HOST, path + tail);
    Assoc(HOST, path, tail);
  }

  lemma UrlIsSplit(f: Filters, slug: string -> string)
    ensures SplitUrl(BuildUrl(f, slug))
         == PathAndQuery(Cleaned(PathOf(f, LocalityOf(f.districts, slug)) + Behind(QueryOf(f))))
  {
    RestIsSplit(PathOf(f, LocalityOf(f.districts, slug)), Behind(QueryOf(f)));
  }

  lemma PartsMean(offer: string, category: string, more: seq<string>)
    ensures var parts := [offer, category] + more;
            (parts[0] == offer && parts[1] == category && parts[2..] == more)
  {
  }

  lemma PartsReturn(f: Filters, slug: string -> string)
    ensures PathMeans(f, slug, PathParts(SplitUrl(BuildUrl(f, slug)).path))
  {
    var locality := LocalityOf(f.districts, slug);
    UrlIsSplit(f, slug);
    QueryIsTail(f);
    PathIsVisible(f, locality, Behind(QueryOf(f)));
    PartsMean(OfferOf(f.offers), CategoryOf(f.category), PathParts(Visible(locality)));
  }

  /** Offer and category come back for all filters, and of the districts the visible part of the locality. */
  lemma PathReadsBack(f: Filters, slug: string -> string)
    ensures var back := ParseUrl(BuildUrl(f, slug));
            && back.offers == [OfferOf(f.offers)] && back.category == One(CategoryOf(f.category))
            && back.districts == [Returned(LocalityOf(f.districts, slug))]
  {
    PartsReturn(f, slug);
    OfferIsOffer(f);
    CategoryIsCategory(f.category);
  }

  lemma TailIsQuery(path: string, query: string)
    requires Free(path, MARKS) && Free(query, {'#'})
    ensures PathAndQuery(path + Behind(query)).query == query
  {
    QueryFollows(path, query);
    assert path + "" == path;
    Assoc(path, "?", query);
  }

  lemma SegmentIsFree(start: string, locality: string)
    requires Free(start, MARKS) && Free(locality, MARKS)
    ensures Free(start + Cleaned(Segment(locality)), MARKS)
  {
    NoMarkHidesNothing(locality);
    SegmentIsCleaned(locality);
  }

  lemma QueryStays(f: Filters, locality: string)
    requires Free(locality, MARKS)
    ensures PathAndQuery(Cleaned(PathOf(f, locality) + Behind(QueryOf(f)))).query == QueryOf(f)
  {
    FolderIsClean(f);
    QueryIsTail(f);
    CleanedAround(Folder(f) + "/", Segment(locality), Behind(QueryOf(f)));
    SegmentIsFree(Folder(f) + "/", locality);
    TailIsQuery(Folder(f) + "/" + Cleaned(Segment(locality)), QueryOf(f));
  }

  /** Reading a written URL gives the canonical form of the filters, unless the locality holds a mark that ends the
      path. */
  lemma ParseOfBuildIsCanonical(f: Filters, slug: string -> string)
    requires Free(LocalityOf(f.districts, slug), MARKS)
    ensures ParseUrl(BuildUrl(f, slug)) == Canonical(f, slug)
  {
    PartsReturn(f, slug);
    UrlIsSplit(f, slug);
    QueryStays(f, LocalityOf(f.districts, slug));
    var parts := PathParts(SplitUrl(BuildUrl(f, slug)).path);
    forall k ensures Values(ParseQsl(QueryOf(f)))(k) == WrittenBy(f)(k) { QueryReadsBack(f, k); }
    ReadSame(parts, Values(ParseQsl(QueryOf(f))), WrittenBy(f));
    WrittenIsRead(f, slug, parts);
  }

  // One locality

  /** Characters that cannot stand in a district: they part districts or path parts, end the path, or are dropped. */
  const PARTING: set<char> := {'/', '?', '#', ',', '\t', '\r', '\n'}

  /** A district that comes back: a trimmed text without such characters that is not the site folder, not a known OSM
      id and not a name of the country. */
  ghost predicate Survives(d: string, slug: string -> string) {
    && d != "" && Strip(d) == d && Free(d, PARTING) && d != "s"
    && d !in FilterBridge.BR_DISTRICTS && !IsCountry(d, slug)
  }

  lemma LTrimFree(s: string)
    requires Free(s, {'/'})
    ensures TrimSlashes(s) == s
  {
  }

  lemma StripIsShort(s: string)
    ensures |Strip(s)| <= |s| && (|Strip(s)| == |s| ==> Strip(s) == s) && forall c :: c in Strip(s) ==> c in s
  {
    assert forall c :: c in Strip(s) ==> c in LStrip(s);
    assert forall c :: c in LStrip(s) ==> c in s;
  }

  lemma OnePiece(s: string)
    requires Free(s, {','})
    ensures Pieces(s) == if Strip(s) == "" then [] else [Strip(s)]
  {
    SplitFree(',', s);
    assert Stripped([s]) == [Strip(s)];
    if Strip(s) == "" {
      FilterNone(NonEmpty, [Strip(s)]);
    } else {
      FilterAll(NonEmpty, [Strip(s)]);
    }
  }

  /** A piece is at most as long as the text, holds only its characters and no comma. */
  lemma PieceIsPart(s: string, p: string)
    requires p in Pieces(s)
    ensures p != "" && |p| <= |s| && Free(p, {','}) && forall c :: c in p ==> c in s
  {
    SplitParts(',', s);
    FilterMembers(NonEmpty, Stripped(Split(',', s)));
    var i :| 0 <= i < |Split(',', s)| && p == Stripped(Split(',', s))[i];
    PieceOfPart(Split(',', s)[i]);
  }

  lemma PieceOfPart(part: string)
    requires Free(part, {','})
    ensures Free(Strip(part), {','}) && |Strip(part)| <= |part| && forall c :: c in Strip(part) ==> c in part
  {
    StripIsShort(part);
    forall k | 0 <= k < |Strip(part)| ensures Strip(part)[k] !in {','} { assert Strip(part)[k] in part; }
  }

  lemma RegionsDiffer()
    ensures FilterBridge.REGIONS[0] != FilterBridge.REGIONS[1]
  {
  }

  lemma OneIsChosen(t: string)
    ensures Chosen([t]) == t
  {
    RegionsDiffer();
    DedupAppend([], t);
    assert [] + [t] == [t];
    assert FilterBridge.REGIONS[0] in FilterBridge.REGIONS && FilterBridge.REGIONS[1] in FilterBridge.REGIONS;
  }

  /** What is chosen is nothing, Prague or one of the slugs. */
  lemma ChosenIsOne(slugs: seq<string>)
    ensures Chosen(slugs) == "" || Chosen(slugs) == "praha" || Chosen(slugs) in slugs
  {
    DedupMembers(slugs);
  }

  lemma OneDistrict(d: string, slug: string -> string)
    ensures Slugs([d], slug)
         == if Strip(d) == "" || TrimSlashes(d) == "" then Some([])
            else if IsCountry(TrimSlashes(d), slug) then None
            else Some(Pieces(Mapped(TrimSlashes(d))))
  {
    assert [d][1..] == [];
    assert Slugs([], slug) == Some([]);
    assert Pieces(Mapped(TrimSlashes(d))) + [] == Pieces(Mapped(TrimSlashes(d)));
  }

  lemma PlainReturns(d: string)
    requires IsPart(d) && Free(d, PARTING)
    ensures Returned(d) == d
  {
    assert Free(d, MARKS);
    NoMarkHidesNothing(d);
    CleanedFree(d);
    SplitFree('/', d);
    FilterAll(IsPart, [d]);
  }

  lemma TrimmedIsLocality(d: string, slug: string -> string)
    requires d != "" && Strip(d) == d && Free(d, {'/'}) && Free(d, {','})
    requires d !in FilterBridge.BR_DISTRICTS && !IsCountry(d, slug)
    ensures LocalityOf([d], slug) == d
  {
    LTrimFree(d);
    OneDistrict(d, slug);
    OnePiece(d);
    OneIsChosen(d);
  }

  /** A path part of a locality: it holds no parting character but commas. */
  ghost predicate PartOf(d: string, locality: string) {
    IsPart(d) && Free(d, {'/'}) && Free(d, PARTING - {','}) && |d| <= |locality| && forall c :: c in d ==> c in locality
  }

  lemma SeenIsPart(locality: string, p: string)
    requires p in Split('/', Visible(locality)) && IsPart(p)
    ensures PartOf(p, locality)
  {
    var seen := Visible(locality);
    SplitParts('/', seen);
    FilterMembers(Kept, locality);
    forall c | c in p ensures c in locality && c !in MARKS && Kept(c) {
      assert c in seen && c in Cleaned(locality);
    }
    forall i | 0 <= i < |p| ensures p[i] !in PARTING - {','} { assert p[i] in p && p[i] !in {'/'}; }
  }

  /** What comes back of a locality is the default, or a part of it. */
  lemma ReturnedIsPart(locality: string)
    ensures Returned(locality) == "praha" || PartOf(Returned(locality), locality)
  {
    var parts := PathParts(Visible(locality));
    FilterMembers(IsPart, Split('/', Visible(locality)));
    if parts != [] {
      assert parts[0] in parts;
      SeenIsPart(locality, parts[0]);
    }
  }

  lemma PragueIsTrimmed()
    ensures IsPart("praha") && Strip("praha") == "praha" && Free("praha", PARTING)
  {
    LStripUnique("praha", 0);
    RStripUnique("praha", 5);
    assert "praha"[0..] == "praha" && "praha"[..5] == "praha";
  }

  lemma TableIsSlugs(id: string)
    requires id in FilterBridge.BR_DISTRICTS
    ensures id[0] == 'R' && IsSlug(FilterBridge.BR_DISTRICTS[id])
  {
  }

  lemma LabelOfTrimmed(d: string)
    requires Strip(d) == d && Free(d, {','})
    ensures ShortLabel(d) == d
  {
    SplitFree(',', d);
  }

  lemma IsNoCountry(d: string, stripped: string, name: string)
    requires |d| == |stripped| == 5 && d[0] == 'p' && name !in COUNTRY_SLUGS
    ensures !NamesCountry(d, stripped, name)
  {
  }

  /** A trimmed word of the shape of `praha`. */
  ghost predicate IsWord(d: string) { IsPart(d) && Strip(d) == d && Free(d, PARTING) && |d| == 5 && d[0] == 'p' }

  lemma PragueIsWord(d: string)
    requires d == "praha"
    ensures IsWord(d)
  {
    PragueIsTrimmed();
  }

  lemma WordSurvives(d: string, slug: string -> string)
    requires IsWord(d) && slug(d) !in COUNTRY_SLUGS
    ensures Survives(d, slug)
  {
    LabelOfTrimmed(d);
    IsNoCountry(d, d, slug(d));
    if d in FilterBridge.BR_DISTRICTS { TableIsSlugs(d); }
  }

  lemma SlugIsChosen(t: string)
    requires IsSlug(t)
    ensures Chosen(Pieces(t)) == t
  {
    SlugIsFree(t);
    assert !IsSpace(t[0]) && !IsSpace(t[|t| - 1]);
    LStripUnique(t, 0);
    RStripUnique(t, |t|);
    OnePiece(t);
    OneIsChosen(t);
  }

  /** The district is neither blank nor the country and has no slash at its ends. */
  ghost predicate IsNamed(d: string, slug: string -> string) {
    Strip(d) != "" && d != "" && TrimSlashes(d) == d && !IsCountry(d, slug)
  }

  lemma NamedLocality(d: string, slug: string -> string)
    requires IsNamed(d, slug)
    ensures LocalityOf([d], slug) == Chosen(Pieces(Mapped(d)))
  {
    OneDistrict(d, slug);
  }

  /** A known id is written as its slug. */
  lemma IdIsWrittenAsSlug(d: string, slug: string -> string)
    requires IsNamed(d, slug) && d in FilterBridge.BR_DISTRICTS
    ensures LocalityOf([d], slug) == Mapped(d) && IsSlug(Mapped(d)) && d[0] == 'R'
  {
    TableIsSlugs(d);
    SlugIsChosen(Mapped(d));
    NamedLocality(d, slug);
  }

  lemma CapitalIsNoPart(d: string, t: string)
    requires d != "" && d[0] == 'R' && IsSlug(t)
    ensures !PartOf(d, t)
  {
    assert d[0] in d && 'R' !in t;
  }

  lemma PieceIsWhole(d: string, piece: string)
    requires piece in Pieces(d) && |d| <= |piece| && forall c :: c in d ==> c in piece
    ensures Free(d, {','}) && Strip(d) == d
  {
    PieceIsPart(d, piece);
    forall i | 0 <= i < |d| ensures d[i] !in {','} { assert d[i] in piece; }
    OnePiece(d);
    StripIsShort(d);
  }

  lemma NothingIsChosen()
    ensures Chosen([]) == ""
  {
  }

  lemma UnnamedIsNothing(d: string, slug: string -> string)
    requires Free(d, {'/'}) && !IsNamed(d, slug)
    ensures LocalityOf([d], slug) == ""
  {
    LTrimFree(d);
    OneDistrict(d, slug);
    NothingIsChosen();
  }

  lemma PartSurvives(d: string, locality: string, slug: string -> string)
    requires PartOf(d, locality)
    requires IsNamed(d, slug) && d !in FilterBridge.BR_DISTRICTS && locality in Pieces(d)
    ensures Survives(d, slug)
  {
    PieceIsWhole(d, locality);
    forall i | 0 <= i < |d| ensures d[i] !in PARTING { assert d[i] !in PARTING - {','} && d[i] !in {','}; }
  }

  lemma IdIsNoPart(d: string, slug: string -> string)
    requires IsNamed(d, slug) && d in FilterBridge.BR_DISTRICTS
    ensures !PartOf(d, LocalityOf([d], slug))
  {
    IdIsWrittenAsSlug(d, slug);
    CapitalIsNoPart(d, Mapped(d));
  }

  lemma PragueOrPiece(d: string, slug: string -> string)
    requires IsNamed(d, slug) && d !in FilterBridge.BR_DISTRICTS
    ensures var locality := LocalityOf([d], slug);
            locality == "" || locality == "praha" || locality in Pieces(d)
  {
    NamedLocality(d, slug);
    ChosenIsOne(Pieces(d));
  }

  lemma DefaultReturns()
    ensures Returned("") == "praha" && Returned("praha") == "praha"
  {
    PragueIsTrimmed();
    PlainReturns("praha");
    SplitFree('/', "");
    FilterNone(IsPart, [""]);
  }

  lemma PartOfItsLocalitySurvives(d: string, locality: string, slug: string -> string)
    requires locality == LocalityOf([d], slug) && locality != "" && locality != "praha" && PartOf(d, locality)
    ensures Survives(d, slug)
  {
    if !IsNamed(d, slug) { UnnamedIsNothing(d, slug); }
    if d in FilterBridge.BR_DISTRICTS {
      IdIsNoPart(d, slug);
    } else {
      PragueOrPiece(d, slug);
      PartSurvives(d, locality, slug);
    }
  }

  lemma ReturnedSurvives(d: string, locality: string, slug: string -> string)
    requires locality == LocalityOf([d], slug) && Returned(locality) == d && d != "praha"
    ensures Survives(d, slug)
  {
    DefaultReturns();
    ReturnedIsPart(locality);
    PartOfItsLocalitySurvives(d, locality, slug);
  }

  /** A single district comes back exactly when it survives. */
  lemma LocalitySurvivesExactly(f: Filters, d: string, slug: string -> string)
    requires f.districts == [d] && slug("praha") !in COUNTRY_SLUGS
    ensures ParseUrl(BuildUrl(f, slug)).districts == [d] <==> Survives(d, slug)
  {
    PathReadsBack(f, slug);
    if Survives(d, slug) {
      TrimmedIsLocality(d, slug);
      PlainReturns(d);
    }
    if d == "praha" {
      PragueIsWord(d);
      WordSurvives(d, slug);
    } else if Returned(LocalityOf([d], slug)) == d {
      ReturnedSurvives(d, LocalityOf([d], slug), slug);
    }
  }

  const PLAIN_SEARCH := Filters([], One(""), [], [], [], [], [], [], [], None, None, None, None, One(""), [], "")

  /** For example, the id of Brno comes back as its slug. */
  lemma IdOfBrnoIsLost(slug: string -> string)
    requires slug("praha") !in COUNTRY_SLUGS
    ensures ParseUrl(BuildUrl(PLAIN_SEARCH.(districts := ["R438171"]), slug)).districts != ["R438171"]
  {
    LocalitySurvivesExactly(PLAIN_SEARCH.(districts := ["R438171"]), "R438171", slug);
  }

  /** The first mark in the locality is a number sign. */
  predicate CutsOff(locality: string) {
    var clean := Cleaned(locality);
    Find(clean, MARKS) < |clean| && clean[Find(clean, MARKS)] == '#'
  }

  lemma CutUrlHasNoQuery(f: Filters, slug: string -> string)
    requires CutsOff(LocalityOf(f.districts, slug))
    ensures SplitUrl(BuildUrl(f, slug)).query == ""
  {
    var locality := LocalityOf(f.districts, slug);
    UrlIsSplit(f, slug);
    FolderIsClean(f);
    QueryIsTail(f);
    CleanedAround(Folder(f) + "/", Segment(locality), Behind(QueryOf(f)));
    SegmentIsCleaned(locality);
    NumberSignHides(Folder(f) + "/", Cleaned(locality), Behind(QueryOf(f)));
  }

  predicate NoQueryFilters(f: Filters) {
    && f.sizes == f.conditions == f.ownership == f.buildings == f.extras == f.equipped == []
    && f.priceFrom == f.priceTo == f.areaFrom == f.areaTo == None && f.flags == []
  }

  lemma NothingIsRead(parts: seq<string>, v: Key -> seq<string>)
    requires forall k :: v(k) == []
    ensures NoQueryFilters(Read(parts, v))
  {
    SplitFree('|', "");
    FilterNone(NonEmpty, [""]);
    forall k ensures ListOf(v, k) == [] {}
  }

  lemma WithoutQuery(split: Parts)
    requires split.query == ""
    ensures NoQueryFilters(Read(PathParts(split.path), Values(ParseQsl(split.query))))
  {
    assert ParseQsl("") == [];
    NothingIsRead(PathParts(split.path), Values([]));
  }

  /** A number sign in the locality loses every filter of the query. */
  lemma NumberSignLosesFilters(f: Filters, slug: string -> string)
    requires CutsOff(LocalityOf(f.districts, slug))
    ensures NoQueryFilters(ParseUrl(BuildUrl(f, slug)))
  {
    CutUrlHasNoQuery(f, slug);
    WithoutQuery(SplitUrl(BuildUrl(f, slug)));
  }

  // Writing as the program does it: appending to lists

  function Prepended(slugs: seq<string>, more: Option<seq<string>>): Option<seq<string>> {
    if more.None? then None else Some(slugs + more.value)
  }

  lemma SlugsNext(districts: seq<string>, i: nat, slug: string -> string, slugs: seq<string>)
    requires i < |districts|
    ensures var raw, rest := TrimSlashes(districts[i]), Slugs(districts[i + 1..], slug);
            Prepended(slugs, Slugs(districts[i..], slug)) ==
            if Strip(districts[i]) == "" || raw == "" then Prepended(slugs, rest)
            else if IsCountry(raw, slug) then None
            else Prepended(slugs + Pieces(Mapped(raw)), rest)
  {
    var rest := Slugs(districts[i + 1..], slug);
    assert districts[i..][0] == districts[i] && districts[i..][1..] == districts[i + 1..];
    if rest.Some? { Assoc(slugs, Pieces(Mapped(TrimSlashes(districts[i]))), rest.value); }
  }

  lemma NothingPrepended(slugs: seq<string>, more: Option<seq<string>>)
    ensures Prepended([], more) == more && Prepended(slugs, Some([])) == Some(slugs)
  {
    assert slugs + [] == slugs;
    if more.Some? { assert [] + more.value == more.value; }
  }

  /** `_locality`: the loop over the districts, which ends early at the country. */
  method FindLocality(districts: seq<string>, slug: string -> string) returns (locality: string)
    ensures locality == LocalityOf(districts, slug)
  {
    var slugs := [];
    NothingPrepended([], Slugs(districts, slug));
    assert districts[0..] == districts;
    for i := 0 to |districts|
      invariant Prepended(slugs, Slugs(districts[i..], slug)) == Slugs(districts, slug)
    {
      SlugsNext(districts, i, slug, slugs);
      var raw := TrimSlashes(districts[i]);
      if Strip(districts[i]) != "" && raw != "" {
        if IsCountry(raw, slug) {
          return "";
        }
        slugs := slugs + Pieces(Mapped(raw));
      }
    }
    assert districts[|districts|..] == [];
    NothingPrepended(slugs, None);
    locality := Chosen(slugs);
  }

  lemma ParamsNext(ps: seq<Pair>, keys: seq<Key>, w: Key -> seq<string>, i: nat, all: seq<Pair>)
    requires i < |keys| && ps + Params(keys[i..], w) == all
    ensures (ps + Section(Text(keys[i]), w(keys[i]))) + Params(keys[i + 1..], w) == all
    ensures w(keys[i]) == [] ==> ps + Params(keys[i + 1..], w) == all
  {
    assert keys[i..][1..] == keys[i + 1..];
    Assoc(ps, Section(Text(keys[i]), w(keys[i])), Params(keys[i + 1..], w));
    if w(keys[i]) == [] { assert ps + Section(Text(keys[i]), w(keys[i])) == ps; }
  }

  /** The parameters are appended one after another. */
  method AppendParams(keys: seq<Key>, w: Key -> seq<string>) returns (ps: seq<Pair>)
    ensures ps == Params(keys, w)
  {
    ps := [];
    ghost var all := Params(keys, w);
    for i := 0 to |keys|
      invariant ps + Params(keys[i..], w) == all
    {
      ParamsNext(ps, keys, w, i, all);
      if w(keys[i]) != [] {
        ps := ps + Section(Text(keys[i]), w(keys[i]));
      }
    }
  }

  method WriteUrl(f: Filters, slug: string -> string) returns (url: string)
    ensures url == BuildUrl(f, slug)
  {
    var locality := FindLocality(f.districts, slug);
    var ps := AppendParams(ORDER, WrittenBy(f));
    url := HOST + PathOf(f, locality) + Behind(UrlEncode(ps, SAFE));
  }
}
