/** The notification filter of app/catalog_sync.py (lines 539-594, 643-730): when a listing matches a filter, and how
    a monitor restricted to one portal relates to one that watches all. Case folding, the locality tables and the
    classification of a listing's offer and kind are parameters; its texts are given case-folded. */
module CatalogMatch {
  import opened Seqs
  import opened CatalogExtra

  datatype Listing = Listing(portal: string, price: Option<int>, area: Option<int>, locality: string,
                             disposition: string, offer: string, kind: string, texts: Texts)

  /** A filter; `extra` and `dispositions` are its `nb_` filters. */
  datatype Filters = Filters(source: string, priceFrom: Option<int>, priceTo: Option<int>, areaFrom: Option<int>,
                             areaTo: Option<int>, offers: seq<string>, sizes: seq<string>, dispositions: seq<string>,
                             extra: Extra, estates: seq<string>, districts: seq<string>)

  datatype Env = Env(portals: set<string>, casefold: string -> string, fold: string -> string,
                     isCountry: string -> bool, regions: seq<string>, pragueNumber: string -> Option<string>,
                     pragueParts: map<string, seq<string>>, krajHints: map<string, seq<string>>,
                     needle: string -> string)

  function Replaced(s: string, part: string, into: string): string
    requires part != ""
  {
    if |s| < |part| then s
    else if part <= s then into + Replaced(s[|part|..], part, into)
    else [s[0]] + Replaced(s[1..], part, into)
  }

  // One filter against one listing

  predicate AtLeast(value: Option<int>, low: Option<int>) {
    value.Some? && low.Some? ==> value.value >= low.value
  }

  predicate AtMost(value: Option<int>, high: Option<int>) {
    value.Some? && high.Some? ==> value.value <= high.value
  }

  function Kind(env: Env, offer: string): Option<string> {
    var folded := env.fold(env.casefold(offer));
    if Contains(folded, "pronaj") then Some("pronajem")
    else if Contains(folded, "draz") then Some("drazba")
    else if Contains(folded, "prodej") then Some("prodej") else None
  }

  predicate Recognised(env: Env, offers: seq<string>) {
    exists o :: o in offers && Kind(env, o).Some?
  }

  /** An offer list without a recognised offer filters nothing. */
  predicate OfferOk(env: Env, l: Listing, offers: seq<string>) {
    !Recognised(env, offers) || exists o :: o in offers && Kind(env, o) == Some(l.offer)
  }

  /** One size against a folded, space-free disposition. */
  predicate SizeMatches(env: Env, disp: string, size: string) {
    var compact := Replaced(Replaced(Replaced(disp, "pokoj", ""), "bytu", ""), "-", "+");
    var raw := Replaced(size, "disp_", "");
    if Contains(raw, "6-a-vice") || Contains(raw, "6-kk-a-vetsi")
       || raw in {"disp_6_1", "disp_6_kk", "disp_7_1", "disp_7_kk"}
    then exists t :: t in {"6+", "7+", "8+", "9+", "6kk", "7kk"} && Contains(compact, t)
    else if Contains(raw, "atyp") || raw in {"ostatni", "disp_ostatni"} then Contains(compact, "atyp")
    else if Contains(raw, "garson") || raw == "pokoj" then Contains(compact, "garson") || Contains(env.fold(disp), "pokoj")
    else Contains(compact, Replaced(Replaced(raw, "_kk", "+kk"), "_", "+"))
         || Contains(Replaced(compact, "+", ""), Replaced(raw, "_", ""))
  }

  predicate DispositionMatches(env: Env, disp: string, sizes: seq<string>) {
    exists s :: s in sizes && SizeMatches(env, disp, env.casefold(s))
  }

  function Disp(env: Env, l: Listing): string { Replaced(env.fold(l.disposition), " ", "") }

  predicate SizeOk(env: Env, l: Listing, sizes: seq<string>, dispositions: seq<string>) {
    (sizes == [] && dispositions == []) || Disp(env, l) == ""
    || (sizes != [] && DispositionMatches(env, Disp(env, l), sizes)) || l.disposition in dispositions
  }

  predicate DistrictMatches(env: Env, text: string, district: string) {
    match env.pragueNumber(district)
    case Some(number) =>
      || Contains(text, "praha " + number) || Contains(text, "praha-" + number)
      || Contains(Replaced(text, " ", ""), "praha" + number)
      || (number in env.pragueParts && exists p :: p in env.pragueParts[number] && Contains(text, env.fold(p)))
    case None =>
      if district in env.krajHints then exists h :: h in env.krajHints[district] && Contains(text, env.fold(h))
      else env.needle(district) != "" && Contains(text, env.needle(district))
  }

  predicate LocalityMatches(env: Env, locality: string, districts: seq<string>) {
    var text := env.fold(locality);
    || text == ""
    || (exists d :: d in districts && env.isCountry(d))
    || (forall r :: r in env.regions ==> r in districts)
    || (exists d :: d in districts && DistrictMatches(env, text, d))
  }

  predicate Matches(env: Env, l: Listing, f: Filters, ignoreSource: bool) {
    && (ignoreSource || f.source !in env.portals || l.portal == f.source)
    && AtLeast(l.price, f.priceFrom) && AtMost(l.price, f.priceTo)
    && AtLeast(l.area, f.areaFrom) && AtMost(l.area, f.areaTo)
    && OfferOk(env, l, Given(f.offers))
    && SizeOk(env, l, Given(f.sizes), Given(f.dispositions))
    && ExtraMatches(env.casefold, l.texts, f.extra)
    && (Given(f.estates) == [] || l.kind == "" || l.kind in Given(f.estates))
    && (Given(f.districts) == [] || LocalityMatches(env, l.locality, Given(f.districts)))
  }

  // Widening

  predicate Looser(strict: Option<int>, loose: Option<int>, low: bool) {
    loose.None? || (strict.Some? && if low then loose.value <= strict.value else loose.value >= strict.value)
  }

  lemma DistrictsWiden(env: Env, locality: string, a: seq<string>, b: seq<string>)
    requires LocalityMatches(env, locality, a) && forall x :: x in a ==> x in b
    ensures LocalityMatches(env, locality, b)
  {
    var text := env.fold(locality);
    if exists d :: d in a && DistrictMatches(env, text, d) {
      var d :| d in a && DistrictMatches(env, text, d);
      assert d in b;
    }
  }

  lemma GivenAppend(xs: seq<string>, x: string)
    requires x != ""
    ensures Given(xs + [x]) == Given(xs) + [x]
  {
    FilterConcat(y => y != "", xs, [x]);
  }

  /** Adding a recognised offer to a list in use is not always a widening: a matching listing stops matching exactly
      when the list had no recognised offer before and the listing's offer is another one. */
  lemma AddedOfferNarrowsExactly(env: Env, l: Listing, f: Filters, offer: string, ignoreSource: bool)
    requires Matches(env, l, f, ignoreSource) && offer != "" && Kind(env, offer).Some?
    ensures Matches(env, l, f.(offers := f.offers + [offer]), ignoreSource)
       <==> Recognised(env, Given(f.offers)) || Kind(env, offer) == Some(l.offer)
  {
    GivenAppend(f.offers, offer);
    var offers := Given(f.offers);
    assert offer in offers + [offer];
    assert Recognised(env, offers + [offer]);
    if Recognised(env, offers) {
      var o :| o in offers && Kind(env, o) == Some(l.offer);
      assert o in offers + [offer];
    }
  }

  /** Clearing the sizes while dispositions are set is not a widening either: a matching listing stops matching exactly
      when it has a disposition that is not among them. */
  lemma ClearedSizesNarrowExactly(env: Env, l: Listing, f: Filters, ignoreSource: bool)
    requires Matches(env, l, f, ignoreSource)
    ensures Matches(env, l, f.(sizes := []), ignoreSource)
       <==> Given(f.dispositions) == [] || Disp(env, l) == "" || l.disposition in Given(f.dispositions)
  {
    assert Given([]) == [];
  }

  /** Nor is clearing the dispositions while sizes are set: a matching listing stops matching exactly when it has a
      disposition that fits none of the sizes. */
  lemma ClearedDispositionsNarrowExactly(env: Env, l: Listing, f: Filters, ignoreSource: bool)
    requires Matches(env, l, f, ignoreSource)
    ensures Matches(env, l, f.(dispositions := []), ignoreSource)
       <==> Given(f.sizes) == [] || Disp(env, l) == "" || DispositionMatches(env, Disp(env, l), Given(f.sizes))
  {
    assert Given([]) == [];
  }

  // All edits that look like widenings

  ghost predicate OffersLookWider(env: Env, f: Filters, g: Filters) {
    !Recognised(env, Given(g.offers)) || Extended(f.offers, g.offers)
  }

  /** Sizes and dispositions are alternatives: each list may be cleared, extended, or added to the other. */
  ghost predicate SizesLookWider(f: Filters, g: Filters) {
    && (Given(g.sizes) == [] || InUse(f)) && (Given(g.dispositions) == [] || InUse(f))
    && (Given(g.sizes) == [] || forall x :: x in Given(f.sizes) ==> x in Given(g.sizes))
    && (Given(g.dispositions) == [] || forall x :: x in Given(f.dispositions) ==> x in Given(g.dispositions))
  }

  predicate InUse(f: Filters) { Given(f.sizes) != [] || Given(f.dispositions) != [] }

  ghost predicate LooksWider(env: Env, f: Filters, g: Filters) {
    && (g.source == f.source || g.source !in env.portals)
    && Looser(f.priceFrom, g.priceFrom, true) && Looser(f.priceTo, g.priceTo, false)
    && Looser(f.areaFrom, g.areaFrom, true) && Looser(f.areaTo, g.areaTo, false)
    && OffersLookWider(env, f, g) && SizesLookWider(f, g) && ExtraLooksWider(f.extra, g.extra)
    && Extended(f.estates, g.estates) && Extended(f.districts, g.districts)
  }

  /** The first recognised offer was added, and the listing has another one. */
  predicate OffersNarrow(env: Env, l: Listing, f: Filters, g: Filters) {
    && !Recognised(env, Given(f.offers)) && Recognised(env, Given(g.offers))
    && forall o :: o in Given(g.offers) ==> Kind(env, o) != Some(l.offer)
  }

  /** One of the two lists was cleared, and the listing's disposition does not fit the other. */
  predicate SizesNarrow(env: Env, l: Listing, g: Filters) {
    && Disp(env, l) != ""
    && ((Given(g.sizes) == [] && Given(g.dispositions) != [] && l.disposition !in Given(g.dispositions))
        || (Given(g.dispositions) == [] && Given(g.sizes) != []
            && !DispositionMatches(env, Disp(env, l), Given(g.sizes))))
  }

  lemma OffersStay(env: Env, l: Listing, f: Filters, g: Filters)
    requires OffersLookWider(env, f, g) && OfferOk(env, l, Given(f.offers))
    ensures OfferOk(env, l, Given(g.offers)) <==> !OffersNarrow(env, l, f, g)
  {
  }

  lemma SizesStay(env: Env, l: Listing, f: Filters, g: Filters)
    requires SizesLookWider(f, g) && SizeOk(env, l, Given(f.sizes), Given(f.dispositions))
    ensures SizeOk(env, l, Given(g.sizes), Given(g.dispositions)) <==> !SizesNarrow(env, l, g)
  {
    var disp := Disp(env, l);
    if DispositionMatches(env, disp, Given(f.sizes)) && Given(g.sizes) != [] {
      var s :| s in Given(f.sizes) && SizeMatches(env, disp, env.casefold(s));
      assert s in Given(g.sizes);
    }
  }

  /** Of all edits that look like widenings, exactly these lose a matching listing: adding the first recognised offer,
      clearing sizes or dispositions beside the other list, and clearing a choice that is ticked as well. */
  lemma WideningKeepsMatchesExactly(env: Env, l: Listing, f: Filters, g: Filters, ignoreSource: bool)
    requires LooksWider(env, f, g) && Matches(env, l, f, ignoreSource)
    ensures Matches(env, l, g, ignoreSource)
       <==> !OffersNarrow(env, l, f, g) && !SizesNarrow(env, l, g) && !ChoicesNarrow(l.texts, f.extra, g.extra)
  {
    OffersStay(env, l, f, g);
    SizesStay(env, l, f, g);
    ExtraWidensExactly(env.casefold, l.texts, f.extra, g.extra);
    if Given(g.districts) != [] {
      DistrictsWiden(env, l.locality, Given(f.districts), Given(g.districts));
    }
  }

  const ANY_FILTER := Filters("", None, None, None, None, [], [], [], NO_EXTRA, [], [])

  /** A listing with nothing to say passes the filters without restrictions. */
  lemma AnyFilterMatches(env: Env, l: Listing)
    ensures Matches(env, l, ANY_FILTER, true)
  {
    assert Given([]) == [];
    NoExtraMatchesAll(env.casefold, l.texts);
  }

  /** Folding that changes nothing. */
  function Same(s: string): string { s }

  ghost predicate FoldsPlainly(env: Env) { env.fold == Same && env.casefold == Same }

  lemma {:induction false} Absent(s: string, part: string, c: char)
    requires c in part && c !in s
    ensures !Contains(s, part)
  {
    if s != "" { Absent(s[1..], part, c); }
  }

  lemma {:induction false} NothingReplaced(s: string, part: string, into: string, c: char)
    requires c in part && c !in s
    ensures Replaced(s, part, into) == s
  {
    if |s| >= |part| {
      assert !(part <= s);
      NothingReplaced(s[1..], part, into, c);
    }
  }

  lemma PlainKinds(env: Env, sale: string, sublet: string)
    requires FoldsPlainly(env) && sale == "prodej" && sublet == "podnajem"
    ensures Kind(env, sale) == Some("prodej") && Kind(env, sublet) == None
  {
    assert Same(sale) == sale && Same(sublet) == sublet;
    assert "pronaj"[3] == 'n' && "pronaj"[1] == 'r' && "draz"[2] == 'a' && "draz"[1] == 'r' && "prodej"[1] == 'r';
    Absent(sale, "pronaj", 'n');
    Absent(sale, "draz", 'a');
    Absent(sublet, "pronaj", 'r');
    Absent(sublet, "draz", 'r');
    Absent(sublet, "prodej", 'r');
  }

  /** For example, a filter with the offer `podnajem`, which is not recognised, takes a flat for rent, and stops taking
      it when sale is added. */
  lemma AddedOfferExample(env: Env, l: Listing, f: Filters)
    requires FoldsPlainly(env) && l.offer == "pronajem" && f == ANY_FILTER.(offers := ["podnajem"])
    ensures Matches(env, l, f, true) && !Matches(env, l, f.(offers := f.offers + ["prodej"]), true)
  {
    AnyFilterMatches(env, l);
    PlainKinds(env, "prodej", "podnajem");
    assert !Recognised(env, Given(f.offers));
    AddedOfferNarrowsExactly(env, l, f, "prodej", true);
  }

  /** Where a part stands once. */
  lemma {:induction false} ReplacedOnce(s: string, start: string, part: string, rest: string, into: string, c: char)
    requires part != "" && part[0] == c && c !in start && c !in rest && s == start + (part + rest)
    ensures Replaced(s, part, into) == start + (into + rest)
    decreases |start|
  {
    if start == "" {
      assert s == part + rest;
      assert s[|part|..] == rest && part <= s;
      NothingReplaced(rest, part, into, c);
    } else {
      var s', start' := s[1..], start[1..];
      assert s[0] == start[0] && start[0] in start;
      assert start == [start[0]] + start';
      assert s' == start' + (part + rest);
      ReplacedOnce(s', start', part, rest, into, c);
      assert s[0] != part[0];
    }
  }

  /** What is looked for of a size with kitchenette. */
  lemma SizeLabels(raw: string, digit: string)
    requires raw == digit + "_kk" && '_' !in digit
    ensures Replaced(Replaced(raw, "_kk", "+kk"), "_", "+") == digit + "+kk"
    ensures Replaced(raw, "_", "") == digit + "kk"
  {
    assert raw == digit + ("_kk" + "") && raw == digit + ("_" + "kk");
    assert "_kk"[0] == '_' && "_"[0] == '_';
    ReplacedOnce(raw, digit, "_kk", "", "+kk", '_');
    assert digit + ("+kk" + "") == digit + "+kk";
    NothingReplaced(digit + "+kk", "_", "+", '_');
    ReplacedOnce(raw, digit, "_", "kk", "", '_');
    assert digit + ("" + "kk") == digit + "kk";
  }

  lemma SizeIsRaw(size: string, raw: string)
    requires size == "disp_" + raw && 'd' !in raw
    ensures Replaced(size, "disp_", "") == raw
  {
    assert size == "" + ("disp_" + raw) && "disp_"[0] == 'd' && "" + ("" + raw) == raw;
    ReplacedOnce(size, "", "disp_", raw, "", 'd');
  }

  lemma ThreeIsPlain(disp: string)
    requires disp == "3+kk"
    ensures Replaced(Replaced(Replaced(disp, "pokoj", ""), "bytu", ""), "-", "+") == disp
    ensures Replaced(disp, "+", "") == "3kk" && Replaced(disp, " ", "") == disp
  {
    assert 'j' in "pokoj" && 'b' in "bytu" && '-' in "-" && ' ' in " " && "+"[0] == '+';
    NothingReplaced(disp, "pokoj", "", 'j');
    NothingReplaced(disp, "bytu", "", 'b');
    NothingReplaced(disp, "-", "+", '-');
    NothingReplaced(disp, " ", "", ' ');
    ReplacedOnce(disp, "3", "+", "kk", "", '+');
    assert "3" + ("+" + "kk") == disp && "3" + ("" + "kk") == "3kk";
  }

  /** A size that is none of the special ones. */
  lemma PlainSize(env: Env, disp: string, size: string, raw: string)
    requires raw == Replaced(size, "disp_", "") && '6' !in raw && 'o' !in raw && 'a' !in raw && |raw| < 5
    ensures var compact := Replaced(Replaced(Replaced(disp, "pokoj", ""), "bytu", ""), "-", "+");
            SizeMatches(env, disp, size)
            <==> Contains(compact, Replaced(Replaced(raw, "_kk", "+kk"), "_", "+"))
                 || Contains(Replaced(compact, "+", ""), Replaced(raw, "_", ""))
  {
    assert "6-a-vice"[0] == '6' && "6-kk-a-vetsi"[0] == '6' && "atyp"[0] == 'a' && "garson"[1] == 'a';
    Absent(raw, "6-a-vice", '6');
    Absent(raw, "6-kk-a-vetsi", '6');
    Absent(raw, "atyp", 'a');
    Absent(raw, "garson", 'a');
  }

  lemma InThree(compact: string, bare: string, digit: string)
    requires compact == "3+kk" && bare == "3kk" && (digit == "2" || digit == "3")
    ensures Contains(compact, digit + "+kk") || Contains(bare, digit + "kk") <==> digit == "3"
  {
    if digit == "2" {
      assert (digit + "+kk")[0] == '2' && (digit + "kk")[0] == '2';
      Absent(compact, digit + "+kk", '2');
      Absent(bare, digit + "kk", '2');
    } else {
      assert digit + "+kk" == compact;
    }
  }

  lemma RawIsPlain(digit: string, raw: string)
    requires (digit == "2" || digit == "3") && raw == digit + "_kk"
    ensures '_' !in digit && |raw| == 4
    ensures 'd' !in raw && '6' !in raw && 'o' !in raw && 'a' !in raw
  {
  }

  /** The labels of a plain size, looked for in a flat 3+kk. */
  lemma LabelsInThree(env: Env, disp: string, size: string, digit: string, raw: string)
    requires disp == "3+kk" && raw == digit + "_kk" && size == "disp_" + raw && '_' !in digit && |raw| == 4
    requires 'd' !in raw && '6' !in raw && 'o' !in raw && 'a' !in raw
    ensures SizeMatches(env, disp, size) <==> Contains(disp, digit + "+kk") || Contains("3kk", digit + "kk")
  {
    ThreeIsPlain(disp);
    SizeIsRaw(size, raw);
    SizeLabels(raw, digit);
    PlainSize(env, disp, size, raw);
  }

  lemma ThreeRooms(env: Env, disp: string, size: string, digit: string, raw: string)
    requires disp == "3+kk" && (digit == "2" || digit == "3") && raw == digit + "_kk" && size == "disp_" + raw
    ensures SizeMatches(env, disp, size) <==> digit == "3"
  {
    RawIsPlain(digit, raw);
    LabelsInThree(env, disp, size, digit, raw);
    InThree(disp, "3kk", digit);
  }

  lemma GivenOne(x: string)
    requires x != ""
    ensures Given([x]) == [x]
  {
  }

  /** A filter with one size and one disposition, against a flat 3+kk. */
  lemma OneOfEach(env: Env, l: Listing, f: Filters, size: string, digit: string, disposition: string)
    requires FoldsPlainly(env) && l.disposition == "3+kk" && disposition != ""
    requires size == "disp_" + (digit + "_kk") && (digit == "2" || digit == "3")
    requires f == ANY_FILTER.(sizes := [size], dispositions := [disposition])
    ensures Disp(env, l) == l.disposition
    ensures DispositionMatches(env, Disp(env, l), Given(f.sizes)) <==> digit == "3"
    ensures Matches(env, l, f, true) <==> digit == "3" || disposition == l.disposition
  {
    AnyFilterMatches(env, l);
    ThreeIsPlain(l.disposition);
    ThreeRooms(env, l.disposition, size, digit, digit + "_kk");
    GivenOne(size);
    GivenOne(disposition);
    OneSize(env, Disp(env, l), size);
  }

  lemma OneSize(env: Env, disp: string, size: string)
    requires env.casefold == Same
    ensures DispositionMatches(env, disp, [size]) <==> SizeMatches(env, disp, size)
  {
    assert env.casefold(size) == size && size in [size];
  }

  /** For example, a flat 3+kk is taken for its size beside the disposition 2+kk, and lost when the sizes are cleared. */
  lemma ClearedSizesExample(env: Env, l: Listing, f: Filters)
    requires FoldsPlainly(env) && l.disposition == "3+kk"
    requires f == ANY_FILTER.(sizes := ["disp_3_kk"], dispositions := ["2+kk"])
    ensures Matches(env, l, f, true) && !Matches(env, l, f.(sizes := []), true)
  {
    OneOfEach(env, l, f, f.sizes[0], "3", f.dispositions[0]);
    ClearedSizesNarrowExactly(env, l, f, true);
    GivenOne(f.dispositions[0]);
  }

  /** Or for its disposition beside another size, and lost when the dispositions are cleared. */
  lemma ClearedDispositionsExample(env: Env, l: Listing, f: Filters)
    requires FoldsPlainly(env) && l.disposition == "3+kk"
    requires f == ANY_FILTER.(sizes := ["disp_2_kk"], dispositions := ["3+kk"])
    ensures Matches(env, l, f, true) && !Matches(env, l, f.(dispositions := []), true)
  {
    OneOfEach(env, l, f, f.sizes[0], "2", f.dispositions[0]);
    ClearedDispositionsNarrowExactly(env, l, f, true);
    GivenOne(f.sizes[0]);
  }

  // The tests as loops with early returns

  method DispositionLoop(env: Env, disp: string, sizes: seq<string>) returns (hit: bool)
    ensures hit == DispositionMatches(env, disp, sizes)
  {
    for i := 0 to |sizes|
      invariant forall j :: 0 <= j < i ==> !SizeMatches(env, disp, env.casefold(sizes[j]))
    {
      if SizeMatches(env, disp, env.casefold(sizes[i])) {
        return true;
      }
    }
    return false;
  }

  method LocalityLoop(env: Env, locality: string, districts: seq<string>) returns (hit: bool)
    ensures hit == LocalityMatches(env, locality, districts)
  {
    var text := env.fold(locality);
    if text == "" || (exists d :: d in districts && env.isCountry(d)) || (forall r :: r in env.regions ==> r in districts) {
      return true;
    }
    for i := 0 to |districts|
      invariant forall j :: 0 <= j < i ==> !DistrictMatches(env, text, districts[j])
    {
      if DistrictMatches(env, text, districts[i]) {
        return true;
      }
    }
    return false;
  }

  method MappedOffers(env: Env, offers: seq<string>) returns (mapped: seq<string>)
    ensures forall k :: k in mapped <==> exists o :: o in offers && Kind(env, o) == Some(k)
  {
    mapped := [];
    for i := 0 to |offers|
      invariant forall k :: k in mapped <==> exists j :: 0 <= j < i && Kind(env, offers[j]) == Some(k)
    {
      match Kind(env, offers[i]) {
        case Some(k) => mapped := mapped + [k];
        case None =>
      }
    }
  }

  method ListingMatches(env: Env, l: Listing, f: Filters, ignoreSource: bool) returns (ok: bool)
    ensures ok == Matches(env, l, f, ignoreSource)
  {
    if !ignoreSource && f.source in env.portals && l.portal != f.source {
      return false;
    }
    if !AtLeast(l.price, f.priceFrom) || !AtMost(l.price, f.priceTo) || !AtLeast(l.area, f.areaFrom) || !AtMost(l.area, f.areaTo) {
      return false;
    }
    var mapped := MappedOffers(env, Given(f.offers));
    MappedIsOfferOk(env, l, Given(f.offers), mapped);
    if mapped != [] && l.offer !in mapped {
      return false;
    }
    var sizes, dispositions := Given(f.sizes), Given(f.dispositions);
    if sizes != [] || dispositions != [] {
      var disp := Disp(env, l);
      var hit := DispositionLoop(env, disp, sizes);
      if disp != "" && !(sizes != [] && hit) && l.disposition !in dispositions {
        return false;
      }
    }
    var extraOk := ExtraTest(env.casefold, l.texts, f.extra);
    if !extraOk {
      return false;
    }
    if Given(f.estates) != [] && l.kind != "" && l.kind !in Given(f.estates) {
      return false;
    }
    if Given(f.districts) != [] {
      ok := LocalityLoop(env, l.locality, Given(f.districts));
    } else {
      ok := true;
    }
  }

  lemma MappedIsOfferOk(env: Env, l: Listing, offers: seq<string>, mapped: seq<string>)
    requires forall k :: k in mapped <==> exists o :: o in offers && Kind(env, o) == Some(k)
    ensures (mapped == [] || l.offer in mapped) == OfferOk(env, l, offers)
  {
    assert mapped != [] ==> mapped[0] in mapped;
    if Recognised(env, offers) {
      var o :| o in offers && Kind(env, o).Some?;
      assert Kind(env, o).value in mapped;
    }
  }

  // Monitors

  /** One search of a monitor, on one portal; what the search matches is a predicate. */
  datatype Target = Target(portal: string, search: string)

  datatype Monitor = Monitor(portals: string, targets: seq<Target>, canonical: string)

  function Normalised(ids: set<string>, portals: string): string {
    if portals in ids then portals else "all"
  }

  /** `monitor_search_targets`: the searches of the watched portals. */
  predicate Watched(ids: set<string>, m: Monitor, t: Target) {
    t in m.targets && t.search != "" && Normalised(ids, m.portals) in {"all", t.portal}
  }

  predicate Hits(ids: set<string>, portal: string, m: Monitor, test: string -> bool, t: Target) {
    Watched(ids, m, t) && t.portal == portal && test(t.search) && (m.canonical == "" || test(m.canonical))
  }

  predicate MatchesMonitor(ids: set<string>, portal: string, m: Monitor, test: string -> bool) {
    exists t :: t in m.targets && Hits(ids, portal, m, test, t)
  }

  /** A monitor restricted to portal p matches exactly the listings on p that it matches when it watches all. */
  lemma RestrictionIsExact(ids: set<string>, portal: string, m: Monitor, p: string, test: string -> bool)
    requires p in ids && "all" !in ids
    ensures MatchesMonitor(ids, portal, m.(portals := p), test)
       <==> portal == p && MatchesMonitor(ids, portal, m.(portals := "all"), test)
  {
    var one, all := m.(portals := p), m.(portals := "all");
    forall t ensures Hits(ids, portal, one, test, t) <==> portal == p && Hits(ids, portal, all, test, t) {}
  }

  method MonitorLoop(ids: set<string>, portal: string, m: Monitor, test: string -> bool) returns (hit: bool)
    ensures hit == MatchesMonitor(ids, portal, m, test)
  {
    for i := 0 to |m.targets|
      invariant forall j :: 0 <= j < i ==> !Hits(ids, portal, m, test, m.targets[j])
    {
      var t := m.targets[i];
      if t.search == "" || Normalised(ids, m.portals) !in {"all", t.portal} || t.portal != portal {
        continue;
      }
      if !test(t.search) || (m.canonical != "" && !test(m.canonical)) {
        continue;
      }
      assert Hits(ids, portal, m, test, t);
      return true;
    }
    return false;
  }
}
