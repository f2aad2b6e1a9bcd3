/** iDNES URLs whose locality holds a question mark or a number sign (app/idnes_url.py): the locality is not quoted, so
    such a mark ends the path early, and what stands behind it is read as a query or as nothing. */
module IdnesMarks {
  import opened Seqs
  import opened FilterLists
  import opened Texts
  import opened Decimals
  import opened FormEncoding
  import opened UrlSplit
  import opened IdnesUrl
  import FilterBridge

  /** What is read as the query when it is written behind a locality with a mark. */
  function QueryBehindMark(locality: string, query: string): string {
    var clean := Cleaned(locality);
    Shown(clean) + if Free(clean, {'#'}) then "/" + Behind(query) else ""
  }

  /** The text behind the mark holds no equals sign. */
  predicate AssignsNothing(locality: string) { Free(Shown(Cleaned(locality)), {'='}) }

  lemma CleanedKeeps(s: string, stops: set<char>)
    requires forall c :: c in stops ==> Kept(c)
    ensures Free(s, stops) <==> Free(Cleaned(s), stops)
  {
    FilterMembers(Kept, s);
    if Free(s, stops) {
      forall i | 0 <= i < |Cleaned(s)| ensures Cleaned(s)[i] !in stops { assert Cleaned(s)[i] in Cleaned(s); }
    } else {
      var i :| 0 <= i < |s| && s[i] in stops;
      assert s[i] in Cleaned(s);
    }
  }

  lemma TailIsFree(query: string)
    requires Free(query, {'#'})
    ensures Free("/" + Behind(query), {'#'})
  {
  }

  lemma CleanMark(start: string, clean: string, tail: string)
    requires Free(start, MARKS) && !Free(clean, MARKS) && Free("/" + tail, {'#'})
    ensures PathAndQuery(start + (clean + "/") + tail).query
         == Shown(clean) + if Free(clean, {'#'}) then "/" + tail else ""
  {
    Assoc(start, clean + "/", tail);
    Assoc(clean, "/", tail);
    PathIsPassed(start, clean + ("/" + tail));
    MarkOpensQuery(clean, "/" + tail);
  }

  lemma MarkedTail(start: string, locality: string, query: string)
    requires Free(start, MARKS) && Cleaned(start) == start && !Free(locality, MARKS)
    requires IsTail(Behind(query)) && Free(query, {'#'})
    ensures PathAndQuery(Cleaned(start + Segment(locality) + Behind(query))).query == QueryBehindMark(locality, query)
  {
    CleanedAround(start, Segment(locality), Behind(query));
    SegmentIsCleaned(locality);
    CleanedKeeps(locality, MARKS);
    TailIsFree(query);
    CleanMark(start, Cleaned(locality), Behind(query));
  }

  /** The query that is read of a written URL whose locality holds a mark. */
  lemma MarkedQuery(f: Filters, slug: string -> string)
    requires !Free(LocalityOf(f.districts, slug), MARKS)
    ensures SplitUrl(BuildUrl(f, slug)).query == QueryBehindMark(LocalityOf(f.districts, slug), QueryOf(f))
  {
    UrlIsSplit(f, slug);
    FolderIsClean(f);
    QueryIsTail(f);
    MarkedTail(Folder(f) + "/", LocalityOf(f.districts, slug), QueryOf(f));
  }

  // What is read behind a mark

  ghost predicate Blank(values: seq<string>) { forall x :: x in values ==> x == "" }

  /** Without equals signs there all values are blank. */
  lemma LocalityAssignsNothing(locality: string, k: Key)
    requires AssignsNothing(locality)
    ensures Blank(Values(ParseQsl(QueryBehindMark(locality, "")))(k))
  {
    var clean := Cleaned(locality);
    FreeConcat(Shown(clean), if Free(clean, {'#'}) then "/" + Behind("") else "", {'='});
    NothingIsAssigned(QueryBehindMark(locality, ""));
    GetBlank(ParseQsl(QueryBehindMark(locality, "")), Text(k));
  }

  lemma NamesHaveNoSlash(k: Key)
    ensures '/' !in Text(k)
  {
  }

  lemma {:induction false} FirstParam(keys: seq<Key>, w: Key -> seq<string>) returns (k: Key)
    requires Params(keys, w) != []
    ensures k in keys && w(k) != [] && Params(keys, w)[0] == (Text(k), w(k)[0])
  {
    if w(keys[0]) == [] {
      assert Params(keys, w) == Params(keys[1..], w);
      k := FirstParam(keys[1..], w);
    } else {
      k := keys[0];
    }
  }

  lemma OneValueEach(f: Filters, k: Key)
    ensures |Written(f, k)| <= 1
  {
  }

  lemma QueryIsOfParams(f: Filters)
    ensures QueryOf(f) == "" <==> Params(ORDER, WrittenBy(f)) == []
  {
    KeysAreWritten(ORDER, WrittenBy(f));
  }

  lemma KeysAreWritten(keys: seq<Key>, w: Key -> seq<string>)
    ensures UrlEncode(Params(keys, w), SAFE) == "" <==> Params(keys, w) == []
  {
    EncodedIsEmpty(Params(keys, w), SAFE);
  }

  /** The first parameter that is written. */
  ghost predicate IsFirst(f: Filters, k: Key) {
    var ps := Params(ORDER, WrittenBy(f));
    Written(f, k) != [] && ps != [] && ps[0] == (Text(k), Written(f, k)[0])
  }

  lemma FirstWritten(f: Filters) returns (k: Key)
    requires QueryOf(f) != ""
    ensures IsFirst(f, k)
  {
    QueryIsOfParams(f);
    k := FirstParam(ORDER, WrittenBy(f));
  }

  /** The values of a parameter behind a spoiled first name. */
  lemma GetBehindSpoiled(ps: seq<Pair>, blanks: seq<Pair>, name: string, key: string)
    requires ps != [] && AllBlank(blanks) && name != key
    ensures Get(blanks + ([(name, ps[0].1)] + ps[1..]), key) == Get(blanks, key) + Get(ps[1..], key)
  {
    var spoiled := [(name, ps[0].1)];
    GetConcat(blanks, spoiled + ps[1..], key);
    GetConcat(spoiled, ps[1..], key);
    assert Get(spoiled, key) == [] by { assert spoiled[1..] == []; }
  }

  /** Of a written parameter, what is read behind the first one. */
  lemma RestOfParams(f: Filters, first: Key, k: Key)
    requires IsFirst(f, first)
    ensures Get(Params(ORDER, WrittenBy(f))[1..], Text(k)) == if k == first then [] else Written(f, k)
  {
    var ps := Params(ORDER, WrittenBy(f));
    GetWritten(f, k);
    OneValueEach(f, k);
    assert Get(ps, Text(k)) == (if Text(first) == Text(k) then [ps[0].1] else []) + Get(ps[1..], Text(k));
    if Text(first) == Text(k) { TextInjective(first, k); }
  }

  lemma OpenEnd(h: string, query: string, front: string)
    requires query != "" && front == h + "/?"
    ensures EndsOpen(front) && h + ("/" + Behind(query)) == front + query
  {
    assert h + ("/" + ("?" + query)) == h + "/?" + query;
  }

  /** Behind a question mark the name of the first pair is never found; the others are found behind blanks. */
  lemma SpoiledFirst(ps: seq<Pair>, query: string, locality: string, key: string) returns (blanks: seq<string>)
    requires AssignsNothing(locality) && Free(locality, {'#'}) && '/' !in key
    requires ps != [] && query == UrlEncode(ps, SAFE) && query != ""
    ensures Get(ParseQsl(QueryBehindMark(locality, query)), key) == blanks + Get(ps[1..], key)
    ensures Blank(blanks) && (Free(Shown(Cleaned(locality)), {'&'}) ==> blanks == [])
  {
    var h := Shown(Cleaned(locality));
    var front := h + "/?";
    FreeConcat(h, "/?", {'='});
    if Free(h, {'&'}) { FreeConcat(h, "/?", {'&'}); }
    CleanedKeeps(locality, {'#'});
    OpenEnd(h, query, front);
    var pairs, name := QueryBehindText(front, ps, query, SAFE);
    GetBehindSpoiled(ps, pairs, name, key);
    GetBlank(pairs, key);
    blanks := Get(pairs, key);
  }

  /** Behind a question mark the first written parameter is never found; the others are found behind blanks. */
  lemma BehindQuestionMark(f: Filters, first: Key, locality: string, k: Key) returns (blanks: seq<string>)
    requires AssignsNothing(locality) && Free(locality, {'#'}) && IsFirst(f, first)
    ensures Values(ParseQsl(QueryBehindMark(locality, QueryOf(f))))(k)
         == blanks + if k == first then [] else Written(f, k)
    ensures Blank(blanks) && (Free(Shown(Cleaned(locality)), {'&'}) ==> blanks == [])
  {
    QueryIsOfParams(f);
    NamesHaveNoSlash(k);
    RestOfParams(f, first, k);
    blanks := SpoiledFirst(Params(ORDER, WrittenBy(f)), QueryOf(f), locality, Text(k));
  }

  lemma NothingBehindSign(locality: string, query: string)
    requires !Free(locality, {'#'})
    ensures QueryBehindMark(locality, query) == QueryBehindMark(locality, "")
  {
    CleanedKeeps(locality, {'#'});
  }

  /** So a mark leaves nothing but blanks of the first written parameter. */
  lemma FirstIsLost(f: Filters, first: Key, locality: string, k: Key)
    requires AssignsNothing(locality) && IsFirst(f, first) && (k == first || Written(f, k) == [])
    ensures Blank(Values(ParseQsl(QueryBehindMark(locality, QueryOf(f))))(k))
  {
    if Free(locality, {'#'}) {
      var blanks := BehindQuestionMark(f, first, locality, k);
    } else {
      LocalityAssignsNothing(locality, k);
      NothingBehindSign(locality, QueryOf(f));
    }
  }

  // Blanks mean nothing, except for the order of the results

  lemma BlankList(v: Key -> seq<string>, k: Key)
    requires Blank(v(k))
    ensures ListOf(v, k) == []
  {
    if v(k) != [] { assert v(k)[0] in v(k); }
    SplitFree('|', "");
    FilterNone(NonEmpty, [""]);
  }

  lemma BlankText(v: Key -> seq<string>, k: Key, plain: Key)
    requires Blank(v(k)) && Blank(v(plain))
    ensures TextOf(v, k, plain) == "" && NumberOf(v, k, plain) == None
  {
    var values := EitherOf(v(k), v(plain));
    if values != [] { assert values[0] in values; }
    assert ParseInt("") == None;
  }

  lemma LostList(values: seq<Token>, keys: seq<Token>, v: Key -> seq<string>, k: Key)
    requires Piped(Selected(values, keys)) != [] && Blank(v(k))
    ensures ListOf(v, k) != Selected(values, keys)
  {
    BlankList(v, k);
  }

  lemma LostAmenities(f: Filters, v: Key -> seq<string>)
    requires Written(f, Amenities) != [] && Blank(v(Amenities))
    ensures var read := ListOf(v, Amenities);
            || Selected(read, EXTRA_KEYS) != Selected(f.extras, EXTRA_KEYS)
            || Selected(read, EQUIP_KEYS) != Selected(f.equipped, EQUIP_KEYS)
  {
    BlankList(v, Amenities);
  }

  lemma LostBound(n: Option<int>, v: Key -> seq<string>, k: Key, plain: Key)
    requires Bound(n) != [] && Blank(v(k)) && Blank(v(plain))
    ensures NumberOf(v, k, plain) != NonZero(n)
  {
    BlankText(v, k, plain);
  }

  lemma LostSort(f: Filters, v: Key -> seq<string>)
    requires Written(f, Sort) != [] && Blank(v(Sort))
    ensures First(v(Sort), "nejnovejsi") != First(Given(SortOf(f.sort)), "nejnovejsi")
  {
    if v(Sort) != [] { assert v(Sort)[0] in v(Sort); }
  }

  lemma LostFlags(f: Filters, v: Key -> seq<string>, k: Key)
    requires k == Video || k == Sale || k == OpenHouse
    requires Written(f, k) != [] && Blank(v(k)) && forall p :: Written(f, p) == [] ==> Blank(v(p))
    ensures ReadFlags(v) != FlagsOf(f.flags)
  {
    match k
    case Video => BlankText(v, Video, PlainVideo); assert "video" in FlagsOf(f.flags) && "video" !in ReadFlags(v);
    case Sale => BlankText(v, Sale, PlainSale); assert "sale" in FlagsOf(f.flags) && "sale" !in ReadFlags(v);
    case OpenHouse =>
      BlankText(v, OpenHouse, PlainOpenHouse);
      assert "openHouse" in FlagsOf(f.flags) && "openHouse" !in ReadFlags(v);
  }

  /** The parameter is blank where it was written, and so are all that were not written. */
  ghost predicate IsLost(f: Filters, v: Key -> seq<string>, k: Key) {
    Written(f, k) != [] && Blank(v(k)) && forall p :: Written(f, p) == [] ==> Blank(v(p))
  }

  lemma LostListShows(f: Filters, slug: string -> string, parts: seq<string>, v: Key -> seq<string>, k: Key)
    requires IsLost(f, v, k) && (k.Sizes? || k.Conditions? || k.Ownership? || k.Buildings? || k.Amenities?)
    ensures Read(parts, v) != Canonical(f, slug)
  {
    match k
    case Sizes => LostList(f.sizes, SIZE_KEYS, v, k);
    case Conditions => LostList(f.conditions, COND_KEYS, v, k);
    case Ownership => LostList(f.ownership, OWNER_KEYS, v, k);
    case Buildings => LostList(f.buildings, FilterBridge.IDNES_BUILDINGS, v, k);
    case Amenities => LostAmenities(f, v);
  }

  lemma LostBoundShows(f: Filters, slug: string -> string, parts: seq<string>, v: Key -> seq<string>, k: Key)
    requires IsLost(f, v, k) && (k.PriceMin? || k.PriceMax? || k.AreaMin? || k.AreaMax?)
    ensures Read(parts, v) != Canonical(f, slug)
  {
    BoundsAreWritten(f);
    match k
    case PriceMin => LostBound(f.priceFrom, v, k, PlainPriceMin);
    case PriceMax => LostBound(f.priceTo, v, k, PlainPriceMax);
    case AreaMin => LostBound(f.areaFrom, v, k, PlainAreaMin);
    case AreaMax => LostBound(f.areaTo, v, k, PlainAreaMax);
  }

  /** Filters cannot come back when a written parameter is lost. */
  lemma LossShows(f: Filters, slug: string -> string, parts: seq<string>, v: Key -> seq<string>, k: Key)
    requires IsLost(f, v, k)
    ensures Read(parts, v) != Canonical(f, slug)
  {
    match k
    case Sizes | Conditions | Ownership | Buildings | Amenities => LostListShows(f, slug, parts, v, k);
    case PriceMin | PriceMax | AreaMin | AreaMax => LostBoundShows(f, slug, parts, v, k);
    case Age => BlankText(v, k, PlainAge);
    case Sort => LostSort(f, v);
    case _ => LostFlags(f, v, k);
  }

  // Without parameters

  lemma NothingIsWritten(f: Filters, k: Key)
    requires QueryOf(f) == ""
    ensures Written(f, k) == []
  {
    QueryIsOfParams(f);
    GetWritten(f, k);
  }

  /** What blank parameters are read as. */
  lemma BlankIsRead(parts: seq<string>, v: Key -> seq<string>, w: Key -> seq<string>)
    requires forall k :: Blank(v(k)) && w(k) == []
    ensures Read(parts, v) == Read(parts, w).(sort := First(v(Sort), "nejnovejsi"))
  {
    forall k ensures ListOf(v, k) == ListOf(w, k) { BlankList(v, k); BlankList(w, k); }
    forall k, p ensures TextOf(v, k, p) == TextOf(w, k, p) && NumberOf(v, k, p) == NumberOf(w, k, p) {
      BlankText(v, k, p);
      BlankText(w, k, p);
    }
  }

  lemma BlankIsCanonical(f: Filters, slug: string -> string, parts: seq<string>, v: Key -> seq<string>)
    requires QueryOf(f) == "" && PathMeans(f, slug, parts) && forall k :: Blank(v(k))
    ensures Read(parts, v) == Canonical(f, slug) <==> v(Sort) == []
  {
    var w := WrittenBy(f);
    forall k ensures w(k) == [] { NothingIsWritten(f, k); }
    WrittenIsRead(f, slug, parts);
    SortDecides(parts, v, w);
  }

  lemma SortDecides(parts: seq<string>, v: Key -> seq<string>, w: Key -> seq<string>)
    requires forall k :: Blank(v(k)) && w(k) == []
    ensures Read(parts, v) == Read(parts, w) <==> v(Sort) == []
  {
    BlankIsRead(parts, v, w);
    if v(Sort) != [] { assert v(Sort)[0] in v(Sort); }
  }

  /** The text behind the mark names the order of the results, which is then read as an empty one. */
  predicate NamesSort(locality: string) {
    Get(ParseQsl(QueryBehindMark(locality, "")), Text(Sort)) != []
  }

  lemma MarkedWithQuery(f: Filters, slug: string -> string, locality: string)
    requires AssignsNothing(locality) && QueryOf(f) != ""
    ensures forall parts :: Read(parts, Values(ParseQsl(QueryBehindMark(locality, QueryOf(f))))) != Canonical(f, slug)
  {
    var first := FirstWritten(f);
    var v := Values(ParseQsl(QueryBehindMark(locality, QueryOf(f))));
    FirstIsLost(f, first, locality, first);
    forall p | Written(f, p) == [] ensures Blank(v(p)) { FirstIsLost(f, first, locality, p); }
    forall parts ensures Read(parts, v) != Canonical(f, slug) { LossShows(f, slug, parts, v, first); }
  }

  lemma MarkedWithoutQuery(f: Filters, slug: string -> string, locality: string, parts: seq<string>)
    requires AssignsNothing(locality) && QueryOf(f) == "" && PathMeans(f, slug, parts)
    ensures Read(parts, Values(ParseQsl(QueryBehindMark(locality, "")))) == Canonical(f, slug) <==> !NamesSort(locality)
  {
    var v := Values(ParseQsl(QueryBehindMark(locality, "")));
    forall k ensures Blank(v(k)) { LocalityAssignsNothing(locality, k); }
    BlankIsCanonical(f, slug, parts, v);
  }

  /** For every locality that assigns nothing itself: reading a written URL gives the canonical form of the filters exactly
      when the locality holds no mark, or when nothing is written behind it and it does not name the order. */
  lemma ParseOfBuildIsCanonicalExactly(f: Filters, slug: string -> string)
    requires AssignsNothing(LocalityOf(f.districts, slug))
    ensures var locality := LocalityOf(f.districts, slug);
            (ParseUrl(BuildUrl(f, slug)) == Canonical(f, slug)
             <==> Free(locality, MARKS) || (QueryOf(f) == "" && !NamesSort(locality)))
  {
    var locality := LocalityOf(f.districts, slug);
    if Free(locality, MARKS) {
      ParseOfBuildIsCanonical(f, slug);
    } else {
      PartsReturn(f, slug);
      MarkedQuery(f, slug);
      if QueryOf(f) == "" {
        MarkedWithoutQuery(f, slug, locality, PathParts(SplitUrl(BuildUrl(f, slug)).path));
      } else {
        MarkedWithQuery(f, slug, locality);
      }
    }
  }

  // What a question mark loses, with examples

  /** The text behind the mark holds neither an equals sign nor an ampersand. */
  predicate NamesNothing(locality: string) { AssignsNothing(locality) && Free(Shown(Cleaned(locality)), {'&'}) }

  /** Behind a question mark exactly the first written parameter is lost, when the locality names no parameter. */
  lemma QuestionMarkLosesFirst(f: Filters, slug: string -> string, first: Key, k: Key)
    requires var locality := LocalityOf(f.districts, slug);
             (!Free(locality, MARKS) && Free(locality, {'#'}) && NamesNothing(locality))
    requires IsFirst(f, first)
    ensures Values(ParseQsl(SplitUrl(BuildUrl(f, slug)).query))(k) == if k == first then [] else Written(f, k)
  {
    MarkedQuery(f, slug);
    var blanks := BehindQuestionMark(f, first, LocalityOf(f.districts, slug), k);
  }

  lemma SizesComeFirst(f: Filters, keys: seq<Key>, w: Key -> seq<string>)
    requires keys == ORDER && w == WrittenBy(f) && Selected(f.sizes, SIZE_KEYS) != []
    ensures IsFirst(f, Sizes)
  {
    assert w(keys[0]) == Written(f, Sizes) && Params(keys, w)[0] == Section(Text(keys[0]), w(keys[0]))[0];
  }

  /** A mark loses the sizes. */
  lemma SizesAreLost(f: Filters, slug: string -> string)
    requires Selected(f.sizes, SIZE_KEYS) != []
    requires var locality := LocalityOf(f.districts, slug); (!Free(locality, MARKS) && AssignsNothing(locality))
    ensures ParseUrl(BuildUrl(f, slug)).sizes == []
  {
    SizesComeFirst(f, ORDER, WrittenBy(f));
    MarkedQuery(f, slug);
    FirstIsLost(f, Sizes, LocalityOf(f.districts, slug), Sizes);
    BlankList(Values(ParseQsl(SplitUrl(BuildUrl(f, slug)).query)), Sizes);
  }

  /** A text such as `x?y`. */
  predicate IsMarked(d: string) { |d| == 3 && d[0] == 'x' && d[1] in MARKS && d[2] == 'y' }

  lemma MarkedIsTrimmed(d: string)
    requires IsMarked(d)
    ensures d != "" && Strip(d) == d && Free(d, {'/'}) && Free(d, {','})
  {
    assert !IsSpace('x') && !IsSpace('y');
    LStripUnique(d, 0);
    RStripUnique(d, 3);
  }

  lemma MarkedIsNoId(d: string)
    requires IsMarked(d)
    ensures d !in FilterBridge.BR_DISTRICTS
  {
    if d in FilterBridge.BR_DISTRICTS { TableIsSlugs(d); }
  }

  lemma MarkedIsNoCountry(d: string, slug: string -> string)
    requires IsMarked(d) && slug(d) !in COUNTRY_SLUGS
    ensures !IsCountry(d, slug)
  {
    MarkedIsTrimmed(d);
    LabelOfTrimmed(d);
    IsNoName(d, slug(d));
  }

  lemma MarkedLocality(d: string, slug: string -> string)
    requires IsMarked(d) && slug(d) !in COUNTRY_SLUGS
    ensures LocalityOf([d], slug) == d
  {
    MarkedIsTrimmed(d);
    MarkedIsNoId(d);
    MarkedIsNoCountry(d, slug);
    TrimmedIsLocality(d, slug);
  }

  lemma MarkedAssignsNothing(d: string)
    requires IsMarked(d)
    ensures !Free(d, MARKS) && AssignsNothing(d)
  {
    assert d[1] in MARKS;
    CleanedFree(d);
    forall i | 0 <= i < |Shown(d)| ensures Shown(d)[i] !in {'='} { assert Shown(d)[i] in d; }
  }

  lemma IsNoName(d: string, name: string)
    requires |d| == 3 && name !in COUNTRY_SLUGS
    ensures !NamesCountry(d, d, name)
  {
  }

  /** For example, a search for one size in `x?y` or `x#y` comes back as a search for all sizes. */
  lemma MarkExample(f: Filters, d: string, slug: string -> string)
    requires (d == "x?y" || d == "x#y") && slug(d) !in COUNTRY_SLUGS
    requires f == PLAIN_SEARCH.(districts := [d], sizes := ["1-kk"])
    ensures ParseUrl(BuildUrl(f, slug)).sizes == [] && Canonical(f, slug).sizes == ["1-kk"]
  {
    MarkedLocality(d, slug);
    MarkedAssignsNothing(d);
    assert SIZE_KEYS[0] == "1-kk";
    FilterAll(t => In(SIZE_KEYS, t), f.sizes);
    SizesAreLost(f, slug);
  }

  lemma NameAlone(name: string)
    requires name != "" && Free(name, {'&'}) && Free(name, {'='}) && Free(name, {'%', '+'})
    ensures Get(ParseQsl(name), name) == [""]
  {
    LastParses(name);
    NothingToUnquote(name);
    FindUnique(name, {'='}, |name|);
    assert ParseQsl(name)[1..] == [];
  }

  lemma ShownUpToSign(locality: string, i: nat, j: nat)
    requires i < j < |locality| && Free(locality[..i], MARKS) && locality[i] == '?'
    requires locality[j] == '#' && Free(locality[i + 1..j], {'#'})
    ensures Shown(locality) == locality[i + 1..j] && !Free(locality, {'#'})
  {
    FindUnique(locality, MARKS, i);
    var behind := locality[i + 1..];
    assert forall k :: 0 <= k < j - i - 1 ==> behind[k] == locality[i + 1..j][k];
    FindUnique(behind, {'#'}, j - i - 1);
  }

  lemma SortShown(locality: string, name: string)
    requires Cleaned(locality) == locality && Shown(locality) == name == Text(Sort) && !Free(locality, {'#'})
    ensures NamesSort(locality)
  {
    NameAlone(name);
    assert QueryBehindMark(locality, "") == name;
  }

  /** For example, `x?sort#` alone comes back with an empty order of the results. */
  lemma SortExample(locality: string)
    requires locality == "x?sort#"
    ensures NamesSort(locality)
  {
    CleanedFree(locality);
    assert locality[2..6] == Text(Sort);
    ShownUpToSign(locality, 1, 6);
    SortShown(locality, Text(Sort));
  }

  lemma FirstOfParsed(e: string, rest: string, name: string, value: string)
    requires e == name + ("=" + value) && Free(name, {'%', '+'}) && Free(value, {'%', '+'})
    requires Free(name, {'='}) && Free(e, {'&'})
    ensures First(Get(ParseQsl(e + "&" + rest), name), "") == value
  {
    AssignmentParses(name, value);
    NothingToUnquote(name);
    NothingToUnquote(value);
    NextParses(e, rest);
    assert ParseQsl(e + "&" + rest)[0] == (name, value);
  }

  lemma AssignedQuery(locality: string, query: string, name: string, value: string)
    requires Shown(Cleaned(locality)) == (name + ("=" + value)) + "&" + "y" && Free(locality, {'#'})
    requires Free(name, {'%', '+'}) && Free(value, {'%', '+'}) && Free(name, {'='})
    requires Free(name + ("=" + value), {'&'})
    ensures First(Get(ParseQsl(QueryBehindMark(locality, query)), name), "") == value
  {
    var e, tail := name + ("=" + value), "/" + Behind(query);
    CleanedKeeps(locality, {'#'});
    Assoc(e + "&", "y", tail);
    FirstOfParsed(e, "y" + tail, name, value);
  }

  lemma SizeIsPlain(name: string, size: string)
    requires name == Text(Sizes) && size == "1-kk"
    ensures Free(name, {'%', '+'}) && Free(size, {'%', '+'}) && Free(name, {'='})
    ensures Free(name + ("=" + size), {'&'}) && IsSlug(size)
  {
  }

  /** A locality that assigns the sizes itself decides what comes back, also what was searched. */
  lemma AssignedExample(f: Filters, slug: string -> string, name: string, size: string)
    requires var locality := LocalityOf(f.districts, slug);
             (!Free(locality, MARKS) && Free(locality, {'#'})
              && Shown(Cleaned(locality)) == (name + ("=" + size)) + "&" + "y")
    requires name == Text(Sizes) && size == "1-kk"
    ensures ParseUrl(BuildUrl(f, slug)).sizes == [size]
  {
    MarkedQuery(f, slug);
    SizeIsPlain(name, size);
    AssignedQuery(LocalityOf(f.districts, slug), QueryOf(f), name, size);
    OneSizeReads(size, Values(ParseQsl(SplitUrl(BuildUrl(f, slug)).query)));
  }

  lemma OneSizeReads(size: string, v: Key -> seq<string>)
    requires IsSlug(size) && First(v(Sizes), "") == size
    ensures ListOf(v, Sizes) == [size]
  {
    SlugsSplitBack([size]);
  }
}
