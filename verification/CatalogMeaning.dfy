/** What each notification filter asks of a listing, said without the tests of the program: bounds, offers, sizes written
    as rooms and kitchen, kinds, portals and the numbered districts of Prague. */
module CatalogMeaning {
  import opened Seqs
  import opened CatalogExtra
  import opened CatalogMatch

  // ------------------------------------------------------------------ one filter at a time --

  /** The filter with only some of its restrictions. */
  ghost function OnlyBounds(f: Filters): Filters {
    ANY_FILTER.(priceFrom := f.priceFrom, priceTo := f.priceTo, areaFrom := f.areaFrom, areaTo := f.areaTo)
  }

  /** A listing matches a filter exactly if it matches each of its restrictions on its own. */
  lemma MatchesEachExactly(env: Env, l: Listing, f: Filters, ignoreSource: bool)
    ensures Matches(env, l, f, ignoreSource)
       <==> && Matches(env, l, ANY_FILTER.(source := f.source), ignoreSource) && Matches(env, l, OnlyBounds(f), true)
            && Matches(env, l, ANY_FILTER.(offers := f.offers), true)
            && Matches(env, l, ANY_FILTER.(sizes := f.sizes, dispositions := f.dispositions), true)
            && Matches(env, l, ANY_FILTER.(extra := f.extra), true) && Matches(env, l, ANY_FILTER.(estates := f.estates), true)
            && Matches(env, l, ANY_FILTER.(districts := f.districts), true)
  {
    AnyFilterMatches(env, l);
    assert Given([]) == [];
  }

  /** The number lies between the bounds that are given, which count as inside. */
  ghost predicate Within(value: int, low: Option<int>, high: Option<int>) {
    (low.None? || low.value <= value) && (high.None? || value <= high.value)
  }

  /** Bounds on price and area ask of a listing that its price and area lie within them; what it does not tell passes. */
  lemma BoundsAskExactly(env: Env, l: Listing, f: Filters)
    ensures Matches(env, l, OnlyBounds(f), true)
       <==> && (l.price.None? || Within(l.price.value, f.priceFrom, f.priceTo))
            && (l.area.None? || Within(l.area.value, f.areaFrom, f.areaTo))
  {
    AnyFilterMatches(env, l);
    assert Given([]) == [];
  }

  /** A search of one portal asks for that portal, unless portals are ignored; kinds ask for one of them, and a listing of
      unknown kind passes. */
  lemma SourceAndKindAskExactly(env: Env, l: Listing, source: string, estates: seq<string>)
    requires "" !in env.portals
    ensures Matches(env, l, ANY_FILTER.(source := source), false) <==> source !in env.portals || l.portal == source
    ensures Matches(env, l, ANY_FILTER.(source := source), true)
    ensures Matches(env, l, ANY_FILTER.(estates := estates), true)
       <==> (forall x :: x in estates ==> x == "") || l.kind == "" || l.kind in estates
  {
    AnyFilterMatches(env, l);
    assert Given([]) == [];
    if Given(estates) == [] {
      forall x | x in estates ensures x == "" { assert x != "" ==> x in Given(estates); }
    } else {
      assert Given(estates)[0] in Given(estates);
    }
  }

  // ------------------------------------------------------------------ offers --

  /** The offers that the portals of flats have, and what a listing's own offer is called. */
  ghost predicate AsksFor(offers: seq<string>, own: string) {
    || (own == "pronajem" && "pronajem" in offers) || (own == "prodej" && "prodej" in offers)
    || (own == "drazba" && ("drazby" in offers || "drazba" in offers))
  }

  ghost predicate IsOffer(o: string) { o == "pronajem" || o == "prodej" || o == "drazby" || o == "drazba" }

  lemma KindOfOffer(env: Env, o: string)
    requires FoldsPlainly(env) && IsOffer(o)
    ensures Kind(env, o) == Some(if o == "pronajem" || o == "prodej" then o else "drazba")
  {
    assert Same(Same(o)) == o;
    if o == "pronajem" {
      assert "pronaj" <= o;
    } else if o == "prodej" {
      PlainKinds(env, o, "podnajem");
    } else {
      assert "pronaj"[1] == 'r' && "pronaj"[3] == 'n' && "draz" <= o;
      Absent(o, "pronaj", 'n');
    }
  }

  /** Of the portals' offers, a filter takes exactly the listings with one of them. */
  lemma OffersAskExactly(env: Env, l: Listing, offers: seq<string>)
    requires FoldsPlainly(env) && offers != [] && forall o :: o in offers ==> IsOffer(o)
    ensures Matches(env, l, ANY_FILTER.(offers := offers), true) <==> AsksFor(offers, l.offer)
  {
    AnyFilterMatches(env, l);
    assert Given([]) == [];
    forall o | o in offers ensures Kind(env, o) == Some(if o == "pronajem" || o == "prodej" then o else "drazba") {
      KindOfOffer(env, o);
    }
    forall o ensures o in Given(offers) <==> o in offers { assert o in offers ==> IsOffer(o); }
    assert offers[0] in Given(offers);
  }

  // ------------------------------------------------------------------ sizes --

  /** A flat as its portal spells it: rooms, and a kitchenette or a kitchen. */
  function Rooms(digit: char, kk: bool): string { [digit] + if kk then "+kk" else "+1" }

  lemma {:induction false} LongIsNotInside(s: string, part: string)
    requires |part| > |s|
    ensures !Contains(s, part)
  {
    if s != "" { LongIsNotInside(s[1..], part); }
  }

  /** One flat's spelling stands in another's only if they are the same. */
  lemma RoomsInside(d: char, k: bool, e: char, j: bool)
    requires '1' <= d <= '5' && '1' <= e <= '9'
    ensures Contains(Rooms(e, j), Rooms(d, k)) <==> d == e && k == j
  {
    var s, part := Rooms(e, j), Rooms(d, k);
    assert part[0] == d && s[0] == e && part[2] == (if k then 'k' else '1') && s[2] == (if j then 'k' else '1');
    if k && !j { LongIsNotInside(s, part); }
    assert Contains(s, part) <==> part <= s || Contains(s[1..], part);
    if |s[1..]| >= |part| {
      assert s[1..] == "+kk" && part[0] == d;
      assert Contains(s[1..], part) <==> part <= s[1..] || Contains(s[1..][1..], part);
      LongIsNotInside(s[1..][1..], part);
    } else {
      LongIsNotInside(s[1..], part);
    }
    if d == e && k == j { assert part == s; }
  }

  /** A spelling of this form holds none of the characters that the comparison changes. */
  lemma RoomsArePlain(d: char, k: bool)
    requires '1' <= d <= '9'
    ensures var s := Rooms(d, k);
            && Replaced(Replaced(Replaced(s, "pokoj", ""), "bytu", ""), "-", "+") == s && Replaced(s, "disp_", "") == s
            && Replaced(Replaced(s, "_kk", "+kk"), "_", "+") == s && Replaced(s, "_", "") == s && Replaced(s, " ", "") == s
  {
    var s := Rooms(d, k);
    assert 'j' in "pokoj" && 'b' in "bytu" && '-' in "-" && '_' in "disp_" && '_' in "_kk" && '_' in "_" && ' ' in " ";
    RoomsLetters(s, d, k);
    NothingReplaced(s, "pokoj", "", 'j');
    NothingReplaced(s, "bytu", "", 'b');
    NothingReplaced(s, "-", "+", '-');
    NothingReplaced(s, "disp_", "", '_');
    NothingReplaced(s, "_kk", "+kk", '_');
    NothingReplaced(s, "_", "+", '_');
    NothingReplaced(s, "_", "", '_');
    NothingReplaced(s, " ", "", ' ');
  }

  lemma RoomsLetters(s: string, d: char, k: bool)
    requires '1' <= d <= '9' && s == Rooms(d, k)
    ensures 'j' !in s && 'b' !in s && '-' !in s && '_' !in s && ' ' !in s && 'o' !in s && 'a' !in s && '+' in s
    ensures d != '6' ==> '6' !in s
  {
    assert s[1] == '+';
  }

  lemma PlusDropped(s: string, d: char, k: bool)
    requires '1' <= d <= '9' && s == Rooms(d, k)
    ensures '+' !in Replaced(s, "+", "")
  {
    var rest := if k then "kk" else "1";
    assert s == [d] + ("+" + rest) && "+"[0] == '+';
    ReplacedOnce(s, [d], "+", rest, "", '+');
  }

  /** A size of one to five rooms is found in the listings of exactly that many rooms and that kitchen. */
  lemma RoomsMatchExactly(env: Env, d: char, k: bool, e: char, j: bool)
    requires '1' <= d <= '5' && '1' <= e <= '9'
    ensures SizeMatches(env, Rooms(e, j), Rooms(d, k)) <==> d == e && k == j
  {
    var disp, size := Rooms(e, j), Rooms(d, k);
    RoomsArePlain(e, j);
    RoomsArePlain(d, k);
    RoomsLetters(size, d, k);
    PlusDropped(disp, e, j);
    PlainSize(env, disp, size, size);
    RoomsInside(d, k, e, j);
    Absent(Replaced(disp, "+", ""), size, '+');
  }

  /** So a filter on such sizes takes exactly the flats of one of them, among the flats so spelled. */
  lemma SizesAskExactly(env: Env, l: Listing, sizes: seq<string>, e: char, j: bool)
    requires FoldsPlainly(env) && '1' <= e <= '9' && l.disposition == Rooms(e, j) && sizes != []
    requires forall s :: s in sizes ==> exists d, k :: '1' <= d <= '5' && s == Rooms(d, k)
    ensures Matches(env, l, ANY_FILTER.(sizes := sizes), true) <==> l.disposition in sizes
  {
    AnyFilterMatches(env, l);
    assert Given([]) == [];
    RoomsArePlain(e, j);
    assert Disp(env, l) == l.disposition;
    forall s | s in sizes ensures s in Given(sizes) && (SizeMatches(env, l.disposition, env.casefold(s)) <==> s == l.disposition) {
      var d, k :| '1' <= d <= '5' && s == Rooms(d, k);
      assert env.casefold(s) == s;
      RoomsMatchExactly(env, d, k, e, j);
      assert s == l.disposition <==> d == e && k == j by { assert s[0] == d && l.disposition[0] == e && s[2] == (if k then 'k' else '1'); }
    }
    assert sizes[0] in Given(sizes);
  }

  /** The sizes and dispositions without a number of rooms, and the flats of six rooms or more. */
  datatype Special = Unusual | SingleRoom | Large

  ghost predicate AsksForSpecial(size: string, k: Special) {
    match k
    case Unusual => size == "atypicky" || size == "atypicke" || size == "disp_ostatni"
    case SingleRoom => size == "pokoj" || size == "disp_garsoniera"
    case Large => size == "6-a-vice" || size == "6-kk-a-vetsi"
  }

  ghost predicate IsSpecial(disp: string, k: Special) {
    match k
    case Unusual => disp == "atypicky" || disp == "atypicke"
    case SingleRoom => disp == "garsoniera" || disp == "pokoj"
    case Large => disp == "6+kk" || disp == "6+1" || disp == "7+kk" || disp == "7+1" || disp == "8+kk"
  }

  /** What is left of a special disposition once its own words are taken out. */
  lemma SpecialCompact(disp: string, own: Special)
    requires IsSpecial(disp, own)
    ensures Replaced(Replaced(Replaced(disp, "pokoj", ""), "bytu", ""), "-", "+") == if disp == "pokoj" then "" else disp
  {
    assert "pokoj"[4] == 'j' && "bytu"[0] == 'b' && "-"[0] == '-';
    if disp == "pokoj" {
      assert disp[5..] == "" && Replaced("", "pokoj", "") == "";
      assert Replaced(disp, "pokoj", "") == "" + "";
    } else {
      assert 'j' !in disp && 'b' !in disp && '-' !in disp;
      NothingReplaced(disp, "pokoj", "", 'j');
      NothingReplaced(disp, "bytu", "", 'b');
      NothingReplaced(disp, "-", "+", '-');
    }
  }

  ghost function RawOf(size: string): string {
    if size == "disp_ostatni" then "ostatni" else if size == "disp_garsoniera" then "garsoniera" else size
  }

  lemma SpecialRaw(size: string, asked: Special)
    requires AsksForSpecial(size, asked)
    ensures Replaced(size, "disp_", "") == RawOf(size)
  {
    if size == "disp_ostatni" || size == "disp_garsoniera" {
      SizeIsRaw(size, RawOf(size));
    } else {
      assert "disp_"[4] == '_' && '_' !in size;
      NothingReplaced(size, "disp_", "", '_');
    }
  }

  lemma LargeRaw(raw: string)
    ensures Contains(raw, "6-a-vice") || Contains(raw, "6-kk-a-vetsi") ==> '6' in raw
    ensures raw == "6-a-vice" || raw == "6-kk-a-vetsi" ==> Contains(raw, "6-a-vice") || Contains(raw, "6-kk-a-vetsi")
  {
    assert "6-a-vice"[0] == '6' && "6-kk-a-vetsi"[0] == '6';
    if '6' !in raw {
      Absent(raw, "6-a-vice", '6');
      Absent(raw, "6-kk-a-vetsi", '6');
    }
    assert "6-a-vice" <= "6-a-vice" && "6-kk-a-vetsi" <= "6-kk-a-vetsi";
  }

  lemma UnusualRaw(raw: string)
    ensures raw == "atypicky" || raw == "atypicke" ==> Contains(raw, "atyp")
    ensures raw == "pokoj" || raw == "garsoniera" ==> !Contains(raw, "atyp")
    ensures raw == "garsoniera" ==> Contains(raw, "garson")
  {
    assert "atyp"[2] == 'y';
    if raw == "pokoj" || raw == "garsoniera" { Absent(raw, "atyp", 'y'); }
    assert "atyp" <= "atypicky" && "atyp" <= "atypicke" && "garson" <= "garsoniera";
  }

  predicate LooksLarge(raw: string) {
    || Contains(raw, "6-a-vice") || Contains(raw, "6-kk-a-vetsi")
    || raw in {"disp_6_1", "disp_6_kk", "disp_7_1", "disp_7_kk"}
  }

  predicate LooksUnusual(raw: string) { Contains(raw, "atyp") || raw in {"ostatni", "disp_ostatni"} }

  lemma TestByRaw(env: Env, disp: string, size: string, compact: string, raw: string)
    requires env.fold(disp) == disp && raw == Replaced(size, "disp_", "")
    requires compact == Replaced(Replaced(Replaced(disp, "pokoj", ""), "bytu", ""), "-", "+")
    ensures LooksLarge(raw) ==>
              (SizeMatches(env, disp, size) <==> LargeIn(compact))
    ensures !LooksLarge(raw) && LooksUnusual(raw) ==> (SizeMatches(env, disp, size) <==> Contains(compact, "atyp"))
    ensures !LooksLarge(raw) && !LooksUnusual(raw) && (Contains(raw, "garson") || raw == "pokoj") ==>
              (SizeMatches(env, disp, size) <==> Contains(compact, "garson") || Contains(disp, "pokoj"))
  {
  }

  lemma SpecialLooks(raw: string, size: string, asked: Special)
    requires AsksForSpecial(size, asked) && raw == RawOf(size)
    ensures LooksLarge(raw) <==> asked == Large
    ensures asked != Large ==> (LooksUnusual(raw) <==> asked == Unusual)
    ensures asked == SingleRoom ==> Contains(raw, "garson") || raw == "pokoj"
  {
    LargeRaw(raw);
    UnusualRaw(raw);
    if asked != Large {
      assert '6' !in raw;
      assert "disp_6_1"[5] == '6' && "disp_6_kk"[5] == '6' && "disp_7_1"[5] == '7' && "disp_7_kk"[5] == '7';
      assert raw !in {"disp_6_1", "disp_6_kk", "disp_7_1", "disp_7_kk"};
    }
  }

  /** Which of the tests a special size comes to. */
  lemma SpecialTest(env: Env, disp: string, size: string, asked: Special, compact: string)
    requires env.fold == Same && AsksForSpecial(size, asked)
    requires compact == Replaced(Replaced(Replaced(disp, "pokoj", ""), "bytu", ""), "-", "+")
    ensures SizeMatches(env, disp, size)
       <==> match asked
            case Unusual => Contains(compact, "atyp")
            case SingleRoom => Contains(compact, "garson") || Contains(disp, "pokoj")
            case Large => LargeIn(compact)
  {
    SpecialRaw(size, asked);
    SpecialLooks(RawOf(size), size, asked);
    assert env.fold(disp) == disp;
    TestByRaw(env, disp, size, compact, RawOf(size));
  }

  predicate LargeIn(compact: string) {
    exists t :: t in {"6+", "7+", "8+", "9+", "6kk", "7kk"} && Contains(compact, t)
  }

  lemma FoundLarge(disp: string, compact: string, own: Special)
    requires IsSpecial(disp, own) && compact == if disp == "pokoj" then "" else disp
    ensures LargeIn(compact) <==> own == Large
  {
    if own == Large {
      LargeStarts(disp);
    } else {
      assert '6' !in compact && '7' !in compact && '8' !in compact && '9' !in compact;
      forall t | t in {"6+", "7+", "8+", "9+", "6kk", "7kk"} ensures !Contains(compact, t) {
        assert t[0] in t && t[0] !in compact;
        Absent(compact, t, t[0]);
      }
    }
  }

  lemma LargeStarts(disp: string)
    requires IsSpecial(disp, Large)
    ensures LargeIn(disp)
  {
    var t := [disp[0], '+'];
    assert t == "6+" || t == "7+" || t == "8+";
    assert t in {"6+", "7+", "8+", "9+", "6kk", "7kk"};
    assert t <= disp && Contains(disp, t);
  }

  lemma FoundUnusual(disp: string, compact: string, own: Special)
    requires IsSpecial(disp, own) && compact == if disp == "pokoj" then "" else disp
    ensures Contains(compact, "atyp") <==> own == Unusual
  {
    assert "atyp"[2] == 'y' && "atyp" <= "atypicky" && "atyp" <= "atypicke";
    if own != Unusual {
      assert 'y' !in compact;
      Absent(compact, "atyp", 'y');
    }
  }

  lemma FoundSingle(disp: string, compact: string, own: Special)
    requires IsSpecial(disp, own) && compact == if disp == "pokoj" then "" else disp
    ensures Contains(compact, "garson") || Contains(disp, "pokoj") <==> own == SingleRoom
  {
    assert "garson"[0] == 'g' && "pokoj"[4] == 'j' && "garson" <= "garsoniera" && "pokoj" <= "pokoj";
    if own != SingleRoom {
      assert 'g' !in compact && 'j' !in disp;
      Absent(compact, "garson", 'g');
      Absent(disp, "pokoj", 'j');
    }
  }

  /** A special size is found in the listings of exactly that kind. */
  lemma SpecialSizesMatchExactly(env: Env, disp: string, size: string, asked: Special, own: Special)
    requires env.fold == Same && AsksForSpecial(size, asked) && IsSpecial(disp, own)
    ensures SizeMatches(env, disp, size) <==> asked == own
  {
    var compact := if disp == "pokoj" then "" else disp;
    SpecialCompact(disp, own);
    SpecialTest(env, disp, size, asked, compact);
    match asked
    case Unusual => FoundUnusual(disp, compact, own);
    case SingleRoom => FoundSingle(disp, compact, own);
    case Large => FoundLarge(disp, compact, own);
  }

  // ------------------------------------------------------------------ numbered districts --

  lemma {:induction false} ContainsAtStart(s: string, part: string)
    requires part != "" && part[0] !in s[if s == "" then 0 else 1..]
    ensures Contains(s, part) <==> part <= s
  {
    if s != "" { Absent(s[1..], part, part[0]); }
  }

  /** The text of a listing in a numbered district of Prague. */
  function InPrague(number: string): string { "praha " + number }

  lemma NumberBehind(head: string, m: string, n: string)
    requires head != "" && head[0] == 'p' && 'p' !in head[1..] && 'p' !in n
    ensures Contains(head + n, head + m) <==> m <= n
  {
    var text, part := head + n, head + m;
    assert text[1..] == head[1..] + n && part[0] == 'p';
    ContainsAtStart(text, part);
    assert text[|head|..] == n && part[|head|..] == m;
    if m <= n { assert n == m + n[|m|..]; assert text == part + n[|m|..]; }
    if part <= text { assert text == part + text[|part|..]; assert n == m + text[|part|..]; }
  }

  lemma NoDash(m: string, n: string)
    requires forall c :: c in n ==> '0' <= c <= '9'
    ensures !Contains(InPrague(n), "praha-" + m)
  {
    assert ("praha-" + m)[5] == '-';
    assert '-' !in "praha ";
    Absent(InPrague(n), "praha-" + m, '-');
  }

  lemma WithoutSpace(n: string)
    requires ' ' !in n
    ensures Replaced(InPrague(n), " ", "") == "praha" + n
  {
    assert InPrague(n) == "praha" + (" " + n) && " "[0] == ' ' && ' ' !in "praha";
    ReplacedOnce(InPrague(n), "praha", " ", n, "", ' ');
    assert "praha" + ("" + n) == "praha" + n;
  }

  lemma NumberInText(m: string, n: string)
    requires forall c :: c in n ==> '0' <= c <= '9'
    ensures Contains(InPrague(n), InPrague(m)) <==> m <= n
    ensures !Contains(InPrague(n), "praha-" + m)
    ensures Contains(Replaced(InPrague(n), " ", ""), "praha" + m) <==> m <= n
  {
    var spaced, bare := "praha ", "praha";
    assert 'p' !in spaced[1..] && 'p' !in bare[1..];
    NumberBehind(spaced, m, n);
    NumberBehind(bare, m, n);
    NoDash(m, n);
    WithoutSpace(n);
  }

  /** A filter on a numbered district finds a listing of a numbered district, none of whose named parts occurs in it,
      exactly when its number begins the listing's. */
  lemma PragueNumbersAskExactly(env: Env, district: string, m: string, n: string)
    requires env.pragueNumber(district) == Some(m) && forall c :: c in n ==> '0' <= c <= '9'
    requires m in env.pragueParts ==> forall p :: p in env.pragueParts[m] ==> !Contains(InPrague(n), env.fold(p))
    ensures DistrictMatches(env, InPrague(n), district) <==> m <= n
  {
    NumberInText(m, n);
  }

  /** The parts of Praha 1. */
  const OLD_TOWN: seq<string> := ["stare mesto", "josefov", "mala strana", "hradcany", "nove mesto"]

  lemma NoPartNamed(text: string, part: string)
    requires part in OLD_TOWN && forall c :: c in text ==> c in {'p', 'r', 'a', 'h', ' ', '0', '1', '2'}
    ensures !Contains(text, part)
  {
    assert "stare mesto"[0] == 's' && "josefov"[0] == 'j' && "mala strana"[0] == 'm' && "hradcany"[3] == 'd' && "nove mesto"[0] == 'n';
    var c := if part == OLD_TOWN[0] then 's' else if part == OLD_TOWN[1] then 'j' else if part == OLD_TOWN[2] then 'm'
             else if part == OLD_TOWN[3] then 'd' else 'n';
    Absent(text, part, c);
  }

  /** So the filter on Praha 1 takes listings in Praha 10 as well. */
  lemma PragueTenIsTakenForOne(env: Env)
    requires FoldsPlainly(env) && env.pragueNumber("praha-1") == Some("1")
    requires "1" in env.pragueParts && env.pragueParts["1"] == OLD_TOWN
    ensures DistrictMatches(env, "praha 10", "praha-1") && !DistrictMatches(env, "praha 2", "praha-1")
  {
    assert InPrague("10") == "praha 10" && InPrague("2") == "praha 2" && "10"[..1] == "1" && "1"[0] != "2"[0];
    forall p | p in OLD_TOWN ensures !Contains("praha 10", env.fold(p)) && !Contains("praha 2", env.fold(p)) {
      assert env.fold(p) == p;
      NoPartNamed("praha 10", p);
      NoPartNamed("praha 2", p);
    }
    PragueNumbersAskExactly(env, "praha-1", "1", "10");
    PragueNumbersAskExactly(env, "praha-1", "1", "2");
  }

  // ------------------------------------------------------------------ other localities --

  ghost predicate OccursAt(text: string, part: string, k: int) {
    0 <= k <= |text| - |part| && forall i :: 0 <= i < |part| ==> text[k + i] == part[i]
  }

  /** The part stands somewhere in the text. */
  ghost predicate Occurs(text: string, part: string) { exists k :: OccursAt(text, part, k) }

  lemma OccursBehind(text: string, part: string, k: int)
    requires text != ""
    ensures k > 0 ==> (OccursAt(text, part, k) <==> OccursAt(text[1..], part, k - 1))
    ensures OccursAt(text, part, 0) <==> part <= text
  {
    var rest := text[1..];
    assert forall i :: 0 <= i < |rest| ==> rest[i] == text[i + 1];
    if k > 0 && OccursAt(text, part, k) {
      forall i | 0 <= i < |part| ensures rest[k - 1 + i] == part[i] { assert text[k + i] == part[i]; }
    }
    if k > 0 && OccursAt(rest, part, k - 1) {
      forall i | 0 <= i < |part| ensures text[k + i] == part[i] { assert rest[k - 1 + i] == part[i]; }
    }
    if OccursAt(text, part, 0) {
      forall i | 0 <= i < |part| ensures text[i] == part[i] { assert text[0 + i] == part[i]; }
    }
  }

  lemma {:induction false} ContainsIsOccurs(text: string, part: string)
    ensures Contains(text, part) <==> Occurs(text, part)
  {
    if text == "" {
      assert part == "" ==> OccursAt(text, part, 0);
    } else {
      ContainsIsOccurs(text[1..], part);
      OccursBehind(text, part, 0);
      forall k ensures k > 0 ==> (OccursAt(text, part, k) <==> OccursAt(text[1..], part, k - 1)) { OccursBehind(text, part, k); }
      if k :| OccursAt(text[1..], part, k) { OccursBehind(text, part, k + 1); }
    }
  }

  /** A district that is no numbered one of Prague is found by the names of its region if it is one, and otherwise by its
      own name, which must not be empty. */
  lemma NamedDistrictsAskExactly(env: Env, text: string, district: string)
    requires env.pragueNumber(district) == None
    ensures DistrictMatches(env, text, district)
       <==> if district in env.krajHints then exists h :: h in env.krajHints[district] && Occurs(text, env.fold(h))
            else env.needle(district) != "" && Occurs(text, env.needle(district))
  {
    forall part ensures Contains(text, part) <==> Occurs(text, part) { ContainsIsOccurs(text, part); }
  }

  /** Districts ask for one of them, except that a listing of unknown locality passes, and every listing does where the
      districts name the country or are all its regions. */
  lemma DistrictsAskExactly(env: Env, l: Listing, districts: seq<string>)
    requires districts != [] && "" !in districts
    ensures Matches(env, l, ANY_FILTER.(districts := districts), true)
       <==> || env.fold(l.locality) == "" || (exists d :: d in districts && env.isCountry(d))
            || (forall r :: r in env.regions ==> r in districts)
            || exists d :: d in districts && DistrictMatches(env, env.fold(l.locality), d)
  {
    AnyFilterMatches(env, l);
    assert Given([]) == [];
    forall d ensures d in Given(districts) <==> d in districts { }
    assert districts[0] in Given(districts);
  }

  // ------------------------------------------------------------------ monitors --

  /** A monitor takes a listing exactly if one of its searches, on the listing's portal and on a portal that it watches,
      takes it, and its own filters, if it has any, do too. A monitor that names no portal watches all. */
  lemma MonitorsAskExactly(ids: set<string>, portal: string, m: Monitor, test: string -> bool)
    requires "all" !in ids
    ensures MatchesMonitor(ids, portal, m, test)
       <==> && (m.canonical == "" || test(m.canonical)) && (m.portals !in ids || m.portals == portal)
            && exists t :: t in m.targets && t.portal == portal && t.search != "" && test(t.search)
  {
    if MatchesMonitor(ids, portal, m, test) {
      var t :| t in m.targets && Hits(ids, portal, m, test, t);
      assert t in m.targets && t.portal == portal && t.search != "" && test(t.search);
    }
    if (m.canonical == "" || test(m.canonical)) && (m.portals !in ids || m.portals == portal) {
      if t :| t in m.targets && t.portal == portal && t.search != "" && test(t.search) {
        assert Hits(ids, portal, m, test, t);
      }
    }
  }

  // ------------------------------------------------------------------ edits --

  /** Leaving a filter as it is, and clearing one of its lists or its bounds, is among the edits that look like
      widenings. */
  lemma ClearingLooksWider(env: Env, f: Filters)
    ensures LooksWider(env, f, f) && LooksWider(env, f, f.(priceFrom := None, priceTo := None, areaFrom := None, areaTo := None))
    ensures LooksWider(env, f, f.(offers := []))
  {
    assert Given([]) == [];
  }

  lemma ClearingListsLooksWider(env: Env, f: Filters)
    ensures LooksWider(env, f, f.(estates := [])) && LooksWider(env, f, f.(districts := []))
    ensures LooksWider(env, f, f.(sizes := [])) && LooksWider(env, f, f.(dispositions := []))
  {
    assert Given([]) == [];
  }
}
