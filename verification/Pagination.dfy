/** The pagination crawls of app/html_listing.py (lines 540-578). A server is what it answers to each page number;
    every page is requested at most once, so this covers servers that change between requests. Ids come from some
    finite universe; nothing else is assumed of a server. */
module Pagination {
  import opened Seqs

  type Id = int

  datatype Item = Item(id: Id, body: string)

  /** One answered page: its items and the total it reports, 0 if it reports none. */
  datatype Page = Page(items: seq<Item>, total: nat)

  type Size = n: nat | n >= 1 witness 1

  /** What is answered to each page number, and the page size the client of the portal counts with. */
  datatype Server = Server(answer: nat -> Page, size: Size)

  datatype Crawl = Crawl(listings: seq<Item>, total: nat, requests: nat)

  function Ids(items: seq<Item>): set<Id> {
    set i | 0 <= i < |items| :: items[i].id
  }

  ghost predicate Serves(server: Server, universe: set<Id>) {
    forall p :: Ids(server.answer(p).items) <= universe
  }

  /** The items of a batch whose id was not seen before the batch. */
  function Unseen(batch: seq<Item>, seen: set<Id>): seq<Item> {
    Filter((item: Item) => item.id !in seen, batch)
  }

  function Pages(n: nat, size: Size): nat { (n + size - 1) / size }

  /** The total known after a page: its own, or the last one reported. */
  function Known(page: Page, total: nat): nat { if page.total != 0 then page.total else total }

  /** The crawl stops before adding anything: an empty page, or a later page without a new id. */
  predicate Exhausted(page: nat, batch: seq<Item>, added: seq<Item>) { batch == [] || (page > 1 && added == []) }

  /** The crawl has reached the last page the total calls for. */
  predicate Reached(page: nat, known: nat, size: Size) { known == 0 || page >= Pages(known, size) }

  /** `fetch_all` from page `page` on. */
  ghost function CrawlFrom(server: Server, universe: set<Id>, page: nat, listings: seq<Item>, total: nat,
                           cap: Option<nat>): Crawl
    requires Serves(server, universe) && Ids(listings) <= universe && page >= 1
    requires page > 1 ==> listings != []
    decreases |universe - Ids(listings)|, if page == 1 then 1 else 0
  {
    if cap.Some? && page > cap.value then Crawl(listings, total, page - 1) else
      var batch := server.answer(page).items;
      var known := Known(server.answer(page), total);
      var added := Unseen(batch, Ids(listings));
      if Exhausted(page, batch, added) then Crawl(listings, known, page)
      else if Reached(page, known, server.size) then Crawl(listings + added, known, page)
      else
        AddedShrinks(universe, listings, batch);
        CrawlFrom(server, universe, page + 1, listings + added, known, cap)
  }

  ghost function FetchAll(server: Server, universe: set<Id>, cap: Option<nat>): Crawl
    requires Serves(server, universe)
  {
    CrawlFrom(server, universe, 1, [], 0, cap)
  }

  function After(server: Server, page: nat, listings: seq<Item>): seq<Item> {
    listings + Unseen(server.answer(page).items, Ids(listings))
  }

  /** The crawl goes on past this page. */
  ghost predicate Continues(server: Server, page: nat, listings: seq<Item>, total: nat, cap: Option<nat>) {
    && (cap.None? || page <= cap.value)
    && !Exhausted(page, server.answer(page).items, Unseen(server.answer(page).items, Ids(listings)))
    && !Reached(page, Known(server.answer(page), total), server.size)
  }

  /** A crawl either goes on with the next page, closer to the end of the universe, or ends with this one. */
  lemma CrawlNext(server: Server, universe: set<Id>, page: nat, listings: seq<Item>, total: nat, cap: Option<nat>)
    requires Serves(server, universe) && Ids(listings) <= universe && page >= 1 && (page > 1 ==> listings != [])
    requires Continues(server, page, listings, total, cap)
    ensures var after := After(server, page, listings);
            && Ids(after) <= universe && after != []
            && |universe - Ids(after)| <= |universe - Ids(listings)|
            && (page > 1 ==> |universe - Ids(after)| < |universe - Ids(listings)|)
            && CrawlFrom(server, universe, page, listings, total, cap)
            == CrawlFrom(server, universe, page + 1, after, Known(server.answer(page), total), cap)
  {
    AddedShrinks(universe, listings, server.answer(page).items);
  }

  lemma CrawlEnds(server: Server, universe: set<Id>, page: nat, listings: seq<Item>, total: nat, cap: Option<nat>)
    requires Serves(server, universe) && Ids(listings) <= universe && page >= 1 && (page > 1 ==> listings != [])
    requires !Continues(server, page, listings, total, cap)
    ensures var r := CrawlFrom(server, universe, page, listings, total, cap);
            if cap.Some? && page > cap.value then r == Crawl(listings, total, page - 1)
            else r == Crawl(After(server, page, listings), Known(server.answer(page), total), page)
  {
    if server.answer(page).items == [] || Unseen(server.answer(page).items, Ids(listings)) == [] {
      assert After(server, page, listings) == listings;
    }
  }

  lemma UnseenMembers(batch: seq<Item>, seen: set<Id>)
    ensures forall x :: x in Unseen(batch, seen) <==> x in batch && x.id !in seen
  {
    FilterMembers((item: Item) => item.id !in seen, batch);
  }

  lemma IdsConcat(xs: seq<Item>, ys: seq<Item>)
    ensures Ids(xs + ys) == Ids(xs) + Ids(ys)
  {
    forall x | x in Ids(xs) + Ids(ys) ensures x in Ids(xs + ys) {
      if x in Ids(xs) {
        var i :| 0 <= i < |xs| && xs[i].id == x;
        assert (xs + ys)[i].id == x;
      } else {
        var i :| 0 <= i < |ys| && ys[i].id == x;
        assert (xs + ys)[|xs| + i].id == x;
      }
    }
  }

  lemma UnseenIds(batch: seq<Item>, seen: set<Id>)
    ensures Ids(Unseen(batch, seen)) == Ids(batch) - seen
  {
    UnseenMembers(batch, seen);
    var added := Unseen(batch, seen);
    forall x | x in Ids(batch) - seen ensures x in Ids(added) {
      var i :| 0 <= i < |batch| && batch[i].id == x;
      assert batch[i] in added;
      var j :| 0 <= j < |added| && added[j] == batch[i];
    }
    forall x | x in Ids(added) ensures x in Ids(batch) - seen {
      var i :| 0 <= i < |added| && added[i].id == x;
      assert added[i] in added;
      var j :| 0 <= j < |batch| && batch[j] == added[i];
    }
  }

  /** A page the crawl continues past brought a new id: fewer ids of the universe are left. */
  lemma AddedShrinks(universe: set<Id>, listings: seq<Item>, batch: seq<Item>)
    requires Ids(listings) <= universe && Ids(batch) <= universe && batch != []
    ensures var added := Unseen(batch, Ids(listings));
            && Ids(listings + added) == Ids(listings) + Ids(batch) && Ids(listings + added) <= universe
            && (listings == [] ==> listings + added != [])
            && (added != [] ==> |universe - Ids(listings + added)| < |universe - Ids(listings)|)
            && |universe - Ids(listings + added)| <= |universe - Ids(listings)|
  {
    var added := Unseen(batch, Ids(listings));
    IdsConcat(listings, added);
    UnseenIds(batch, Ids(listings));
    Smaller(universe - Ids(listings + added), universe - Ids(listings));
    assert batch[0].id in Ids(batch);
    if added != [] {
      assert added[0].id in Ids(added);
      assert added[0].id in universe - Ids(listings) && added[0].id !in universe - Ids(listings + added);
      Smaller(universe - Ids(listings + added), universe - Ids(listings) - {added[0].id});
    }
  }

  lemma Smaller(a: set<Id>, b: set<Id>)
    requires a <= b
    ensures |a| <= |b|
  {
    assert b == a + (b - a);
  }

  ghost predicate Distinct(items: seq<Item>) {
    forall i, j :: 0 <= i < j < |items| ==> items[i].id != items[j].id
  }

  /** What is still to come from here is the result `r`. */
  ghost predicate LeadsTo(server: Server, universe: set<Id>, page: nat, listings: seq<Item>, total: nat,
                          cap: Option<nat>, r: Crawl)
    requires Serves(server, universe)
  {
    && Ids(listings) <= universe && page >= 1 && (page > 1 ==> listings != [])
    && CrawlFrom(server, universe, page, listings, total, cap) == r
  }

  function Measure(universe: set<Id>, page: nat, listings: seq<Item>): nat {
    2 * |universe - Ids(listings)| + if page == 1 then 1 else 0
  }

  /** One round of the crawl. */
  lemma Round(server: Server, universe: set<Id>, page: nat, listings: seq<Item>, total: nat, cap: Option<nat>, r: Crawl)
    requires Serves(server, universe) && LeadsTo(server, universe, page, listings, total, cap, r)
    requires cap.None? || page <= cap.value
    ensures var batch, known := server.answer(page).items, Known(server.answer(page), total);
            var added, after := Unseen(batch, Ids(listings)), After(server, page, listings);
            if Exhausted(page, batch, added) || Reached(page, known, server.size) then r == Crawl(after, known, page)
            else LeadsTo(server, universe, page + 1, after, known, cap, r)
                 && Measure(universe, page + 1, after) < Measure(universe, page, listings)
  {
    var batch := server.answer(page).items;
    var added := Unseen(batch, Ids(listings));
    if added == [] { assert listings + added == listings; }
    if batch != [] { AddedShrinks(universe, listings, batch); }
  }

  /** The crawl ends with page `page`, or goes on with the next one. */
  lemma EndsWith(server: Server, universe: set<Id>, page: nat, listings: seq<Item>, total: nat, cap: Option<nat>, r: Crawl)
    returns (ends: bool)
    requires Serves(server, universe) && LeadsTo(server, universe, page, listings, total, cap, r)
    requires cap.None? || page <= cap.value
    ensures var known, after := Known(server.answer(page), total), After(server, page, listings);
            if ends then r == Crawl(after, known, page)
            else LeadsTo(server, universe, page + 1, after, known, cap, r)
                 && Measure(universe, page + 1, after) < Measure(universe, page, listings)
  {
    Round(server, universe, page, listings, total, cap, r);
    var batch := server.answer(page).items;
    ends := Exhausted(page, batch, Unseen(batch, Ids(listings))) || Reached(page, Known(server.answer(page), total), server.size);
  }

  lemma CapStops(server: Server, universe: set<Id>, page: nat, listings: seq<Item>, total: nat, cap: Option<nat>, r: Crawl)
    requires Serves(server, universe) && LeadsTo(server, universe, page, listings, total, cap, r)
    requires cap.Some? && page > cap.value
    ensures r == Crawl(listings, total, page - 1)
  {
  }

  // A stable server

  function Min(a: nat, b: nat): nat { if a < b then a else b }

  /** The first k pages of a list. */
  function Prefix(xs: seq<Item>, k: nat, size: Size): seq<Item> { xs[..Min(k * size, |xs|)] }

  /** The p-th page of a list. */
  function Slice(xs: seq<Item>, p: nat, size: Size): seq<Item>
    requires p >= 1
  {
    GrowsByFactor(p - 1, p, size);
    xs[Min((p - 1) * size, |xs|)..Min(p * size, |xs|)]
  }

  lemma GrowsByFactor(a: nat, b: nat, size: nat)
    requires a <= b
    ensures a * size <= b * size
  {
  }

  /** The server lists exactly `xs` in pages of its size, with the true total on the first page and on later pages the
      true total or none. */
  ghost predicate Lists(server: Server, xs: seq<Item>) {
    forall p: nat :: p >= 1 ==> PageOf(server, xs, p)
  }

  predicate PageOf(server: Server, xs: seq<Item>, p: nat)
    requires p >= 1
  {
    && server.answer(p).items == Slice(xs, p, server.size)
    && (server.answer(p).total == |xs| || (p > 1 && server.answer(p).total == 0))
  }

  /** A server that tells the total on its first page only is stable too. */
  lemma FirstTotalIsEnough(server: Server, xs: seq<Item>)
    requires server.answer(1).total == |xs| && forall p: nat :: p >= 1 ==> server.answer(p).items == Slice(xs, p, server.size)
    requires forall p: nat :: p > 1 ==> server.answer(p).total == 0 || server.answer(p).total == |xs|
    ensures Lists(server, xs)
  {
  }

  /** The number of requests a crawl of n listings needs. */
  function Needed(n: nat, size: Size): nat { if n == 0 then 1 else Pages(n, size) }

  lemma LaterIsUnseen(xs: seq<Item>, lo: nat, hi: nat)
    requires Distinct(xs) && lo <= hi <= |xs|
    ensures Unseen(xs[lo..hi], Ids(xs[..lo])) == xs[lo..hi]
  {
    assert forall i :: 0 <= i < lo ==> xs[..lo][i] == xs[i];
    forall x | x in xs[lo..hi] ensures x.id !in Ids(xs[..lo]) {
      var j :| lo <= j < hi && xs[j] == x;
    }
    FilterAll((item: Item) => item.id !in Ids(xs[..lo]), xs[lo..hi]);
  }

  lemma NextPageIsUnseen(xs: seq<Item>, p: nat, size: Size)
    requires Distinct(xs) && p >= 1
    ensures Unseen(Slice(xs, p, size), Ids(Prefix(xs, p - 1, size))) == Slice(xs, p, size)
    ensures Prefix(xs, p - 1, size) + Slice(xs, p, size) == Prefix(xs, p, size)
  {
    GrowsByFactor(p - 1, p, size);
    var lo, hi := Min((p - 1) * size, |xs|), Min(p * size, |xs|);
    LaterIsUnseen(xs, lo, hi);
    assert xs[..lo] + xs[lo..hi] == xs[..hi];
  }

  lemma QuotientBounds(n: nat, size: Size)
    ensures n / size * size <= n < (n / size + 1) * size
  {
  }

  /** The pages that cover a list are those from its rounded-up quotient on. */
  lemma PagesCover(n: nat, p: nat, size: Size)
    ensures p >= Pages(n, size) <==> p * size >= n
  {
    var q := Pages(n, size);
    QuotientBounds(n + size - 1, size);
    if p >= q {
      GrowsByFactor(q, p, size);
    } else {
      GrowsByFactor(p + 1, q, size);
    }
  }

  /** What a page of a stable server does to the crawl. */
  lemma StablePage(server: Server, xs: seq<Item>, page: nat, total: nat)
    requires Lists(server, xs) && Distinct(xs) && 1 <= page <= Needed(|xs|, server.size)
    requires total == if page == 1 then 0 else |xs|
    ensures After(server, page, Prefix(xs, page - 1, server.size)) == Prefix(xs, page, server.size) && Known(server.answer(page), total) == |xs|
    ensures Exhausted(page, server.answer(page).items, Unseen(server.answer(page).items, Ids(Prefix(xs, page - 1, server.size)))) ==> xs == []
    ensures Reached(page, |xs|, server.size) <==> page >= Needed(|xs|, server.size)
    ensures xs != [] ==> Prefix(xs, page, server.size) != []
  {
    assert PageOf(server, xs, page);
    NextPageIsUnseen(xs, page, server.size);
    if |xs| > 0 {
      PagesCover(|xs|, page, server.size);
      if page > 1 { PagesCover(|xs|, page - 1, server.size); }
    }
  }

  lemma {:induction false} StableFrom(server: Server, universe: set<Id>, xs: seq<Item>, page: nat, total: nat,
                                      cap: Option<nat>, r: Crawl)
    requires Serves(server, universe) && Lists(server, xs) && Distinct(xs) && page >= 1
    requires LeadsTo(server, universe, page, Prefix(xs, page - 1, server.size), total, cap, r)
    requires page <= Needed(|xs|, server.size) && (cap.Some? ==> page <= cap.value + 1)
    requires total == if page == 1 then 0 else |xs|
    ensures var k := if cap.Some? then Min(cap.value, Needed(|xs|, server.size)) else Needed(|xs|, server.size);
            (r == Crawl(Prefix(xs, k, server.size), if k == 0 then 0 else |xs|, k))
    decreases Needed(|xs|, server.size) - page
  {
    if cap.Some? && page > cap.value {
      CapStops(server, universe, page, Prefix(xs, page - 1, server.size), total, cap, r);
    } else {
      StablePage(server, xs, page, total);
      Round(server, universe, page, Prefix(xs, page - 1, server.size), total, cap, r);
      if page < Needed(|xs|, server.size) {
        StableFrom(server, universe, xs, page + 1, |xs|, cap, r);
      }
    }
  }

  lemma PrefixIsAll(xs: seq<Item>, k: nat, size: Size)
    requires k >= Needed(|xs|, size)
    ensures Prefix(xs, k, size) == xs
  {
    PagesCover(|xs|, k, size);
    assert xs[..|xs|] == xs;
  }

  lemma CapIsReached(xs: seq<Item>, k: nat, size: Size)
    ensures Prefix(xs, Min(k, Needed(|xs|, size)), size) == Prefix(xs, k, size)
  {
    if k > Needed(|xs|, size) {
      PrefixIsAll(xs, k, size);
      PrefixIsAll(xs, Needed(|xs|, size), size);
    }
  }

  lemma FirstStable(server: Server, universe: set<Id>, xs: seq<Item>, cap: Option<nat>)
    requires Serves(server, universe) && Lists(server, xs) && Distinct(xs)
    ensures var k := if cap.Some? then Min(cap.value, Needed(|xs|, server.size)) else Needed(|xs|, server.size);
            (FetchAll(server, universe, cap) == Crawl(Prefix(xs, k, server.size), if k == 0 then 0 else |xs|, k))
  {
    assert Prefix(xs, 0, server.size) == [];
    NeededIsPositive(|xs|, server.size);
    StableFrom(server, universe, xs, 1, 0, cap, FetchAll(server, universe, cap));
  }

  lemma NeededIsPositive(n: nat, size: Size)
    ensures Needed(n, size) >= 1
  {
    PagesCover(n, 0, size);
  }

  /** Against a stable server `fetch_all` returns exactly the list, in order, with its total, in
      max(1, ceil(n / size)) requests; under a page limit, the pages up to the limit. */
  lemma FetchAllIsComplete(server: Server, universe: set<Id>, xs: seq<Item>, cap: Option<nat>)
    requires Serves(server, universe) && Lists(server, xs) && Distinct(xs)
    ensures FetchAll(server, universe, None)
         == Crawl(xs, |xs|, if |xs| == 0 then 1 else (|xs| + server.size - 1) / server.size)
    ensures cap.Some? ==> FetchAll(server, universe, cap).listings == Prefix(xs, cap.value, server.size)
    ensures cap.Some? ==> FetchAll(server, universe, cap).requests == Min(cap.value, Needed(|xs|, server.size))
  {
    FirstStable(server, universe, xs, None);
    FirstStable(server, universe, xs, cap);
    PrefixIsAll(xs, Needed(|xs|, server.size), server.size);
    if cap.Some? { CapIsReached(xs, cap.value, server.size); }
  }

  // Any server

  /** Ids listed by the pages before `page`. */
  function Before(server: Server, page: nat): set<Id> {
    if page <= 1 then {} else Before(server, page - 1) + Ids(server.answer(page - 1).items)
  }

  /** The page repeats no id that earlier pages had not listed. */
  ghost predicate NoNewRepeat(server: Server, p: nat) {
    NoRepeatOutside(server.answer(p).items, Before(server, p))
  }

  ghost predicate NoRepeatOutside(batch: seq<Item>, seen: set<Id>) {
    forall i, j :: 0 <= i < j < |batch| && batch[i].id == batch[j].id ==> batch[i].id in seen
  }

  lemma ConsDistinct(x: Item, xs: seq<Item>)
    ensures Distinct([x] + xs) <==> Distinct(xs) && x.id !in Ids(xs)
  {
    var all := [x] + xs;
    if Distinct(all) {
      forall i | 0 <= i < |xs| ensures xs[i].id != x.id { assert all[0].id != all[i + 1].id; }
      assert forall i :: 0 <= i < |xs| ==> all[i + 1] == xs[i];
    }
    if Distinct(xs) && x.id !in Ids(xs) {
      forall j | 0 < j < |all| ensures all[j].id != x.id { assert xs[j - 1].id in Ids(xs); }
    }
  }

  lemma ConsNoRepeat(x: Item, xs: seq<Item>, seen: set<Id>)
    ensures NoRepeatOutside([x] + xs, seen) <==> NoRepeatOutside(xs, seen) && (x.id in seen || x.id !in Ids(xs))
  {
    var all := [x] + xs;
    if NoRepeatOutside(all, seen) {
      assert forall i :: 0 <= i < |xs| ==> all[i + 1] == xs[i];
      if x.id in Ids(xs) {
        var k :| 0 <= k < |xs| && xs[k].id == x.id;
        assert all[0].id == all[k + 1].id;
      }
    } else {
      var i, j :| 0 <= i < j < |all| && all[i].id == all[j].id && all[i].id !in seen;
      assert all[j] == xs[j - 1] && xs[j - 1].id in Ids(xs);
    }
  }

  lemma {:induction false} UnseenDistinct(batch: seq<Item>, seen: set<Id>)
    ensures Distinct(Unseen(batch, seen)) <==> NoRepeatOutside(batch, seen)
  {
    if batch != [] {
      var rest := batch[1..];
      UnseenDistinct(rest, seen);
      UnseenIds(rest, seen);
      assert batch == [batch[0]] + rest;
      ConsNoRepeat(batch[0], rest, seen);
      ConsDistinct(batch[0], Unseen(rest, seen));
    }
  }

  lemma AppendDistinct(xs: seq<Item>, ys: seq<Item>)
    requires Ids(xs) !! Ids(ys)
    ensures Distinct(xs + ys) <==> Distinct(xs) && Distinct(ys)
  {
    var all := xs + ys;
    if Distinct(all) {
      assert forall i :: 0 <= i < |ys| ==> all[|xs| + i] == ys[i];
      assert forall i :: 0 <= i < |xs| ==> all[i] == xs[i];
    }
    if Distinct(xs) && Distinct(ys) {
      forall i, j | 0 <= i < j < |all| ensures all[i].id != all[j].id {
        if i < |xs| <= j { assert xs[i].id in Ids(xs) && ys[j - |xs|].id in Ids(ys); }
      }
    }
  }

  /** What one page adds. */
  lemma PageAdds(server: Server, page: nat, listings: seq<Item>)
    requires page >= 1 && Ids(listings) == Before(server, page)
    ensures var after := After(server, page, listings);
            && (Distinct(after) <==> Distinct(listings) && NoNewRepeat(server, page))
            && Ids(after) == Before(server, page + 1)
  {
    var batch := server.answer(page).items;
    UnseenIds(batch, Ids(listings));
    UnseenDistinct(batch, Ids(listings));
    AppendDistinct(listings, Unseen(batch, Ids(listings)));
    IdsConcat(listings, Unseen(batch, Ids(listings)));
  }

  ghost predicate AllGood(good: nat -> bool, page: nat, last: nat)
    decreases last - page
  {
    page <= last ==> good(page) && AllGood(good, page + 1, last)
  }

  lemma {:induction false} AllGoodIsForall(good: nat -> bool, page: nat, last: nat)
    ensures AllGood(good, page, last) <==> forall p: nat :: page <= p <= last ==> good(p)
    decreases last - page
  {
    if page <= last { AllGoodIsForall(good, page + 1, last); }
  }

  /** A page keeps the property exactly when it is good. */
  ghost predicate KeptIfGood(server: Server, p: nat, xs: seq<Item>, kept: seq<Item> -> bool, good: nat -> bool) {
    && Ids(After(server, p, xs)) == Before(server, p + 1)
    && kept(After(server, p, xs)) == (kept(xs) && good(p))
  }

  /** A property that every page keeps exactly when the page is good holds of the result exactly when it held at the
      start and all requested pages are good. */
  lemma {:induction false} KeptByGoodPages(server: Server, universe: set<Id>, page: nat, listings: seq<Item>, total: nat,
                                           cap: Option<nat>, r: Crawl, kept: seq<Item> -> bool, good: nat -> bool)
    requires Serves(server, universe) && LeadsTo(server, universe, page, listings, total, cap, r)
    requires Ids(listings) == Before(server, page) && page >= 1
    requires forall p: nat, xs :: p >= 1 && Ids(xs) == Before(server, p) ==> KeptIfGood(server, p, xs, kept, good)
    ensures page - 1 <= r.requests
    ensures kept(r.listings) <==> kept(listings) && AllGood(good, page, r.requests)
    decreases Measure(universe, page, listings)
  {
    if cap.Some? && page > cap.value {
      CapStops(server, universe, page, listings, total, cap, r);
    } else {
      var known, after := Known(server.answer(page), total), After(server, page, listings);
      assert KeptIfGood(server, page, listings, kept, good);
      var ends := EndsWith(server, universe, page, listings, total, cap, r);
      if ends {
        assert r == Crawl(after, known, page) && AllGood(good, page + 1, page);
      } else {
        KeptByGoodPages(server, universe, page + 1, after, known, cap, r, kept, good);
      }
    }
  }

  lemma PagesKeepDistinctness(server: Server, p: nat, xs: seq<Item>)
    requires p >= 1 && Ids(xs) == Before(server, p)
    ensures Ids(After(server, p, xs)) == Before(server, p + 1)
    ensures Distinct(After(server, p, xs)) == (Distinct(xs) && NoNewRepeat(server, p))
  {
    PageAdds(server, p, xs);
  }

  // Which pages are requested

  /** The total known after the first n pages. */
  function TotalUpTo(server: Server, n: nat): nat {
    if n == 0 then 0 else Known(server.answer(n), TotalUpTo(server, n - 1))
  }

  /** Page p lists an id that no earlier page lists (the first page anything at all), and the total calls for more. */
  ghost predicate GoesOn(server: Server, p: nat)
    requires p >= 1
  {
    && server.answer(p).items != [] && (p > 1 ==> !(Ids(server.answer(p).items) <= Before(server, p)))
    && !Reached(p, TotalUpTo(server, p), server.size)
  }

  /** The cap allows page p, and every earlier page goes on. */
  ghost predicate IsReached(server: Server, cap: Option<nat>, p: nat) {
    p >= 1 && (cap.None? || p <= cap.value) && forall q: nat :: 1 <= q < p ==> GoesOn(server, q)
  }

  lemma NoNews(batch: seq<Item>, seen: set<Id>)
    ensures Unseen(batch, seen) == [] <==> Ids(batch) <= seen
  {
    UnseenIds(batch, seen);
    var added := Unseen(batch, seen);
    if added != [] {
      assert added[0].id in Ids(added);
    } else {
      assert Ids(added) == {};
      forall x | x in Ids(batch) ensures x in seen { assert x !in Ids(batch) - seen; }
    }
  }

  /** What the pages alone say about a round: the ids seen so far, the total known, and whether the crawl goes on. */
  ghost predicate PageDecides(server: Server, p: nat, xs: seq<Item>, seen: nat -> set<Id>, totals: nat -> nat,
                              goes: nat -> bool)
    requires p >= 1
  {
    var batch := server.answer(p).items;
    && Ids(After(server, p, xs)) == seen(p + 1) && totals(p) == Known(server.answer(p), totals(p - 1))
    && (goes(p) <==> !Exhausted(p, batch, Unseen(batch, Ids(xs))) && !Reached(p, totals(p), server.size))
  }

  lemma PagesDecide(server: Server, p: nat, xs: seq<Item>)
    requires p >= 1 && Ids(xs) == Before(server, p)
    ensures PageDecides(server, p, xs, SeenBefore(server), Totals(server), Goes(server))
  {
    NoNews(server.answer(p).items, Ids(xs));
    PageAdds(server, p, xs);
  }

  ghost function SeenBefore(server: Server): nat -> set<Id> { (p: nat) => Before(server, p) }

  ghost function Totals(server: Server): nat -> nat { (p: nat) => TotalUpTo(server, p) }

  ghost function Goes(server: Server): nat -> bool { (p: nat) => p >= 1 && GoesOn(server, p) }

  lemma {:induction false} AskedFrom(server: Server, universe: set<Id>, page: nat, listings: seq<Item>, total: nat,
                                     cap: Option<nat>, r: Crawl, p: nat,
                                     seen: nat -> set<Id>, totals: nat -> nat, goes: nat -> bool)
    requires Serves(server, universe) && LeadsTo(server, universe, page, listings, total, cap, r)
    requires 1 <= page <= p && (cap.None? || p <= cap.value)
    requires Ids(listings) == seen(page) && total == totals(page - 1)
    requires forall q: nat, xs :: q >= 1 && Ids(xs) == seen(q) ==> PageDecides(server, q, xs, seen, totals, goes)
    ensures p <= r.requests <==> AllGood(goes, page, p - 1)
    decreases Measure(universe, page, listings)
  {
    if p == page {
      RequestsAreCapped(server, universe, page, listings, total, cap, r);
    } else {
      assert PageDecides(server, page, listings, seen, totals, goes);
      Round(server, universe, page, listings, total, cap, r);
      if goes(page) {
        var after, known := After(server, page, listings), Known(server.answer(page), total);
        AskedFrom(server, universe, page + 1, after, known, cap, r, p, seen, totals, goes);
      }
    }
  }

  /** This page is requested if the cap allows it, and no page above the cap. */
  lemma {:induction false} RequestsAreCapped(server: Server, universe: set<Id>, page: nat, listings: seq<Item>,
                                             total: nat, cap: Option<nat>, r: Crawl)
    requires Serves(server, universe) && LeadsTo(server, universe, page, listings, total, cap, r)
    ensures if cap.Some? && page > cap.value then r.requests == page - 1
            else page <= r.requests && (cap.Some? ==> r.requests <= cap.value)
    decreases Measure(universe, page, listings)
  {
    if cap.Some? && page > cap.value {
      CapStops(server, universe, page, listings, total, cap, r);
    } else {
      var ends := EndsWith(server, universe, page, listings, total, cap, r);
      if !ends {
        RequestsAreCapped(server, universe, page + 1, After(server, page, listings), Known(server.answer(page), total),
                          cap, r);
      }
    }
  }

  /** Page p is requested exactly when the cap allows it and every earlier page goes on. */
  lemma RequestedExactly(server: Server, universe: set<Id>, cap: Option<nat>, p: nat)
    requires Serves(server, universe) && p >= 1
    ensures p <= FetchAll(server, universe, cap).requests <==> IsReached(server, cap, p)
  {
    var r, goes := FetchAll(server, universe, cap), Goes(server);
    RequestsAreCapped(server, universe, 1, [], 0, cap, r);
    forall q: nat, xs | q >= 1 && Ids(xs) == SeenBefore(server)(q)
      ensures PageDecides(server, q, xs, SeenBefore(server), Totals(server), goes)
    {
      PagesDecide(server, q, xs);
    }
    if cap.None? || p <= cap.value {
      AskedFrom(server, universe, 1, [], 0, cap, r, p, SeenBefore(server), Totals(server), goes);
    }
    AllGoodIsForall(goes, 1, p - 1);
    assert forall q: nat :: q >= 1 ==> goes(q) == GoesOn(server, q);
  }

  /** Against any server the result lists an id twice exactly when some page that is reached repeats an id that no
      earlier page had listed: a page is deduplicated against the pages before it, not against itself. */
  lemma DuplicatesExactly(server: Server, universe: set<Id>, cap: Option<nat>)
    requires Serves(server, universe)
    ensures Distinct(FetchAll(server, universe, cap).listings)
       <==> forall p: nat :: IsReached(server, cap, p) ==> NoNewRepeat(server, p)
  {
    RequestedPagesDecide(server, universe, cap);
    forall p: nat | p >= 1 ensures p <= FetchAll(server, universe, cap).requests <==> IsReached(server, cap, p) {
      RequestedExactly(server, universe, cap, p);
    }
  }

  lemma RequestedPagesDecide(server: Server, universe: set<Id>, cap: Option<nat>)
    requires Serves(server, universe)
    ensures var r := FetchAll(server, universe, cap);
            (Distinct(r.listings) <==> forall p: nat :: 1 <= p <= r.requests ==> NoNewRepeat(server, p))
  {
    var kept, good := (xs: seq<Item>) => Distinct(xs), (p: nat) => NoNewRepeat(server, p);
    var r := FetchAll(server, universe, cap);
    forall p: nat, xs | p >= 1 && Ids(xs) == Before(server, p)
      ensures Ids(After(server, p, xs)) == Before(server, p + 1) && kept(After(server, p, xs)) == (kept(xs) && good(p))
    {
      PagesKeepDistinctness(server, p, xs);
    }
    KeptByGoodPages(server, universe, 1, [], 0, cap, r, kept, good);
    AllGoodIsForall(good, 1, r.requests);
    assert forall p: nat :: good(p) == NoNewRepeat(server, p);
    assert kept(r.listings) == Distinct(r.listings) && kept([]) == Distinct([]);
  }

  function Twins(item: Item, size: Size): Server {
    Server(p => if p == 1 then Page([item, item], 2) else Page([], 0), size)
  }

  /** One page with one listing twice: both copies are returned. */
  lemma DuplicateInOnePage(item: Item, size: Size)
    ensures Serves(Twins(item, size), {item.id})
    ensures FetchAll(Twins(item, size), {item.id}, None).listings == [item, item]
  {
    var server, universe, both := Twins(item, size), {item.id}, [item, item];
    FirstPageAdds(both);
    assert both[0].id in Ids(both) && Ids(both) == universe;
    assert After(server, 1, []) == [] + both == both;
    if Continues(server, 1, [], 0, None) {
      CrawlNext(server, universe, 1, [], 0, None);
      CrawlEnds(server, universe, 2, both, 2, None);
    } else {
      CrawlEnds(server, universe, 1, [], 0, None);
    }
    assert After(server, 2, both) == both + [] == both;
  }

  lemma {:induction false} RequestsFrom(server: Server, universe: set<Id>, page: nat, listings: seq<Item>, total: nat,
                                        cap: Option<nat>)
    requires Serves(server, universe) && page >= 1 && (page > 1 ==> listings != [])
    requires Ids(listings) <= universe && page - 1 <= |Ids(listings)| && (page == 1 ==> listings == [])
    ensures var r := CrawlFrom(server, universe, page, listings, total, cap);
            (r.requests <= |Ids(r.listings)| + 1)
    decreases |universe - Ids(listings)|, if page == 1 then 1 else 0
  {
    if page == 1 { FirstPageAdds(server.answer(page).items); }
    AddedCounts(listings, server.answer(page).items);
    if Continues(server, page, listings, total, cap) {
      CrawlNext(server, universe, page, listings, total, cap);
      RequestsFrom(server, universe, page + 1, After(server, page, listings), Known(server.answer(page), total), cap);
    } else {
      CrawlEnds(server, universe, page, listings, total, cap);
    }
  }

  lemma FirstPageAdds(batch: seq<Item>)
    ensures Unseen(batch, Ids([])) == batch
  {
    FilterAll((item: Item) => item.id !in Ids([]), batch);
  }

  lemma AddedCounts(listings: seq<Item>, batch: seq<Item>)
    ensures var added := Unseen(batch, Ids(listings));
            (|Ids(listings + added)| >= |Ids(listings)| + if added == [] then 0 else 1)
  {
    var added := Unseen(batch, Ids(listings));
    IdsConcat(listings, added);
    UnseenIds(batch, Ids(listings));
    if added != [] {
      assert added[0].id in Ids(added);
      Smaller(Ids(listings) + {added[0].id}, Ids(listings + added));
    } else {
      assert listings + added == listings;
    }
  }

  /** Whatever the server answers, the crawl asks for at most one page more than it found distinct ids. */
  lemma RequestsAreBounded(server: Server, universe: set<Id>, cap: Option<nat>)
    requires Serves(server, universe)
    ensures FetchAll(server, universe, cap).requests <= |Ids(FetchAll(server, universe, cap).listings)| + 1
  {
    RequestsFrom(server, universe, 1, [], 0, cap);
  }

  // The crawls as loops

  /** The body of the loop: one page requested and added, and whether the crawl stops there. */
  method FetchRound(server: Server, page: nat, listings: seq<Item>, seen: set<Id>, total: nat)
    returns (after: seq<Item>, met: set<Id>, known: nat, done: bool)
    requires seen == Ids(listings)
    ensures met == Ids(after)
    ensures known == Known(server.answer(page), total)
    ensures var added := Unseen(server.answer(page).items, Ids(listings));
            && done == (Exhausted(page, server.answer(page).items, added) || Reached(page, known, server.size))
            && after == After(server, page, listings)
  {
    var batch := server.answer(page).items;
    after, met, known := listings, seen, if server.answer(page).total != 0 then server.answer(page).total else total;
    var added := Unseen(batch, seen);
    if batch == [] || (page > 1 && added == []) {
      assert listings + added == listings;
      return after, met, known, true;
    }
    for i := 0 to |added|
      invariant after == listings + added[..i] && met == Ids(after)
    {
      IdsConcat(after, [added[i]]);
      assert [added[i]][0].id in Ids([added[i]]) && Ids([added[i]]) == {added[i].id};
      met := met + {added[i].id};
      after := after + [added[i]];
    }
    assert after == listings + added;
    var needed := if known != 0 then (known + server.size - 1) / server.size else page;
    done := page >= needed;
  }

  /** `fetch_all`. The universe is only there to show that the loop ends. */
  method FetchAllPages(server: Server, ghost universe: set<Id>, cap: Option<nat>)
    returns (listings: seq<Item>, total: nat, ghost requests: nat)
    requires Serves(server, universe)
    ensures listings == FetchAll(server, universe, cap).listings && total == FetchAll(server, universe, cap).total
    ensures requests == FetchAll(server, universe, cap).requests
  {
    var page: nat, done := 1, false;
    var seen: set<Id> := {};
    ghost var r := FetchAll(server, universe, cap);
    listings, total, requests := [], 0, 0;
    while !done && (cap.None? || page <= cap.value)
      invariant seen == Ids(listings)
      invariant if done then Crawl(listings, total, requests) == r
                else requests == page - 1 && LeadsTo(server, universe, page, listings, total, cap, r)
      decreases if done then 0 else 1, Measure(universe, page, listings)
    {
      Round(server, universe, page, listings, total, cap, r);
      requests := page;
      listings, seen, total, done := FetchRound(server, page, listings, seen, total);
      if !done {
        page := page + 1;
      }
    }
  }

  /** The items not seen before, each id once: what `fetch_pages` appends from a batch. */
  function Merged(listings: seq<Item>, batch: seq<Item>): seq<Item>
    decreases |batch|
  {
    if batch == [] then listings
    else Merged(if batch[0].id in Ids(listings) then listings else listings + [batch[0]], batch[1..])
  }

  /** `fetch_pages` from page `page` up to page `last`. */
  function Gathered(server: Server, page: nat, last: nat, listings: seq<Item>): seq<Item>
    decreases last + 1 - page
  {
    if page > last || server.answer(page).items == [] then listings
    else Gathered(server, page + 1, last, Merged(listings, server.answer(page).items))
  }

  /** The total known after the same pages: the last one reported, also by the empty page that ends the loop. */
  function Reported(server: Server, page: nat, last: nat, total: nat): nat
    decreases last + 1 - page
  {
    if page > last then total else
      var known := Known(server.answer(page), total);
      if server.answer(page).items == [] then known else Reported(server, page + 1, last, known)
  }

  method FetchPages(server: Server, pages: nat) returns (listings: seq<Item>, total: nat)
    ensures listings == Gathered(server, 1, if pages == 0 then 1 else pages, [])
    ensures total == Reported(server, 1, if pages == 0 then 1 else pages, 0)
  {
    var last := if pages == 0 then 1 else pages;
    var seen: set<Id> := {};
    listings, total := [], 0;
    for page: nat := 1 to last + 1
      invariant seen == Ids(listings)
      invariant Gathered(server, page, last, listings) == Gathered(server, 1, last, [])
      invariant Reported(server, page, last, total) == Reported(server, 1, last, 0)
    {
      var Page(batch, reported) := server.answer(page);
      if reported != 0 {
        total := reported;
      }
      if batch == [] {
        return;
      }
      ghost var merged := Merged(listings, batch);
      for i := 0 to |batch|
        invariant seen == Ids(listings)
        invariant Merged(listings, batch[i..]) == merged
      {
        assert batch[i..][1..] == batch[i + 1..];
        if batch[i].id !in seen {
          IdsConcat(listings, [batch[i]]);
          assert [batch[i]][0].id in Ids([batch[i]]) && Ids([batch[i]]) == {batch[i].id};
          seen := seen + {batch[i].id};
          listings := listings + [batch[i]];
        }
      }
    }
  }

  lemma {:induction false} MergedIs(listings: seq<Item>, batch: seq<Item>)
    requires Distinct(listings)
    ensures Distinct(Merged(listings, batch)) && Ids(Merged(listings, batch)) == Ids(listings) + Ids(batch)
    decreases |batch|
  {
    if batch != [] {
      var x := batch[0];
      var next := if x.id in Ids(listings) then listings else listings + [x];
      assert batch == [x] + batch[1..];
      IdsConcat([x], batch[1..]);
      IdsConcat(listings, [x]);
      assert [x][0].id in Ids([x]) && Ids([x]) == {x.id};
      if x.id !in Ids(listings) { AppendDistinct(listings, [x]); }
      MergedIs(next, batch[1..]);
    }
  }

  /** When a batch repeats no new id, merging it is appending its unseen items. */
  lemma {:induction false} MergedIsAppended(listings: seq<Item>, batch: seq<Item>)
    requires NoRepeatOutside(batch, Ids(listings))
    ensures Merged(listings, batch) == listings + Unseen(batch, Ids(listings))
    decreases |batch|
  {
    if batch == [] {
      assert listings + [] == listings;
    } else {
      var x, rest := batch[0], batch[1..];
      assert batch == [x] + rest;
      ConsNoRepeat(x, rest, Ids(listings));
      if x.id in Ids(listings) {
        MergedIsAppended(listings, rest);
      } else {
        IdsConcat(listings, [x]);
        assert [x][0].id in Ids([x]) && Ids([x]) == {x.id};
        MergedIsAppended(listings + [x], rest);
        UnseenSame(rest, Ids(listings), x.id);
        assert (listings + [x]) + Unseen(rest, Ids(listings)) == listings + ([x] + Unseen(rest, Ids(listings)));
      }
    }
  }

  lemma {:induction false} UnseenSame(batch: seq<Item>, seen: set<Id>, id: Id)
    requires id !in Ids(batch)
    ensures Unseen(batch, seen + {id}) == Unseen(batch, seen)
  {
    if batch != [] {
      assert batch == [batch[0]] + batch[1..];
      assert batch[0].id in Ids(batch);
      IdsConcat([batch[0]], batch[1..]);
      UnseenSame(batch[1..], seen, id);
    }
  }

  lemma GatheredNext(server: Server, page: nat, last: nat, listings: seq<Item>)
    requires page <= last && server.answer(page).items != []
    ensures Gathered(server, page, last, listings)
         == Gathered(server, page + 1, last, Merged(listings, server.answer(page).items))
  {
  }

  lemma {:induction false} GatheredFrom(server: Server, page: nat, last: nat, listings: seq<Item>)
    requires Distinct(listings)
    ensures Distinct(Gathered(server, page, last, listings))
    decreases last + 1 - page
  {
    if page <= last && server.answer(page).items != [] {
      var next := Merged(listings, server.answer(page).items);
      assert Distinct(next) by { MergedIs(listings, server.answer(page).items); }
      GatheredNext(server, page, last, listings);
      GatheredFrom(server, page + 1, last, next);
    }
  }

  /** `fetch_pages` never returns an id twice, whatever the server answers. */
  lemma FetchPagesHasNoDuplicates(server: Server, last: nat)
    ensures Distinct(Gathered(server, 1, last, []))
  {
    GatheredFrom(server, 1, last, []);
  }

  lemma EmptyPageIsLast(xs: seq<Item>, page: nat, last: nat, size: Size)
    requires 1 <= page <= last && Slice(xs, page, size) == []
    ensures Prefix(xs, page - 1, size) == Prefix(xs, last, size)
  {
    assert page * size == (page - 1) * size + size;
    GrowsByFactor(page - 1, last, size);
  }

  /** What a page of a stable server does to the merged pages. */
  lemma MergedStable(server: Server, xs: seq<Item>, page: nat)
    requires Lists(server, xs) && Distinct(xs) && page >= 1
    ensures Merged(Prefix(xs, page - 1, server.size), server.answer(page).items) == Prefix(xs, page, server.size)
  {
    assert PageOf(server, xs, page);
    NextPageIsUnseen(xs, page, server.size);
    SliceIsDistinct(xs, page, server.size);
    MergedIsAppended(Prefix(xs, page - 1, server.size), Slice(xs, page, server.size));
  }

  lemma SliceIsDistinct(xs: seq<Item>, page: nat, size: Size)
    requires Distinct(xs) && page >= 1
    ensures Distinct(Slice(xs, page, size))
  {
    GrowsByFactor(page - 1, page, size);
  }

  lemma EmptyIsLast(server: Server, xs: seq<Item>, page: nat, last: nat)
    requires Lists(server, xs) && 1 <= page <= last && server.answer(page).items == []
    ensures Prefix(xs, page - 1, server.size) == Prefix(xs, last, server.size)
  {
    assert PageOf(server, xs, page);
    EmptyPageIsLast(xs, page, last, server.size);
  }

  lemma {:induction false} GatheredStable(server: Server, xs: seq<Item>, page: nat, last: nat, listings: seq<Item>)
    requires Lists(server, xs) && Distinct(xs) && 1 <= page <= last + 1
    requires listings == Prefix(xs, page - 1, server.size)
    ensures Gathered(server, page, last, listings) == Prefix(xs, last, server.size)
    decreases last + 1 - page
  {
    if page <= last {
      if server.answer(page).items == [] {
        EmptyIsLast(server, xs, page, last);
      } else {
        MergedStable(server, xs, page);
        GatheredStable(server, xs, page + 1, last, Merged(listings, server.answer(page).items));
      }
    }
  }

  lemma {:induction false} ReportedStable(server: Server, xs: seq<Item>, page: nat, last: nat)
    requires Lists(server, xs) && 1 <= page <= last + 1
    ensures Reported(server, page, last, |xs|) == |xs|
    decreases last + 1 - page
  {
    if page <= last {
      assert PageOf(server, xs, page);
      ReportedStable(server, xs, page + 1, last);
    }
  }

  /** Against any server the total is one that a page reported, or 0 when none of the pages did. */
  lemma {:induction false} ReportedByAPage(server: Server, page: nat, last: nat, total: nat)
    ensures var r := Reported(server, page, last, total);
            r == total || exists p :: page <= p <= last && server.answer(p).total == r != 0
    decreases last + 1 - page
  {
    if page <= last && server.answer(page).items != [] {
      ReportedByAPage(server, page + 1, last, Known(server.answer(page), total));
    }
  }

  /** Against a stable server the first `last` pages are exactly the prefix of the list, as `fetch_all` under the same
      page limit returns it. */
  lemma FetchPagesIsPrefix(server: Server, universe: set<Id>, xs: seq<Item>, last: nat)
    requires Serves(server, universe) && Lists(server, xs) && Distinct(xs)
    ensures Gathered(server, 1, last, []) == Prefix(xs, last, server.size) == FetchAll(server, universe, Some(last)).listings
    ensures Reported(server, 1, last, 0) == if last == 0 then 0 else |xs|
  {
    if last > 0 {
      assert PageOf(server, xs, 1);
      ReportedStable(server, xs, 2, last);
    }
    GatheredStable(server, xs, 1, last, []);
    FetchAllIsComplete(server, universe, xs, Some(last));
  }
}
