/** The article list of app/cms.py: slug allocation, saving, deleting and due publication. Articles keep the fields
    these operations read or write; `rest` stands for the others. Slug folding and date parsing are parameters. */
module Cms {
  import opened Seqs
  import opened Decimals

  type Id = string
  type Slug = string

  datatype Article = Article(id: Id, slug: Slug, title: string, crumb: string, author: string, status: string,
                             publishedAt: string, featured: bool, updatedAt: string, rest: string)

  /** The fields a request sets. */
  datatype Payload = Payload(slug: Option<string>, title: Option<string>, crumb: Option<string>, author: Option<string>,
                             status: Option<string>, publishedAt: Option<string>, featured: Option<bool>,
                             rest: Option<string>)

  datatype Env = Env(slugify: string -> Slug, parse: string -> Option<int>)

  datatype Saved = Saved(articles: seq<Article>, article: Option<Article>)

  function Numbered(base: Slug, index: nat): Slug { base + "-" + Decimal(index) }

  lemma NumberedInjective(base: Slug, i: nat, j: nat)
    requires Numbered(base, i) == Numbered(base, j)
    ensures i == j
  {
    assert Numbered(base, i)[|base| + 1..] == Decimal(i);
    assert Numbered(base, j)[|base| + 1..] == Decimal(j);
    DecimalInjective(i, j);
  }

  function Slugs(articles: seq<Article>): set<Slug> {
    set a | a in articles :: a.slug
  }

  /** Slugs of the other articles. */
  function Taken(articles: seq<Article>, id: Id): set<Slug> {
    set a | a in articles && a.id != id :: a.slug
  }

  /** The slugs tried before index `index`. */
  function Tried(base: Slug, index: nat): set<Slug> {
    if index <= 2 then {} else Tried(base, index - 1) + {Numbered(base, index - 1)}
  }

  lemma {:induction false} TriedMembers(base: Slug, index: nat, slug: Slug)
    ensures slug in Tried(base, index) <==> exists i: nat :: 2 <= i < index && slug == Numbered(base, i)
  {
    if index > 2 { TriedMembers(base, index - 1, slug); }
  }

  lemma NotTriedBefore(base: Slug, index: nat)
    requires index >= 2
    ensures Numbered(base, index) !in Tried(base, index)
  {
    TriedMembers(base, index, Numbered(base, index));
    forall i: nat | 2 <= i < index ensures Numbered(base, i) != Numbered(base, index) {
      if Numbered(base, i) == Numbered(base, index) { NumberedInjective(base, i, index); }
    }
  }

  lemma {:induction false} TriedCount(base: Slug, index: nat)
    requires index >= 2
    ensures |Tried(base, index)| == index - 2
  {
    if index > 2 {
      TriedCount(base, index - 1);
      NotTriedBefore(base, index - 1);
    }
  }

  /** Pigeonhole: a run of taken numbered slugs is no longer than the taken set. */
  lemma TriedFits(base: Slug, index: nat, taken: set<Slug>)
    requires index >= 2 && Tried(base, index) <= taken
    ensures index - 2 <= |taken|
  {
    TriedCount(base, index);
    assert taken == Tried(base, index) + (taken - Tried(base, index));
  }

  /** `base` if it is free, else the first free `base-2`, `base-3`, ... */
  ghost predicate IsUniqueSlug(base: Slug, taken: set<Slug>, slug: Slug) {
    if base !in taken then slug == base
    else exists index: nat :: index >= 2 && slug == Numbered(base, index) && slug !in taken && Tried(base, index) <= taken
  }

  lemma FreeIsNotTried(base: Slug, taken: set<Slug>, i: nat, j: nat)
    requires i >= 2 && Numbered(base, i) !in taken && Tried(base, j) <= taken
    ensures j <= i
  {
    if i < j { TriedMembers(base, j, Numbered(base, i)); }
  }

  lemma UniqueSlugIsUnique(base: Slug, taken: set<Slug>, a: Slug, b: Slug)
    requires IsUniqueSlug(base, taken, a) && IsUniqueSlug(base, taken, b)
    ensures a == b
  {
    if base in taken {
      var i: nat :| i >= 2 && a == Numbered(base, i) && a !in taken && Tried(base, i) <= taken;
      var j: nat :| j >= 2 && b == Numbered(base, j) && b !in taken && Tried(base, j) <= taken;
      FreeIsNotTried(base, taken, i, j);
      FreeIsNotTried(base, taken, j, i);
    }
  }

  /** The suffix search ends, after at most as many tries as there are taken slugs. */
  method UniqueSlug(base: Slug, taken: set<Slug>) returns (slug: Slug, ghost tries: nat)
    ensures IsUniqueSlug(base, taken, slug) && slug !in taken
    ensures tries <= |taken| + 1
  {
    if base !in taken {
      return base, 0;
    }
    var index: nat := 2;
    tries := 1;
    while Numbered(base, index) in taken
      invariant index >= 2 && Tried(base, index) <= taken && tries == index - 1
      decreases |taken| + 2 - index
    {
      TriedFits(base, index + 1, taken);
      index := index + 1;
      tries := tries + 1;
    }
    TriedFits(base, index, taken);
    slug := Numbered(base, index);
  }

  // Editing

  function OrElse<T>(o: Option<T>, value: T): T { if o.Some? then o.value else value }

  function OrText(s: string, t: string): string { if s == "" then t else s }

  function Edited(a: Article, p: Payload): Article {
    a.(slug := OrElse(p.slug, a.slug), title := OrElse(p.title, a.title), crumb := OrElse(p.crumb, a.crumb),
       author := OrElse(p.author, a.author), status := OrElse(p.status, a.status),
       publishedAt := OrElse(p.publishedAt, a.publishedAt), featured := OrElse(p.featured, a.featured),
       rest := OrElse(p.rest, a.rest))
  }

  function SlugSource(a: Article): string { OrText(OrText(OrText(a.slug, a.title), a.crumb), a.id) }

  predicate IsStatus(status: string) { status == "draft" || status == "scheduled" || status == "published" }

  /** The rest of `apply_payload`, once the slug is allocated. */
  function Finished(a: Article, slug: Slug, now: string): Article {
    var status := if IsStatus(a.status) then a.status else "draft";
    var crumb := OrText(a.crumb, OrText(a.author, if |a.title| <= 40 then a.title else a.title[..40]));
    var published := if status == "published" then OrText(a.publishedAt, now) else a.publishedAt;
    a.(slug := slug, crumb := crumb, status := status, publishedAt := published, updatedAt := now)
  }

  function Blank(id: Id, actor: string, now: string): Article {
    Article(id, "", "", "", "", "draft", "", false, now, actor)
  }

  /** Where an article is, by id or slug; |articles| if nowhere. */
  function Position(articles: seq<Article>, key: string): (i: nat)
    ensures i <= |articles|
    ensures i < |articles| ==> articles[i].id == key || articles[i].slug == key
    ensures forall j :: 0 <= j < i ==> articles[j].id != key && articles[j].slug != key
  {
    if articles == [] || articles[0].id == key || articles[0].slug == key then 0 else 1 + Position(articles[1..], key)
  }

  predicate IsNew(key: string) { key == "" || key == "novy" }

  /** An item of the list after `saved` was put in its place. */
  function Placed(item: Article, saved: Article): Article {
    if item.id == saved.id then saved
    else if saved.featured && item.featured then item.(featured := false) else item
  }

  function PlacedAll(articles: seq<Article>, saved: Article): (r: seq<Article>)
    ensures |r| == |articles|
  {
    seq(|articles|, i requires 0 <= i < |articles| => Placed(articles[i], saved))
  }

  /** What `apply_payload` makes of an article, for the allocated slug. */
  ghost predicate Applies(env: Env, articles: seq<Article>, current: Article, p: Payload, now: string, saved: Article) {
    exists slug :: IsUniqueSlug(env.slugify(SlugSource(Edited(current, p))), Taken(articles, current.id), slug)
                && saved == Finished(Edited(current, p), slug, now)
  }

  datatype Event =
    | Save(key: string, payload: Payload, newId: Id, actor: string, now: string)
    | Delete(key: string)
    | PublishDue(at: int)

  function Opened(articles: seq<Article>, e: Event): seq<Article>
    requires e.Save?
  {
    if IsNew(e.key) then articles + [Blank(e.newId, e.actor, e.now)] else articles
  }

  function OpenedAt(articles: seq<Article>, e: Event): nat
    requires e.Save?
  {
    if IsNew(e.key) then |articles| else Position(articles, e.key)
  }

  function Due(env: Env, at: int, item: Article): Article {
    var stamp := env.parse(item.publishedAt);
    if item.status == "scheduled" && stamp.Some? && stamp.value <= at then item.(status := "published") else item
  }

  function DueAll(env: Env, at: int, articles: seq<Article>): (r: seq<Article>)
    ensures |r| == |articles|
  {
    seq(|articles|, i requires 0 <= i < |articles| => Due(env, at, articles[i]))
  }

  /** One operation; a key that names nothing is an error and changes nothing. */
  ghost predicate Next(env: Env, articles: seq<Article>, e: Event, after: seq<Article>) {
    match e
    case Save(_, p, _, _, now) =>
      var list, i := Opened(articles, e), OpenedAt(articles, e);
      if i == |list| then after == articles
      else exists saved :: Applies(env, list, list[i], p, now, saved) && after == PlacedAll(list, saved)
    case Delete(key) => after == Filter((a: Article) => a.id != key && a.slug != key, articles)
    case PublishDue(at) => after == DueAll(env, at, articles)
  }

  // What every operation keeps

  ghost predicate DistinctIds(articles: seq<Article>) {
    forall i, j :: 0 <= i < j < |articles| ==> articles[i].id != articles[j].id
  }

  ghost predicate DistinctSlugs(articles: seq<Article>) {
    forall i, j :: 0 <= i < j < |articles| ==> articles[i].slug != articles[j].slug
  }

  ghost predicate OneFeatured(articles: seq<Article>) {
    forall i, j :: 0 <= i < j < |articles| ==> !(articles[i].featured && articles[j].featured)
  }

  ghost predicate Ok(articles: seq<Article>) {
    DistinctIds(articles) && DistinctSlugs(articles) && OneFeatured(articles)
  }

  ghost predicate Enabled(articles: seq<Article>, e: Event) {
    e.Save? ==> forall a :: a in articles ==> a.id != e.newId
  }

  /** Putting a saved article in place of one with its id, under a slug the others do not have. */
  lemma PlacingKeepsOk(list: seq<Article>, i: nat, saved: Article)
    requires i < |list| && DistinctIds(list) && saved.id == list[i].id && saved.slug !in Taken(list, saved.id)
    requires forall j, k :: 0 <= j < k < |list| && j != i && k != i ==> list[j].slug != list[k].slug
    requires OneFeatured(list)
    ensures Ok(PlacedAll(list, saved))
  {
    var after := PlacedAll(list, saved);
    forall j | 0 <= j < |list| && j != i ensures after[j].id != saved.id && after[j].slug != saved.slug {
      assert list[j] in list && list[j].id != saved.id;
      assert after[j].slug == list[j].slug;
    }
    assert after[i] == saved;
  }

  lemma SaveKeepsOk(env: Env, articles: seq<Article>, e: Event, after: seq<Article>)
    requires Ok(articles) && e.Save? && Enabled(articles, e) && Next(env, articles, e, after)
    ensures Ok(after)
  {
    var list, i := Opened(articles, e), OpenedAt(articles, e);
    if i < |list| {
      var saved :| Applies(env, list, list[i], e.payload, e.now, saved) && after == PlacedAll(list, saved);
      var edited := Edited(list[i], e.payload);
      var slug :| IsUniqueSlug(env.slugify(SlugSource(edited)), Taken(list, list[i].id), slug)
               && saved == Finished(edited, slug, e.now);
      if IsNew(e.key) {
        forall j | 0 <= j < |articles| ensures list[j].id != e.newId { assert articles[j] in articles; }
      }
      PlacingKeepsOk(list, i, saved);
    }
  }

  lemma DeleteKeepsOk(env: Env, articles: seq<Article>, e: Event, after: seq<Article>)
    requires Ok(articles) && e.Delete? && Next(env, articles, e, after)
    ensures Ok(after)
  {
    var f := (a: Article) => a.id != e.key && a.slug != e.key;
    UniqueFilter((a: Article) => a.id, f, articles);
    UniqueFilter((a: Article) => a.slug, f, articles);
    FeaturedFilter(f, articles);
  }

  lemma {:induction false} FeaturedFilter(f: Article -> bool, articles: seq<Article>)
    requires OneFeatured(articles)
    ensures OneFeatured(Filter(f, articles))
  {
    if articles != [] {
      assert OneFeatured(articles[1..]);
      FeaturedFilter(f, articles[1..]);
      FilterMembers(f, articles[1..]);
      var rest := Filter(f, articles[1..]);
      forall j | 0 <= j < |rest| ensures !(articles[0].featured && rest[j].featured) {
        assert rest[j] in rest;
        var k :| 0 <= k < |articles| - 1 && articles[1..][k] == rest[j];
        assert articles[k + 1] == rest[j];
      }
    }
  }

  /** Distinct ids and slugs and at most one featured article survive every operation. */
  lemma NextKeepsOk(env: Env, articles: seq<Article>, e: Event, after: seq<Article>)
    requires Ok(articles) && Enabled(articles, e) && Next(env, articles, e, after)
    ensures Ok(after)
  {
    match e
    case Save(_, _, _, _, _) => SaveKeepsOk(env, articles, e, after);
    case Delete(_) => DeleteKeepsOk(env, articles, e, after);
    case PublishDue(at) =>
      assert forall i :: 0 <= i < |after| ==> after[i] == Due(env, at, articles[i]);
  }

  ghost predicate IsRun(env: Env, states: seq<seq<Article>>, es: seq<Event>) {
    && |states| == |es| + 1 && Ok(states[0])
    && forall i :: 0 <= i < |es| ==> Enabled(states[i], es[i]) && Next(env, states[i], es[i], states[i + 1])
  }

  lemma {:induction false} RunKeepsOk(env: Env, states: seq<seq<Article>>, es: seq<Event>, i: nat)
    requires IsRun(env, states, es) && i < |states|
    ensures Ok(states[i])
  {
    if i > 0 {
      RunKeepsOk(env, states, es, i - 1);
      NextKeepsOk(env, states[i - 1], es[i - 1], states[i]);
    }
  }

  // What publication does over a run

  /** The save changes this article itself. */
  predicate Edits(articles: seq<Article>, e: Event, id: Id) {
    e.Save? && OpenedAt(articles, e) < |Opened(articles, e)| && Opened(articles, e)[OpenedAt(articles, e)].id == id
  }

  /** The article before an operation that does not edit it. */
  lemma WasThere(env: Env, articles: seq<Article>, e: Event, after: seq<Article>, a: Article) returns (b: Article)
    requires Ok(articles) && Enabled(articles, e) && Next(env, articles, e, after)
    requires a in after && !Edits(articles, e, a.id)
    ensures b in articles && b.id == a.id && a.publishedAt == b.publishedAt
    ensures a.status == if e.PublishDue? then Due(env, e.at, b).status else b.status
  {
    var k :| 0 <= k < |after| && after[k] == a;
    match e
    case Save(_, _, _, _, _) => b := SavedBeside(env, articles, e, after, k);
    case Delete(key) =>
      FilterMembers((x: Article) => x.id != key && x.slug != key, articles);
      b := a;
    case PublishDue(at) => b := articles[k];
  }

  lemma SavedBeside(env: Env, articles: seq<Article>, e: Event, after: seq<Article>, k: nat) returns (b: Article)
    requires e.Save? && Enabled(articles, e) && Next(env, articles, e, after) && k < |after|
    requires !Edits(articles, e, after[k].id)
    ensures b in articles && b.id == after[k].id && b.publishedAt == after[k].publishedAt && b.status == after[k].status
  {
    var list, i := Opened(articles, e), OpenedAt(articles, e);
    if i == |list| {
      b := after[k];
    } else {
      var saved :| Applies(env, list, list[i], e.payload, e.now, saved) && after == PlacedAll(list, saved);
      assert after[k] == Placed(list[k], saved) && saved.id == list[i].id;
      b := list[k];
      assert k != i;
    }
  }

  /** The status of an article after publications at these times. */
  ghost predicate BecomesDue(env: Env, b: Article, es: seq<Event>, i: nat, j: nat) {
    && b.status == "scheduled" && env.parse(b.publishedAt).Some?
    && exists m :: i <= m < j && m < |es| && es[m].PublishDue? && env.parse(b.publishedAt).value <= es[m].at
  }

  /** Over any stretch of a run that does not edit an article, publication moves it from scheduled to published exactly
      when its date is readable and reached by one of the publications; nothing else changes its status. */
  lemma {:induction false} PublishedExactlyWhenDue(env: Env, states: seq<seq<Article>>, es: seq<Event>, i: nat, j: nat,
                                                   b: Article, a: Article)
    requires IsRun(env, states, es) && i <= j < |states| && b in states[i] && a in states[j] && a.id == b.id
    requires forall m :: i <= m < j ==> !Edits(states[m], es[m], b.id)
    ensures a.publishedAt == b.publishedAt
    ensures a.status == if BecomesDue(env, b, es, i, j) then "published" else b.status
    decreases j
  {
    if i == j {
      RunKeepsOk(env, states, es, j);
      SameId(states[i], a, b);
    } else {
      var c := WasInRun(env, states, es, j - 1, a);
      PublishedExactlyWhenDue(env, states, es, i, j - 1, b, c);
      DueLater(env, b, es, i, j);
    }
  }

  lemma WasInRun(env: Env, states: seq<seq<Article>>, es: seq<Event>, j: nat, a: Article) returns (c: Article)
    requires IsRun(env, states, es) && j < |es| && a in states[j + 1] && !Edits(states[j], es[j], a.id)
    ensures c in states[j] && c.id == a.id && a.publishedAt == c.publishedAt
    ensures a.status == if es[j].PublishDue? then Due(env, es[j].at, c).status else c.status
  {
    RunKeepsOk(env, states, es, j);
    c := WasThere(env, states[j], es[j], states[j + 1], a);
  }

  /** One more event makes an article due exactly when it publishes what has been reached by then. */
  lemma DueLater(env: Env, b: Article, es: seq<Event>, i: nat, j: nat)
    requires i < j <= |es|
    ensures BecomesDue(env, b, es, i, j)
       <==> BecomesDue(env, b, es, i, j - 1)
            || (b.status == "scheduled" && env.parse(b.publishedAt).Some? && es[j - 1].PublishDue?
                && env.parse(b.publishedAt).value <= es[j - 1].at)
  {
  }

  lemma SameId(articles: seq<Article>, a: Article, b: Article)
    requires DistinctIds(articles) && a in articles && b in articles && a.id == b.id
    ensures a == b
  {
  }

  /** The article store as the program runs it. */
  class ArticleStore {
    var articles: seq<Article>

    constructor (seed: seq<Article>)
      ensures articles == seed
    {
      articles := seed;
    }

    method FindArticle(list: seq<Article>, key: string) returns (i: nat)
      ensures i == Position(list, key)
    {
      i := 0;
      while i < |list| && list[i].id != key && list[i].slug != key
        invariant i <= |list| && forall j :: 0 <= j < i ==> list[j].id != key && list[j].slug != key
      {
        i := i + 1;
      }
      PositionUnique(list, key, i);
    }

    method ApplyPayload(env: Env, current: Article, p: Payload, list: seq<Article>, now: string) returns (saved: Article)
      ensures Applies(env, list, current, p, now, saved) && saved.id == current.id
    {
      var edited := Edited(current, p);
      var slug, _ := UniqueSlug(env.slugify(SlugSource(edited)), Taken(list, current.id));
      saved := Finished(edited, slug, now);
    }

    method SaveArticle(env: Env, key: string, p: Payload, newId: Id, actor: string, now: string)
      returns (saved: Option<Article>)
      modifies this
      ensures Next(env, old(articles), Save(key, p, newId, actor, now), articles)
      ensures saved.Some? ==> saved.value in articles
      ensures saved.None? <==> !IsNew(key) && Position(old(articles), key) == |old(articles)|
    {
      var list := articles;
      var i;
      if IsNew(key) {
        i := |list|;
        list := list + [Blank(newId, actor, now)];
      } else {
        i := FindArticle(list, key);
        if i == |list| {
          return None;
        }
      }
      var article := ApplyPayload(env, list[i], p, list, now);
      var next := [];
      for j := 0 to |list|
        invariant next == PlacedAll(list, article)[..j]
      {
        var item := list[j];
        if item.id == article.id {
          item := article;
        } else if article.featured && item.featured {
          item := item.(featured := false);
        }
        next := next + [item];
      }
      assert next == PlacedAll(list, article);
      assert next[i] == article;
      articles := next;
      saved := Some(article);
    }

    method DeleteArticle(key: string) returns (found: bool)
      modifies this
      ensures articles == Filter((a: Article) => a.id != key && a.slug != key, old(articles))
      ensures found <==> |articles| != |old(articles)|
    {
      var kept := [];
      for i := 0 to |articles|
        invariant articles == old(articles)
        invariant kept == Filter((a: Article) => a.id != key && a.slug != key, articles[..i])
      {
        FilterConcat((a: Article) => a.id != key && a.slug != key, articles[..i], [articles[i]]);
        assert articles[..i + 1] == articles[..i] + [articles[i]];
        if articles[i].id != key && articles[i].slug != key {
          kept := kept + [articles[i]];
        }
      }
      assert articles[..|articles|] == articles;
      found := |kept| != |articles|;
      if found {
        articles := kept;
      } else {
        FilterKeepsAll((a: Article) => a.id != key && a.slug != key, articles);
      }
    }

    method PublishDueArticles(env: Env, at: int) returns (changed: bool)
      modifies this
      ensures articles == DueAll(env, at, old(articles))
    {
      changed := false;
      var i := 0;
      while i < |articles|
        invariant i <= |articles| == |old(articles)|
        invariant forall j :: 0 <= j < i ==> articles[j] == Due(env, at, old(articles)[j])
        invariant forall j :: i <= j < |articles| ==> articles[j] == old(articles)[j]
      {
        var item := articles[i];
        if item.status == "scheduled" {
          var stamp := env.parse(item.publishedAt);
          if stamp.Some? && stamp.value <= at {
            articles := articles[i := item.(status := "published")];
            changed := true;
          }
        }
        i := i + 1;
      }
    }
  }

  lemma PositionUnique(list: seq<Article>, key: string, i: nat)
    requires i <= |list| && forall j :: 0 <= j < i ==> list[j].id != key && list[j].slug != key
    requires i < |list| ==> list[i].id == key || list[i].slug == key
    ensures Position(list, key) == i
  {
  }

  lemma {:induction false} FilterKeepsAll(f: Article -> bool, articles: seq<Article>)
    requires |Filter(f, articles)| == |articles|
    ensures Filter(f, articles) == articles
  {
    if articles != [] { FilterKeepsAll(f, articles[1..]); }
  }
}
