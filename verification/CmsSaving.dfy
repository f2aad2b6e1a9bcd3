/** What a save makes of the articles, field by field. */
module CmsSaving {
  import opened Seqs
  import opened Decimals
  import opened Cms

  /** A field takes the value that is given, and stays without one. */
  ghost predicate Takes<T>(given: Option<T>, was: T, now: T) {
    match given case Some(value) => now == value case None => now == was
  }

  /** The first text that is not empty, or the last one. */
  ghost predicate FirstText(texts: seq<string>, s: string) {
    exists i :: 0 <= i < |texts| && texts[i] == s && (s != "" || i == |texts| - 1) && forall j :: 0 <= j < i ==> texts[j] == ""
  }

  /** The base itself if no other article has it, and otherwise the base with the smallest free number from 2 on. */
  ghost predicate FreeSlug(base: Slug, others: set<Slug>, slug: Slug) {
    if base !in others then slug == base
    else exists n: nat :: n >= 2 && slug == base + "-" + Decimal(n) && slug !in others
                          && forall m: nat :: 2 <= m < n ==> base + "-" + Decimal(m) in others
  }

  /** The article as the request sets it, before it is completed. */
  ghost predicate SetBy(current: Article, p: Payload, a: Article) {
    && a.id == current.id && Takes(p.slug, current.slug, a.slug) && Takes(p.title, current.title, a.title)
    && Takes(p.crumb, current.crumb, a.crumb) && Takes(p.author, current.author, a.author)
    && Takes(p.status, current.status, a.status) && Takes(p.publishedAt, current.publishedAt, a.publishedAt)
    && Takes(p.featured, current.featured, a.featured) && Takes(p.rest, current.rest, a.rest)
  }

  /** What is saved of an article `a` as set: its own texts; a crumb from the author or the beginning of the title; draft
      for a status that is none; a date of publication once it is published; a free slug from the first of slug, title,
      crumb and id; and the time of the save. */
  ghost predicate Completed(env: Env, a: Article, others: set<Slug>, now: string, saved: Article) {
    && saved.id == a.id && saved.title == a.title && saved.author == a.author && saved.featured == a.featured
    && saved.rest == a.rest && saved.updatedAt == now
    && FirstText([a.crumb, a.author, if |a.title| <= 40 then a.title else a.title[..40]], saved.crumb)
    && saved.status == (if a.status in {"draft", "scheduled", "published"} then a.status else "draft")
    && saved.publishedAt == (if saved.status == "published" && a.publishedAt == "" then now else a.publishedAt)
    && exists source :: FirstText([a.slug, a.title, a.crumb, a.id], source) && FreeSlug(env.slugify(source), others, saved.slug)
  }

  ghost predicate SavedAs(env: Env, current: Article, p: Payload, others: set<Slug>, now: string, saved: Article) {
    exists a :: SetBy(current, p, a) && Completed(env, a, others, now, saved)
  }

  /** The list after a save of the article at `i`: it is there as saved, the others stay, except that none of them is
      featured any more when it is. */
  ghost predicate Replaces(before: seq<Article>, i: nat, saved: Article, after: seq<Article>)
    requires i < |before|
  {
    && |after| == |before| && after[i] == saved
    && forall j :: 0 <= j < |before| && j != i ==>
         after[j] == before[j].(featured := before[j].featured && !saved.featured)
  }

  lemma FirstOfFour(a: string, b: string, c: string, d: string)
    ensures FirstText([a, b, c, d], OrText(OrText(OrText(a, b), c), d))
  {
    var texts, s := [a, b, c, d], OrText(OrText(OrText(a, b), c), d);
    var i := if a != "" then 0 else if b != "" then 1 else if c != "" then 2 else 3;
    assert texts[i] == s && forall j :: 0 <= j < i ==> texts[j] == "";
  }

  lemma FirstOfThree(a: string, b: string, c: string)
    ensures FirstText([a, b, c], OrText(a, OrText(b, c)))
  {
    var texts, s := [a, b, c], OrText(a, OrText(b, c));
    var i := if a != "" then 0 else if b != "" then 1 else 2;
    assert texts[i] == s && forall j :: 0 <= j < i ==> texts[j] == "";
  }

  lemma UniqueIsFree(base: Slug, others: set<Slug>, slug: Slug)
    requires IsUniqueSlug(base, others, slug)
    ensures FreeSlug(base, others, slug)
  {
    if base in others {
      var n: nat :| n >= 2 && slug == Numbered(base, n) && slug !in others && Tried(base, n) <= others;
      assert slug == base + "-" + Decimal(n);
      forall m: nat | 2 <= m < n ensures base + "-" + Decimal(m) in others {
        TriedMembers(base, n, Numbered(base, m));
      }
    }
  }

  lemma EditedIsSet(current: Article, p: Payload)
    ensures SetBy(current, p, Edited(current, p))
  {
  }

  lemma FinishedIsCompleted(env: Env, a: Article, others: set<Slug>, slug: Slug, now: string)
    requires FreeSlug(env.slugify(SlugSource(a)), others, slug)
    ensures Completed(env, a, others, now, Finished(a, slug, now))
  {
    FirstOfFour(a.slug, a.title, a.crumb, a.id);
    FirstOfThree(a.crumb, a.author, if |a.title| <= 40 then a.title else a.title[..40]);
  }

  lemma AppliesIsSavedAs(env: Env, list: seq<Article>, current: Article, p: Payload, now: string, saved: Article)
    requires Applies(env, list, current, p, now, saved)
    ensures SavedAs(env, current, p, Taken(list, current.id), now, saved) && saved.id == current.id
  {
    var slug :| IsUniqueSlug(env.slugify(SlugSource(Edited(current, p))), Taken(list, current.id), slug)
             && saved == Finished(Edited(current, p), slug, now);
    UniqueIsFree(env.slugify(SlugSource(Edited(current, p))), Taken(list, current.id), slug);
    EditedIsSet(current, p);
    FinishedIsCompleted(env, Edited(current, p), Taken(list, current.id), slug, now);
  }

  lemma PlacedReplaces(list: seq<Article>, i: nat, saved: Article)
    requires i < |list| && DistinctIds(list) && saved.id == list[i].id
    ensures Replaces(list, i, saved, PlacedAll(list, saved))
  {
    forall j | 0 <= j < |list| && j != i
      ensures Placed(list[j], saved) == list[j].(featured := list[j].featured && !saved.featured)
    {
      assert list[j].id != saved.id;
    }
  }

  ghost predicate Names(a: Article, key: string) { a.id == key || a.slug == key }

  /** A new article: empty, a draft, by the one who opens it. */
  ghost predicate IsBlank(a: Article, id: Id, actor: string) {
    && a.id == id && a.slug == a.title == a.crumb == a.author == a.publishedAt == "" && a.status == "draft" && !a.featured
    && a.rest == actor
  }

  /** What a save does, in every list with distinct ids: under no key it adds a blank article as set by the request, under
      the id or slug of an article it saves the first such one, and under any other key it changes nothing. */
  lemma SaveIsExact(env: Env, articles: seq<Article>, e: Event, after: seq<Article>)
    requires DistinctIds(articles) && Enabled(articles, e) && e.Save? && Next(env, articles, e, after)
    ensures if e.key == "" || e.key == "novy" then
              exists blank, saved :: IsBlank(blank, e.newId, e.actor)
                && SavedAs(env, blank, e.payload, Slugs(articles), e.now, saved)
                && Replaces(articles + [blank], |articles|, saved, after)
            else if exists a :: a in articles && Names(a, e.key) then
              exists i, saved :: 0 <= i < |articles| && Names(articles[i], e.key)
                && (forall j :: 0 <= j < i ==> !Names(articles[j], e.key))
                && SavedAs(env, articles[i], e.payload, Taken(articles, articles[i].id), e.now, saved)
                && Replaces(articles, i, saved, after)
            else after == articles
  {
    if e.key == "" || e.key == "novy" {
      NewIsSaved(env, articles, e, after);
    } else if a :| a in articles && Names(a, e.key) {
      OldIsSaved(env, articles, e, after, a);
    } else {
      assert OpenedAt(articles, e) == |articles| by {
        var i := Position(articles, e.key);
        if i < |articles| { assert articles[i] in articles && Names(articles[i], e.key); }
      }
    }
  }

  lemma NewIsSaved(env: Env, articles: seq<Article>, e: Event, after: seq<Article>)
    requires DistinctIds(articles) && Enabled(articles, e) && e.Save? && IsNew(e.key) && Next(env, articles, e, after)
    ensures exists blank, saved :: IsBlank(blank, e.newId, e.actor)
              && SavedAs(env, blank, e.payload, Slugs(articles), e.now, saved)
              && Replaces(articles + [blank], |articles|, saved, after)
  {
    var blank := Blank(e.newId, e.actor, e.now);
    var list := articles + [blank];
    var saved :| Applies(env, list, blank, e.payload, e.now, saved) && after == PlacedAll(list, saved);
    assert Taken(list, blank.id) == Slugs(articles) by {
      forall a | a in list ensures a.id != blank.id <==> a in articles { }
    }
    forall j | 0 <= j < |articles| ensures list[j].id != blank.id { assert articles[j] in articles; }
    AppliesIsSavedAs(env, list, blank, e.payload, e.now, saved);
    PlacedReplaces(list, |articles|, saved);
    assert IsBlank(blank, e.newId, e.actor);
  }

  lemma OldIsSaved(env: Env, articles: seq<Article>, e: Event, after: seq<Article>, a: Article)
    requires DistinctIds(articles) && e.Save? && !IsNew(e.key) && a in articles && Names(a, e.key)
    requires Next(env, articles, e, after)
    ensures exists i, saved :: 0 <= i < |articles| && Names(articles[i], e.key)
              && (forall j :: 0 <= j < i ==> !Names(articles[j], e.key))
              && SavedAs(env, articles[i], e.payload, Taken(articles, articles[i].id), e.now, saved)
              && Replaces(articles, i, saved, after)
  {
    var i := Position(articles, e.key);
    var k :| 0 <= k < |articles| && articles[k] == a;
    assert i <= k;
    var saved :| Applies(env, articles, articles[i], e.payload, e.now, saved) && after == PlacedAll(articles, saved);
    AppliesIsSavedAs(env, articles, articles[i], e.payload, e.now, saved);
    PlacedReplaces(articles, i, saved);
  }

  /** Publication changes nothing but the status of articles, each in its place. */
  lemma PublicationChangesStatusOnly(env: Env, articles: seq<Article>, at: int, after: seq<Article>)
    requires Next(env, articles, PublishDue(at), after)
    ensures |after| == |articles|
    ensures forall i :: 0 <= i < |articles| ==>
      after[i] == articles[i].(status := if articles[i].status == "scheduled" && env.parse(articles[i].publishedAt).Some?
                                            && env.parse(articles[i].publishedAt).value <= at
                                         then "published" else articles[i].status)
  {
    forall i | 0 <= i < |articles| ensures after[i] == Due(env, at, articles[i]) { }
  }
}
