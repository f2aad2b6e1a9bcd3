/** What a task's callback leaves in the shared results, and how long a result is reused. */
module LiveShareReuse {
  import opened Seqs
  import opened LiveShare

  // ------------------------------------------------------------------ what a callback keeps --

  ghost predicate HasKey(done: seq<Cached>, key: Key) { exists i :: 0 <= i < |done| && done[i].key == key }

  /** The entries at most `ttl` old. */
  ghost function Young(done: seq<Cached>, now: real, ttl: real): seq<Cached> {
    Filter((c: Cached) => now - c.at <= ttl, done)
  }

  /** What storing `c` makes of the results. An entry of its key gives its place to it and the others stay. A new key goes
      behind the others, which stay in order, all of them if there were less than 512; at 512, exactly those go that are
      older than the ttl or have 512 young ones at or behind them. */
  ghost predicate StoresOnly(before: seq<Cached>, after: seq<Cached>, c: Cached, ttl: real) {
    && (forall i :: 0 <= i < |before| && before[i].key == c.key ==> after == before[i := c])
    && (!HasKey(before, c.key) ==>
          && after == Filter((x: Cached) => x in after, before) + [c]
          && forall i :: 0 <= i < |before| ==>
               (before[i] in after <==>
                  |before| < 512 || (c.at - before[i].at <= ttl && |Young(before[i..], c.at, ttl)| < 512)))
  }

  lemma FindIs(done: seq<Cached>, i: nat)
    requires Unique(KeyOf, done) && i < |done|
    ensures Find(done, done[i].key) == i
  {
    var k := Find(done, done[i].key);
    assert KeyOf(done[k]) == KeyOf(done[i]);
  }

  lemma PutStoresOnly(done: seq<Cached>, c: Cached, ttl: real)
    requires Unique(KeyOf, done) && |done| <= 512 && ttl > 0.0
    ensures StoresOnly(done, Pruned(Put(done, c), c.at, ttl), c, ttl)
  {
    if HasKey(done, c.key) {
      var i :| 0 <= i < |done| && done[i].key == c.key;
      FindIs(done, i);
      forall k | 0 <= k < |done| && done[k].key == c.key ensures k == i { FindIs(done, k); }
    } else if |done| < 512 {
      AppendKeepsAll(done, c);
    } else {
      OverflowKeepsYoung(done, c, ttl, Pruned(done + [c], c.at, ttl));
    }
  }

  lemma AppendKeepsAll(done: seq<Cached>, c: Cached)
    ensures done + [c] == Filter((x: Cached) => x in done + [c], done) + [c]
    ensures forall i :: 0 <= i < |done| ==> done[i] in done + [c]
  {
    FilterAll((x: Cached) => x in done + [c], done);
  }

  /** With the new entry, the last 512 young ones are left. */
  lemma OverflowKeepsYoung(done: seq<Cached>, c: Cached, ttl: real, after: seq<Cached>)
    requires Unique(KeyOf, done) && !HasKey(done, c.key) && |done| == 512 && ttl > 0.0
    requires after == Pruned(done + [c], c.at, ttl)
    ensures after == Filter((x: Cached) => x in after, done) + [c]
    ensures forall i :: 0 <= i < |done| ==>
              (done[i] in after <==> c.at - done[i].at <= ttl && |Young(done[i..], c.at, ttl)| < 512)
  {
    var young := Young(done, c.at, ttl);
    YoungIsAlive(done + [c], c.at, ttl);
    FilterConcat((x: Cached) => c.at - x.at <= ttl, done, [c]);
    assert Young(done + [c], c.at, ttl) == young + [c];
    var k := if |young| < 512 then 0 else |young| - 511;
    assert after == young[k..] + [c];
    forall i | 0 <= i < |done|
      ensures done[i] in after <==> c.at - done[i].at <= ttl && |Young(done[i..], c.at, ttl)| < 512
    {
      PlaceAmongYoung(done, c.at, ttl, i, k);
      assert done[i].key != c.key;
    }
    SuffixIsFilter((x: Cached) => c.at - x.at <= ttl, done, k, after, c);
  }

  lemma YoungIsAlive(done: seq<Cached>, now: real, ttl: real)
    ensures Young(done, now, ttl) == Alive(done, now, ttl)
  {
    if done != [] {
      YoungIsAlive(done[1..], now, ttl);
    }
  }

  /** An entry is behind the first `k` young ones exactly if it is young and no more than the rest are at or behind it. */
  lemma PlaceAmongYoung(done: seq<Cached>, now: real, ttl: real, i: nat, k: nat)
    requires Unique(KeyOf, done) && i < |done| && k <= |Young(done, now, ttl)|
    ensures done[i] in Young(done, now, ttl)[k..]
       <==> now - done[i].at <= ttl && |Young(done[i..], now, ttl)| <= |Young(done, now, ttl)| - k
    ensures |Young(done[i..], now, ttl)| <= |Young(done, now, ttl)|
  {
    var f := (x: Cached) => now - x.at <= ttl;
    var young, p := Filter(f, done), |Filter(f, done[..i])|;
    assert done == done[..i] + done[i..];
    FilterConcat(f, done[..i], done[i..]);
    FilterMembers(f, done);
    UniqueFilter(KeyOf, f, done);
    assert Young(done, now, ttl) == young && Young(done[i..], now, ttl) == Filter(f, done[i..]);
    assert done[i] in young[k..] ==> done[i] in young;
    if f(done[i]) {
      assert young[p] == done[i];
      forall m | 0 <= m < |young| && young[m] == done[i] ensures m == p {
        assert KeyOf(young[m]) == KeyOf(young[p]);
      }
      if p >= k { assert young[k..][p - k] == done[i]; }
    }
  }

  /** The entries of a suffix of the filtered ones, filtered from all. */
  lemma SuffixIsFilter(f: Cached -> bool, done: seq<Cached>, k: nat, after: seq<Cached>, c: Cached)
    requires Unique(KeyOf, done) && !HasKey(done, c.key) && k <= |Filter(f, done)| && after == Filter(f, done)[k..] + [c]
    ensures after == Filter((x: Cached) => x in after, done) + [c]
  {
    var young, stays := Filter(f, done), (x: Cached) => x in after;
    FilterMembers(f, done);
    forall x | x in done ensures stays(x) <==> f(x) && x in young[k..] {
      assert x.key != c.key;
      if stays(x) { assert x in young; }
    }
    FilterTwice(f, stays, done);
    UniqueFilter(KeyOf, f, done);
    forall x | x in young ensures stays(x) <==> KeyOf(x) !in set i | 0 <= i < k :: KeyOf(young[i]) {
      var m :| 0 <= m < |young| && young[m] == x;
      assert x.key != c.key;
      forall n | 0 <= n < |young| && KeyOf(young[n]) == KeyOf(x) ensures n == m { }
      if m >= k { assert young[k..][m - k] == x; }
    }
    DropPrefixByKey(KeyOf, stays, young, k);
  }

  lemma FilterTwice(f: Cached -> bool, g: Cached -> bool, xs: seq<Cached>)
    requires forall x :: x in xs && g(x) ==> f(x)
    ensures Filter(g, xs) == Filter(g, Filter(f, xs))
  {
    if xs != [] {
      FilterTwice(f, g, xs[1..]);
    }
  }

  /** What a callback does: its task is not registered any more and no other is; a cacheable result is stored as stated,
      with the time of the callback, any other changes no entry. */
  lemma CallbackFrame(w: World, task: nat)
    requires Inv(w) && Enabled(w, Callback(task))
    ensures var (v, Task(key, ttl, progress)) := (Step(w, Callback(task)).0, w.tasks[task]);
            && v == w.(inflight := v.inflight, tasks := w.tasks[task := Task(key, ttl, CalledBack)], done := v.done)
            && (forall k :: k in v.inflight <==> k in w.inflight && w.inflight[k] != task)
            && (forall k :: k in v.inflight ==> v.inflight[k] == w.inflight[k])
            && match progress.outcome
               case Result(value, true) => StoresOnly(w.done, v.done, Cached(key, w.clock, value), ttl)
               case _ => v.done == w.done
  {
    var Task(key, ttl, progress) := w.tasks[task];
    match progress.outcome {
      case Result(value, true) => PutStoresOnly(w.done, Cached(key, w.clock, value), ttl);
      case _ =>
    }
  }

  // ------------------------------------------------------------------ how long a result is reused --

  /** This event stores a result of a new key while 512 are stored. */
  ghost predicate Overflows(w: World, e: Event) {
    && e.Callback? && e.task in w.tasks && w.tasks[e.task].progress.Ended?
    && w.tasks[e.task].progress.outcome.Result? && w.tasks[e.task].progress.outcome.cacheable
    && |w.done| == 512 && !HasKey(w.done, w.tasks[e.task].key)
  }

  /** This event stores a result of this key. */
  ghost predicate Replaces(w: World, e: Event, key: Key) { exists c: Cached :: c.key == key && StoredAt(w, e, c) }

  lemma EntryStays(w: World, e: Event, c: Cached)
    requires Inv(w) && Enabled(w, e) && c in w.done && !Overflows(w, e) && !Replaces(w, e, c.key)
    ensures c in Step(w, e).0.done
  {
    if e.Callback? {
      CallbackFrame(w, e.task);
      var outcome := w.tasks[e.task].progress.outcome;
      if outcome.Result? && outcome.cacheable {
        var stored := Cached(w.tasks[e.task].key, w.clock, outcome.value);
        assert StoredAt(w, e, stored);
        StoredBeside(w.done, Step(w, e).0.done, stored, w.tasks[e.task].ttl, c);
      }
    }
  }

  lemma StoredBeside(before: seq<Cached>, after: seq<Cached>, stored: Cached, ttl: real, c: Cached)
    requires StoresOnly(before, after, stored, ttl) && c in before && c.key != stored.key
    requires |before| < 512 || HasKey(before, stored.key)
    ensures c in after
  {
    var n :| 0 <= n < |before| && before[n] == c;
    if HasKey(before, stored.key) {
      var i :| 0 <= i < |before| && before[i].key == stored.key;
      assert before[i := stored][n] == c;
    }
  }

  lemma StoredAfterCallback(w: World, e: Event, c: Cached)
    requires Inv(w) && Enabled(w, e) && StoredAt(w, e, c)
    ensures c in Step(w, e).0.done
  {
    CallbackFrame(w, e.task);
    var after := Step(w, e).0.done;
    if HasKey(w.done, c.key) {
      var i :| 0 <= i < |w.done| && w.done[i].key == c.key;
      assert after[i] == c;
    } else {
      assert after[|after| - 1] == c;
    }
  }

  lemma {:induction false} EntryLasts(ws: seq<World>, es: seq<Event>, m: nat, i: nat, c: Cached)
    requires IsRun(ws, es) && m < i < |ws| && StoredAt(ws[m], es[m], c)
    requires forall n :: m < n < i ==> !Overflows(ws[n], es[n]) && !Replaces(ws[n], es[n], c.key)
    ensures c in ws[i].done
  {
    RunKeepsInv(ws, es, i - 1);
    if m < i - 1 {
      EntryLasts(ws, es, m, i - 1, c);
      EntryStays(ws[i - 1], es[i - 1], c);
    } else {
      StoredAfterCallback(ws[m], es[m], c);
    }
  }

  /** A cacheable result whose callback came at step `m` answers every call of its key that finds it within the call's
      ttl, until a later callback stores a result of that key or one of a new key into 512 stored ones. */
  lemma StoredResultIsReused(ws: seq<World>, es: seq<Event>, m: nat, i: nat, c: Cached)
    requires IsRun(ws, es) && m < i < |es| && StoredAt(ws[m], es[m], c)
    requires forall n :: m < n < i ==> !Overflows(ws[n], es[n]) && !Replaces(ws[n], es[n], c.key)
    requires es[i].Get? && es[i].key == c.key && es[i].ttl > 0.0 && ws[i].clock - c.at <= es[i].ttl
    ensures Step(ws[i], es[i]).1 == Reused(c.value, c.at)
  {
    EntryLasts(ws, es, m, i, c);
    RunKeepsInv(ws, es, i);
    var k :| 0 <= k < |ws[i].done| && ws[i].done[k] == c;
    FindIs(ws[i].done, k);
  }
}
