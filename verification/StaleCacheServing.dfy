/** What callers of `cached_stripe` get, in every run: from a fresh entry, from a stale one, and when they wait. */
module StaleCacheServing {
  import opened Seqs
  import opened Texts
  import opened StaleCache
  import opened StaleCacheRuns

  // ------------------------------------------------------------------ threads keep their place --

  /** This event is a step of thread `t`. */
  ghost predicate Moves(e: Event, t: nat) { !e.Tick? && !e.Invalidate? && e.tid == t }

  lemma PlaceStays(w: World, e: Event, t: nat)
    requires Enabled(w, e) && t in w.threads && !Moves(e, t)
    ensures t in Step(w, e).0.threads && Step(w, e).0.threads[t] == w.threads[t]
  {
  }

  /** Thread `t` takes a step at `i` and at `j`, and none between. */
  ghost predicate Next(es: seq<Event>, i: int, j: int, t: nat) {
    0 <= i < j < |es| && Moves(es[i], t) && Moves(es[j], t) && forall m :: i < m < j ==> !Moves(es[m], t)
  }

  lemma {:induction false} PlaceWaits(ws: seq<World>, es: seq<Event>, i: nat, j: nat, t: nat)
    requires IsRun(ws, es) && i < j < |ws| && t in ws[i + 1].threads && forall m :: i < m < j ==> !Moves(es[m], t)
    ensures t in ws[j].threads && ws[j].threads[t] == ws[i + 1].threads[t]
  {
    if i + 1 < j {
      PlaceWaits(ws, es, i, j - 1, t);
      PlaceStays(ws[j - 1], es[j - 1], t);
    }
  }

  // ------------------------------------------------------------------ the look-up --

  ghost predicate FreshAt(cache: map<Key, Entry>, k: Key, ttl: real, now: real) {
    k in cache && now - cache[k].stamp < ttl
  }

  /** The entry may still be shown while it is refreshed. */
  ghost predicate ShowableAt(cache: map<Key, Entry>, k: Key, maxStale: real, now: real) {
    k in cache && now - cache[k].stamp <= maxStale
  }

  /** The caller has its answer, which is this value of the key, and no other thread notices. */
  ghost predicate Answers(w: World, e: Event, t: nat, k: Key, value: Payload)
    requires Enabled(w, e)
  {
    && Step(w, e).1.Served? && Step(w, e).1.key == k && Step(w, e).1.value == value
    && Step(w, e).0 == w.(threads := w.threads - {t})
  }

  lemma LookCases(w: World, t: nat, k: Key, ttl: real, maxStale: real, now: real)
    requires Enabled(w, Look(t)) && w.threads[t] == Looking(k, ttl, maxStale, now)
    ensures var (v, reply) := Step(w, Look(t));
            && (FreshAt(w.cache, k, ttl, now) || (ShowableAt(w.cache, k, maxStale, now) && k in w.busy)
                ==> Answers(w, Look(t), t, k, w.cache[k].value))
            && (ShowableAt(w.cache, k, maxStale, now) && !FreshAt(w.cache, k, ttl, now) && k !in w.busy
                ==> && reply == Quiet && v.busy == w.busy + {k} && v.cache == w.cache && v.holders == w.holders
                    && v.threads == w.threads[t := Spawning(k, Served(k, w.cache[k].value, now - w.cache[k].stamp, Stale(maxStale)))])
            && (!ShowableAt(w.cache, k, maxStale, now) && !FreshAt(w.cache, k, ttl, now)
                ==> reply == Quiet && v == w.(threads := w.threads[t := Waiting(k, ttl)]))
  {
  }

  /** What a call gets from its look-up, by the entry it finds and its age when the call came. A fresh entry answers at
      once and starts nothing; so does one that may still be shown while its key is busy. If the key is not busy the
      answer comes when the refresh is started. Only without such an entry does the caller wait for the key's lock. */
  lemma LookUpServes(ws: seq<World>, es: seq<Event>, c: nat, i: nat, t: nat, k: Key, ttl: real, maxStale: real)
    requires IsRun(ws, es) && Next(es, c, i, t) && es[c] == Call(t, k, ttl, maxStale)
    ensures es[i] == Look(t)
    ensures var (w, v, now) := (ws[i], ws[i + 1], ws[c].clock);
            && (FreshAt(w.cache, k, ttl, now) || (ShowableAt(w.cache, k, maxStale, now) && k in w.busy)
                ==> Answers(w, es[i], t, k, w.cache[k].value))
            && (ShowableAt(w.cache, k, maxStale, now) && !FreshAt(w.cache, k, ttl, now) && k !in w.busy
                ==> Step(w, es[i]).1 == Quiet && v.busy == w.busy + {k} && v.cache == w.cache && RefreshesAt(v, t, k))
            && (!ShowableAt(w.cache, k, maxStale, now) && !FreshAt(w.cache, k, ttl, now)
                ==> Step(w, es[i]).1 == Quiet && v == w.(threads := w.threads[t := Waiting(k, ttl)]))
  {
    PlaceWaits(ws, es, c, i, t);
    LookCases(ws[i], t, k, ttl, maxStale, ws[c].clock);
  }

  /** The next step of a caller that found a stale entry of an idle key starts the refresh: the caller gets the value that
      its look-up found, or the exception if no thread can be started. */
  lemma ThreadStartServes(ws: seq<World>, es: seq<Event>, c: nat, i: nat, j: nat, t: nat, k: Key, ttl: real, maxStale: real)
    requires IsRun(ws, es) && Next(es, c, i, t) && es[c] == Call(t, k, ttl, maxStale) && Next(es, i, j, t)
    requires ShowableAt(ws[i].cache, k, maxStale, ws[c].clock) && !FreshAt(ws[i].cache, k, ttl, ws[c].clock) && k !in ws[i].busy
    ensures es[j].Spawn? && t !in ws[j + 1].threads
    ensures match es[j].worker
            case Some(bg) =>
              && Step(ws[j], es[j]).1.Served? && Step(ws[j], es[j]).1.key == k && Step(ws[j], es[j]).1.value == ws[i].cache[k].value
              && bg in ws[j + 1].threads && ws[j + 1].threads[bg] == Refreshing(k)
            case None => Step(ws[j], es[j]).1 == Raised(k)
  {
    PlaceWaits(ws, es, c, i, t);
    LookCases(ws[i], t, k, ttl, maxStale, ws[c].clock);
    PlaceWaits(ws, es, i, j, t);
  }

  // ------------------------------------------------------------------ waiting for the lock --

  /** A place of a caller, with the arguments of its call where it still has them. */
  ghost predicate PlaceOfCall(p: Place, k: Key, ttl: real, maxStale: real, now: real) {
    match p
    case Looking(key, l, s, n) => p == Looking(k, ttl, maxStale, now)
    case Waiting(key, l) => p == Waiting(k, ttl)
    case Peeking(key, l) => p == Peeking(k, ttl)
    case Judging(key, l, _) => key == k && l == ttl
    case Spawning(key, _) => key == k
    case Loading(key) => key == k
    case Keeping(key, _) => key == k
    case _ => false
  }

  ghost predicate OfWorker(p: Place) { p.Refreshing? || p.Storing? || p.Releasing? }

  lemma PlaceMovesOn(w: World, e: Event, t: nat, k: Key, ttl: real, maxStale: real, now: real)
    requires Enabled(w, e) && t in w.threads && t in Step(w, e).0.threads && PlaceOfCall(w.threads[t], k, ttl, maxStale, now)
    ensures PlaceOfCall(Step(w, e).0.threads[t], k, ttl, maxStale, now)
  {
    if !Moves(e, t) { PlaceStays(w, e, t); }
  }

  lemma PlaceStarts(w: World, e: Event, t: nat)
    requires Enabled(w, e) && t !in w.threads && t in Step(w, e).0.threads && !OfWorker(Step(w, e).0.threads[t])
    ensures e.Call? && e.tid == t && Step(w, e).0.threads[t] == Looking(e.key, e.ttl, e.maxStale, w.clock)
  {
  }

  lemma WorkerStays(w: World, e: Event, t: nat)
    requires Enabled(w, e) && t in w.threads && OfWorker(w.threads[t]) && t in Step(w, e).0.threads
    ensures OfWorker(Step(w, e).0.threads[t])
  {
    if !Moves(e, t) { PlaceStays(w, e, t); }
  }

  /** The call that a caller's place belongs to. */
  lemma {:induction false} CallOf(ws: seq<World>, es: seq<Event>, j: nat, t: nat) returns (c: nat)
    requires IsRun(ws, es) && j < |ws| && t in ws[j].threads && !OfWorker(ws[j].threads[t])
    ensures c < j && es[c].Call? && es[c].tid == t && forall m :: c < m <= j ==> t in ws[m].threads
    ensures PlaceOfCall(ws[j].threads[t], es[c].key, es[c].ttl, es[c].maxStale, ws[c].clock)
  {
    c := j - 1;
    if t in ws[c].threads {
      if OfWorker(ws[c].threads[t]) { WorkerStays(ws[c], es[c], t); }
      c := CallOf(ws, es, c, t);
      PlaceMovesOn(ws[j - 1], es[j - 1], t, es[c].key, es[c].ttl, es[c].maxStale, ws[c].clock);
    } else {
      PlaceStarts(ws[c], es[c], t);
    }
  }

  lemma WaitingByLooking(w: World, e: Event, t: nat)
    requires Enabled(w, e) && t in Step(w, e).0.threads && Step(w, e).0.threads[t].Waiting?
    ensures t in w.threads && (w.threads[t] == Step(w, e).0.threads[t] || (e == Look(t) && w.threads[t].Looking?))
  {
    if t in w.threads && !Moves(e, t) { PlaceStays(w, e, t); }
  }

  /** A thread waits for a key's lock only if its look-up found no entry of the key, or one too old for both bounds. */
  lemma {:induction false} WaitingHasReason(ws: seq<World>, es: seq<Event>, j: nat, t: nat) returns (c: nat, i: nat)
    requires IsRun(ws, es) && j < |ws| && t in ws[j].threads && ws[j].threads[t].Waiting?
    ensures c < i < j && es[c].Call? && es[c].tid == t && es[i] == Look(t) && es[c].key == ws[j].threads[t].key
    ensures es[c].key in ws[i].cache ==>
              && ws[c].clock - ws[i].cache[es[c].key].stamp >= es[c].ttl
              && ws[c].clock - ws[i].cache[es[c].key].stamp > es[c].maxStale
  {
    var m := j - 1;
    WaitingByLooking(ws[m], es[m], t);
    if ws[m].threads[t] == ws[j].threads[t] {
      c, i := WaitingHasReason(ws, es, m, t);
    } else {
      i := m;
      c := CallOf(ws, es, i, t);
      LookCases(ws[i], t, es[c].key, es[c].ttl, es[c].maxStale, ws[c].clock);
    }
  }

  /** Behind the lock a caller reads the entry once more at step `m` and judges it at step `j`: it gets the value if that
      is fresh by then, and otherwise loads, whatever else happened meanwhile. */
  lemma LockHolderServes(ws: seq<World>, es: seq<Event>, m: nat, j: nat, t: nat)
    requires IsRun(ws, es) && Next(es, m, j, t) && es[m] == Peek(t)
    ensures es[j] == Judge(t) && ws[m].threads[t].Peeking?
    ensures var (w, Peeking(k, ttl)) := (ws[j], ws[m].threads[t]);
            if FreshAt(ws[m].cache, k, ttl, w.clock)
            then Step(w, es[j]).1.Served? && Step(w, es[j]).1.key == k && Step(w, es[j]).1.value == ws[m].cache[k].value
                 && ws[j + 1] == w.(threads := w.threads - {t}, holders := w.holders - {k})
            else Step(w, es[j]).1 == Quiet && ws[j + 1] == w.(threads := w.threads[t := Loading(k)])
  {
    PlaceWaits(ws, es, m, j, t);
  }

  /** A load that succeeds at step `n` is stored at the next step `j` of its thread under the time of the storing; a caller
      behind the lock gets the value, a background refresh answers nobody. */
  lemma LoadIsStored(ws: seq<World>, es: seq<Event>, n: nat, j: nat, t: nat, value: Payload)
    requires IsRun(ws, es) && Next(es, n, j, t) && es[n] == LoadEnds(t, Some(value))
    ensures es[j] == Store(t)
    ensures var k := ws[n].threads[t].key;
            && ws[j + 1].cache == ws[j].cache[k := Entry(ws[j].clock, value)]
            && Step(ws[j], es[j]).1 == if ws[n].threads[t].Loading? then Loaded(k, value) else Quiet
  {
    PlaceWaits(ws, es, n, j, t);
  }

  /** A load that fails leaves every entry: a caller behind the lock gets the exception and frees the lock, a refresh only
      has to release its key. */
  lemma FailedLoadStoresNothing(w: World, t: nat)
    requires Enabled(w, LoadEnds(t, None))
    ensures var (v, reply, k) := (Step(w, LoadEnds(t, None)).0, Step(w, LoadEnds(t, None)).1, w.threads[t].key);
            && v.cache == w.cache && v.busy == w.busy
            && if w.threads[t].Loading? then reply == Raised(k) && v.holders == w.holders - {k} && t !in v.threads
               else reply == Quiet && v.holders == w.holders && v.threads == w.threads[t := Releasing(k)]
  {
  }

  // ------------------------------------------------------------------ invalidation --

  /** An invalidation drops exactly the entries whose key begins with one of the prefixes, all of them when none is given;
      it touches nothing else, so a load under way still stores its value. */
  lemma InvalidationIsExact(w: World, prefixes: seq<string>, k: Key)
    ensures var v := Step(w, Invalidate(prefixes)).0;
            && (k in v.cache <==> && k in w.cache && prefixes != []
                                  && forall p :: p in prefixes ==> !(|p| <= |k| && k[..|p|] == p))
            && (k in v.cache ==> v.cache[k] == w.cache[k])
            && v == w.(cache := v.cache)
  {
    forall p ensures StartsWith(k, p) <==> |p| <= |k| && k[..|p|] == p { StartsWithIs(k, p); }
  }
}
