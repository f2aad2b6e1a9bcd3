/** What `cached_stripe` guarantees over whole runs, and its code section by section. */
module StaleCacheRuns {
  import opened Seqs
  import opened StaleCache

  ghost predicate IsRun(ws: seq<World>, es: seq<Event>) {
    && |ws| == |es| + 1
    && ws[0] == Start
    && forall i :: 0 <= i < |es| ==> Enabled(ws[i], es[i]) && ws[i + 1] == Step(ws[i], es[i]).0
  }

  lemma {:induction false} RunKeepsInv(ws: seq<World>, es: seq<Event>, i: nat)
    requires IsRun(ws, es) && i < |ws|
    ensures Inv(ws[i])
  {
    if i > 0 {
      RunKeepsInv(ws, es, i - 1);
      StepKeepsInv(ws[i - 1], es[i - 1]);
    }
  }

  ghost predicate RefreshesAt(w: World, t: nat, k: Key) {
    t in w.threads && IsRefresh(w.threads[t]) && w.threads[t].key == k
  }

  ghost predicate LocksAt(w: World, t: nat, k: Key) {
    t in w.threads && HoldsLock(w.threads[t]) && w.threads[t].key == k
  }

  /** At most one background refresh per key is pending or running, and at most one caller of a key is past its lock. */
  lemma OneRefreshAndOneColdStart(ws: seq<World>, es: seq<Event>, i: nat, k: Key, t: nat, u: nat)
    requires IsRun(ws, es) && i < |ws|
    ensures RefreshesAt(ws[i], t, k) && RefreshesAt(ws[i], u, k) ==> t == u
    ensures LocksAt(ws[i], t, k) && LocksAt(ws[i], u, k) ==> t == u
  {
    RunKeepsInv(ws, es, i);
  }

  /** A key is busy while its refresh is pending or running, also when its loader fails, and otherwise exactly if
      a refresh thread of it once could not be started. */
  lemma BusyExactlyWhileRefreshing(ws: seq<World>, es: seq<Event>, i: nat, k: Key)
    requires IsRun(ws, es) && i < |ws|
    ensures k in ws[i].busy <==> (exists t :: RefreshesAt(ws[i], t, k)) || k in ws[i].orphaned
    ensures (exists t :: RefreshesAt(ws[i], t, k)) ==> k !in ws[i].orphaned
  {
    var w := ws[i];
    RunKeepsInv(ws, es, i);
    if k in w.owners {
      assert RefreshesAt(w, w.owners[k], k);
    }
    if t :| RefreshesAt(w, t, k) {
      assert k in w.owners;
    }
  }

  /** Keys become orphaned only by a refresh thread that cannot be started. */
  lemma OrphanedOnlyByFailedStart(w: World, e: Event)
    requires Enabled(w, e)
    ensures w.orphaned <= Step(w, e).0.orphaned
    ensures Step(w, e).0.orphaned != w.orphaned ==> e.Spawn? && e.worker.None?
  {
  }

  lemma {:induction false} OrphanedGrows(ws: seq<World>, es: seq<Event>, i: nat, j: nat)
    requires IsRun(ws, es) && i <= j < |ws|
    ensures ws[i].orphaned <= ws[j].orphaned
    decreases j
  {
    if i < j {
      OrphanedGrows(ws, es, i, j - 1);
      OrphanedOnlyByFailedStart(ws[j - 1], es[j - 1]);
    }
  }

  /** An orphaned key stays busy for good and never again gets a background refresh. */
  lemma OrphanedForGood(ws: seq<World>, es: seq<Event>, i: nat, j: nat, k: Key, t: nat)
    requires IsRun(ws, es) && i <= j < |ws| && k in ws[i].orphaned
    ensures k in ws[j].busy && !RefreshesAt(ws[j], t, k)
  {
    OrphanedGrows(ws, es, i, j);
    RunKeepsInv(ws, es, j);
  }

  /** A run in which that happens: one cold start, one stale hit, and a thread that cannot be started. */
  function ExampleEvents(k: Key): seq<Event> {
    [Call(1, k, 60.0, 1800.0), Look(1), Acquire(1), Peek(1), Judge(1), LoadEnds(1, Some(7)), Store(1),
     Tick(100.0), Call(2, k, 60.0, 1800.0), Look(2), Spawn(2, None)]
  }

  function ExampleWorld(k: Key, i: nat): World {
    var cold := Start.(holders := map[k := 1]);
    var warm := Start.(cache := map[k := Entry(0.0, 7)], loads := {(k, 7)});
    var later := warm.(clock := 100.0);
    var reply := Served(k, 7, 100.0, Stale(1800.0));
    if i == 0 then Start
    else if i == 1 then Start.(threads := map[1 := Looking(k, 60.0, 1800.0, 0.0)])
    else if i == 2 then Start.(threads := map[1 := Waiting(k, 60.0)])
    else if i == 3 then cold.(threads := map[1 := Peeking(k, 60.0)])
    else if i == 4 then cold.(threads := map[1 := Judging(k, 60.0, None)])
    else if i == 5 then cold.(threads := map[1 := Loading(k)])
    else if i == 6 then cold.(threads := map[1 := Keeping(k, 7)], loads := {(k, 7)})
    else if i == 7 then warm
    else if i == 8 then later
    else if i == 9 then later.(threads := map[2 := Looking(k, 60.0, 1800.0, 100.0)])
    else if i == 10 then later.(busy := {k}, owners := map[k := 2], threads := map[2 := Spawning(k, reply)])
    else later.(busy := {k}, orphaned := {k})
  }

  lemma ColdExampleStep(k: Key, i: nat)
    requires i < 6
    ensures Enabled(ExampleWorld(k, i), ExampleEvents(k)[i])
    ensures Step(ExampleWorld(k, i), ExampleEvents(k)[i]).0 == ExampleWorld(k, i + 1)
  {
  }

  lemma WarmExampleStep(k: Key, i: nat)
    requires 6 <= i < 11
    ensures Enabled(ExampleWorld(k, i), ExampleEvents(k)[i])
    ensures Step(ExampleWorld(k, i), ExampleEvents(k)[i]).0 == ExampleWorld(k, i + 1)
  {
    var w := ExampleWorld(k, i);
    if i == 6 {
      assert w.holders - {k} == map[] && w.threads - {1} == map[];
    } else if i == 10 {
      assert w.threads - {2} == map[] && w.owners - {k} == map[];
    }
  }

  lemma ExampleStep(k: Key, i: nat)
    requires i < 11
    ensures Enabled(ExampleWorld(k, i), ExampleEvents(k)[i])
    ensures Step(ExampleWorld(k, i), ExampleEvents(k)[i]).0 == ExampleWorld(k, i + 1)
  {
    if i < 6 { ColdExampleStep(k, i); } else { WarmExampleStep(k, i); }
  }

  lemma OrphanExample(k: Key) returns (ws: seq<World>, es: seq<Event>)
    ensures IsRun(ws, es)
    ensures k in ws[|es|].busy && ws[|es|].threads == map[]
  {
    es := ExampleEvents(k);
    ws := seq(12, i requires 0 <= i => ExampleWorld(k, i));
    forall i | 0 <= i < |es| ensures Enabled(ws[i], es[i]) && ws[i + 1] == Step(ws[i], es[i]).0 {
      ExampleStep(k, i);
    }
  }

  /** While a key's entry stays, its stamp never decreases; only a store changes it, and a store carries a loaded value. */
  lemma StampsRiseInStep(w: World, e: Event, k: Key)
    requires Inv(w) && Enabled(w, e) && k in w.cache && k in Step(w, e).0.cache
    ensures w.cache[k].stamp <= Step(w, e).0.cache[k].stamp
    ensures Step(w, e).0.cache[k] != w.cache[k] ==> e.Store? && (k, Step(w, e).0.cache[k].value) in w.loads
  {
    if e.Store? {
      assert PlaceOk(w.threads[e.tid], w.clock, w.loads);
    }
  }

  lemma StampRisesAt(ws: seq<World>, es: seq<Event>, m: nat, k: Key)
    requires IsRun(ws, es) && m < |es| && k in ws[m].cache && k in ws[m + 1].cache
    ensures ws[m].cache[k].stamp <= ws[m + 1].cache[k].stamp
  {
    RunKeepsInv(ws, es, m);
    StampsRiseInStep(ws[m], es[m], k);
  }

  lemma {:induction false} StampsNeverDecrease(ws: seq<World>, es: seq<Event>, i: nat, j: nat, k: Key)
    requires IsRun(ws, es) && i <= j < |ws|
    requires forall m :: i <= m <= j ==> k in ws[m].cache
    ensures ws[i].cache[k].stamp <= ws[j].cache[k].stamp
    decreases j
  {
    if i < j {
      StampsNeverDecrease(ws, es, i, j - 1, k);
      assert k in ws[j - 1].cache;
      StampRisesAt(ws, es, j - 1, k);
    }
  }

  lemma StoringByLoading(w: World, e: Event, t: nat)
    requires Enabled(w, e) && t in Step(w, e).0.threads
    requires Step(w, e).0.threads[t].Storing? || Step(w, e).0.threads[t].Keeping?
    ensures var place := Step(w, e).0.threads[t];
            t in w.threads && (w.threads[t] == place || (e == LoadEnds(t, Some(place.value)) && w.threads[t].key == place.key))
  {
  }

  /** A loaded value waits to be stored only behind the successful load of the same thread. */
  lemma {:induction false} StoringAfterLoading(ws: seq<World>, es: seq<Event>, j: nat, t: nat) returns (i: nat)
    requires IsRun(ws, es) && j < |ws| && t in ws[j].threads && (ws[j].threads[t].Storing? || ws[j].threads[t].Keeping?)
    ensures i < j && es[i] == LoadEnds(t, Some(ws[j].threads[t].value))
    ensures t in ws[i].threads && ws[i].threads[t].key == ws[j].threads[t].key
  {
    i := j - 1;
    StoringByLoading(ws[i], es[i], t);
    if ws[i].threads[t] == ws[j].threads[t] {
      i := StoringAfterLoading(ws, es, i, t);
    }
  }

  lemma EntryByStoring(w: World, e: Event, k: Key)
    requires Enabled(w, e) && k in Step(w, e).0.cache && (k !in w.cache || w.cache[k] != Step(w, e).0.cache[k])
    ensures e.Store? && w.threads[e.tid].key == k && Step(w, e).0.cache[k] == Entry(w.clock, w.threads[e.tid].value)
  {
  }

  /** Failed loads leave the entries alone: between two points of a run an entry is new or different only through the
      store, at step `m`, of a thread whose load of that key succeeded at step `n`. */
  lemma {:induction false} EntriesChangeByLoadsOnly(ws: seq<World>, es: seq<Event>, i: nat, j: nat, k: Key)
      returns (n: nat, m: nat)
    requires IsRun(ws, es) && i <= j < |ws| && k in ws[j].cache
    requires k !in ws[i].cache || ws[i].cache[k] != ws[j].cache[k]
    ensures n < m && i <= m < j && es[m].Store? && ws[m].clock == ws[j].cache[k].stamp
    ensures es[n] == LoadEnds(es[m].tid, Some(ws[j].cache[k].value)) && ws[n].threads[es[m].tid].key == k
    decreases j
  {
    if k in ws[j - 1].cache && ws[j - 1].cache[k] == ws[j].cache[k] {
      n, m := EntriesChangeByLoadsOnly(ws, es, i, j - 1, k);
    } else {
      m := j - 1;
      EntryByStoring(ws[m], es[m], k);
      n := StoringAfterLoading(ws, es, m, es[m].tid);
    }
  }

  /** Every value a caller gets, at any point of any run. */
  lemma ServedValuesAreHonest(ws: seq<World>, es: seq<Event>, i: nat)
    requires IsRun(ws, es) && i < |es|
    ensures Honest(Step(ws[i], es[i]).1, ws[i + 1].loads)
  {
    RunKeepsInv(ws, es, i);
    RepliesAreHonest(ws[i], es[i]);
  }

  /** What was loaded comes from a loader: a pair is in the history only after a load of that key ended with it. */
  lemma {:induction false} LoadsComeFromLoaders(ws: seq<World>, es: seq<Event>, j: nat, k: Key, v: Payload) returns (i: nat)
    requires IsRun(ws, es) && j < |ws| && (k, v) in ws[j].loads
    ensures i < j && es[i].LoadEnds? && es[i].result == Some(v) && ws[i].threads[es[i].tid].key == k
  {
    i := j - 1;
    if (k, v) in ws[i].loads {
      i := LoadsComeFromLoaders(ws, es, i, k, v);
    }
  }

  // -------------------------------------------------------------------- the code itself --

  /** The module's cache and busy set, and the sections that decide something about them. */
  class StripeCache {
    var cache: map<Key, Entry>
    var busy: set<Key>

    constructor ()
      ensures cache == map[] && busy == {}
    {
      cache, busy := map[], {};
    }

    /** First locked section of cached_stripe. */
    method Look(key: Key, ttl: real, maxStale: real, now: real) returns (d: Decision)
      modifies this`busy
      ensures d == Decide(cache, old(busy), key, ttl, maxStale, now)
      ensures busy == if d.Refresh? then old(busy) + {key} else old(busy)
    {
      var entry := if key in cache then Some(cache[key]) else None;
      if entry.Some? && now - entry.value.stamp < ttl {
        return Serve(Served(key, entry.value.value, now - entry.value.stamp, Fresh(ttl)));
      }
      if entry.Some? && now - entry.value.stamp > maxStale {
        entry := None;
      }
      if entry.None? {
        return Wait;
      }
      var reply := Served(key, entry.value.value, now - entry.value.stamp, Stale(maxStale));
      if key !in busy {
        busy := busy + {key};
        return Refresh(reply);
      }
      return Serve(reply);
    }

    /** invalidate_cache: list the keys, then pop them one by one. */
    method InvalidateCache(prefixes: seq<string>)
      modifies this`cache
      ensures cache == Dropped(old(cache), prefixes)
    {
      var keys := set k | k in cache && Hit(k, prefixes);
      while keys != {}
        invariant forall k :: k in keys ==> k in cache && Hit(k, prefixes)
        invariant cache.Keys == Dropped(old(cache), prefixes).Keys + keys
        invariant forall k :: k in cache ==> k in old(cache) && cache[k] == old(cache)[k]
        decreases keys
      {
        var k :| k in keys;
        keys := keys - {k};
        cache := cache - {k};
      }
    }
  }
}
