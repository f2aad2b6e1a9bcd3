/** The stale-while-revalidate cache `cached_stripe` (app/billing.py) as threads taking steps.

    Every locked section, every clock reading outside a lock, every end of a loader and every thread start is
    one event, so callers, background refreshes and invalidations interleave in any order. Times are real numbers and
    the clock never runs backwards; a loader takes any time and ends in a value or an exception. */
module StaleCache {
  import opened Seqs
  import opened Texts

  type Key = string
  type Payload = int

  datatype Entry = Entry(stamp: real, value: Payload)

  /** Where a thread is. The first four are background refreshes (a refresh belongs to its caller until its thread
      runs); the last four hold the key's lock. */
  datatype Place =
    | Spawning(key: Key, served: Reply)
    | Refreshing(key: Key)
    | Storing(key: Key, value: Payload)
    | Releasing(key: Key)
    | Looking(key: Key, ttl: real, maxStale: real, now: real)
    | Waiting(key: Key, ttl: real)
    | Peeking(key: Key, ttl: real)
    | Judging(key: Key, ttl: real, entry: Option<Entry>)
    | Loading(key: Key)
    | Keeping(key: Key, value: Payload)

  /** `age` is measured at the clock reading on which the caller decided; `bound` tells which test it passed. */
  datatype Bound = Fresh(ttl: real) | Stale(maxStale: real)

  datatype Reply =
    | Quiet
    | Served(key: Key, value: Payload, age: real, bound: Bound)
    | Loaded(key: Key, value: Payload)
    | Raised(key: Key)

  /** `cache`, `busy` and `holders` (who holds each key's lock) are the program's; the rest is history:
      `owners` the thread that carries each refresh, `orphaned` the keys whose refresh thread could not be started,
      `loads` every pair a loader ever returned. */
  datatype World = World(
    cache: map<Key, Entry>, busy: set<Key>, holders: map<Key, nat>, threads: map<nat, Place>, clock: real,
    owners: map<Key, nat>, orphaned: set<Key>, loads: set<(Key, Payload)>)

  datatype Event =
    | Tick(now: real)
    | Call(tid: nat, key: Key, ttl: real, maxStale: real)
    | Look(tid: nat)
    | Spawn(tid: nat, worker: Option<nat>)
    | LoadEnds(tid: nat, result: Option<Payload>)
    | Store(tid: nat)
    | Release(tid: nat)
    | Acquire(tid: nat)
    | Peek(tid: nat)
    | Judge(tid: nat)
    | Invalidate(prefixes: seq<string>)

  predicate IsRefresh(p: Place) { p.Spawning? || p.Refreshing? || p.Storing? || p.Releasing? }

  predicate HoldsLock(p: Place) { p.Peeking? || p.Judging? || p.Loading? || p.Keeping? }

  predicate Enabled(w: World, e: Event) {
    match e
    case Tick(now) => now >= w.clock
    case Call(tid, _, _, _) => tid !in w.threads
    case Look(tid) => tid in w.threads && w.threads[tid].Looking?
    case Spawn(tid, worker) => tid in w.threads && w.threads[tid].Spawning? && (worker.Some? ==> worker.value !in w.threads)
    case LoadEnds(tid, _) => tid in w.threads && (w.threads[tid].Refreshing? || w.threads[tid].Loading?)
    case Store(tid) => tid in w.threads && (w.threads[tid].Storing? || w.threads[tid].Keeping?)
    case Release(tid) => tid in w.threads && w.threads[tid].Releasing?
    case Acquire(tid) => tid in w.threads && w.threads[tid].Waiting? && w.threads[tid].key !in w.holders
    case Peek(tid) => tid in w.threads && w.threads[tid].Peeking?
    case Judge(tid) => tid in w.threads && w.threads[tid].Judging?
    case Invalidate(_) => true
  }

  /** What the first locked section decides. */
  datatype Decision = Serve(reply: Reply) | Refresh(reply: Reply) | Wait

  function Decide(cache: map<Key, Entry>, busy: set<Key>, key: Key, ttl: real, maxStale: real, now: real): Decision {
    if key in cache && now - cache[key].stamp < ttl then
      Serve(Served(key, cache[key].value, now - cache[key].stamp, Fresh(ttl)))
    else if key !in cache || now - cache[key].stamp > maxStale then Wait
    else
      var reply := Served(key, cache[key].value, now - cache[key].stamp, Stale(maxStale));
      if key !in busy then Refresh(reply) else Serve(reply)
  }

  function LookStep(w: World, tid: nat): (World, Reply)
    requires Enabled(w, Look(tid))
  {
    var Looking(key, ttl, maxStale, now) := w.threads[tid];
    match Decide(w.cache, w.busy, key, ttl, maxStale, now)
    case Serve(reply) => (w.(threads := w.threads - {tid}), reply)
    case Refresh(reply) =>
      (w.(busy := w.busy + {key}, owners := w.owners[key := tid], threads := w.threads[tid := Spawning(key, reply)]), Quiet)
    case Wait => (w.(threads := w.threads[tid := Waiting(key, ttl)]), Quiet)
  }

  /** Starting the worker hands the refresh over; when it cannot be started the caller gets the exception. */
  function SpawnStep(w: World, tid: nat, worker: Option<nat>): (World, Reply)
    requires Enabled(w, Spawn(tid, worker))
  {
    var Spawning(key, served) := w.threads[tid];
    match worker
    case Some(bg) =>
      (w.(threads := (w.threads - {tid})[bg := Refreshing(key)], owners := w.owners[key := bg]), served)
    case None =>
      (w.(threads := w.threads - {tid}, owners := w.owners - {key}, orphaned := w.orphaned + {key}), Raised(key))
  }

  function LoadEndsStep(w: World, tid: nat, result: Option<Payload>): (World, Reply)
    requires Enabled(w, LoadEnds(tid, result))
  {
    var p := w.threads[tid];
    match result
    case Some(value) =>
      (w.(loads := w.loads + {(p.key, value)},
          threads := w.threads[tid := if p.Refreshing? then Storing(p.key, value) else Keeping(p.key, value)]), Quiet)
    case None =>
      if p.Refreshing? then (w.(threads := w.threads[tid := Releasing(p.key)]), Quiet)
      else (w.(threads := w.threads - {tid}, holders := w.holders - {p.key}), Raised(p.key))
  }

  function StoreStep(w: World, tid: nat): (World, Reply)
    requires Enabled(w, Store(tid))
  {
    var p := w.threads[tid];
    var cache := w.cache[p.key := Entry(w.clock, p.value)];
    if p.Storing? then (w.(cache := cache, threads := w.threads[tid := Releasing(p.key)]), Quiet)
    else (w.(cache := cache, threads := w.threads - {tid}, holders := w.holders - {p.key}), Loaded(p.key, p.value))
  }

  function JudgeStep(w: World, tid: nat): (World, Reply)
    requires Enabled(w, Judge(tid))
  {
    var Judging(key, ttl, entry) := w.threads[tid];
    if entry.Some? && w.clock - entry.value.stamp < ttl then
      (w.(threads := w.threads - {tid}, holders := w.holders - {key}),
       Served(key, entry.value.value, w.clock - entry.value.stamp, Fresh(ttl)))
    else (w.(threads := w.threads[tid := Loading(key)]), Quiet)
  }

  predicate Hit(key: Key, prefixes: seq<string>) {
    prefixes == [] || exists p :: p in prefixes && StartsWith(key, p)
  }

  function Dropped(cache: map<Key, Entry>, prefixes: seq<string>): map<Key, Entry> {
    map k | k in cache && !Hit(k, prefixes) :: cache[k]
  }

  function Step(w: World, e: Event): (World, Reply)
    requires Enabled(w, e)
  {
    match e
    case Tick(now) => (w.(clock := now), Quiet)
    case Call(tid, key, ttl, maxStale) => (w.(threads := w.threads[tid := Looking(key, ttl, maxStale, w.clock)]), Quiet)
    case Look(tid) => LookStep(w, tid)
    case Spawn(tid, worker) => SpawnStep(w, tid, worker)
    case LoadEnds(tid, result) => LoadEndsStep(w, tid, result)
    case Store(tid) => StoreStep(w, tid)
    case Release(tid) =>
      (w.(busy := w.busy - {w.threads[tid].key}, owners := w.owners - {w.threads[tid].key}, threads := w.threads - {tid}), Quiet)
    case Acquire(tid) =>
      var Waiting(key, ttl) := w.threads[tid];
      (w.(holders := w.holders[key := tid], threads := w.threads[tid := Peeking(key, ttl)]), Quiet)
    case Peek(tid) =>
      var Peeking(key, ttl) := w.threads[tid];
      (w.(threads := w.threads[tid := Judging(key, ttl, if key in w.cache then Some(w.cache[key]) else None)]), Quiet)
    case Judge(tid) => JudgeStep(w, tid)
    case Invalidate(prefixes) => (w.(cache := Dropped(w.cache, prefixes)), Quiet)
  }

  const Start: World := World(map[], {}, map[], map[], 0.0, map[], {}, {})

  // --------------------------------------------------------------------- invariant --

  /** Each refresh under way owns its key's busy mark, and each busy mark has its refresh or is orphaned. */
  ghost predicate BusyOk(busy: set<Key>, owners: map<Key, nat>, orphaned: set<Key>, threads: map<nat, Place>) {
    && (forall t :: t in threads && IsRefresh(threads[t]) ==> threads[t].key in owners && owners[threads[t].key] == t)
    && (forall k :: k in owners ==> k !in orphaned && owners[k] in threads && IsRefresh(threads[owners[k]]) && threads[owners[k]].key == k)
    && busy == owners.Keys + orphaned
  }

  ghost predicate LocksOk(holders: map<Key, nat>, threads: map<nat, Place>) {
    && (forall t :: t in threads && HoldsLock(threads[t]) ==> threads[t].key in holders && holders[threads[t].key] == t)
    && (forall k :: k in holders ==> holders[k] in threads && HoldsLock(threads[holders[k]]) && threads[holders[k]].key == k)
  }

  ghost predicate EntryOk(key: Key, e: Entry, clock: real, loads: set<(Key, Payload)>) {
    e.stamp <= clock && (key, e.value) in loads
  }

  /** A value served from the cache came from a load of that key and passed the age test it names. */
  ghost predicate Honest(r: Reply, loads: set<(Key, Payload)>) {
    match r
    case Served(key, value, age, Fresh(ttl)) => (key, value) in loads && age < ttl
    case Served(key, value, age, Stale(maxStale)) => (key, value) in loads && age <= maxStale
    case Loaded(key, value) => (key, value) in loads
    case Quiet => true
    case Raised(_) => true
  }

  ghost predicate PlaceOk(p: Place, clock: real, loads: set<(Key, Payload)>) {
    match p
    case Spawning(key, served) => served.Served? && served.key == key && Honest(served, loads)
    case Storing(key, value) => (key, value) in loads
    case Keeping(key, value) => (key, value) in loads
    case Looking(_, _, _, now) => now <= clock
    case Judging(key, _, entry) => entry.Some? ==> EntryOk(key, entry.value, clock, loads)
    case _ => true
  }

  ghost predicate DataOk(w: World) {
    && (forall k :: k in w.cache ==> EntryOk(k, w.cache[k], w.clock, w.loads))
    && (forall t :: t in w.threads ==> PlaceOk(w.threads[t], w.clock, w.loads))
  }

  ghost predicate Inv(w: World) {
    && BusyOk(w.busy, w.owners, w.orphaned, w.threads)
    && LocksOk(w.holders, w.threads)
    && DataOk(w)
  }

  /** A thread that moves on without starting or ending a refresh. */
  lemma BusyKeptByMove(w: World, threads: map<nat, Place>, t: nat)
    requires BusyOk(w.busy, w.owners, w.orphaned, w.threads)
    requires t in w.threads && IsRefresh(w.threads[t]) ==>
               t in threads && IsRefresh(threads[t]) && threads[t].key == w.threads[t].key
    requires t in threads && IsRefresh(threads[t]) ==> t in w.threads && IsRefresh(w.threads[t])
    requires forall u :: u != t ==> (u in threads <==> u in w.threads) && (u in threads ==> threads[u] == w.threads[u])
    ensures BusyOk(w.busy, w.owners, w.orphaned, threads)
  {
  }

  lemma BusyKept(w: World, e: Event)
    requires BusyOk(w.busy, w.owners, w.orphaned, w.threads) && Enabled(w, e)
    ensures var v := Step(w, e).0; BusyOk(v.busy, v.owners, v.orphaned, v.threads)
  {
    match e
    case Tick(_) =>
    case Call(_, _, _, _) => BusyKeptByLoading(w, e);
    case Look(tid) => BusyKeptByLook(w, tid);
    case Spawn(tid, worker) => BusyKeptBySpawn(w, tid, worker);
    case LoadEnds(_, _) => BusyKeptByLoading(w, e);
    case Store(_) => BusyKeptByLoading(w, e);
    case Release(tid) => assert w.owners[w.threads[tid].key] == tid;
    case Acquire(_) => BusyKeptByWaiting(w, e);
    case Peek(_) => BusyKeptByWaiting(w, e);
    case Judge(_) => BusyKeptByWaiting(w, e);
    case Invalidate(_) =>
  }

  lemma BusyKeptByLoading(w: World, e: Event)
    requires BusyOk(w.busy, w.owners, w.orphaned, w.threads) && Enabled(w, e) && (e.Call? || e.LoadEnds? || e.Store?)
    ensures var v := Step(w, e).0; BusyOk(v.busy, v.owners, v.orphaned, v.threads)
  {
    BusyKeptByMove(w, Step(w, e).0.threads, e.tid);
  }

  lemma BusyKeptByWaiting(w: World, e: Event)
    requires BusyOk(w.busy, w.owners, w.orphaned, w.threads) && Enabled(w, e) && (e.Acquire? || e.Peek? || e.Judge?)
    ensures var v := Step(w, e).0; BusyOk(v.busy, v.owners, v.orphaned, v.threads)
  {
    BusyKeptByMove(w, Step(w, e).0.threads, e.tid);
  }

  lemma BusyKeptByLook(w: World, tid: nat)
    requires BusyOk(w.busy, w.owners, w.orphaned, w.threads) && Enabled(w, Look(tid))
    ensures var v := LookStep(w, tid).0; BusyOk(v.busy, v.owners, v.orphaned, v.threads)
  {
    var v := LookStep(w, tid).0;
    if v.busy == w.busy && v.owners == w.owners {
      BusyKeptByMove(w, v.threads, tid);
    }
  }

  lemma BusyKeptBySpawn(w: World, tid: nat, worker: Option<nat>)
    requires BusyOk(w.busy, w.owners, w.orphaned, w.threads) && Enabled(w, Spawn(tid, worker))
    ensures var v := SpawnStep(w, tid, worker).0; BusyOk(v.busy, v.owners, v.orphaned, v.threads)
  {
    assert w.owners[w.threads[tid].key] == tid;
  }

  lemma LocksKeptByMove(w: World, threads: map<nat, Place>, t: nat)
    requires LocksOk(w.holders, w.threads)
    requires t in w.threads && HoldsLock(w.threads[t]) ==>
               t in threads && HoldsLock(threads[t]) && threads[t].key == w.threads[t].key
    requires t in threads && HoldsLock(threads[t]) ==> t in w.threads && HoldsLock(w.threads[t])
    requires forall u :: u != t ==> (u in threads <==> u in w.threads) && (u in threads ==> threads[u] == w.threads[u])
    ensures LocksOk(w.holders, threads)
  {
  }

  lemma LocksKeptByLeaving(w: World, t: nat)
    requires LocksOk(w.holders, w.threads) && t in w.threads && HoldsLock(w.threads[t])
    ensures LocksOk(w.holders - {w.threads[t].key}, w.threads - {t})
  {
  }

  lemma LocksKeptByHolder(w: World, e: Event)
    requires LocksOk(w.holders, w.threads) && Enabled(w, e) && (e.LoadEnds? || e.Store? || e.Judge?)
    ensures var v := Step(w, e).0; LocksOk(v.holders, v.threads)
  {
    var v := Step(w, e).0;
    if e.tid in v.threads {
      assert v.holders == w.holders;
      LocksKeptByMove(w, v.threads, e.tid);
    } else {
      LocksKeptByLeaving(w, e.tid);
    }
  }

  lemma LocksKept(w: World, e: Event)
    requires LocksOk(w.holders, w.threads) && Enabled(w, e)
    ensures var v := Step(w, e).0; LocksOk(v.holders, v.threads)
  {
    match e
    case Tick(_) =>
    case Call(_, _, _, _) => LocksKeptByLooking(w, e);
    case Look(_) => LocksKeptByLooking(w, e);
    case Spawn(tid, worker) => LocksKeptByMove(w, w.threads - {tid}, tid);
    case LoadEnds(_, _) => LocksKeptByHolder(w, e);
    case Store(_) => LocksKeptByHolder(w, e);
    case Release(tid) => LocksKeptByMove(w, w.threads - {tid}, tid);
    case Acquire(tid) => LockIsTaken(w, tid);
    case Peek(_) => LocksKeptByLooking(w, e);
    case Judge(_) => LocksKeptByHolder(w, e);
    case Invalidate(_) =>
  }

  lemma LockIsTaken(w: World, tid: nat)
    requires LocksOk(w.holders, w.threads) && Enabled(w, Acquire(tid))
    ensures var v := Step(w, Acquire(tid)).0; LocksOk(v.holders, v.threads)
  {
  }

  lemma LocksKeptByLooking(w: World, e: Event)
    requires LocksOk(w.holders, w.threads) && Enabled(w, e) && (e.Call? || e.Look? || e.Peek?)
    ensures var v := Step(w, e).0; LocksOk(v.holders, v.threads)
  {
    LocksKeptByMove(w, Step(w, e).0.threads, e.tid);
  }

  /** Later clocks and more loads keep every place sound. */
  lemma PlacesAge(w: World, clock: real, loads: set<(Key, Payload)>)
    requires DataOk(w) && clock >= w.clock && w.loads <= loads
    ensures forall t :: t in w.threads ==> PlaceOk(w.threads[t], clock, loads)
    ensures forall k :: k in w.cache ==> EntryOk(k, w.cache[k], clock, loads)
  {
  }

  lemma DataKeptByLoading(w: World, e: Event)
    requires DataOk(w) && Enabled(w, e) && (e.LoadEnds? || e.Store?)
    ensures DataOk(Step(w, e).0)
  {
    PlacesAge(w, w.clock, Step(w, e).0.loads);
    assert PlaceOk(w.threads[e.tid], w.clock, w.loads);
  }

  lemma DataKept(w: World, e: Event)
    requires DataOk(w) && Enabled(w, e)
    ensures DataOk(Step(w, e).0)
  {
    match e
    case Tick(now) => PlacesAge(w, now, w.loads);
    case Call(_, _, _, _) =>
    case Look(tid) => assert PlaceOk(w.threads[tid], w.clock, w.loads);
    case Spawn(tid, worker) =>
    case LoadEnds(_, _) => DataKeptByLoading(w, e);
    case Store(_) => DataKeptByLoading(w, e);
    case Release(tid) =>
    case Acquire(_) =>
    case Peek(_) =>
    case Judge(tid) =>
    case Invalidate(_) =>
  }

  /** Whatever a caller gets from the cache was loaded for its key and passed the age test named in the reply. */
  lemma RepliesAreHonest(w: World, e: Event)
    requires DataOk(w) && Enabled(w, e)
    ensures Honest(Step(w, e).1, Step(w, e).0.loads)
  {
    if e.Look? || e.Spawn? || e.Judge? || e.Store? {
      assert PlaceOk(w.threads[e.tid], w.clock, w.loads);
    }
  }

  lemma StepKeepsInv(w: World, e: Event)
    requires Inv(w) && Enabled(w, e)
    ensures Inv(Step(w, e).0)
  {
    BusyKept(w, e);
    LocksKept(w, e);
    DataKept(w, e);
  }
}
