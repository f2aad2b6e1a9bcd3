/** Single-flight sharing of live polls (app/live_share.py) under any order of calls, task endings and
    task callbacks. The event loop runs one section at a time; between a task's end and its callback any
    number of calls may happen. Tasks are told apart by identity, here a number. */
module LiveShare {
  import opened Seqs

  type Key = string
  type Payload = int

  const MAX_ENTRIES: nat := 512

  /** `cacheable` is the verdict of the caller's predicate on the result. */
  datatype Outcome = Result(value: Payload, cacheable: bool) | Failed | Cancelled

  datatype Progress = Running | Ended(outcome: Outcome) | CalledBack

  datatype Task = Task(key: Key, ttl: real, progress: Progress)

  /** One cached result; `done` lists them in insertion order, as the dict does. */
  datatype Cached = Cached(key: Key, at: real, value: Payload)

  /** History: `calls` counts the sharing calls, `results` holds every cacheable result a task ended with. */
  datatype World = World(
    inflight: map<Key, nat>, done: seq<Cached>, joined: nat, reused: nat, fetched: nat,
    tasks: map<nat, Task>, clock: real, calls: nat, results: set<(Key, Payload)>)

  datatype Event =
    | Tick(now: real)
    | Get(key: Key, ttl: real, created: nat)
    | End(task: nat, outcome: Outcome)
    | Callback(task: nat)

  datatype Reply = Quiet | Direct | Reused(value: Payload, at: real) | Joined(task: nat) | Started(task: nat)

  function KeyOf(c: Cached): Key { c.key }

  /** Position of the key's entry, |done| when it has none. */
  function Find(done: seq<Cached>, key: Key): (i: nat)
    ensures i <= |done|
    ensures i < |done| ==> done[i].key == key
    ensures forall k :: 0 <= k < i ==> done[k].key != key
  {
    if done == [] || done[0].key == key then 0 else 1 + Find(done[1..], key)
  }

  /** Assigning a dict key keeps the place of a key that is there, and appends a new one. */
  function Put(done: seq<Cached>, c: Cached): (r: seq<Cached>)
    ensures |r| <= |done| + 1
  {
    var i := Find(done, c.key);
    if i < |done| then done[i := c] else done + [c]
  }

  function Alive(done: seq<Cached>, now: real, ttl: real): seq<Cached> {
    Filter((c: Cached) => !(now - c.at > ttl), done)
  }

  function Pruned(done: seq<Cached>, now: real, ttl: real): seq<Cached> {
    if |done| <= MAX_ENTRIES then done else Last(Alive(done, now, ttl), MAX_ENTRIES)
  }

  predicate Enabled(w: World, e: Event) {
    match e
    case Tick(now) => now >= w.clock
    case Get(_, _, created) => created !in w.tasks
    case End(task, _) => task in w.tasks && w.tasks[task].progress.Running?
    case Callback(task) => task in w.tasks && w.tasks[task].progress.Ended?
  }

  function GetStep(w: World, key: Key, ttl: real, created: nat): (World, Reply) {
    var i := Find(w.done, key);
    if ttl <= 0.0 then (w, Direct)
    else if i < |w.done| && w.clock - w.done[i].at <= ttl then
      (w.(reused := w.reused + 1, calls := w.calls + 1), Reused(w.done[i].value, w.done[i].at))
    else if key in w.inflight && w.inflight[key] in w.tasks && w.tasks[w.inflight[key]].progress.Running? then
      (w.(joined := w.joined + 1, calls := w.calls + 1), Joined(w.inflight[key]))
    else
      (w.(tasks := w.tasks[created := Task(key, ttl, Running)], inflight := w.inflight[key := created],
          fetched := w.fetched + 1, calls := w.calls + 1), Started(created))
  }

  function Unregistered(inflight: map<Key, nat>, key: Key, task: nat): map<Key, nat> {
    if key in inflight && inflight[key] == task then inflight - {key} else inflight
  }

  function CallbackStep(w: World, task: nat): World
    requires Enabled(w, Callback(task))
  {
    var Task(key, ttl, progress) := w.tasks[task];
    var v := w.(inflight := Unregistered(w.inflight, key, task), tasks := w.tasks[task := Task(key, ttl, CalledBack)]);
    match progress.outcome
    case Result(value, true) => v.(done := Pruned(Put(w.done, Cached(key, w.clock, value)), w.clock, ttl))
    case _ => v
  }

  function Step(w: World, e: Event): (World, Reply)
    requires Enabled(w, e)
  {
    match e
    case Tick(now) => (w.(clock := now), Quiet)
    case Get(key, ttl, created) => GetStep(w, key, ttl, created)
    case End(task, outcome) =>
      (w.(tasks := w.tasks[task := w.tasks[task].(progress := Ended(outcome))],
          results := if outcome.Result? && outcome.cacheable then w.results + {(w.tasks[task].key, outcome.value)} else w.results),
       Quiet)
    case Callback(task) => (CallbackStep(w, task), Quiet)
  }

  const Start: World := World(map[], [], 0, 0, 0, map[], 0.0, 0, {})

  // ---------------------------------------------------------------------- invariant --

  /** An unfinished task is the registered one of its key; a registered task is of its key and has not called back. */
  ghost predicate FlightsOk(inflight: map<Key, nat>, tasks: map<nat, Task>) {
    && (forall t :: t in tasks && tasks[t].progress.Running? ==> tasks[t].key in inflight && inflight[tasks[t].key] == t)
    && (forall k :: k in inflight ==> inflight[k] in tasks && tasks[inflight[k]].key == k && !tasks[inflight[k]].progress.CalledBack?)
  }

  ghost predicate CacheOk(done: seq<Cached>, clock: real, results: set<(Key, Payload)>) {
    && Unique(KeyOf, done)
    && |done| <= MAX_ENTRIES
    && forall i :: 0 <= i < |done| ==> done[i].at <= clock && (done[i].key, done[i].value) in results
  }

  ghost predicate TasksOk(tasks: map<nat, Task>, results: set<(Key, Payload)>) {
    forall t :: t in tasks ==>
      && tasks[t].ttl > 0.0
      && ((tasks[t].progress.Ended? && tasks[t].progress.outcome.Result? && tasks[t].progress.outcome.cacheable)
          ==> (tasks[t].key, tasks[t].progress.outcome.value) in results)
  }

  ghost predicate Inv(w: World) {
    && FlightsOk(w.inflight, w.tasks)
    && CacheOk(w.done, w.clock, w.results)
    && TasksOk(w.tasks, w.results)
    && w.fetched + w.joined + w.reused == w.calls
    && w.fetched == |w.tasks|
  }

  lemma PutKeepsCache(done: seq<Cached>, c: Cached, results: set<(Key, Payload)>)
    requires CacheOk(done, c.at, results) && (c.key, c.value) in results
    ensures var r := Put(done, c);
            && Unique(KeyOf, r) && |r| <= MAX_ENTRIES + 1
            && (|r| > MAX_ENTRIES ==> r == done + [c])
            && c in r
            && forall i :: 0 <= i < |r| ==> r[i].at <= c.at && (r[i].key, r[i].value) in results
  {
    var i := Find(done, c.key);
    if i < |done| {
      assert Put(done, c)[i] == c;
      assert forall k :: 0 <= k < |done| && k != i ==> KeyOf(done[k]) != KeyOf(done[i]);
    } else {
      UniqueAppend(KeyOf, done, c);
      assert (done + [c])[|done|] == c;
    }
  }

  /** After pruning, at most 512 entries are left, the one just stored among them. */
  lemma PrunedKeepsCache(done: seq<Cached>, c: Cached, ttl: real, results: set<(Key, Payload)>)
    requires CacheOk(done, c.at, results) && (c.key, c.value) in results && ttl > 0.0
    ensures CacheOk(Pruned(Put(done, c), c.at, ttl), c.at, results)
    ensures c in Pruned(Put(done, c), c.at, ttl)
  {
    PutKeepsCache(done, c, results);
    var r := Put(done, c);
    if |r| > MAX_ENTRIES {
      var alive := (x: Cached) => !(c.at - x.at > ttl);
      assert Alive(r, c.at, ttl) == Filter(alive, r);
      FilterConcat(alive, done, [c]);
      FilterMembers(alive, r);
      UniqueFilter(KeyOf, alive, r);
      UniqueLast(KeyOf, Filter(alive, r), MAX_ENTRIES);
      var kept := Last(Filter(alive, r), MAX_ENTRIES);
      assert kept[|kept| - 1] == c;
      forall i | 0 <= i < |kept| ensures kept[i].at <= c.at && (kept[i].key, kept[i].value) in results {
        var k := |Filter(alive, r)| - |kept| + i;
        assert kept[i] == Filter(alive, r)[k];
        assert kept[i] in Filter(alive, r);
      }
    }
  }

  lemma CallbackKeepsInv(w: World, task: nat)
    requires Inv(w) && Enabled(w, Callback(task))
    ensures Inv(CallbackStep(w, task))
  {
    var Task(key, ttl, progress) := w.tasks[task];
    assert w.tasks[task := Task(key, ttl, CalledBack)].Keys == w.tasks.Keys;
    if progress.outcome.Result? && progress.outcome.cacheable {
      PrunedKeepsCache(w.done, Cached(key, w.clock, progress.outcome.value), ttl, w.results);
    }
  }

  lemma StartKeepsFlights(inflight: map<Key, nat>, tasks: map<nat, Task>, key: Key, ttl: real, created: nat)
    requires FlightsOk(inflight, tasks) && created !in tasks
    requires key in inflight ==> !tasks[inflight[key]].progress.Running?
    ensures FlightsOk(inflight[key := created], tasks[created := Task(key, ttl, Running)])
  {
  }

  lemma StartCounts(tasks: map<nat, Task>, created: nat, task: Task)
    requires created !in tasks
    ensures |tasks[created := task]| == |tasks| + 1
  {
    assert tasks[created := task].Keys == tasks.Keys + {created};
  }

  lemma GetKeepsInv(w: World, key: Key, ttl: real, created: nat)
    requires Inv(w) && Enabled(w, Get(key, ttl, created))
    ensures Inv(GetStep(w, key, ttl, created).0)
  {
    if GetStep(w, key, ttl, created).1.Started? {
      StartKeepsFlights(w.inflight, w.tasks, key, ttl, created);
      StartCounts(w.tasks, created, Task(key, ttl, Running));
    }
  }

  lemma StepKeepsInv(w: World, e: Event)
    requires Inv(w) && Enabled(w, e)
    ensures Inv(Step(w, e).0)
  {
    match e
    case Tick(_) =>
    case Get(key, ttl, created) => GetKeepsInv(w, key, ttl, created);
    case End(task, _) => assert Step(w, e).0.tasks.Keys == w.tasks.Keys;
    case Callback(task) => CallbackKeepsInv(w, task);
  }

  // --------------------------------------------------------------------------- runs --

  ghost predicate IsRun(ws: seq<World>, es: seq<Event>) {
    && |ws| == |es| + 1
    && ws[0] == Start
    && forall i :: 0 <= i < |es| ==> Enabled(ws[i], es[i]) && ws[i + 1] == Step(ws[i], es[i]).0
  }

  lemma {:induction false} RunKeepsInv(ws: seq<World>, es: seq<Event>, i: nat)
    requires IsRun(ws, es) && i < |ws|
    ensures Inv(ws[i])
  {
    if i > 0 {
      RunKeepsInv(ws, es, i - 1);
      StepKeepsInv(ws[i - 1], es[i - 1]);
    }
  }

  /** At most one unfinished task per key, at any point of any run. */
  lemma OneFlightPerKey(ws: seq<World>, es: seq<Event>, i: nat, t: nat, u: nat)
    requires IsRun(ws, es) && i < |ws| && t in ws[i].tasks && u in ws[i].tasks
    requires ws[i].tasks[t].progress.Running? && ws[i].tasks[u].progress.Running? && ws[i].tasks[t].key == ws[i].tasks[u].key
    ensures t == u
  {
    RunKeepsInv(ws, es, i);
  }

  /** What a call returns: a cached result at most ttl old, the unfinished task of its key, or, only when there is
      neither, a new one that is registered; each of the three is counted as itself. A call without a ttl shares nothing. */
  lemma CallsShare(ws: seq<World>, es: seq<Event>, i: nat)
    requires IsRun(ws, es) && i < |es| && es[i].Get?
    ensures var w, e, v := ws[i], es[i], ws[i + 1];
            match Step(w, e).1
            case Reused(value, at) =>
              e.ttl > 0.0 && (e.key, value) in w.results && 0.0 <= w.clock - at <= e.ttl
              && v == w.(reused := w.reused + 1, calls := w.calls + 1)
            case Joined(t) =>
              e.ttl > 0.0 && t in w.tasks && w.tasks[t].key == e.key && w.tasks[t].progress.Running?
              && (forall c :: c in w.done && c.key == e.key ==> w.clock - c.at > e.ttl)
              && v == w.(joined := w.joined + 1, calls := w.calls + 1)
            case Started(t) =>
              && e.ttl > 0.0 && t == e.created && t !in w.tasks
              && (forall u :: u in w.tasks && w.tasks[u].key == e.key ==> !w.tasks[u].progress.Running?)
              && (forall c :: c in w.done && c.key == e.key ==> w.clock - c.at > e.ttl)
              && v == w.(tasks := w.tasks[t := Task(e.key, e.ttl, Running)], inflight := w.inflight[e.key := t],
                         fetched := w.fetched + 1, calls := w.calls + 1)
            case Direct => e.ttl <= 0.0 && v == w
            case Quiet => false
  {
    RunKeepsInv(ws, es, i);
    var w, e := ws[i], es[i];
    var k := Find(w.done, e.key);
    forall c | c in w.done && c.key == e.key ensures k < |w.done| && c == w.done[k] {
      var m :| 0 <= m < |w.done| && w.done[m] == c;
      assert m != k && k < |w.done| ==> KeyOf(w.done[m]) != KeyOf(w.done[k]);
    }
  }

  lemma {:induction false} EndedByEnding(ws: seq<World>, es: seq<Event>, j: nat, t: nat) returns (i: nat)
    requires IsRun(ws, es) && j < |ws| && t in ws[j].tasks && ws[j].tasks[t].progress.Ended?
    ensures i < j && es[i] == End(t, ws[j].tasks[t].progress.outcome)
  {
    i := j - 1;
    if es[i] != End(t, ws[j].tasks[t].progress.outcome) {
      i := EndedByEnding(ws, es, i, t);
    }
  }

  /** The callback stored the entry with the result of its task. */
  ghost predicate StoredAt(w: World, e: Event, c: Cached) {
    && e.Callback? && e.task in w.tasks && w.clock == c.at && w.tasks[e.task].key == c.key
    && w.tasks[e.task].progress == Ended(Result(c.value, true))
  }

  lemma StoredByCallback(w: World, e: Event, c: Cached)
    requires Enabled(w, e) && c in Step(w, e).0.done && c !in w.done
    ensures StoredAt(w, e, c)
  {
    if e.Callback? {
      var t := w.tasks[e.task];
      if t.progress.outcome.Result? && t.progress.outcome.cacheable {
        CachedByPutting(w.done, Cached(t.key, w.clock, t.progress.outcome.value), w.clock, t.ttl, c);
      }
    }
  }

  lemma CachedByPutting(done: seq<Cached>, entry: Cached, now: real, ttl: real, c: Cached)
    requires c in Pruned(Put(done, entry), now, ttl) && c !in done
    ensures c == entry
  {
    var put := Put(done, entry);
    FilterMembers((x: Cached) => !(now - x.at > ttl), put);
    assert forall x :: x in Last(Alive(put, now, ttl), MAX_ENTRIES) ==> x in Alive(put, now, ttl);
  }

  lemma {:induction false} CachedHasCallback(ws: seq<World>, es: seq<Event>, j: nat, c: Cached) returns (m: nat)
    requires IsRun(ws, es) && j < |ws| && c in ws[j].done
    ensures m < j && StoredAt(ws[m], es[m], c)
  {
    m := j - 1;
    if c in ws[m].done {
      m := CachedHasCallback(ws, es, m, c);
    } else {
      StoredByCallback(ws[m], es[m], c);
    }
  }

  /** A reused value was the successful, cacheable result of a task of that key, which ended at step `n` and whose
      callback stored it at step `m`, at the time its age is counted from. */
  lemma ReusedTracesToTask(ws: seq<World>, es: seq<Event>, i: nat) returns (n: nat, m: nat)
    requires IsRun(ws, es) && i < |es| && es[i].Get? && Step(ws[i], es[i]).1.Reused?
    ensures var reply := Step(ws[i], es[i]).1;
            && n < m < i && es[m].Callback? && es[n] == End(es[m].task, Result(reply.value, true))
            && es[m].task in ws[m].tasks && ws[m].tasks[es[m].task].key == es[i].key && ws[m].clock == reply.at
  {
    var c := ws[i].done[Find(ws[i].done, es[i].key)];
    m := CachedHasCallback(ws, es, i, c);
    n := EndedByEnding(ws, es, m, es[m].task);
  }

  /** The callback of an old task neither unregisters a newer one of its key nor touches any other key. */
  lemma LateCallbackIsHarmless(ws: seq<World>, es: seq<Event>, i: nat, t: nat)
    requires IsRun(ws, es) && i < |es| && es[i].Callback?
    requires t in ws[i].tasks && ws[i].tasks[t].progress.Running?
    ensures var key := ws[i].tasks[t].key;
            t in ws[i + 1].tasks && ws[i + 1].tasks[t] == ws[i].tasks[t]
            && key in ws[i + 1].inflight && ws[i + 1].inflight[key] == t
  {
    RunKeepsInv(ws, es, i);
  }

  /** A failed, cancelled or non-cacheable result changes no cache entry; a cacheable one is there right after its callback. */
  lemma CallbackCaches(ws: seq<World>, es: seq<Event>, i: nat)
    requires IsRun(ws, es) && i < |es| && es[i].Callback?
    ensures var w := ws[i];
            var Task(key, ttl, progress) := w.tasks[es[i].task];
            && (if progress.outcome.Result? && progress.outcome.cacheable
                then Cached(key, w.clock, progress.outcome.value) in ws[i + 1].done
                else ws[i + 1].done == w.done)
            && |ws[i + 1].done| <= MAX_ENTRIES
  {
    RunKeepsInv(ws, es, i);
    var w := ws[i];
    var Task(key, ttl, progress) := w.tasks[es[i].task];
    if progress.outcome.Result? && progress.outcome.cacheable {
      PrunedKeepsCache(w.done, Cached(key, w.clock, progress.outcome.value), ttl, w.results);
    }
  }

  /** Every sharing call is counted once, and a task is started exactly once per `fetched`. */
  lemma {:induction false} CallsAreCounted(ws: seq<World>, es: seq<Event>, i: nat)
    requires IsRun(ws, es) && i < |ws|
    ensures ws[i].fetched + ws[i].joined + ws[i].reused == ws[i].calls == Sharing(es[..i])
    ensures ws[i].fetched == |ws[i].tasks|
  {
    RunKeepsInv(ws, es, i);
    if i > 0 {
      CallsAreCounted(ws, es, i - 1);
      assert es[..i][..i - 1] == es[..i - 1];
    }
  }

  /** The number of calls with a positive ttl. */
  function Sharing(es: seq<Event>): nat {
    if es == [] then 0
    else Sharing(es[..|es| - 1]) + if es[|es| - 1].Get? && es[|es| - 1].ttl > 0.0 then 1 else 0
  }

  // ------------------------------------------------------------------------- the class --

  class Share {
    var inflight: map<Key, nat>
    var done: seq<Cached>
    var joined: nat
    var reused: nat
    var fetched: nat

    constructor ()
      ensures inflight == map[] && done == [] && joined == reused == fetched == 0
    {
      inflight, done, joined, reused, fetched := map[], [], 0, 0, 0;
    }

    /** These fields are those of the world, whose tasks the event loop keeps. */
    ghost predicate Shows(w: World)
      reads this
    {
      && w.inflight == inflight && w.done == done
      && w.joined == joined && w.reused == reused && w.fetched == fetched
    }

    method Get(ghost w: World, tasks: map<nat, Task>, now: real, key: Key, ttl: real, created: nat) returns (reply: Reply)
      requires Shows(w) && w.tasks == tasks && w.clock == now && created !in tasks
      modifies this
      ensures Shows(GetStep(w, key, ttl, created).0) && reply == GetStep(w, key, ttl, created).1
    {
      if ttl <= 0.0 {
        return Direct;
      }
      var i := Find(done, key);
      if i < |done| && now - done[i].at <= ttl {
        reused := reused + 1;
        return Reused(done[i].value, done[i].at);
      }
      if key in inflight && inflight[key] in tasks && tasks[inflight[key]].progress.Running? {
        joined := joined + 1;
        return Joined(inflight[key]);
      }
      inflight := inflight[key := created];
      fetched := fetched + 1;
      return Started(created);
    }

    /** `_finish`, the task's callback. */
    method Finish(ghost w: World, task: nat, key: Key, ttl: real, outcome: Outcome, now: real)
      requires Shows(w) && w.clock == now && |done| <= MAX_ENTRIES
      requires task in w.tasks && w.tasks[task] == Task(key, ttl, Ended(outcome))
      modifies this
      ensures Shows(CallbackStep(w, task))
    {
      if key in inflight && inflight[key] == task {
        inflight := inflight - {key};
      }
      if outcome.Failed? || outcome.Cancelled? {
        return;
      }
      if outcome.cacheable {
        done := Put(done, Cached(key, now, outcome.value));
        Prune(now, ttl);
      }
    }

    /** `_prune`: drop what expired, then pop the oldest entries one by one. */
    method Prune(now: real, ttl: real)
      modifies this`done
      ensures done == Pruned(old(done), now, ttl)
    {
      if |done| <= MAX_ENTRIES {
        return;
      }
      done := Alive(done, now, ttl);
      ghost var alive := done;
      while |done| > MAX_ENTRIES
        invariant |done| <= |alive| && done == alive[|alive| - |done|..]
        invariant |alive| > MAX_ENTRIES ==> |done| >= MAX_ENTRIES
        invariant |alive| <= MAX_ENTRIES ==> done == alive
      {
        done := done[1..];
      }
    }
  }
}
