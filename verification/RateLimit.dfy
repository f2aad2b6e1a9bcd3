/** The two sliding-window limiters: the deque limiter of app/rate_limit.py and the list-filter limiter of
    app/agents.py. Stamps are real numbers; each key, which includes its scope, has its own limit and window. */
module RateLimit {
  import opened Seqs

  const MAX_BUCKETS: nat := 20000

  type Key = string

  datatype Call = Call(key: Key, now: real)

  datatype Rule = Rule(limit: int, window: real)

  /** The limit and window with which calls of a key are checked. */
  type Rules = Key -> Rule

  function Bucket(buckets: map<Key, seq<real>>, key: Key): seq<real> {
    if key in buckets then buckets[key] else []
  }

  /** `_prune`: pop from the left while the oldest stamp is at or before the cutoff. */
  function Popped(bucket: seq<real>, cutoff: real): seq<real> {
    if bucket != [] && bucket[0] <= cutoff then Popped(bucket[1..], cutoff) else bucket
  }

  /** The wholesale reset once there are too many buckets. */
  function Capped(buckets: map<Key, seq<real>>): map<Key, seq<real>> {
    if |buckets| > MAX_BUCKETS then map[] else buckets
  }

  /** One call of the deque limiter; only an allowed call can trigger the reset. */
  function DequeStep(buckets: map<Key, seq<real>>, c: Call, rule: Rule): (map<Key, seq<real>>, bool) {
    var bucket := Popped(Bucket(buckets, c.key), c.now - rule.window);
    if |bucket| >= rule.limit then (buckets[c.key := bucket], false)
    else (Capped(buckets[c.key := bucket + [c.now]]), true)
  }

  /** The condition by which the list limiter keeps a stamp. */
  function Recent(now: real, window: real): real -> bool {
    stamp => now - stamp < window
  }

  /** One call of the list-filter limiter. */
  function ListStep(hits: map<Key, seq<real>>, c: Call, rule: Rule): (map<Key, seq<real>>, bool) {
    var bucket := Filter(Recent(c.now, rule.window), Bucket(hits, c.key));
    if |bucket| >= rule.limit then (hits[c.key := bucket], false) else (hits[c.key := bucket + [c.now]], true)
  }

  /** State and answers after a sequence of calls. */
  function RunDeque(calls: seq<Call>, rules: Rules): (r: (map<Key, seq<real>>, seq<bool>))
    ensures |r.1| == |calls|
  {
    if calls == [] then (map[], []) else
      var (buckets, answers) := RunDeque(calls[..|calls| - 1], rules);
      var (after, ok) := DequeStep(buckets, calls[|calls| - 1], rules(calls[|calls| - 1].key));
      (after, answers + [ok])
  }

  function RunList(calls: seq<Call>, rules: Rules): (r: (map<Key, seq<real>>, seq<bool>))
    ensures |r.1| == |calls|
  {
    if calls == [] then (map[], []) else
      var (hits, answers) := RunList(calls[..|calls| - 1], rules);
      var (after, ok) := ListStep(hits, calls[|calls| - 1], rules(calls[|calls| - 1].key));
      (after, answers + [ok])
  }

  ghost predicate Nondecreasing(stamps: seq<real>) {
    forall i, j :: 0 <= i <= j < |stamps| ==> stamps[i] <= stamps[j]
  }

  ghost predicate ClockRuns(calls: seq<Call>) {
    forall i, j :: 0 <= i <= j < |calls| ==> calls[i].now <= calls[j].now
  }

  function Keys(calls: seq<Call>): set<Key> {
    set i | 0 <= i < |calls| :: calls[i].key
  }

  /** On ordered stamps popping from the left is filtering. */
  lemma {:induction false} PoppedIsFilter(bucket: seq<real>, now: real, window: real)
    requires Nondecreasing(bucket)
    ensures Popped(bucket, now - window) == Filter(Recent(now, window), bucket)
  {
    if bucket != [] {
      if bucket[0] <= now - window {
        PoppedIsFilter(bucket[1..], now, window);
      } else {
        FilterAll(Recent(now, window), bucket);
      }
    }
  }

  lemma {:induction false} PoppedIsSuffix(bucket: seq<real>, cutoff: real)
    requires Nondecreasing(bucket)
    ensures var r := Popped(bucket, cutoff);
            && |r| <= |bucket| && r == bucket[|bucket| - |r|..]
            && (forall i :: 0 <= i < |bucket| - |r| ==> bucket[i] <= cutoff)
            && (forall i :: 0 <= i < |r| ==> r[i] > cutoff)
  {
    if bucket != [] && bucket[0] <= cutoff {
      PoppedIsSuffix(bucket[1..], cutoff);
      assert Nondecreasing(bucket[1..]);
    }
  }

  /** What the deque limiter holds for a key, against the key's allowed stamps so far. */
  ghost predicate Tracks(bucket: seq<real>, allowed: seq<real>, now: real, rule: Rule) {
    && Nondecreasing(allowed)
    && (forall i :: 0 <= i < |allowed| ==> allowed[i] <= now)
    && |bucket| <= |allowed| && bucket == allowed[|allowed| - |bucket|..]
    && (forall i :: 0 <= i < |allowed| - |bucket| ==> allowed[i] <= now - rule.window)
    && (rule.limit <= 0 ==> allowed == [])
    && (rule.limit > 0 ==> Spaced(allowed, rule.limit, rule.window))
  }

  /** Stamps `limit` places apart lie at least a window apart. */
  ghost predicate Spaced(stamps: seq<real>, limit: nat, window: real) {
    forall i :: 0 <= i < |stamps| - limit ==> stamps[i + limit] >= stamps[i] + window
  }

  /** The stamps of the calls with this key that were allowed. */
  function Allowed(calls: seq<Call>, answers: seq<bool>, key: Key): seq<real>
    requires |answers| == |calls|
  {
    if calls == [] then [] else
      var n := |calls| - 1;
      Allowed(calls[..n], answers[..n], key) + if calls[n].key == key && answers[n] then [calls[n].now] else []
  }

  lemma TracksLater(bucket: seq<real>, allowed: seq<real>, now: real, later: real, rule: Rule)
    requires Tracks(bucket, allowed, now, rule) && now <= later
    ensures Tracks(bucket, allowed, later, rule)
    ensures Nondecreasing(bucket)
  {
    assert forall i :: 0 <= i < |bucket| ==> bucket[i] == allowed[|allowed| - |bucket| + i];
  }

  lemma TracksPopped(bucket: seq<real>, allowed: seq<real>, now: real, rule: Rule)
    requires Tracks(bucket, allowed, now, rule)
    ensures Tracks(Popped(bucket, now - rule.window), allowed, now, rule)
  {
    TracksLater(bucket, allowed, now, now, rule);
    PoppedIsSuffix(bucket, now - rule.window);
    var r := Popped(bucket, now - rule.window);
    var cut := |allowed| - |bucket|;
    assert forall i :: cut <= i < |allowed| - |r| ==> allowed[i] == bucket[i - cut];
  }

  /** Allowing a call: the stamp `limit` places back has left the bucket, so it is a window ago. */
  lemma TracksAppended(bucket: seq<real>, allowed: seq<real>, now: real, rule: Rule)
    requires Tracks(bucket, allowed, now, rule) && |bucket| < rule.limit
    ensures Tracks(bucket + [now], allowed + [now], now, rule)
  {
    var after := allowed + [now];
    assert bucket + [now] == after[|after| - |bucket| - 1..];
    forall i | 0 <= i < |after| - rule.limit ensures after[i + rule.limit] >= after[i] + rule.window {
      if i + rule.limit == |allowed| {
        assert i < |allowed| - |bucket|;
        assert allowed[i] <= now - rule.window;
      }
    }
  }

  /** A pruned bucket after the call has been judged. */
  function Judged(kept: seq<real>, now: real, limit: int): seq<real> {
    if |kept| < limit then kept + [now] else kept
  }

  lemma JudgedTracks(bucket: seq<real>, allowed: seq<real>, now: real, rule: Rule)
    requires Tracks(bucket, allowed, now, rule)
    ensures Tracks(Judged(Popped(bucket, now - rule.window), now, rule.limit),
                   Allow(allowed, |Popped(bucket, now - rule.window)| < rule.limit, now), now, rule)
  {
    TracksPopped(bucket, allowed, now, rule);
    if |Popped(bucket, now - rule.window)| < rule.limit {
      TracksAppended(Popped(bucket, now - rule.window), allowed, now, rule);
    }
  }

  function Allow(allowed: seq<real>, ok: bool, now: real): seq<real> {
    if ok then allowed + [now] else allowed
  }

  lemma NoReset(buckets: map<Key, seq<real>>, key: Key, bucket: seq<real>)
    requires |buckets.Keys + {key}| <= MAX_BUCKETS
    ensures Capped(buckets[key := bucket]) == buckets[key := bucket]
  {
    assert buckets[key := bucket].Keys == buckets.Keys + {key};
  }

  lemma DequeCases(buckets: map<Key, seq<real>>, c: Call, rule: Rule)
    ensures var kept := Popped(Bucket(buckets, c.key), c.now - rule.window);
            var after := buckets[c.key := Judged(kept, c.now, rule.limit)];
            (DequeStep(buckets, c, rule) == (if |kept| < rule.limit then (Capped(after), true) else (after, false)))
  {
  }

  /** Below the reset a call only replaces the bucket of its own key. */
  lemma DequeBelowReset(buckets: map<Key, seq<real>>, c: Call, rule: Rule)
    requires |buckets.Keys + {c.key}| <= MAX_BUCKETS
    ensures var kept := Popped(Bucket(buckets, c.key), c.now - rule.window);
            (DequeStep(buckets, c, rule) == (buckets[c.key := Judged(kept, c.now, rule.limit)], |kept| < rule.limit))
  {
    DequeCases(buckets, c, rule);
    NoReset(buckets, c.key, Judged(Popped(Bucket(buckets, c.key), c.now - rule.window), c.now, rule.limit));
  }

  lemma ListCases(buckets: map<Key, seq<real>>, c: Call, rule: Rule)
    ensures var kept := Filter(Recent(c.now, rule.window), Bucket(buckets, c.key));
            (ListStep(buckets, c, rule) == (buckets[c.key := Judged(kept, c.now, rule.limit)], |kept| < rule.limit))
  {
  }

  lemma ListIsDeque(buckets: map<Key, seq<real>>, c: Call, rule: Rule)
    requires Nondecreasing(Bucket(buckets, c.key))
    requires DequeStep(buckets, c, rule).1 ==> |buckets.Keys + {c.key}| <= MAX_BUCKETS
    ensures ListStep(buckets, c, rule) == DequeStep(buckets, c, rule)
  {
    PoppedIsFilter(Bucket(buckets, c.key), c.now, rule.window);
    DequeCases(buckets, c, rule);
    if DequeStep(buckets, c, rule).1 { DequeBelowReset(buckets, c, rule); }
    ListCases(buckets, c, rule);
  }

  lemma AllowedAppend(calls: seq<Call>, answers: seq<bool>, c: Call, ok: bool, key: Key)
    requires |answers| == |calls|
    ensures Allowed(calls + [c], answers + [ok], key)
         == Allow(Allowed(calls, answers, key), c.key == key && ok, c.now)
  {
    assert (calls + [c])[..|calls|] == calls && (answers + [ok])[..|calls|] == answers;
  }

  /** The run, one call longer. */
  lemma RunDequeAppend(calls: seq<Call>, c: Call, rules: Rules)
    ensures var (buckets, answers) := RunDeque(calls, rules);
            var (after, ok) := DequeStep(buckets, c, rules(c.key));
            (RunDeque(calls + [c], rules) == (after, answers + [ok]))
  {
    assert (calls + [c])[..|calls|] == calls;
  }

  lemma RunListAppend(calls: seq<Call>, c: Call, rules: Rules)
    ensures var (hits, answers) := RunList(calls, rules);
            var (after, ok) := ListStep(hits, c, rules(c.key));
            (RunList(calls + [c], rules) == (after, answers + [ok]))
  {
    assert (calls + [c])[..|calls|] == calls;
  }

  lemma {:induction false} DequeKeys(calls: seq<Call>, rules: Rules)
    requires |Keys(calls)| <= MAX_BUCKETS
    ensures RunDeque(calls, rules).0.Keys <= Keys(calls)
  {
    if calls != [] {
      var before, c := calls[..|calls| - 1], calls[|calls| - 1];
      SubKeys(calls);
      DequeKeys(before, rules);
      RunDequeAppend(before, c, rules);
      assert calls == before + [c];
    }
  }

  lemma OtherBucketStays(buckets: map<Key, seq<real>>, changed: Key, key: Key, bucket: seq<real>)
    requires key != changed
    ensures Bucket(buckets[changed := bucket], key) == Bucket(buckets, key)
  {
  }

  lemma OwnBucketIsSet(buckets: map<Key, seq<real>>, key: Key, bucket: seq<real>)
    ensures Bucket(buckets[key := bucket], key) == bucket
  {
  }

  /** One call of the list limiter, seen from its own key. */
  lemma OwnCallTracks(hits: map<Key, seq<real>>, allowed: seq<real>, c: Call, rule: Rule)
    requires Tracks(Bucket(hits, c.key), allowed, c.now, rule)
    ensures var (after, ok) := ListStep(hits, c, rule);
            (Tracks(Bucket(after, c.key), Allow(allowed, ok, c.now), c.now, rule))
  {
    var kept := Popped(Bucket(hits, c.key), c.now - rule.window);
    TracksLater(Bucket(hits, c.key), allowed, c.now, c.now, rule);
    PoppedIsFilter(Bucket(hits, c.key), c.now, rule.window);
    ListCases(hits, c, rule);
    OwnBucketIsSet(hits, c.key, Judged(kept, c.now, rule.limit));
    JudgedTracks(Bucket(hits, c.key), allowed, c.now, rule);
  }

  /** One call, seen from another key. */
  lemma OtherCallTracks(hits: map<Key, seq<real>>, c: Call, key: Key, rule: Rule)
    requires key != c.key
    ensures Bucket(ListStep(hits, c, rule).0, key) == Bucket(hits, key)
  {
    ListCases(hits, c, rule);
    OtherBucketStays(hits, c.key, key, Judged(Filter(Recent(c.now, rule.window), Bucket(hits, c.key)), c.now, rule.limit));
  }

  lemma BucketTracksStep(hits: map<Key, seq<real>>, allowed: seq<real>, c: Call, key: Key, rules: Rules)
    requires Tracks(Bucket(hits, key), allowed, c.now, rules(key))
    ensures var (after, ok) := ListStep(hits, c, rules(c.key));
            (Tracks(Bucket(after, key), Allow(allowed, c.key == key && ok, c.now), c.now, rules(key)))
  {
    if c.key == key {
      OwnCallTracks(hits, allowed, c, rules(key));
    } else {
      OtherCallTracks(hits, c, key, rules(c.key));
    }
  }

  /** What is held for the key after a run tracks what the run allowed. */
  ghost predicate RunTracks(calls: seq<Call>, key: Key, now: real, rules: Rules) {
    Tracks(Bucket(RunList(calls, rules).0, key), Allowed(calls, RunList(calls, rules).1, key), now, rules(key))
  }

  lemma RunTracksStep(before: seq<Call>, c: Call, key: Key, rules: Rules)
    requires RunTracks(before, key, c.now, rules)
    ensures RunTracks(before + [c], key, c.now, rules)
  {
    var (hits, answers) := RunList(before, rules);
    BucketTracksStep(hits, Allowed(before, answers, key), c, key, rules);
    RunListAppend(before, c, rules);
    AllowedAppend(before, answers, c, ListStep(hits, c, rules(c.key)).1, key);
  }

  lemma RunTracksLater(calls: seq<Call>, key: Key, now: real, later: real, rules: Rules)
    requires RunTracks(calls, key, now, rules) && now <= later
    ensures RunTracks(calls, key, later, rules)
  {
    TracksLater(Bucket(RunList(calls, rules).0, key), Allowed(calls, RunList(calls, rules).1, key),
                now, later, rules(key));
  }

  lemma EarlierCalls(calls: seq<Call>)
    requires calls != [] && ClockRuns(calls)
    ensures var n := |calls| - 1;
            ClockRuns(calls[..n]) && EndOf(calls[..n], calls[n].now) <= calls[n].now && calls == calls[..n] + [calls[n]]
  {
  }

  function EndOf(calls: seq<Call>, none: real): real {
    if calls == [] then none else calls[|calls| - 1].now
  }

  /** What the list limiter holds for a key always tracks the calls it allowed with that key. */
  lemma {:induction false} BucketTracksAllowed(calls: seq<Call>, key: Key, now: real, rules: Rules)
    requires ClockRuns(calls) && EndOf(calls, now) <= now
    ensures RunTracks(calls, key, now, rules)
  {
    if calls != [] {
      var before, c := calls[..|calls| - 1], calls[|calls| - 1];
      EarlierCalls(calls);
      BucketTracksAllowed(before, key, c.now, rules);
      RunTracksStep(before, c, key, rules);
      RunTracksLater(calls, key, c.now, now, rules);
    }
  }

  lemma BucketsOrdered(calls: seq<Call>, key: Key, rules: Rules)
    requires ClockRuns(calls)
    ensures Nondecreasing(Bucket(RunList(calls, rules).0, key))
  {
    BucketTracksAllowed(calls, key, EndOf(calls, 0.0), rules);
    TracksLater(Bucket(RunList(calls, rules).0, key), Allowed(calls, RunList(calls, rules).1, key),
                EndOf(calls, 0.0), EndOf(calls, 0.0), rules(key));
  }

  /** The last call was allowed and made the buckets too many: all stamps are forgotten. */
  ghost predicate ResetsLast(calls: seq<Call>, rules: Rules) {
    && calls != [] && RunDeque(calls, rules).1[|calls| - 1]
    && |RunDeque(calls[..|calls| - 1], rules).0.Keys + {calls[|calls| - 1].key}| > 20000
  }

  ghost predicate NeverResets(calls: seq<Call>, rules: Rules) {
    forall n :: 0 <= n <= |calls| ==> !ResetsLast(calls[..n], rules)
  }

  lemma NeverBefore(calls: seq<Call>, rules: Rules)
    requires calls != [] && NeverResets(calls, rules)
    ensures NeverResets(calls[..|calls| - 1], rules) && !ResetsLast(calls, rules)
  {
    var before := calls[..|calls| - 1];
    forall n | 0 <= n <= |before| ensures !ResetsLast(before[..n], rules) { assert before[..n] == calls[..n]; }
    assert calls[..|calls|] == calls;
  }

  lemma RefinesByStep(before: seq<Call>, c: Call, rules: Rules)
    requires ClockRuns(before) && RunDeque(before, rules) == RunList(before, rules)
    requires DequeStep(RunDeque(before, rules).0, c, rules(c.key)).1
             ==> |RunDeque(before, rules).0.Keys + {c.key}| <= MAX_BUCKETS
    ensures RunDeque(before + [c], rules) == RunList(before + [c], rules)
  {
    BucketsOrdered(before, c.key, rules);
    ListIsDeque(RunDeque(before, rules).0, c, rules(c.key));
    RunDequeAppend(before, c, rules);
    RunListAppend(before, c, rules);
  }

  /** As long as nothing was reset, the two limiters keep the same state and give the same answers. */
  lemma {:induction false} RefinesUntilReset(calls: seq<Call>, rules: Rules)
    requires ClockRuns(calls) && NeverResets(calls, rules)
    ensures RunDeque(calls, rules) == RunList(calls, rules)
  {
    if calls != [] {
      var before, c := calls[..|calls| - 1], calls[|calls| - 1];
      NeverBefore(calls, rules);
      RefinesUntilReset(before, rules);
      RunDequeAppend(before, c, rules);
      assert calls == before + [c];
      RefinesByStep(before, c, rules);
    }
  }

  /** A reset leaves the deque limiter without stamps, while the list limiter has at least that of the last call. */
  lemma ResetForgets(calls: seq<Call>, rules: Rules)
    requires ResetsLast(calls, rules)
    ensures RunDeque(calls, rules).0 == map[] && RunList(calls, rules).0 != map[]
  {
    var before, c := calls[..|calls| - 1], calls[|calls| - 1];
    assert calls == before + [c];
    RunDequeAppend(before, c, rules);
    RunListAppend(before, c, rules);
    DequeCases(RunDeque(before, rules).0, c, rules(c.key));
    var buckets, rule := RunDeque(before, rules).0, rules(c.key);
    TooMany(buckets, c.key, Judged(Popped(Bucket(buckets, c.key), c.now - rule.window), c.now, rule.limit));
    ListCases(RunList(before, rules).0, c, rules(c.key));
    assert c.key in RunList(calls, rules).0;
  }

  lemma TooMany(buckets: map<Key, seq<real>>, key: Key, bucket: seq<real>)
    requires |buckets.Keys + {key}| > MAX_BUCKETS
    ensures Capped(buckets[key := bucket]) == map[]
  {
    assert buckets[key := bucket].Keys == buckets.Keys + {key};
  }

  /** For every run: the limiters agree all along exactly when nothing was reset. */
  lemma RefinementHoldsUntilResetExactly(calls: seq<Call>, rules: Rules)
    requires ClockRuns(calls)
    ensures (forall n :: 0 <= n <= |calls| ==> RunDeque(calls[..n], rules) == RunList(calls[..n], rules))
       <==> NeverResets(calls, rules)
  {
    if NeverResets(calls, rules) {
      forall n | 0 <= n <= |calls| ensures RunDeque(calls[..n], rules) == RunList(calls[..n], rules) {
        forall m | 0 <= m <= n ensures !ResetsLast(calls[..n][..m], rules) { assert calls[..n][..m] == calls[..m]; }
        RefinesUntilReset(calls[..n], rules);
      }
    } else {
      var n :| 0 <= n <= |calls| && ResetsLast(calls[..n], rules);
      ResetForgets(calls[..n], rules);
    }
  }

  /** With few enough keys nothing is reset. */
  lemma FewKeysNeverReset(calls: seq<Call>, rules: Rules)
    requires |Keys(calls)| <= MAX_BUCKETS
    ensures NeverResets(calls, rules)
  {
    forall n | 0 <= n <= |calls| ensures !ResetsLast(calls[..n], rules) {
      if n > 0 {
        var before := calls[..n][..n - 1];
        PartKeys(calls, n);
        SubKeys(calls[..n]);
        DequeKeys(before, rules);
        SmallerSet(RunDeque(before, rules).0.Keys + {calls[n - 1].key}, Keys(calls[..n]));
      }
    }
  }

  lemma PartKeys(calls: seq<Call>, n: nat)
    requires n <= |calls|
    ensures |Keys(calls[..n])| <= |Keys(calls)|
  {
    assert forall i :: 0 <= i < n ==> calls[..n][i] == calls[i];
    SmallerSet(Keys(calls[..n]), Keys(calls));
  }

  /** The two limiters keep the same state and give the same answer to every call, under a nondecreasing clock
      and with few enough keys. */
  lemma DequeRefinesList(calls: seq<Call>, rules: Rules)
    requires ClockRuns(calls) && |Keys(calls)| <= MAX_BUCKETS
    ensures RunDeque(calls, rules) == RunList(calls, rules)
  {
    FewKeysNeverReset(calls, rules);
    RefinesUntilReset(calls, rules);
  }

  lemma SubKeys(calls: seq<Call>)
    requires calls != []
    ensures Keys(calls) == Keys(calls[..|calls| - 1]) + {calls[|calls| - 1].key}
    ensures |Keys(calls[..|calls| - 1])| <= |Keys(calls)|
  {
    var n := |calls| - 1;
    assert forall i :: 0 <= i < n ==> calls[..n][i] == calls[i];
    assert Keys(calls) == Keys(calls[..n]) + {calls[n].key};
    SmallerSet(Keys(calls[..n]), Keys(calls));
  }

  lemma SmallerSet<T>(a: set<T>, b: set<T>)
    requires a <= b
    ensures |a| <= |b|
  {
    assert b == a + (b - a);
  }

  function Within(stamps: seq<real>, start: real, window: real): seq<real> {
    Filter((t: real) => start <= t < start + window, stamps)
  }

  /** If the first stamp lies in the window, everything `limit` places on lies behind it. */
  lemma FirstInside(stamps: seq<real>, start: real, limit: nat, window: real)
    requires Nondecreasing(stamps) && Spaced(stamps, limit, window) && |stamps| > limit && start <= stamps[0]
    ensures Within(stamps[limit..], start, window) == []
  {
    assert stamps[0 + limit] >= stamps[0] + window;
    assert forall t :: t in stamps[limit..] ==> t >= stamps[limit];
    FilterNone((t: real) => start <= t < start + window, stamps[limit..]);
  }

  /** Stamps spaced a window apart at distance `limit` put at most `limit` of themselves into any window. */
  lemma {:induction false} SpacedStampsFit(stamps: seq<real>, start: real, limit: nat, window: real)
    requires Nondecreasing(stamps) && Spaced(stamps, limit, window)
    ensures |Within(stamps, start, window)| <= limit
    decreases |stamps|
  {
    var inside := (t: real) => start <= t < start + window;
    if |stamps| > limit {
      if inside(stamps[0]) {
        assert stamps == stamps[..limit] + stamps[limit..];
        FilterConcat(inside, stamps[..limit], stamps[limit..]);
        FirstInside(stamps, start, limit, window);
      } else {
        var rest := stamps[1..];
        assert Spaced(rest, limit, window) by {
          forall i | 0 <= i < |rest| - limit ensures rest[i + limit] >= rest[i] + window {
            assert stamps[(i + 1) + limit] >= stamps[i + 1] + window;
          }
        }
        SpacedStampsFit(rest, start, limit, window);
      }
    }
  }

  /** The number of calls a rule lets into a window. */
  function Quota(rule: Rule): nat { if rule.limit < 0 then 0 else rule.limit }

  /** The limit itself: whatever the calls, any half-open window of its key's length holds at most `limit` calls of a
      key that the list limiter allowed. */
  lemma ListWindowBound(calls: seq<Call>, key: Key, start: real, rules: Rules)
    requires ClockRuns(calls)
    ensures |Within(Allowed(calls, RunList(calls, rules).1, key), start, rules(key).window)| <= Quota(rules(key))
  {
    BucketTracksAllowed(calls, key, EndOf(calls, 0.0), rules);
    var stamps := Allowed(calls, RunList(calls, rules).1, key);
    if rules(key).limit > 0 { SpacedStampsFit(stamps, start, rules(key).limit, rules(key).window); }
  }

  /** And, as long as nothing was reset, that the deque limiter allowed. */
  lemma BoundUntilReset(calls: seq<Call>, key: Key, start: real, rules: Rules)
    requires ClockRuns(calls) && NeverResets(calls, rules)
    ensures |Within(Allowed(calls, RunDeque(calls, rules).1, key), start, rules(key).window)| <= Quota(rules(key))
  {
    ListWindowBound(calls, key, start, rules);
    RefinesUntilReset(calls, rules);
  }

  /** In particular with few enough keys. */
  lemma WindowBound(calls: seq<Call>, key: Key, start: real, rules: Rules)
    requires ClockRuns(calls) && |Keys(calls)| <= MAX_BUCKETS
    ensures |Within(Allowed(calls, RunDeque(calls, rules).1, key), start, rules(key).window)| <= Quota(rules(key))
  {
    FewKeysNeverReset(calls, rules);
    BoundUntilReset(calls, key, start, rules);
  }

  /** The stamps less than a window old are all among those that are held. */
  lemma RecentAreHeld(bucket: seq<real>, allowed: seq<real>, now: real, rule: Rule)
    requires Tracks(bucket, allowed, now, rule)
    ensures Filter(Recent(now, rule.window), bucket) == Filter((s: real) => now - s < rule.window, allowed)
  {
    var cut := |allowed| - |bucket|;
    assert allowed == allowed[..cut] + bucket;
    FilterConcat(Recent(now, rule.window), allowed[..cut], bucket);
    FilterNone(Recent(now, rule.window), allowed[..cut]);
    FilterSame(Recent(now, rule.window), (s: real) => now - s < rule.window, allowed);
  }

  /** Which calls are allowed: a call of the list limiter exactly when less than `limit` calls of its key were allowed
      less than a window before it; and one of the deque limiter too, as long as nothing was reset. */
  lemma AllowedExactly(before: seq<Call>, c: Call, rules: Rules)
    requires ClockRuns(before + [c])
    ensures var stamps, rule := Allowed(before, RunList(before, rules).1, c.key), rules(c.key);
            var ok := |Filter((s: real) => c.now - s < rule.window, stamps)| < rule.limit;
            && RunList(before + [c], rules).1 == RunList(before, rules).1 + [ok]
            && (NeverResets(before + [c], rules) ==> RunDeque(before + [c], rules).1 == RunList(before, rules).1 + [ok])
  {
    var calls := before + [c];
    EarlierCalls(calls);
    assert calls[..|calls| - 1] == before;
    BucketTracksAllowed(before, c.key, c.now, rules);
    RunListAppend(before, c, rules);
    ListCases(RunList(before, rules).0, c, rules(c.key));
    RecentAreHeld(Bucket(RunList(before, rules).0, c.key), Allowed(before, RunList(before, rules).1, c.key), c.now, rules(c.key));
    if NeverResets(calls, rules) { RefinesUntilReset(calls, rules); }
  }

  /** The k-th of a family of distinct keys. */
  function Name(k: nat): (key: Key)
    ensures |key| == k
  {
    seq(k, _ => 'x')
  }

  /** `burst` calls of the first key, then one from each of the keys up to the n-th, all at time 0. */
  function Flood(n: nat, burst: nat): (calls: seq<Call>)
    requires n >= 1
    ensures |calls| == n - 1 + burst
  {
    if n == 1 then seq(burst, _ => Call(Name(0), 0.0)) else Flood(n - 1, burst) + [Call(Name(n - 1), 0.0)]
  }

  predicate AllTrue(answers: seq<bool>) { forall i :: 0 <= i < |answers| ==> answers[i] }

  predicate AreZeros(stamps: seq<real>, n: nat) { |stamps| == n && forall i :: 0 <= i < n ==> stamps[i] == 0.0 }

  /** The stamps of all calls with this key. */
  function Stamps(calls: seq<Call>, key: Key): seq<real> {
    if calls == [] then [] else
      var n := |calls| - 1;
      Stamps(calls[..n], key) + if calls[n].key == key then [calls[n].now] else []
  }

  lemma {:induction false} AllAllowed(calls: seq<Call>, answers: seq<bool>, key: Key)
    requires |answers| == |calls| && AllTrue(answers)
    ensures Allowed(calls, answers, key) == Stamps(calls, key)
  {
    if calls != [] { AllAllowed(calls[..|calls| - 1], answers[..|calls| - 1], key); }
  }

  lemma StampsAppend(calls: seq<Call>, c: Call, key: Key)
    ensures Stamps(calls + [c], key) == Stamps(calls, key) + if c.key == key then [c.now] else []
  {
    assert (calls + [c])[..|calls|] == calls;
  }

  /** Every key may call at least once in a window of positive length. */
  ghost predicate Lenient(rules: Rules) {
    forall key :: rules(key).limit >= 1 && rules(key).window > 0.0
  }

  lemma BurstNext(burst: nat)
    ensures Flood(1, burst + 1) == Flood(1, burst) + [Call(Name(0), 0.0)]
  {
  }

  lemma NothingPopped(bucket: seq<real>, cutoff: real)
    requires forall i :: 0 <= i < |bucket| ==> bucket[i] > cutoff
    ensures Popped(bucket, cutoff) == bucket
  {
  }

  ghost predicate HoldsZeros(buckets: map<Key, seq<real>>, key: Key, n: nat) {
    AreZeros(Bucket(buckets, key), n) && buckets.Keys == if n == 0 then {} else {key}
  }

  lemma BurstStep(buckets: map<Key, seq<real>>, key: Key, n: nat, rule: Rule)
    requires HoldsZeros(buckets, key, n) && n < rule.limit && rule.window > 0.0
    ensures var (after, ok) := DequeStep(buckets, Call(key, 0.0), rule);
            (ok && HoldsZeros(after, key, n + 1))
  {
    var bucket := Bucket(buckets, key);
    NothingPopped(bucket, 0.0 - rule.window);
    assert buckets.Keys + {key} == {key};
    NoReset(buckets, key, bucket + [0.0]);
  }

  /** Up to its limit the first key is let through. */
  lemma {:induction false} BurstRuns(burst: nat, rules: Rules)
    requires Lenient(rules) && burst <= rules(Name(0)).limit
    ensures HoldsZeros(RunDeque(Flood(1, burst), rules).0, Name(0), burst)
    ensures AllTrue(RunDeque(Flood(1, burst), rules).1)
  {
    if burst > 0 {
      var c := Call(Name(0), 0.0);
      BurstRuns(burst - 1, rules);
      BurstNext(burst - 1);
      RunDequeAppend(Flood(1, burst - 1), c, rules);
      BurstStep(RunDeque(Flood(1, burst - 1), rules).0, c.key, burst - 1, rules(c.key));
    }
  }

  ghost predicate Flooded(buckets: map<Key, seq<real>>, n: nat) {
    |buckets| == n && (forall key :: key in buckets ==> |key| < n)
  }

  lemma FirstCallStep(buckets: map<Key, seq<real>>, n: nat, rule: Rule)
    requires Flooded(buckets, n) && rule.limit >= 1
    ensures var (after, ok) := DequeStep(buckets, Call(Name(n), 0.0), rule);
            (ok && if n < MAX_BUCKETS then Flooded(after, n + 1) else after == map[])
  {
    var c := Call(Name(n), 0.0);
    assert c.key !in buckets;
    assert Bucket(buckets, c.key) == [] && Popped([], 0.0 - rule.window) == [];
    assert |buckets[c.key := [0.0]]| == n + 1;
  }

  /** n keys hold a bucket, unless they were one too many. */
  ghost predicate Filled(buckets: map<Key, seq<real>>, n: nat) {
    if n <= MAX_BUCKETS then Flooded(buckets, n) else buckets == map[]
  }

  ghost predicate FloodedRun(run: (map<Key, seq<real>>, seq<bool>), n: nat) { AllTrue(run.1) && Filled(run.0, n) }

  lemma FloodStep(n: nat, burst: nat, rules: Rules)
    requires 1 <= n <= MAX_BUCKETS && FloodedRun(RunDeque(Flood(n, burst), rules), n) && Lenient(rules)
    ensures FloodedRun(RunDeque(Flood(n + 1, burst), rules), n + 1)
  {
    var c := Call(Name(n), 0.0);
    RunDequeAppend(Flood(n, burst), c, rules);
    FirstCallStep(RunDeque(Flood(n, burst), rules).0, n, rules(c.key));
  }

  lemma FloodStarts(burst: nat, rules: Rules)
    requires Lenient(rules) && burst == rules(Name(0)).limit
    ensures FloodedRun(RunDeque(Flood(1, burst), rules), 1)
  {
    BurstRuns(burst, rules);
    var buckets := RunDeque(Flood(1, burst), rules).0;
    assert |buckets| == |buckets.Keys| == 1;
  }

  lemma {:induction false} FillsUp(run: nat -> (map<Key, seq<real>>, seq<bool>), n: nat)
    requires 1 <= n <= MAX_BUCKETS + 1 && FloodedRun(run(1), 1)
    requires forall k: nat :: 1 <= k <= MAX_BUCKETS && FloodedRun(run(k), k) ==> FloodedRun(run(k + 1), k + 1)
    ensures FloodedRun(run(n), n)
  {
    if n > 1 { FillsUp(run, n - 1); }
  }

  /** While there is room every first call of a key is allowed and adds a bucket; the one too many clears them all. */
  lemma FloodFills(n: nat, burst: nat, rules: Rules)
    requires Lenient(rules) && burst == rules(Name(0)).limit && 1 <= n <= MAX_BUCKETS + 1
    ensures FloodedRun(RunDeque(Flood(n, burst), rules), n)
  {
    FloodStarts(burst, rules);
    forall k: nat | 1 <= k <= MAX_BUCKETS && FloodedRun(FloodRun(burst, rules)(k), k)
      ensures FloodedRun(FloodRun(burst, rules)(k + 1), k + 1)
    {
      FloodStep(k, burst, rules);
    }
    FillsUp(FloodRun(burst, rules), n);
  }

  function FloodRun(burst: nat, rules: Rules): nat -> (map<Key, seq<real>>, seq<bool>) {
    k => if k >= 1 then RunDeque(Flood(k, burst), rules) else (map[], [])
  }

  lemma {:induction false} BurstStamps(burst: nat)
    ensures AreZeros(Stamps(Flood(1, burst), Name(0)), burst)
  {
    if burst > 0 {
      BurstStamps(burst - 1);
      BurstNext(burst - 1);
      StampsAppend(Flood(1, burst - 1), Call(Name(0), 0.0), Name(0));
    }
  }

  lemma {:induction false} FloodStamps(n: nat, burst: nat)
    requires n >= 1
    ensures AreZeros(Stamps(Flood(n, burst), Name(0)), burst)
  {
    if n == 1 {
      BurstStamps(burst);
    } else {
      FloodStamps(n - 1, burst);
      StampsAppend(Flood(n - 1, burst), Call(Name(n - 1), 0.0), Name(0));
    }
  }

  lemma {:induction false} FloodKeys(n: nat, burst: nat)
    requires n >= 1 && burst >= 1
    ensures |Keys(Flood(n, burst))| == n && Name(0) in Keys(Flood(n, burst))
    ensures forall key :: key in Keys(Flood(n, burst)) ==> |key| < n
  {
    if n == 1 {
      assert Flood(1, burst)[0].key == Name(0);
      assert Keys(Flood(1, burst)) == {Name(0)};
    } else {
      FloodKeys(n - 1, burst);
      SubKeys(Flood(n, burst));
      assert Flood(n, burst)[..n - 2 + burst] == Flood(n - 1, burst);
    }
  }

  lemma {:induction false} FloodAtZero(n: nat, burst: nat)
    requires n >= 1
    ensures forall i :: 0 <= i < |Flood(n, burst)| ==> Flood(n, burst)[i].now == 0.0
  {
    if n > 1 { FloodAtZero(n - 1, burst); }
  }

  /** The first key uses up its limit, 20000 more keys call once, and the first calls again. */
  function Overflow(rules: Rules): seq<Call>
    requires rules(Name(0)).limit >= 0
  {
    Flood(MAX_BUCKETS + 1, rules(Name(0)).limit) + [Call(Name(0), 0.0)]
  }

  lemma OverflowCalls(rules: Rules)
    requires Lenient(rules)
    ensures ClockRuns(Overflow(rules)) && |Keys(Overflow(rules))| == MAX_BUCKETS + 1
  {
    var n, burst := MAX_BUCKETS + 1, rules(Name(0)).limit;
    FloodKeys(n, burst);
    SubKeys(Overflow(rules));
    assert Overflow(rules)[..|Overflow(rules)| - 1] == Flood(n, burst);
    FloodAtZero(n, burst);
  }

  lemma OverflowRuns(rules: Rules)
    requires Lenient(rules)
    ensures AllTrue(RunDeque(Overflow(rules), rules).1)
  {
    var n, burst, c := MAX_BUCKETS + 1, rules(Name(0)).limit, Call(Name(0), 0.0);
    FloodFills(n, burst, rules);
    RunDequeAppend(Flood(n, burst), c, rules);
    ForgottenIsAllowed(c, rules(c.key));
  }

  lemma OverflowAllows(rules: Rules)
    requires Lenient(rules)
    ensures AreZeros(Allowed(Overflow(rules), RunDeque(Overflow(rules), rules).1, Name(0)), rules(Name(0)).limit + 1)
  {
    var n, burst, c := MAX_BUCKETS + 1, rules(Name(0)).limit, Call(Name(0), 0.0);
    OverflowRuns(rules);
    AllAllowed(Overflow(rules), RunDeque(Overflow(rules), rules).1, Name(0));
    StampsAppend(Flood(n, burst), c, Name(0));
    FloodStamps(n, burst);
  }

  lemma ZerosAreWithin(stamps: seq<real>, n: nat, window: real)
    requires AreZeros(stamps, n) && window > 0.0
    ensures |Within(stamps, 0.0, window)| == n
  {
    FilterAll((t: real) => 0.0 <= t < 0.0 + window, stamps);
  }

  lemma ForgottenIsAllowed(c: Call, rule: Rule)
    requires rule.limit >= 1
    ensures DequeStep(map[], c, rule).1
  {
    assert Bucket(map[], c.key) == [] && Popped([], c.now - rule.window) == [];
  }

  /** The reset forgets the stamps of the first key: of its window it gets one call more than its limit. */
  lemma ResetBreaksTheBound(rules: Rules)
    requires Lenient(rules)
    ensures !Bounded(Overflow(rules), rules)
  {
    var key := Name(0);
    OverflowAllows(rules);
    ZerosAreWithin(Allowed(Overflow(rules), RunDeque(Overflow(rules), rules).1, key), rules(key).limit + 1, rules(key).window);
    assert !BoundedAt(Overflow(rules), rules, key, 0.0);
  }

  ghost predicate BoundedAt(calls: seq<Call>, rules: Rules, key: Key, start: real) {
    |Within(Allowed(calls, RunDeque(calls, rules).1, key), start, rules(key).window)| <= Quota(rules(key))
  }

  /** The deque limiter keeps every key to its limit in every window. */
  ghost predicate Bounded(calls: seq<Call>, rules: Rules) {
    forall key, start :: BoundedAt(calls, rules, key, start)
  }

  /** Every call sequence with at most n keys is kept to the limits exactly when n is at most the number of buckets. */
  lemma BoundHoldsExactly(n: nat, rules: Rules)
    requires Lenient(rules)
    ensures (forall calls :: ClockRuns(calls) && |Keys(calls)| <= n ==> Bounded(calls, rules)) <==> n <= 20000
  {
    if n <= MAX_BUCKETS {
      forall calls, key, start | ClockRuns(calls) && |Keys(calls)| <= n ensures BoundedAt(calls, rules, key, start) {
        WindowBound(calls, key, start, rules);
      }
    } else {
      OverflowCalls(rules);
      ResetBreaksTheBound(rules);
    }
  }

  /** And exactly then do the two limiters give the same answers. */
  lemma RefinementHoldsExactly(n: nat, rules: Rules)
    requires Lenient(rules)
    ensures (forall calls :: ClockRuns(calls) && |Keys(calls)| <= n ==> RunDeque(calls, rules).1 == RunList(calls, rules).1)
       <==> n <= 20000
  {
    if n <= MAX_BUCKETS {
      forall calls | ClockRuns(calls) && |Keys(calls)| <= n ensures RunDeque(calls, rules).1 == RunList(calls, rules).1 {
        DequeRefinesList(calls, rules);
      }
    } else {
      OverflowCalls(rules);
      OverflowAllows(rules);
      ListWindowBound(Overflow(rules), Name(0), 0.0, rules);
      ZerosAreWithin(Allowed(Overflow(rules), RunDeque(Overflow(rules), rules).1, Name(0)), rules(Name(0)).limit + 1,
                     rules(Name(0)).window);
      assert RunDeque(Overflow(rules), rules).1 != RunList(Overflow(rules), rules).1;
    }
  }

  class Limiter {
    var buckets: map<Key, seq<real>>

    constructor ()
      ensures buckets == map[]
    {
      buckets := map[];
    }

    method Check(c: Call, rule: Rule) returns (ok: bool)
      modifies this
      ensures (buckets, ok) == DequeStep(old(buckets), c, rule)
    {
      var bucket := if c.key in buckets then buckets[c.key] else [];
      var cutoff := c.now - rule.window;
      while bucket != [] && bucket[0] <= cutoff
        invariant Popped(bucket, cutoff) == Popped(Bucket(buckets, c.key), cutoff)
        invariant buckets == old(buckets)
      {
        bucket := bucket[1..];
      }
      if |bucket| >= rule.limit {
        buckets := buckets[c.key := bucket];
        return false;
      }
      buckets := buckets[c.key := bucket + [c.now]];
      if |buckets| > MAX_BUCKETS {
        buckets := map[];
      }
      return true;
    }
  }

  class HitList {
    var hits: map<Key, seq<real>>

    constructor ()
      ensures hits == map[]
    {
      hits := map[];
    }

    method RateOk(c: Call, rule: Rule) returns (ok: bool)
      modifies this
      ensures (hits, ok) == ListStep(old(hits), c, rule)
    {
      var stamps, bucket := if c.key in hits then hits[c.key] else [], [];
      for i := 0 to |stamps|
        invariant bucket == Filter(Recent(c.now, rule.window), stamps[..i])
        invariant hits == old(hits)
      {
        assert stamps[..i + 1] == stamps[..i] + [stamps[i]];
        FilterConcat(Recent(c.now, rule.window), stamps[..i], [stamps[i]]);
        if c.now - stamps[i] < rule.window {
          bucket := bucket + [stamps[i]];
        }
      }
      assert stamps[..|stamps|] == stamps;
      if |bucket| >= rule.limit {
        hits := hits[c.key := bucket];
        return false;
      }
      bucket := bucket + [c.now];
      hits := hits[c.key := bucket];
      return true;
    }
  }
}
