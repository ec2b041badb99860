/** The rate-limiting middleware: an in-memory sliding window and a Redis sorted-set
    window, both of which log every request, admitted or not, and the dispatcher that
    falls back from the second to the first when Redis fails. */
module DenyCountingLimiter {
  import opened Basics
  import opened DistinctInstants
  import opened SlidingWindow
  import opened Wrappers

  const CLEANUP_INTERVAL: real := 300.0
  const HISTORY_KEPT: real := 3600.0

  datatype Tier = Public | Authenticated | Expensive | Export | Webhook {
    function Requests(): int {
      match this
      case Public => 30
      case Authenticated => 100
      case Expensive => 10
      case Export => 5
      case Webhook => 1000
    }

    function Window(): real {
      match this
      case Export => 300.0
      case _ => 60.0
    }
  }

  datatype Answer = Answer(allowed: bool, limit: int, remaining: int)

  // ---- in-memory limiter ----

  function MemoryAnswer(log: seq<real>, now: real, limit: int, window: real): Answer {
    var count := |After(log, now - window)|;
    Answer(count < limit, limit, Max(0, limit - count - 1))
  }

  /** Every request is logged, admitted or not. */
  function MemoryLog(log: seq<real>, now: real, window: real): seq<real> {
    After(log, now - window) + [now]
  }

  ghost function Swept(store: Store, cutoff: real): Store {
    map key | key in store && After(store[key], cutoff) != [] :: After(store[key], cutoff)
  }

  ghost function SweptIfDue(store: Store, lastCleanup: real, now: real): Store {
    if now - lastCleanup < CLEANUP_INTERVAL then store else Swept(store, now - HISTORY_KEPT)
  }

  class InMemoryRateLimiter {
    var requests: Store
    var lastCleanup: real

    constructor (now: real)
      ensures requests == map[] && lastCleanup == now
    {
      requests := map[];
      lastCleanup := now;
    }

    method CleanupOldEntries(now: real)
      modifies this
      ensures requests == SweptIfDue(old(requests), old(lastCleanup), now)
      ensures lastCleanup == if now - old(lastCleanup) < CLEANUP_INTERVAL then old(lastCleanup) else now
    {
      if now - lastCleanup < CLEANUP_INTERVAL {
        return;
      }
      var cutoff := now - HISTORY_KEPT;
      var todo := requests.Keys;
      while todo != {}
        invariant lastCleanup == old(lastCleanup)
        invariant todo <= old(requests).Keys
        invariant forall key :: key in todo ==> key in requests && requests[key] == old(requests)[key]
        invariant forall key :: key in old(requests) && key !in todo ==>
          (key in requests <==> After(old(requests)[key], cutoff) != [])
        invariant forall key :: key in requests && key !in todo ==>
          key in old(requests) && requests[key] == After(old(requests)[key], cutoff)
        decreases todo
      {
        var key :| key in todo;
        todo := todo - {key};
        requests := requests[key := After(requests[key], cutoff)];
        if requests[key] == [] {
          requests := requests - {key};
        }
      }
      lastCleanup := now;
    }

    method IsAllowed(key: string, tier: Tier, burst: int, cleanupNow: real, now: real) returns (answer: Answer)
      modifies this
      ensures
        var store := SweptIfDue(old(requests), old(lastCleanup), cleanupNow);
        && answer == MemoryAnswer(LogOf(store, key), now, tier.Requests() + burst, tier.Window())
        && requests == store[key := MemoryLog(LogOf(store, key), now, tier.Window())]
      ensures lastCleanup == if cleanupNow - old(lastCleanup) < CLEANUP_INTERVAL then old(lastCleanup) else cleanupNow
    {
      CleanupOldEntries(cleanupNow);
      var limit := tier.Requests() + burst;
      if key !in requests {
        requests := requests[key := []];
      }
      requests := requests[key := After(requests[key], now - tier.Window())];
      var currentCount := |requests[key]|;
      requests := requests[key := requests[key] + [now]];
      answer := Answer(currentCount < limit, limit, Max(0, limit - currentCount - 1));
    }
  }

  // ---- Redis limiter ----

  /** A sorted set whose members are the timestamps, with the time its key expires. */
  datatype SortedSet = SortedSet(scores: set<real>, expiresAt: real)

  function LiveScores(entry: Option<SortedSet>, now: real): set<real> {
    match entry
    case None => {}
    case Some(z) => if now < z.expiresAt then z.scores else {}
  }

  /** The scores after the range removal from 0 to the window start and the insertion. */
  function ScoresAfter(entry: Option<SortedSet>, now: real, window: real): set<real> {
    (set s | s in LiveScores(entry, now) && !(0.0 <= s <= now - window)) + {now}
  }

  function RedisAnswer(entry: Option<SortedSet>, now: real, limit: int, window: real): Answer {
    var count := |ScoresAfter(entry, now, window)|;
    Answer(count <= limit, limit, if count <= limit then Max(0, limit - count) else 0)
  }

  function RedisEntry(entry: Option<SortedSet>, now: real, window: real): SortedSet {
    SortedSet(ScoresAfter(entry, now, window), now + window + 1.0)
  }

  /** What becomes of one round trip: answered, never applied, or applied with the
      reply lost. */
  datatype RoundTrip = Answered | Unreachable | AppliedThenLost

  function EntryOf(sets: map<string, SortedSet>, key: string): Option<SortedSet> {
    if key in sets then Some(sets[key]) else None
  }

  datatype RedisError = RedisError

  class RedisRateLimiter {
    var sets: map<string, SortedSet>

    constructor ()
      ensures sets == map[]
    {
      sets := map[];
    }

    method IsAllowed(key: string, tier: Tier, burst: int, now: real, trip: RoundTrip)
      returns (r: Result<Answer, RedisError>)
      modifies this
      ensures
        var entry := EntryOf(old(sets), key);
        && sets == (if trip.Unreachable? then old(sets) else old(sets)[key := RedisEntry(entry, now, tier.Window())])
        && r == (if trip.Answered? then Success(RedisAnswer(entry, now, tier.Requests() + burst, tier.Window()))
                 else Failure(RedisError))
    {
      var limit, window := tier.Requests() + burst, tier.Window();
      if trip.Unreachable? {
        return Failure(RedisError);
      }
      var live := LiveScores(EntryOf(sets, key), now);
      var inWindow := set s | s in live && !(0.0 <= s <= now - window);
      var scores := inWindow + {now};
      assert scores == ScoresAfter(EntryOf(sets, key), now, window);
      sets := sets[key := SortedSet(scores, now + window + 1.0)];
      var requestCount := |scores|;
      if trip.AppliedThenLost? {
        return Failure(RedisError);
      }
      var allowed := requestCount <= limit;
      return Success(Answer(allowed, limit, if allowed then Max(0, limit - requestCount) else 0));
    }
  }

  class RateLimitMiddleware {
    const memory: InMemoryRateLimiter
    const redis: RedisRateLimiter

    constructor (memory: InMemoryRateLimiter, redis: RedisRateLimiter)
      ensures this.memory == memory && this.redis == redis
    {
      this.memory := memory;
      this.redis := redis;
    }

    /** Redis when it answers, the in-memory limiter otherwise. */
    method Dispatch(key: string, tier: Tier, trip: RoundTrip, redisNow: real, cleanupNow: real, memoryNow: real)
      returns (answer: Answer)
      modifies memory, redis
      ensures trip.Answered? ==>
        && answer == RedisAnswer(EntryOf(old(redis.sets), key), redisNow, tier.Requests(), tier.Window())
        && memory.requests == old(memory.requests) && memory.lastCleanup == old(memory.lastCleanup)
      ensures !trip.Answered? ==>
        var store := SweptIfDue(old(memory.requests), old(memory.lastCleanup), cleanupNow);
        && answer == MemoryAnswer(LogOf(store, key), memoryNow, tier.Requests(), tier.Window())
        && memory.requests == store[key := MemoryLog(LogOf(store, key), memoryNow, tier.Window())]
        && memory.lastCleanup
             == (if cleanupNow - old(memory.lastCleanup) < CLEANUP_INTERVAL
                 then old(memory.lastCleanup) else cleanupNow)
      ensures redis.sets == if trip.Unreachable? then old(redis.sets)
                            else old(redis.sets)[key :=
                                   RedisEntry(EntryOf(old(redis.sets), key), redisNow, tier.Window())]
    {
      var r := redis.IsAllowed(key, tier, 0, redisNow, trip);
      match r
      case Success(a) => answer := a;
      case Failure(_) => answer := memory.IsAllowed(key, tier, 0, cleanupNow, memoryNow);
    }
  }

  // ---- the hourly sweep never changes a decision ----

  datatype Request = Request(key: string, tier: Tier, burst: int, cleanupNow: real, now: real)
  datatype MemoryRun = MemoryRun(answers: seq<Answer>, store: Store, lastCleanup: real)

  /** A run of the limiter, with its sweep or without it. */
  ghost function RunMemory(trace: seq<Request>, start: real, sweeping: bool): (r: MemoryRun)
    ensures |r.answers| == |trace|
  {
    if trace == [] then MemoryRun([], map[], start)
    else
      var n := |trace| - 1;
      var q := trace[n];
      var before := RunMemory(trace[..n], start, sweeping);
      var store := if sweeping then SweptIfDue(before.store, before.lastCleanup, q.cleanupNow) else before.store;
      var log := LogOf(store, q.key);
      MemoryRun(
        before.answers + [MemoryAnswer(log, q.now, q.tier.Requests() + q.burst, q.tier.Window())],
        store[q.key := MemoryLog(log, q.now, q.tier.Window())],
        if q.cleanupNow - before.lastCleanup < CLEANUP_INTERVAL then before.lastCleanup else q.cleanupNow)
  }

  ghost predicate ClockNeverSteppedBack(trace: seq<Request>) {
    && (forall i :: 0 <= i < |trace| ==> trace[i].cleanupNow <= trace[i].now)
    && (forall i, j :: 0 <= i < j < |trace| ==> trace[i].now <= trace[j].cleanupNow)
  }

  /** The two stores agree on everything later than `since`. */
  ghost predicate SameRecent(a: Store, b: Store, since: real) {
    forall key, cutoff :: cutoff >= since ==> After(LogOf(a, key), cutoff) == After(LogOf(b, key), cutoff)
  }

  lemma SweepKeepsRecent(a: Store, b: Store, since: real, now: real)
    requires SameRecent(a, b, since) && since <= now - HISTORY_KEPT
    ensures SameRecent(Swept(a, now - HISTORY_KEPT), b, now - HISTORY_KEPT)
  {
    forall key, cutoff | cutoff >= now - HISTORY_KEPT
      ensures After(LogOf(Swept(a, now - HISTORY_KEPT), key), cutoff) == After(LogOf(b, key), cutoff)
    {
      AfterAfter(LogOf(a, key), now - HISTORY_KEPT, cutoff);
    }
  }

  lemma SameUpdate(a: Store, b: Store, key: string, log: seq<real>, since: real, later: real)
    requires SameRecent(a, b, since) && since <= later
    ensures SameRecent(a[key := log], b[key := log], later)
  {
    var a', b' := a[key := log], b[key := log];
    forall k, cutoff | cutoff >= later
      ensures After(LogOf(a', k), cutoff) == After(LogOf(b', k), cutoff)
    {
      assert After(LogOf(a, k), cutoff) == After(LogOf(b, k), cutoff);
    }
  }

  /** Stores that agree on the last hour answer alike and go on agreeing. */
  lemma SameAnswer(a: Store, b: Store, since: real, q: Request)
    requires SameRecent(a, b, since) && since <= q.now - HISTORY_KEPT
    ensures After(LogOf(a, q.key), q.now - q.tier.Window()) == After(LogOf(b, q.key), q.now - q.tier.Window())
    ensures MemoryLog(LogOf(a, q.key), q.now, q.tier.Window()) == MemoryLog(LogOf(b, q.key), q.now, q.tier.Window())
    ensures
      var log := MemoryLog(LogOf(a, q.key), q.now, q.tier.Window());
      SameRecent(a[q.key := log], b[q.key := log], q.now - HISTORY_KEPT)
  {
    assert q.tier.Window() <= HISTORY_KEPT;
    SameUpdate(a, b, q.key, MemoryLog(LogOf(a, q.key), q.now, q.tier.Window()), since, q.now - HISTORY_KEPT);
  }

  lemma SweepIfDueKeepsRecent(a: Store, b: Store, since: real, lastCleanup: real, now: real)
    requires SameRecent(a, b, since) && since <= now - HISTORY_KEPT
    ensures SameRecent(SweptIfDue(a, lastCleanup, now), b, now - HISTORY_KEPT)
  {
    SweepKeepsRecent(a, b, since, now);
  }

  /** No decision of the limiter, for any tier, is ever changed by the sweep. */
  lemma {:induction false} SweepIsInvisible(trace: seq<Request>, start: real)
    requires ClockNeverSteppedBack(trace)
    ensures RunMemory(trace, start, true).answers == RunMemory(trace, start, false).answers
    ensures trace != [] ==>
      SameRecent(RunMemory(trace, start, true).store, RunMemory(trace, start, false).store,
        trace[|trace| - 1].now - HISTORY_KEPT)
  {
    if trace != [] {
      var n := |trace| - 1;
      var q := trace[n];
      SweepIsInvisible(trace[..n], start);
      var sweeping := RunMemory(trace[..n], start, true);
      var plain := RunMemory(trace[..n], start, false).store;
      var since := q.cleanupNow - HISTORY_KEPT;
      assert SameRecent(sweeping.store, plain, since);
      SweepIfDueKeepsRecent(sweeping.store, plain, since, sweeping.lastCleanup, q.cleanupNow);
      SameAnswer(SweptIfDue(sweeping.store, sweeping.lastCleanup, q.cleanupNow), plain, since, q);
    }
  }

  // ---- one key, one tier: memory against Redis ----

  datatype Call = Call(now: real, limit: int)

  ghost function MemoryLogAfter(calls: seq<Call>, window: real): seq<real> {
    if calls == [] then []
    else
      var n := |calls| - 1;
      MemoryLog(MemoryLogAfter(calls[..n], window), calls[n].now, window)
  }

  ghost function RedisEntryAfter(calls: seq<Call>, window: real): Option<SortedSet> {
    if calls == [] then None
    else
      var n := |calls| - 1;
      Some(RedisEntry(RedisEntryAfter(calls[..n], window), calls[n].now, window))
  }

  /** What each limiter answers to call `i` of the run. */
  ghost function MemorySays(calls: seq<Call>, window: real, i: nat): Answer
    requires i < |calls|
  {
    MemoryAnswer(MemoryLogAfter(calls[..i], window), calls[i].now, calls[i].limit, window)
  }

  ghost function RedisSays(calls: seq<Call>, window: real, i: nat): Answer
    requires i < |calls|
  {
    RedisAnswer(RedisEntryAfter(calls[..i], window), calls[i].now, calls[i].limit, window)
  }

  ghost function Times(calls: seq<Call>): (ts: seq<real>)
    ensures |ts| == |calls|
    ensures forall i :: 0 <= i < |calls| ==> ts[i] == calls[i].now
  {
    seq(|calls|, i requires 0 <= i < |calls| => calls[i].now)
  }

  ghost predicate Clocked(calls: seq<Call>) {
    && (forall i :: 0 <= i < |calls| ==> calls[i].now >= 0.0)
    && (forall i, j :: 0 <= i < j < |calls| ==> calls[i].now <= calls[j].now)
  }

  lemma {:induction false} MembersAfter(log: seq<real>, cutoff: real)
    ensures forall t :: t in After(log, cutoff) <==> t in log && t > cutoff
  {
    if log != [] {
      MembersAfter(log[1..], cutoff);
      assert log == [log[0]] + log[1..];
    }
  }

  lemma {:induction false} MembersCount(log: seq<real>)
    ensures |Members(log)| <= |log|
    ensures StrictlySorted(log) ==> |Members(log)| == |log|
  {
    if log != [] {
      var n := |log| - 1;
      MembersCount(log[..n]);
      assert Members(log) == Members(log[..n]) + {log[n]};
      assert StrictlySorted(log) ==> log[n] !in Members(log[..n]);
    }
  }

  /** A log of instants from 0 to `last`, in order. */
  ghost predicate Recent(log: seq<real>, last: real) {
    Sorted(log) && UpTo(log, last) && forall i :: 0 <= i < |log| ==> 0.0 <= log[i]
  }

  lemma KeptIsRecent(log: seq<real>, last: real, cutoff: real)
    requires Recent(log, last)
    ensures Recent(After(log, cutoff), last)
    ensures StrictlySorted(log) ==> StrictlySorted(After(log, cutoff))
    ensures log == [] ==> After(log, cutoff) == []
  {
    AfterIsSuffix(log, cutoff);
  }

  lemma NextLog(log: seq<real>, last: real, now: real, window: real)
    requires Recent(log, last) && 0.0 <= last <= now
    ensures Recent(MemoryLog(log, now, window), now)
    ensures StrictlySorted(log) && (log == [] || last < now) ==> StrictlySorted(MemoryLog(log, now, window))
  {
    KeptIsRecent(log, last, now - window);
  }

  /** The sorted set is the log with repetitions collapsed, and its key outlives the
      last request by a second more than the window. */
  ghost predicate Mirrors(entry: Option<SortedSet>, log: seq<real>, last: real, window: real) {
    match entry
    case None => log == []
    case Some(z) => z.scores == Members(log) && z.expiresAt == last + window + 1.0
  }

  lemma NextScores(entry: Option<SortedSet>, log: seq<real>, last: real, now: real, window: real)
    requires Mirrors(entry, log, last, window) && Recent(log, last) && 0.0 <= last <= now
    ensures ScoresAfter(entry, now, window) == Members(MemoryLog(log, now, window))
  {
    var kept := After(log, now - window);
    MembersAfter(log, now - window);
    forall t
      ensures t in Members(MemoryLog(log, now, window)) <==> (t in log && t > now - window) || t == now
    {
      assert t in kept + [now] <==> t in kept || t == now;
    }
    forall t | t in log
      ensures 0.0 <= t <= last
    {
      var i :| 0 <= i < |log| && log[i] == t;
    }
  }

  ghost function LastTime(calls: seq<Call>): real {
    if calls == [] then 0.0 else calls[|calls| - 1].now
  }

  /** The two stores hold the same instants after every run of a forward clock; the
      key's expiry only drops what the window has already dropped. */
  lemma {:induction false} SameInstants(calls: seq<Call>, window: real)
    requires Clocked(calls)
    ensures Recent(MemoryLogAfter(calls, window), LastTime(calls)) && LastTime(calls) >= 0.0
    ensures Mirrors(RedisEntryAfter(calls, window), MemoryLogAfter(calls, window), LastTime(calls), window)
  {
    if calls != [] {
      var n := |calls| - 1;
      SameInstants(calls[..n], window);
      var entry, log := RedisEntryAfter(calls[..n], window), MemoryLogAfter(calls[..n], window);
      NextLog(log, LastTime(calls[..n]), calls[n].now, window);
      NextScores(entry, log, LastTime(calls[..n]), calls[n].now, window);
    }
  }

  lemma {:induction false} DistinctTimesDistinctLog(calls: seq<Call>, window: real)
    requires Clocked(calls) && StrictlySorted(Times(calls))
    ensures StrictlySorted(MemoryLogAfter(calls, window))
  {
    if calls != [] {
      var n := |calls| - 1;
      var before := calls[..n];
      assert Times(before) == Times(calls)[..n];
      DistinctTimesDistinctLog(before, window);
      SameInstants(before, window);
      assert n > 0 ==> Times(calls)[n - 1] < Times(calls)[n];
      assert before == [] ==> MemoryLogAfter(before, window) == [];
      NextLog(MemoryLogAfter(before, window), LastTime(before), calls[n].now, window);
    }
  }

  /** Redis counts the distinct instants of the window, the new one included; memory
      counts the requests before the new one. */
  lemma CountsCompared(calls: seq<Call>, window: real, i: nat)
    requires Clocked(calls) && i < |calls|
    ensures
      var kept := After(MemoryLogAfter(calls[..i], window), calls[i].now - window);
      var scores := ScoresAfter(RedisEntryAfter(calls[..i], window), calls[i].now, window);
      && |scores| <= |kept| + 1
      && (StrictlySorted(Times(calls[..i + 1])) ==> |scores| == |kept| + 1)
  {
    var before, now := calls[..i], calls[i].now;
    SameInstants(before, window);
    var entry, log := RedisEntryAfter(before, window), MemoryLogAfter(before, window);
    NextScores(entry, log, LastTime(before), now, window);
    MembersCount(MemoryLog(log, now, window));
    if StrictlySorted(Times(calls[..i + 1])) {
      assert calls[..i + 1][..i] == before;
      DistinctTimesDistinctLog(calls[..i + 1], window);
    }
  }

  /** Redis never refuses what memory would admit. */
  lemma RedisNeverStricter(calls: seq<Call>, window: real, i: nat)
    requires Clocked(calls) && i < |calls|
    ensures MemorySays(calls, window, i).allowed ==> RedisSays(calls, window, i).allowed
  {
    CountsCompared(calls, window, i);
  }

  ghost predicate Agree(calls: seq<Call>, window: real) {
    forall i :: 0 <= i < |calls| ==> MemorySays(calls, window, i) == RedisSays(calls, window, i)
  }

  lemma RedisRefinesMemory(calls: seq<Call>, window: real)
    requires Clocked(calls) && StrictlySorted(Times(calls))
    ensures Agree(calls, window)
  {
    forall i | 0 <= i < |calls|
      ensures MemorySays(calls, window, i) == RedisSays(calls, window, i)
    {
      assert StrictlySorted(Times(calls[..i + 1]));
      CountsCompared(calls, window, i);
    }
  }

  ghost function WithLimits(times: seq<real>, limits: seq<int>): (calls: seq<Call>)
    requires |times| == |limits|
    ensures |calls| == |times|
    ensures forall i :: 0 <= i < |times| ==> calls[i] == Call(times[i], limits[i])
  {
    seq(|times|, i requires 0 <= i < |times| => Call(times[i], limits[i]))
  }

  ghost predicate AgreeAtEveryLimit(times: seq<real>, window: real) {
    forall limits: seq<int> | |limits| == |times| :: Agree(WithLimits(times, limits), window)
  }

  /** Exactly when the two forms are interchangeable: no two requests of the key carry
      the same timestamp. */
  lemma AgreeExactlyWhenTimesDiffer(times: seq<real>, window: real)
    requires Sorted(times) && (forall i :: 0 <= i < |times| ==> times[i] >= 0.0)
    requires window > 0.0
    ensures AgreeAtEveryLimit(times, window) <==> StrictlySorted(times)
  {
    if StrictlySorted(times) {
      forall limits: seq<int> | |limits| == |times|
        ensures Agree(WithLimits(times, limits), window)
      {
        var calls := WithLimits(times, limits);
        assert Times(calls) == times;
        RedisRefinesMemory(calls, window);
      }
    } else {
      var i := FirstRepeat(times);
      RepeatSeparates(times, window, i);
    }
  }

  lemma {:induction false} FirstRepeat(times: seq<real>) returns (i: nat)
    requires Sorted(times) && !StrictlySorted(times)
    ensures 1 <= i < |times| && times[i - 1] == times[i]
    ensures StrictlySorted(times[..i])
  {
    var n := |times| - 1;
    if StrictlySorted(times[..n]) {
      i := n;
      var j, k :| 0 <= j < k < |times| && times[j] >= times[k];
      assert k == n;
    } else {
      i := FirstRepeat(times[..n]);
      assert times[..n][..i] == times[..i];
    }
  }

  /** At a repeated timestamp the limit that memory has just used up separates them. */
  lemma RepeatSeparates(times: seq<real>, window: real, i: nat)
    requires Sorted(times) && (forall k :: 0 <= k < |times| ==> times[k] >= 0.0)
    requires window > 0.0
    requires 1 <= i < |times| && times[i - 1] == times[i]
    requires StrictlySorted(times[..i])
    ensures !AgreeAtEveryLimit(times, window)
  {
    var zero := seq(|times|, k => 0);
    var log := MemoryLogAfter(WithLimits(times, zero)[..i], window);
    var calls := WithLimits(times, zero[i := |log|]);
    assert calls[..i] == WithLimits(times, zero)[..i];
    var entry := RedisEntryAfter(calls[..i], window);
    SameInstants(calls[..i], window);
    LogAllInWindow(calls[..i], window);
    RepeatStep(entry, log, times[i], window);
    assert !MemorySays(calls, window, i).allowed && RedisSays(calls, window, i).allowed;
    assert !Agree(calls, window);
  }

  lemma RepeatStep(entry: Option<SortedSet>, log: seq<real>, now: real, window: real)
    requires Mirrors(entry, log, now, window) && Recent(log, now) && now >= 0.0
    requires now in log && After(log, now - window) == log
    ensures !MemoryAnswer(log, now, |log|, window).allowed
    ensures RedisAnswer(entry, now, |log|, window).allowed
  {
    NextScores(entry, log, now, now, window);
    assert Members(log + [now]) == Members(log);
    MembersCount(log);
  }

  lemma LogAllInWindow(calls: seq<Call>, window: real)
    requires calls != [] && window > 0.0
    ensures
      var log, last := MemoryLogAfter(calls, window), LastTime(calls);
      last in log && After(log, last - window) == log
  {
    var n := |calls| - 1;
    var last := calls[n].now;
    var before := MemoryLogAfter(calls[..n], window);
    AfterAfter(before, last - window, last - window);
    AfterAppend(After(before, last - window), [last], last - window);
  }

  // ---- whole-run bounds ----

  /** Calls at these times, all under one limit. */
  ghost function FixedLimit(times: seq<real>, limit: int): (calls: seq<Call>)
    ensures |calls| == |times|
    ensures forall i :: 0 <= i < |times| ==> calls[i] == Call(times[i], limit)
  {
    seq(|times|, i requires 0 <= i < |times| => Call(times[i], limit))
  }

  ghost function MemoryDecisions(times: seq<real>, limit: int, window: real): (ds: seq<bool>)
    ensures |ds| == |times|
    ensures forall i :: 0 <= i < |times| ==> ds[i] == MemorySays(FixedLimit(times, limit), window, i).allowed
  {
    seq(|times|, i requires 0 <= i < |times| => MemorySays(FixedLimit(times, limit), window, i).allowed)
  }

  /** The times memory admits under one fixed limit. */
  ghost function MemoryAdmitted(times: seq<real>, limit: int, window: real): seq<real> {
    Chosen(times, MemoryDecisions(times, limit, window))
  }

  lemma FixedLimitPrefix(times: seq<real>, limit: int, n: nat)
    requires n <= |times|
    ensures FixedLimit(times, limit)[..n] == FixedLimit(times[..n], limit)
  {
  }

  lemma MemoryDecisionsPrefix(times: seq<real>, limit: int, window: real)
    requires times != []
    ensures MemoryDecisions(times, limit, window)[..|times| - 1] == MemoryDecisions(times[..|times| - 1], limit, window)
  {
    var n := |times| - 1;
    forall i | 0 <= i < n
      ensures MemorySays(FixedLimit(times, limit), window, i) == MemorySays(FixedLimit(times[..n], limit), window, i)
    {
      FixedLimitPrefix(times, limit, i);
      FixedLimitPrefix(times[..n], limit, i);
      assert times[..n][..i] == times[..i];
    }
  }

  lemma MemoryAdmittedSplits(times: seq<real>, limit: int, window: real)
    requires times != []
    ensures
      var n := |times| - 1;
      var before := MemoryAdmitted(times[..n], limit, window);
      MemoryAdmitted(times, limit, window)
        == if MemorySays(FixedLimit(times, limit), window, n).allowed then before + [times[n]] else before
  {
    MemoryDecisionsPrefix(times, limit, window);
  }

  /** The log at the moment the last of the requests comes. */
  ghost function LogBeforeLast(times: seq<real>, limit: int, window: real): seq<real>
    requires times != []
  {
    MemoryLogAfter(FixedLimit(times[..|times| - 1], limit), window)
  }

  lemma LastDecision(times: seq<real>, limit: int, window: real)
    requires times != []
    ensures
      var n := |times| - 1;
      && (MemorySays(FixedLimit(times, limit), window, n).allowed
          <==> |After(LogBeforeLast(times, limit, window), times[n] - window)| < limit)
      && MemoryLogAfter(FixedLimit(times, limit), window)
          == MemoryLog(LogBeforeLast(times, limit, window), times[n], window)
  {
    FixedLimitPrefix(times, limit, |times| - 1);
  }

  lemma {:induction false} LogCoversHistory(times: seq<real>, limit: int, window: real, cutoff: real)
    requires Sorted(times)
    requires times != [] ==> cutoff >= times[|times| - 1] - window
    ensures |After(MemoryAdmitted(times, limit, window), cutoff)|
            <= |After(MemoryLogAfter(FixedLimit(times, limit), window), cutoff)|
  {
    if times != [] {
      var n := |times| - 1;
      LogCoversHistory(times[..n], limit, window, cutoff);
      MemoryAdmittedSplits(times, limit, window);
      LastDecision(times, limit, window);
      LoggingCovers(LogBeforeLast(times, limit, window), MemoryAdmitted(times[..n], limit, window), times[n], window,
                    cutoff);
    }
  }

  /** One more request in the log covers one more admission. */
  lemma LoggingCovers(log: seq<real>, via: seq<real>, now: real, window: real, cutoff: real)
    requires |After(via, cutoff)| <= |After(log, cutoff)| && cutoff >= now - window
    ensures |After(via, cutoff)| <= |After(MemoryLog(log, now, window), cutoff)|
    ensures |After(via + [now], cutoff)| <= |After(MemoryLog(log, now, window), cutoff)|
  {
    AfterAfter(log, now - window, cutoff);
    AfterAppend(After(log, now - window), [now], cutoff);
    AfterAppend(via, [now], cutoff);
  }

  /** Logging the refused requests too never lets a window overflow. */
  lemma {:induction false} MemoryKeepsLimit(times: seq<real>, limit: int, window: real)
    requires Sorted(times) && limit >= 0
    ensures AtMostPerWindow(MemoryAdmitted(times, limit, window), limit, window)
  {
    if times != [] {
      MemoryKeepsLimit(times[..|times| - 1], limit, window);
      MemoryAdmittedSplits(times, limit, window);
      LastKeepsLimit(times, limit, window);
    }
  }

  /** What was admitted before the last request: nothing after it, and in its window no
      more than the log holds. */
  lemma AdmittedBeforeLast(times: seq<real>, limit: int, window: real)
    requires times != [] && Sorted(times)
    ensures
      var now := times[|times| - 1];
      var before := MemoryAdmitted(times[..|times| - 1], limit, window);
      UpTo(before, now) && |After(before, now - window)| <= |After(LogBeforeLast(times, limit, window), now - window)|
  {
    var n := |times| - 1;
    SortedPrefix(times, n);
    LogCoversHistory(times[..n], limit, window, times[n] - window);
    ChosenBounds(times[..n], MemoryDecisions(times[..n], limit, window), times[n]);
  }

  lemma LastKeepsLimit(times: seq<real>, limit: int, window: real)
    requires times != [] && Sorted(times) && limit >= 0
    requires AtMostPerWindow(MemoryAdmitted(times[..|times| - 1], limit, window), limit, window)
    ensures
      var n := |times| - 1;
      MemorySays(FixedLimit(times, limit), window, n).allowed ==>
        AtMostPerWindow(MemoryAdmitted(times[..n], limit, window) + [times[n]], limit, window)
  {
    var n := |times| - 1;
    var recent := |After(LogBeforeLast(times, limit, window), times[n] - window)|;
    LastDecision(times, limit, window);
    AdmittedBeforeLast(times, limit, window);
    if recent < limit {
      AdmittingKeepsLimit(MemoryAdmitted(times[..n], limit, window), recent, times[n], limit, window);
    }
  }
}
