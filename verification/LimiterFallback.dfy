/** The dispatcher over whole runs: each request goes to Redis, or to the in-memory
    limiter when Redis does not answer, and the two stores know nothing of each other. */
module LimiterFallback {
  import opened Basics
  import opened DenyCountingLimiter
  import opened DistinctInstants
  import opened RedisWindowBound
  import opened SlidingWindow
  import opened Wrappers

  datatype Visit = Visit(redisNow: real, memoryNow: real, trip: RoundTrip)

  datatype Fallback = Fallback(entry: Option<SortedSet>, log: seq<real>,
                               viaRedis: seq<real>, viaMemory: seq<real>, admitted: seq<real>)

  const START: Fallback := Fallback(None, [], [], [], [])

  /** One request through the dispatcher, recorded if it is admitted. */
  ghost function FallbackStep(s: Fallback, v: Visit, limit: int, window: real): Fallback {
    var entry := if v.trip.Unreachable? then s.entry else Some(RedisEntry(s.entry, v.redisNow, window));
    if v.trip.Answered? then
      if RedisAnswer(s.entry, v.redisNow, limit, window).allowed then
        s.(entry := entry, viaRedis := s.viaRedis + [v.redisNow], admitted := s.admitted + [v.redisNow])
      else
        s.(entry := entry)
    else
      var log := MemoryLog(s.log, v.memoryNow, window);
      if MemoryAnswer(s.log, v.memoryNow, limit, window).allowed then
        s.(entry := entry, log := log, viaMemory := s.viaMemory + [v.memoryNow], admitted := s.admitted + [v.memoryNow])
      else
        s.(entry := entry, log := log)
  }

  ghost function RunFallback(visits: seq<Visit>, limit: int, window: real): Fallback {
    if visits == [] then START
    else
      var n := |visits| - 1;
      FallbackStep(RunFallback(visits[..n], limit, window), visits[n], limit, window)
  }

  /** Neither clock runs backwards, and a request asks Redis first. */
  ghost predicate VisitsClocked(visits: seq<Visit>) {
    && (forall i :: 0 <= i < |visits| ==> 0.0 <= visits[i].redisNow <= visits[i].memoryNow)
    && (forall i, j :: 0 <= i < j < |visits| ==> visits[i].memoryNow <= visits[j].memoryNow)
    && (forall i, j :: 0 <= i < j < |visits| ==> visits[i].redisNow <= visits[j].redisNow)
  }

  /** The timestamps of the requests that Redis answered. */
  ghost function AnsweredTimes(visits: seq<Visit>): seq<real> {
    if visits == [] then []
    else
      var n := |visits| - 1;
      var earlier := AnsweredTimes(visits[..n]);
      if visits[n].trip.Answered? then earlier + [visits[n].redisNow] else earlier
  }

  /** The timestamps of the requests that reached Redis, and of those decided in memory. */
  ghost function ReachedTimes(visits: seq<Visit>): seq<real> {
    if visits == [] then []
    else
      var v := visits[|visits| - 1];
      ReachedTimes(visits[..|visits| - 1]) + (if v.trip.Unreachable? then [] else [v.redisNow])
  }

  ghost function MemoryTimes(visits: seq<Visit>): seq<real> {
    if visits == [] then []
    else
      var v := visits[|visits| - 1];
      MemoryTimes(visits[..|visits| - 1]) + (if v.trip.Answered? then [] else [v.memoryNow])
  }

  lemma OneMoreCall(times: seq<real>, time: real, limit: int, window: real)
    ensures MemoryLogAfter(FixedLimit(times + [time], limit), window)
         == MemoryLog(MemoryLogAfter(FixedLimit(times, limit), window), time, window)
    ensures RedisEntryAfter(FixedLimit(times + [time], limit), window)
         == Some(RedisEntry(RedisEntryAfter(FixedLimit(times, limit), window), time, window))
  {
    assert FixedLimit(times + [time], limit)[..|times|] == FixedLimit(times, limit);
  }

  lemma StoresStep(s: Fallback, v: Visit, limit: int, window: real)
    ensures
      var s' := FallbackStep(s, v, limit, window);
      && s'.entry == (if v.trip.Unreachable? then s.entry else Some(RedisEntry(s.entry, v.redisNow, window)))
      && s'.log == (if v.trip.Answered? then s.log else MemoryLog(s.log, v.memoryNow, window))
  {
  }

  lemma TimesStep(visits: seq<Visit>)
    requires visits != []
    ensures
      var n, v := |visits| - 1, visits[|visits| - 1];
      && ReachedTimes(visits)
         == (if v.trip.Unreachable? then ReachedTimes(visits[..n]) else ReachedTimes(visits[..n]) + [v.redisNow])
      && MemoryTimes(visits)
         == (if v.trip.Answered? then MemoryTimes(visits[..n]) else MemoryTimes(visits[..n]) + [v.memoryNow])
  {
  }

  /** Each store is what it would be had the requests that reached it been all: Redis the
      ones with a lost reply included, memory the ones Redis did not answer. */
  lemma {:induction false} EachStoreSeesItsOwn(visits: seq<Visit>, limit: int, window: real)
    ensures
      var s := RunFallback(visits, limit, window);
      && s.entry == RedisEntryAfter(FixedLimit(ReachedTimes(visits), limit), window)
      && s.log == MemoryLogAfter(FixedLimit(MemoryTimes(visits), limit), window)
  {
    if visits != [] {
      var n := |visits| - 1;
      EachStoreSeesItsOwn(visits[..n], limit, window);
      StoresStep(RunFallback(visits[..n], limit, window), visits[n], limit, window);
      TimesStep(visits);
      OneMoreCall(ReachedTimes(visits[..n]), visits[n].redisNow, limit, window);
      OneMoreCall(MemoryTimes(visits[..n]), visits[n].memoryNow, limit, window);
    }
  }

  // ---- what every visit keeps ----

  /** The memory log holds at least the recent requests admitted through memory. */
  ghost predicate Covers(log: seq<real>, via: seq<real>, since: real) {
    forall cutoff :: cutoff >= since ==> |After(via, cutoff)| <= |After(log, cutoff)|
  }

  lemma CoverLater(log: seq<real>, via: seq<real>, since: real, later: real)
    requires Covers(log, via, since) && since <= later
    ensures Covers(log, via, later)
  {
  }

  lemma CoverMore(log: seq<real>, via: seq<real>, since: real, now: real, window: real)
    requires Covers(log, via, since) && since <= now - window
    ensures Covers(log, via, now - window)
    ensures Covers(MemoryLog(log, now, window), via, now - window)
    ensures Covers(MemoryLog(log, now, window), via + [now], now - window)
  {
    forall cutoff | cutoff >= now - window
      ensures |After(via, cutoff)| <= |After(MemoryLog(log, now, window), cutoff)|
      ensures |After(via + [now], cutoff)| <= |After(MemoryLog(log, now, window), cutoff)|
    {
      LoggingCovers(log, via, now, window, cutoff);
    }
  }

  /** Every admitted request was admitted by exactly one of the two. */
  ghost predicate Interleaves(all: seq<real>, a: seq<real>, b: seq<real>) {
    forall lo, hi :: CountIn(all, lo, hi) == CountIn(a, lo, hi) + CountIn(b, lo, hi)
  }

  lemma InterleaveMore(all: seq<real>, a: seq<real>, b: seq<real>, t: real)
    requires Interleaves(all, a, b)
    ensures Interleaves(all + [t], a + [t], b) && Interleaves(all + [t], a, b + [t])
  {
    forall lo, hi
      ensures CountIn(all + [t], lo, hi) == CountIn(a + [t], lo, hi) + CountIn(b, lo, hi)
      ensures CountIn(all + [t], lo, hi) == CountIn(a, lo, hi) + CountIn(b + [t], lo, hi)
    {
      CountInAppend(all, [t], lo, hi);
      CountInAppend(a, [t], lo, hi);
      CountInAppend(b, [t], lo, hi);
    }
  }

  ghost predicate FallbackInvariant(s: Fallback, redisLast: real, memoryLast: real, limit: int, window: real) {
    && Remembers(s.entry, s.viaRedis, redisLast, window)
    && Covers(s.log, s.viaMemory, memoryLast - window)
    && UpTo(s.viaMemory, memoryLast)
    && InstantsPerWindow(s.viaRedis, limit, window)
    && AtMostPerWindow(s.viaMemory, limit, window)
    && Interleaves(s.admitted, s.viaRedis, s.viaMemory)
  }

  lemma RedisVisitKeepsInvariant(s: Fallback, v: Visit, redisLast: real, memoryLast: real, limit: int, window: real)
    requires FallbackInvariant(s, redisLast, memoryLast, limit, window) && v.trip.Answered?
    requires 0.0 <= v.redisNow && redisLast <= v.redisNow && memoryLast <= v.memoryNow
    ensures FallbackInvariant(FallbackStep(s, v, limit, window), v.redisNow, v.memoryNow, limit, window)
  {
    RememberMore(s.entry, s.viaRedis, redisLast, v.redisNow, window);
    CoverLater(s.log, s.viaMemory, memoryLast - window, v.memoryNow - window);
    InterleaveMore(s.admitted, s.viaRedis, s.viaMemory, v.redisNow);
    if |ScoresAfter(s.entry, v.redisNow, window)| <= limit {
      RedisAdmissionKeepsInstants(s.entry, s.viaRedis, redisLast, v.redisNow, limit, window);
    }
  }

  lemma MemoryAdmissionKeepsLimit(log: seq<real>, via: seq<real>, last: real, now: real, limit: int, window: real)
    requires Covers(log, via, last - window) && UpTo(via, last) && last <= now
    requires AtMostPerWindow(via, limit, window)
    ensures MemoryAnswer(log, now, limit, window).allowed ==> AtMostPerWindow(via + [now], limit, window)
  {
    assert |After(via, now - window)| <= |After(log, now - window)|;
    if |After(log, now - window)| < limit {
      AdmittingKeepsLimit(via, |After(log, now - window)|, now, limit, window);
    }
  }

  lemma MemoryVisitKeepsInvariant(s: Fallback, v: Visit, redisLast: real, memoryLast: real, limit: int, window: real)
    requires FallbackInvariant(s, redisLast, memoryLast, limit, window) && !v.trip.Answered?
    requires 0.0 <= v.redisNow && redisLast <= v.redisNow && memoryLast <= v.memoryNow
    ensures FallbackInvariant(FallbackStep(s, v, limit, window), v.redisNow, v.memoryNow, limit, window)
  {
    RememberMore(s.entry, s.viaRedis, redisLast, v.redisNow, window);
    CoverMore(s.log, s.viaMemory, memoryLast - window, v.memoryNow, window);
    InterleaveMore(s.admitted, s.viaRedis, s.viaMemory, v.memoryNow);
    MemoryAdmissionKeepsLimit(s.log, s.viaMemory, memoryLast, v.memoryNow, limit, window);
  }

  lemma FallbackKeepsInvariant(s: Fallback, v: Visit, redisLast: real, memoryLast: real, limit: int, window: real)
    requires FallbackInvariant(s, redisLast, memoryLast, limit, window)
    requires 0.0 <= v.redisNow && redisLast <= v.redisNow && memoryLast <= v.memoryNow
    ensures FallbackInvariant(FallbackStep(s, v, limit, window), v.redisNow, v.memoryNow, limit, window)
  {
    if v.trip.Answered? {
      RedisVisitKeepsInvariant(s, v, redisLast, memoryLast, limit, window);
    } else {
      MemoryVisitKeepsInvariant(s, v, redisLast, memoryLast, limit, window);
    }
  }

  ghost function Last(visits: seq<Visit>): Visit {
    if visits == [] then Visit(0.0, 0.0, Answered) else visits[|visits| - 1]
  }

  lemma {:induction false} FallbackRunInvariant(visits: seq<Visit>, limit: int, window: real)
    requires VisitsClocked(visits) && limit >= 0
    ensures FallbackInvariant(RunFallback(visits, limit, window), Last(visits).redisNow, Last(visits).memoryNow, limit,
                              window)
  {
    if visits == [] {
      NoInstantsPerWindow(limit, window);
    } else {
      var n := |visits| - 1;
      FallbackRunInvariant(visits[..n], limit, window);
      assert Last(visits[..n]).redisNow <= visits[n].redisNow && Last(visits[..n]).memoryNow <= visits[n].memoryNow;
      FallbackKeepsInvariant(RunFallback(visits[..n], limit, window), visits[n],
        Last(visits[..n]).redisNow, Last(visits[..n]).memoryNow, limit, window);
    }
  }

  lemma {:induction false} RedisAdmitsAnswered(visits: seq<Visit>, limit: int, window: real, t: real)
    ensures multiset(RunFallback(visits, limit, window).viaRedis)[t] <= multiset(AnsweredTimes(visits))[t]
  {
    if visits != [] {
      RedisAdmitsAnswered(visits[..|visits| - 1], limit, window, t);
    }
  }

  // ---- whole runs ----

  /** However the dispatcher is thrown between the two stores: if Redis answers at most
      `r` requests at any instant, no window admits more than `r + 1` times the limit. */
  lemma SwitchingBound(visits: seq<Visit>, limit: int, window: real, r: nat)
    requires VisitsClocked(visits) && limit >= 0 && AtMostCopies(AnsweredTimes(visits), r)
    ensures AtMostPerWindow(RunFallback(visits, limit, window).admitted, (r + 1) * limit, window)
  {
    FallbackRunInvariant(visits, limit, window);
    var s := RunFallback(visits, limit, window);
    forall t: real
      ensures multiset(s.viaRedis)[t] <= r
    {
      RedisAdmitsAnswered(visits, limit, window, t);
    }
    FewInstantsFewEntries(s.viaRedis, limit, window, r);
    TwoBoundsAdd(s.admitted, s.viaRedis, s.viaMemory, r * limit, limit, window);
    assert (r + 1) * limit == r * limit + limit;
  }

  lemma TwoBoundsAdd(all: seq<real>, a: seq<real>, b: seq<real>, m: int, n: int, window: real)
    requires Interleaves(all, a, b) && AtMostPerWindow(a, m, window) && AtMostPerWindow(b, n, window)
    ensures AtMostPerWindow(all, m + n, window)
  {
    forall end: real
      ensures WindowCount(all, window, end) <= m + n
    {
      assert WindowCount(a, window, end) <= m && WindowCount(b, window, end) <= n;
      assert CountIn(all, end - window, end) == CountIn(a, end - window, end) + CountIn(b, end - window, end);
    }
  }

  /** Where Redis answers no two requests at one instant, twice the limit is the bound. */
  lemma SwitchingAtMostDoubles(visits: seq<Visit>, limit: int, window: real)
    requires VisitsClocked(visits) && limit >= 0 && AtMostCopies(AnsweredTimes(visits), 1)
    ensures AtMostPerWindow(RunFallback(visits, limit, window).admitted, 2 * limit, window)
  {
    SwitchingBound(visits, limit, window, 1);
  }

  // ---- the bound is reached ----

  /** Requests that Redis answers, then requests that never reach it. */
  ghost function Switching(answered: seq<real>, unreached: seq<real>): (visits: seq<Visit>)
    ensures |visits| == |answered| + |unreached|
    ensures forall i :: 0 <= i < |answered| ==> visits[i] == Visit(answered[i], answered[i], Answered)
    ensures forall i :: 0 <= i < |unreached| ==>
      visits[|answered| + i] == Visit(unreached[i], unreached[i], Unreachable)
  {
    seq(|answered|, i requires 0 <= i < |answered| => Visit(answered[i], answered[i], Answered))
    + seq(|unreached|, i requires 0 <= i < |unreached| => Visit(unreached[i], unreached[i], Unreachable))
  }

  lemma AnsweredLast(ts: seq<real>, limit: int, window: real)
    requires ts != []
    ensures
      var n := |ts| - 1;
      && RunFallback(Switching(ts, []), limit, window)
           == FallbackStep(RunFallback(Switching(ts[..n], []), limit, window), Visit(ts[n], ts[n], Answered), limit,
                           window)
      && AnsweredTimes(Switching(ts, [])) == AnsweredTimes(Switching(ts[..n], [])) + [ts[n]]
  {
    var n := |ts| - 1;
    assert Switching(ts, [])[..n] == Switching(ts[..n], []);
  }

  lemma UnreachedLast(ts: seq<real>, us: seq<real>, limit: int, window: real)
    requires us != []
    ensures
      var n := |us| - 1;
      && RunFallback(Switching(ts, us), limit, window)
           == FallbackStep(RunFallback(Switching(ts, us[..n]), limit, window), Visit(us[n], us[n], Unreachable), limit,
                           window)
      && AnsweredTimes(Switching(ts, us)) == AnsweredTimes(Switching(ts, us[..n]))
  {
    var n := |us| - 1;
    assert Switching(ts, us)[..|ts| + n] == Switching(ts, us[..n]);
  }

  ghost predicate HoldsOnly(s: Fallback, ts: seq<real>) {
    s.admitted == ts && s.log == [] && (s.entry.Some? ==> s.entry.value.scores <= Members(ts))
  }

  lemma AnsweredIsAdmitted(s: Fallback, ts: seq<real>, limit: int, window: real)
    requires ts != [] && |Members(ts)| <= limit && HoldsOnly(s, ts[..|ts| - 1])
    ensures HoldsOnly(FallbackStep(s, Visit(ts[|ts| - 1], ts[|ts| - 1], Answered), limit, window), ts)
  {
    MembersSnoc(ts);
    SubsetSize(ScoresAfter(s.entry, ts[|ts| - 1], window), Members(ts));
  }

  /** Redis admits a run with no more instants than the limit whole. */
  lemma {:induction false} AllThroughRedis(ts: seq<real>, limit: int, window: real)
    requires |Members(ts)| <= limit
    ensures HoldsOnly(RunFallback(Switching(ts, []), limit, window), ts)
    ensures AnsweredTimes(Switching(ts, [])) == ts
  {
    if ts == [] {
      assert Switching(ts, []) == [];
    } else {
      var n := |ts| - 1;
      MembersSnoc(ts);
      SubsetSize(Members(ts[..n]), Members(ts));
      AllThroughRedis(ts[..n], limit, window);
      AnsweredIsAdmitted(RunFallback(Switching(ts[..n], []), limit, window), ts, limit, window);
      AnsweredLast(ts, limit, window);
    }
  }

  lemma UnreachedIsAdmitted(s: Fallback, t: real, limit: int, window: real)
    requires |s.log| < limit
    ensures
      var s' := FallbackStep(s, Visit(t, t, Unreachable), limit, window);
      s'.admitted == s.admitted + [t] && |s'.log| <= |s.log| + 1
  {
    AfterShrinks(s.log, t - window);
  }

  /** Memory then admits as many as the limit again. */
  lemma {:induction false} AllThroughMemory(ts: seq<real>, us: seq<real>, limit: int, window: real)
    requires |Members(ts)| <= limit && |us| <= limit
    ensures RunFallback(Switching(ts, us), limit, window).admitted == ts + us
    ensures |RunFallback(Switching(ts, us), limit, window).log| <= |us|
    ensures AnsweredTimes(Switching(ts, us)) == ts
  {
    if us == [] {
      AllThroughRedis(ts, limit, window);
      assert ts + us == ts;
    } else {
      var n := |us| - 1;
      AllThroughMemory(ts, us[..n], limit, window);
      var s := RunFallback(Switching(ts, us[..n]), limit, window);
      assert s.admitted + [us[n]] == ts + us by {
        assert us == us[..n] + [us[n]];
      }
      UnreachedIsAdmitted(s, us[n], limit, window);
      UnreachedLast(ts, us, limit, window);
    }
  }

  ghost function Later(from: nat, n: nat, window: real): (ts: seq<real>)
    requires window > 0.0
    ensures |ts| == n && forall i :: 0 <= i < n ==> ts[i] == Instant(from + i, window)
  {
    seq(n, i requires 0 <= i < n => Instant(from + i, window))
  }

  lemma {:induction false} InstantsGrow(i: nat, j: nat, window: real)
    requires window > 0.0 && i <= j
    ensures Instant(i, window) <= Instant(j, window)
    ensures i < j ==> Instant(i, window) < Instant(j, window)
  {
    if i < j {
      InstantsGrow(i, j - 1, window);
    }
  }

  lemma SwitchingIsClocked(answered: seq<real>, unreached: seq<real>, at: real)
    requires Before(answered, at) && Sorted(unreached) && 0.0 <= at
    requires forall i :: 0 <= i < |unreached| ==> at <= unreached[i]
    ensures VisitsClocked(Switching(answered, unreached))
  {
  }

  lemma LaterIsLater(from: nat, n: nat, window: real)
    requires window > 0.0
    ensures Sorted(Later(from, n, window))
    ensures forall i :: 0 <= i < n ==> Instant(from, window) <= Later(from, n, window)[i] <= Instant(from + n, window)
  {
    var ts := Later(from, n, window);
    forall i, j | 0 <= i <= j < n
      ensures Instant(from, window) <= ts[i] <= ts[j] <= Instant(from + n, window)
    {
      InstantsGrow(from, from + i, window);
      InstantsGrow(from + i, from + j, window);
      InstantsGrow(from + j, from + n, window);
    }
  }

  lemma BothShareWindow(limit: nat, r: nat, window: real)
    requires window > 0.0
    ensures WindowCount(Bursts(limit, r, window) + Later(limit, limit, window), window, Instant(limit + limit, window))
         == limit * r + limit
  {
    var ts, us, end := Bursts(limit, r, window), Later(limit, limit, window), Instant(limit + limit, window);
    InstantsGrow(limit, limit + limit, window);
    BurstsShareWindow(limit, r, window, end);
    LaterIsLater(limit, limit, window);
    CountInAll(us, end - window, end);
    CountInAppend(ts, us, end - window, end);
  }

  /** Bursts through Redis, and then as many as the limit through memory. */
  ghost function Doubling(limit: nat, window: real, r: nat): seq<Visit>
    requires window > 0.0
  {
    Switching(Bursts(limit, r, window), Later(limit, limit, window))
  }

  lemma DoublingReaches(limit: nat, window: real, r: nat)
    requires window > 0.0
    ensures VisitsClocked(Doubling(limit, window, r)) && AtMostCopies(AnsweredTimes(Doubling(limit, window, r)), r)
    ensures WindowCount(RunFallback(Doubling(limit, window, r), limit, window).admitted, window,
                        Instant(limit + limit, window))
         == (r + 1) * limit
  {
    var ts, us := Bursts(limit, r, window), Later(limit, limit, window);
    BurstsAreOrdered(limit, r, window);
    LaterIsLater(limit, limit, window);
    SwitchingIsClocked(ts, us, Instant(limit, window));
    BurstsRepeat(limit, r, window);
    BurstsHaveFewInstants(limit, r, window);
    AllThroughMemory(ts, us, limit, window);
    BothShareWindow(limit, r, window);
    assert (r + 1) * limit == limit * r + limit;
  }

  /** `r + 1` times the limit is reached, for every `r` and every limit. */
  lemma SwitchingBoundIsReached(limit: nat, window: real, r: nat) returns (visits: seq<Visit>, end: real)
    requires window > 0.0
    ensures VisitsClocked(visits) && AtMostCopies(AnsweredTimes(visits), r)
    ensures WindowCount(RunFallback(visits, limit, window).admitted, window, end) == (r + 1) * limit
  {
    visits, end := Doubling(limit, window, r), Instant(limit + limit, window);
    DoublingReaches(limit, window, r);
  }

  /** No two visits share a timestamp on either clock. */
  ghost predicate AllDistinct(visits: seq<Visit>) {
    forall i, j :: 0 <= i < j < |visits| ==>
      visits[i].redisNow < visits[j].redisNow && visits[i].memoryNow < visits[j].memoryNow
  }

  lemma LaterIsStrict(from: nat, n: nat, window: real)
    requires window > 0.0
    ensures StrictlySorted(Later(from, n, window))
  {
    forall i, j | 0 <= i < j < n
      ensures Later(from, n, window)[i] < Later(from, n, window)[j]
    {
      InstantsGrow(from + i, from + j, window);
    }
  }

  lemma SwitchingIsStrict(answered: seq<real>, unreached: seq<real>, at: real)
    requires StrictlySorted(answered) && StrictlySorted(unreached) && Before(answered, at)
    requires forall i :: 0 <= i < |unreached| ==> at <= unreached[i]
    ensures AllDistinct(Switching(answered, unreached))
  {
  }

  /** With no timestamp repeated at all: twice the limit, for every limit. */
  lemma SwitchingCanDouble(limit: nat, window: real) returns (visits: seq<Visit>, end: real)
    requires window > 0.0
    ensures VisitsClocked(visits) && AllDistinct(visits)
    ensures WindowCount(RunFallback(visits, limit, window).admitted, window, end) == 2 * limit
  {
    visits, end := Doubling(limit, window, 1), Instant(limit + limit, window);
    DoublingReaches(limit, window, 1);
    BurstsAreOrdered(limit, 1, window);
    BurstsRepeat(limit, 1, window);
    UnrepeatedIsStrict(Bursts(limit, 1, window));
    LaterIsLater(limit, limit, window);
    LaterIsStrict(limit, limit, window);
    SwitchingIsStrict(Bursts(limit, 1, window), Later(limit, limit, window), Instant(limit, window));
  }
}
