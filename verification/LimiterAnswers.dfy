/** What each limiter answers, from the requests made to it and the configured rates. */
module LimiterAnswers {
  import opened Basics
  import opened DistinctInstants
  import opened SlidingWindow
  import opened DenyCountingLimiter
  import Admitted = AdmittedLogLimiter

  lemma NextLogAgrees(log: seq<real>, times: seq<real>, now: real, window: real, cutoff: real)
    requires After(log, cutoff) == After(times, cutoff) && now - window <= cutoff
    ensures After(MemoryLog(log, now, window), cutoff) == After(times + [now], cutoff)
  {
    AfterAppend(times, [now], cutoff);
    AfterAppend(After(log, now - window), [now], cutoff);
    AfterAfter(log, now - window, cutoff);
  }

  /** The log in memory and all requests ever made agree on every window still to come. */
  lemma {:induction false} LogAgreesWithRequests(calls: seq<Call>, window: real, cutoff: real)
    requires forall i, j :: 0 <= i < j < |calls| ==> calls[i].now <= calls[j].now
    requires calls != [] ==> cutoff >= calls[|calls| - 1].now - window
    ensures After(MemoryLogAfter(calls, window), cutoff) == After(Times(calls), cutoff)
  {
    if calls != [] {
      var n := |calls| - 1;
      LogAgreesWithRequests(calls[..n], window, cutoff);
      assert Times(calls) == Times(calls[..n]) + [calls[n].now];
      NextLogAgrees(MemoryLogAfter(calls[..n], window), Times(calls[..n]), calls[n].now, window, cutoff);
    }
  }

  /** In memory, a request is allowed exactly if fewer than the limit were made, admitted or
      not, in the window before it; what remains is what the limit leaves after it. */
  lemma MemoryAnswersFromRequests(calls: seq<Call>, window: real, i: nat)
    requires forall i, j :: 0 <= i < j < |calls| ==> calls[i].now <= calls[j].now
    requires i < |calls|
    ensures
      var a, made := MemorySays(calls, window, i), |After(Times(calls[..i]), calls[i].now - window)|;
      && (a.allowed <==> made < calls[i].limit)
      && a.limit == calls[i].limit
      && a.remaining == (if made + 1 < calls[i].limit then calls[i].limit - (made + 1) else 0)
  {
    LogAgreesWithRequests(calls[..i], window, calls[i].now - window);
  }

  // ---- whole runs of the memory limiter, many keys at once ----

  ghost function TimesOfKey(trace: seq<Request>, key: string): seq<real> {
    if trace == [] then []
    else
      var q := trace[|trace| - 1];
      TimesOfKey(trace[..|trace| - 1], key) + (if q.key == key then [q.now] else [])
  }

  /** The last request of an unswept run. */
  lemma PlainStep(trace: seq<Request>, start: real, key: string)
    requires trace != []
    ensures
      var n, q := |trace| - 1, trace[|trace| - 1];
      var before, r := RunMemory(trace[..n], start, false), RunMemory(trace, start, false);
      && LogOf(r.store, key)
         == (if q.key == key then MemoryLog(LogOf(before.store, key), q.now, q.tier.Window())
             else LogOf(before.store, key))
      && TimesOfKey(trace, key)
         == (if q.key == key then TimesOfKey(trace[..n], key) + [q.now] else TimesOfKey(trace[..n], key))
      && r.answers[n]
         == MemoryAnswer(LogOf(before.store, q.key), q.now, q.tier.Requests() + q.burst, q.tier.Window())
  {
  }

  lemma {:induction false} StoreAgreesWithRequests(trace: seq<Request>, start: real, key: string, tier: Tier,
                                                   cutoff: real)
    requires forall i :: 0 <= i < |trace| && trace[i].key == key ==>
               trace[i].tier == tier && trace[i].now - tier.Window() <= cutoff
    ensures After(LogOf(RunMemory(trace, start, false).store, key), cutoff) == After(TimesOfKey(trace, key), cutoff)
  {
    if trace != [] {
      var n := |trace| - 1;
      StoreAgreesWithRequests(trace[..n], start, key, tier, cutoff);
      PlainStep(trace, start, key);
      if trace[n].key == key {
        NextLogAgrees(LogOf(RunMemory(trace[..n], start, false).store, key), TimesOfKey(trace[..n], key), trace[n].now,
                      tier.Window(), cutoff);
      }
    }
  }

  lemma {:induction false} AnswersPrefix(trace: seq<Request>, start: real, sweeping: bool, i: nat)
    requires i < |trace|
    ensures RunMemory(trace, start, sweeping).answers[i] == RunMemory(trace[..i + 1], start, sweeping).answers[i]
  {
    var n := |trace| - 1;
    if i < n {
      AnswersPrefix(trace[..n], start, sweeping, i);
      assert trace[..n][..i + 1] == trace[..i + 1];
    } else {
      assert trace[..i + 1] == trace;
    }
  }

  lemma PlainAnswer(trace: seq<Request>, start: real, i: nat)
    requires i < |trace|
    ensures
      var q := trace[i];
      RunMemory(trace, start, false).answers[i]
      == MemoryAnswer(LogOf(RunMemory(trace[..i], start, false).store, q.key), q.now, q.tier.Requests() + q.burst,
                      q.tier.Window())
  {
    AnswersPrefix(trace, start, false, i);
    assert trace[..i + 1][..i] == trace[..i];
    PlainStep(trace[..i + 1], start, trace[i].key);
  }

  lemma CountAnswers(log: seq<real>, made: nat, now: real, limit: int, window: real)
    requires made == |After(log, now - window)|
    ensures
      var a := MemoryAnswer(log, now, limit, window);
      && (a.allowed <==> made < limit) && a.limit == limit
      && a.remaining == (if made + 1 < limit then limit - (made + 1) else 0)
  {
  }

  lemma SweptAnswer(trace: seq<Request>, start: real, sweeping: bool, i: nat)
    requires ClockNeverSteppedBack(trace) && i < |trace|
    ensures
      var q := trace[i];
      RunMemory(trace, start, sweeping).answers[i]
      == MemoryAnswer(LogOf(RunMemory(trace[..i], start, false).store, q.key), q.now, q.tier.Requests() + q.burst,
                      q.tier.Window())
  {
    SweepIsInvisible(trace, start);
    PlainAnswer(trace, start, i);
  }

  lemma LogCounts(trace: seq<Request>, start: real, i: nat)
    requires ClockNeverSteppedBack(trace) && i < |trace|
    requires forall j :: 0 <= j < i && trace[j].key == trace[i].key ==> trace[j].tier == trace[i].tier
    ensures
      var q := trace[i];
      After(LogOf(RunMemory(trace[..i], start, false).store, q.key), q.now - q.tier.Window())
      == After(TimesOfKey(trace[..i], q.key), q.now - q.tier.Window())
  {
    var q := trace[i];
    assert forall j :: 0 <= j < i ==> trace[..i][j] == trace[j] && trace[j].now <= trace[i].cleanupNow <= q.now;
    StoreAgreesWithRequests(trace[..i], start, q.key, q.tier, q.now - q.tier.Window());
  }

  /** Through every run of many keys, each with one tier, swept or not: a request is allowed
      exactly if fewer than its limit were made with its key in the window before it. */
  lemma EveryAnswerFromRequests(trace: seq<Request>, start: real, sweeping: bool, i: nat)
    requires ClockNeverSteppedBack(trace) && i < |trace|
    requires forall j :: 0 <= j < i && trace[j].key == trace[i].key ==> trace[j].tier == trace[i].tier
    ensures
      var q, a := trace[i], RunMemory(trace, start, sweeping).answers[i];
      var made, limit := |After(TimesOfKey(trace[..i], q.key), q.now - q.tier.Window())|, q.tier.Requests() + q.burst;
      && (a.allowed <==> made < limit) && a.limit == limit
      && a.remaining == (if made + 1 < limit then limit - (made + 1) else 0)
  {
    var q := trace[i];
    SweptAnswer(trace, start, sweeping, i);
    LogCounts(trace, start, i);
    CountAnswers(LogOf(RunMemory(trace[..i], start, false).store, q.key),
                 |After(TimesOfKey(trace[..i], q.key), q.now - q.tier.Window())|, q.now,
                 q.tier.Requests() + q.burst, q.tier.Window());
  }

  ghost predicate KeptSince(store: Store, since: real) {
    forall key :: key in store ==> store[key] != [] && AllLater(store[key], since)
  }

  ghost predicate AllLater(log: seq<real>, since: real) {
    forall t :: t in log ==> t > since
  }

  lemma RequestKeeps(store: Store, since: real, q: Request)
    requires KeptSince(store, since) && q.now > since
    ensures KeptSince(store[q.key := MemoryLog(LogOf(store, q.key), q.now, q.tier.Window())], since)
  {
    MembersAfter(LogOf(store, q.key), q.now - q.tier.Window());
  }

  lemma SweepKeeps(store: Store, since: real, lastCleanup: real, now: real)
    requires KeptSince(store, lastCleanup - 3600.0) && lastCleanup <= now
    ensures
      var cleanup := if now - lastCleanup < 300.0 then lastCleanup else now;
      KeptSince(SweptIfDue(store, lastCleanup, now), cleanup - 3600.0)
  {
    forall key | key in store
      ensures AllLater(After(store[key], now - 3600.0), now - 3600.0)
    {
      MembersAfter(store[key], now - 3600.0);
    }
  }

  lemma {:induction false} SweepHasRun(trace: seq<Request>, start: real)
    requires ClockNeverSteppedBack(trace) && trace != [] && start <= trace[0].cleanupNow
    ensures
      var r, now := RunMemory(trace, start, true), trace[|trace| - 1].cleanupNow;
      r.lastCleanup <= now < r.lastCleanup + 300.0 && KeptSince(r.store, r.lastCleanup - 3600.0)
  {
    var n := |trace| - 1;
    var before, q := RunMemory(trace[..n], start, true), trace[n];
    if n > 0 {
      SweepHasRun(trace[..n], start);
      assert trace[..n][n - 1] == trace[n - 1];
    }
    SweepKeeps(before.store, before.lastCleanup - 3600.0, before.lastCleanup, q.cleanupNow);
    var cleanup := if q.cleanupNow - before.lastCleanup < 300.0 then before.lastCleanup else q.cleanupNow;
    RequestKeeps(SweptIfDue(before.store, before.lastCleanup, q.cleanupNow), cleanup - 3600.0, q);
  }

  /** What the sweep is for: after any run, every key stored has a request, and none older
      than an hour and five minutes. */
  lemma StoreForgets(trace: seq<Request>, start: real, key: string, t: real)
    requires ClockNeverSteppedBack(trace) && trace != [] && start <= trace[0].cleanupNow
    requires key in RunMemory(trace, start, true).store
    ensures RunMemory(trace, start, true).store[key] != []
    ensures t in RunMemory(trace, start, true).store[key] ==> t > trace[|trace| - 1].cleanupNow - 3900.0
  {
    SweepHasRun(trace, start);
  }

  // ---- one key in Redis ----

  /** The instants, the last one's included, at which the last request's window saw one. */
  ghost function InstantsSeen(times: seq<real>, window: real): set<real>
    requires times != []
  {
    set i | 0 <= i < |times| && (i == |times| - 1 || times[i] > times[|times| - 1] - window) :: times[i]
  }

  lemma SeenAreMembers(times: seq<real>, now: real, window: real)
    ensures InstantsSeen(times + [now], window) == Members(After(times, now - window) + [now])
  {
    var all, kept := times + [now], After(times, now - window);
    MembersAfter(times, now - window);
    forall t
      ensures t in InstantsSeen(all, window) <==> t in kept + [now]
    {
      if t in kept {
        var j :| 0 <= j < |times| && times[j] == t;
        assert all[j] == t;
      }
      if t == now {
        assert all[|times|] == t;
      }
      if t in InstantsSeen(all, window) && t != now {
        var j :| 0 <= j < |times| && all[j] == t && t > now - window;
        assert times[j] in times;
      }
    }
  }

  lemma ScoresAreSeen(before: seq<Call>, now: real, window: real)
    requires Clocked(before) && now >= 0.0 && LastTime(before) <= now
    ensures ScoresAfter(RedisEntryAfter(before, window), now, window) == InstantsSeen(Times(before) + [now], window)
  {
    SameInstants(before, window);
    NextScores(RedisEntryAfter(before, window), MemoryLogAfter(before, window), LastTime(before), now, window);
    LogAgreesWithRequests(before, window, now - window);
    SeenAreMembers(Times(before), now, window);
  }

  lemma TimesSnoc(calls: seq<Call>, i: nat)
    requires i < |calls|
    ensures Times(calls[..i + 1]) == Times(calls[..i]) + [calls[i].now]
  {
  }

  /** In Redis, a request is allowed exactly if the instants of its window, its own
      included, are no more than the limit. */
  lemma RedisAnswersFromInstants(calls: seq<Call>, window: real, i: nat)
    requires Clocked(calls) && i < |calls|
    ensures
      var a, seen := RedisSays(calls, window, i), |InstantsSeen(Times(calls[..i + 1]), window)|;
      && (a.allowed <==> seen <= calls[i].limit)
      && a.limit == calls[i].limit
      && a.remaining == (if seen <= calls[i].limit then calls[i].limit - seen else 0)
  {
    ScoresAreSeen(calls[..i], calls[i].now, window);
    TimesSnoc(calls, i);
  }

  // ---- the configured rates ----

  /** Of the auth endpoints: from one address, a request is admitted exactly if fewer than
      ten were in the last minute, so no minute admits more than ten. */
  lemma TenPerMinute(times: seq<real>)
    requires Sorted(times)
    ensures AtMostPerWindow(Admitted.Admitted(times, Admitted.MAX_REQUESTS, Admitted.WINDOW_SECONDS), 10, 60.0)
    ensures times != [] ==>
      var n := |times| - 1;
      var before := Admitted.Admitted(times[..n], Admitted.MAX_REQUESTS, Admitted.WINDOW_SECONDS);
      Admitted.Greedy(times, Admitted.MAX_REQUESTS, Admitted.WINDOW_SECONDS).decisions[n] <==>
      |After(before, times[n] - 60.0)| < 10
  {
    Admitted.GreedyKeepsLimit(times, Admitted.MAX_REQUESTS, Admitted.WINDOW_SECONDS);
    if times != [] {
      Admitted.DecisionFromHistory(times, Admitted.MAX_REQUESTS, Admitted.WINDOW_SECONDS);
    }
  }

  /** Of the middleware, in memory: a minute admits at most 30 public, 100 authenticated,
      10 expensive and 1000 webhook requests of a key, and five minutes 5 exports; and a
      request is allowed as long as fewer were made. */
  lemma RatesOfTiers(tier: Tier, times: seq<real>)
    requires Sorted(times)
    ensures
      var window := if tier.Export? then 300.0 else 60.0;
      var limit := match tier case Public => 30 case Authenticated => 100 case Expensive => 10 case Export => 5
                              case Webhook => 1000;
      && AtMostPerWindow(MemoryAdmitted(times, tier.Requests(), tier.Window()), limit, window)
      && forall i :: 0 <= i < |times| ==>
           (MemorySays(FixedLimit(times, tier.Requests()), tier.Window(), i).allowed <==>
            |After(times[..i], times[i] - window)| < limit)
  {
    MemoryKeepsLimit(times, tier.Requests(), tier.Window());
    forall i | 0 <= i < |times|
      ensures MemorySays(FixedLimit(times, tier.Requests()), tier.Window(), i).allowed <==>
              |After(times[..i], times[i] - tier.Window())| < tier.Requests()
    {
      var calls := FixedLimit(times, tier.Requests());
      MemoryAnswersFromRequests(calls, tier.Window(), i);
      assert Times(calls[..i]) == times[..i];
    }
  }
}
