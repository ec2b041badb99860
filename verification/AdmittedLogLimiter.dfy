/** The two limiters that log only the requests they admit: the per-client limiter
    of the auth endpoints and the general `check_rate_limit`. Both keep, for each
    key, the times admitted within the last window, and refuse a request exactly
    when that log is full. */
module AdmittedLogLimiter {
  import opened SlidingWindow
  import opened Wrappers

  const MAX_REQUESTS: int := 10
  const WINDOW_SECONDS: real := 60.0

  datatype Verdict = Verdict(admitted: bool, log: seq<real>)

  /** One request at `now` against one key's log. */
  function Decide(log: seq<real>, now: real, limit: int, window: real): Verdict {
    var kept := After(log, now - window);
    if |kept| >= limit then Verdict(false, kept) else Verdict(true, kept + [now])
  }

  class AuthLimiter {
    var requestLog: Store

    constructor ()
      ensures requestLog == map[]
    {
      requestLog := map[];
    }

    /** Requests without a client address share one log. */
    method Limit(host: Option<string>, now: real) returns (admitted: bool)
      modifies this
      ensures
        var ip := host.GetOr("unknown");
        var v := Decide(LogOf(old(requestLog), ip), now, MAX_REQUESTS, WINDOW_SECONDS);
        admitted == v.admitted && requestLog == old(requestLog)[ip := v.log]
    {
      var ip := host.GetOr("unknown");
      if ip !in requestLog {
        requestLog := requestLog[ip := []];
      }
      requestLog := requestLog[ip := After(requestLog[ip], now - WINDOW_SECONDS)];
      if |requestLog[ip]| >= MAX_REQUESTS {
        return false;
      }
      requestLog := requestLog[ip := requestLog[ip] + [now]];
      return true;
    }
  }

  class SharedLimiter {
    var windows: Store

    constructor ()
      ensures windows == map[]
    {
      windows := map[];
    }

    method CheckRateLimit(key: string, maxRequests: int, windowSeconds: real, now: real)
      returns (admitted: bool)
      modifies this
      ensures
        var v := Decide(LogOf(old(windows), key), now, maxRequests, windowSeconds);
        admitted == v.admitted && windows == old(windows)[key := v.log]
    {
      var cutoff := now - windowSeconds;
      if key !in windows {
        windows := windows[key := []];
      }
      windows := windows[key := After(windows[key], cutoff)];
      if |windows[key]| >= maxRequests {
        return false;
      }
      windows := windows[key := windows[key] + [now]];
      return true;
    }
  }

  // ---- whole runs against one key ----

  datatype Trail = Trail(decisions: seq<bool>, log: seq<real>)

  /** The limiter on requests arriving at `times`. */
  ghost function Greedy(times: seq<real>, limit: int, window: real): (trail: Trail)
    ensures |trail.decisions| == |times|
  {
    if times == [] then Trail([], [])
    else
      var n := |times| - 1;
      var before := Greedy(times[..n], limit, window);
      var v := Decide(before.log, times[n], limit, window);
      Trail(before.decisions + [v.admitted], v.log)
  }

  ghost function Admitted(times: seq<real>, limit: int, window: real): seq<real> {
    Chosen(times, Greedy(times, limit, window).decisions)
  }

  /** Pruning loses nothing that could matter again: the log and the full history of
      admitted requests agree on every window still to come. */
  lemma {:induction false} LogAgreesWithHistory(times: seq<real>, limit: int, window: real, cutoff: real)
    requires times != [] ==> cutoff >= times[|times| - 1] - window
    requires Sorted(times)
    ensures After(Greedy(times, limit, window).log, cutoff) == After(Admitted(times, limit, window), cutoff)
  {
    if times != [] {
      var n := |times| - 1;
      var now := times[n];
      var before := Greedy(times[..n], limit, window);
      LogAgreesWithHistory(times[..n], limit, window, cutoff);
      AfterAfter(before.log, now - window, cutoff);
      var kept := After(before.log, now - window);
      AfterAppend(kept, [now], cutoff);
      AfterAppend(Admitted(times[..n], limit, window), [now], cutoff);
      GreedySplits(times, limit, window);
    }
  }

  lemma GreedySplits(times: seq<real>, limit: int, window: real)
    requires times != []
    ensures
      var n := |times| - 1;
      var before := Greedy(times[..n], limit, window);
      var admitted := Admitted(times[..n], limit, window);
      Admitted(times, limit, window)
        == if Decide(before.log, times[n], limit, window).admitted then admitted + [times[n]] else admitted
  {
    var n := |times| - 1;
    assert Greedy(times, limit, window).decisions[..n] == Greedy(times[..n], limit, window).decisions;
  }

  lemma LastDecision(times: seq<real>, limit: int, window: real)
    requires times != []
    ensures
      var n := |times| - 1;
      Greedy(times, limit, window).decisions[n] <==>
      |After(Greedy(times[..n], limit, window).log, times[n] - window)| < limit
  {
  }

  lemma AgreementBeforeLast(times: seq<real>, limit: int, window: real)
    requires times != [] && Sorted(times)
    ensures
      var n := |times| - 1;
      var cutoff := times[n] - window;
      After(Greedy(times[..n], limit, window).log, cutoff) == After(Admitted(times[..n], limit, window), cutoff)
  {
    var n := |times| - 1;
    SortedPrefix(times, n);
    LogAgreesWithHistory(times[..n], limit, window, times[n] - window);
  }

  /** Whether the request at the end of `times` is admitted depends only on how many
      admitted requests the last window holds. */
  lemma DecisionFromHistory(times: seq<real>, limit: int, window: real)
    requires times != [] && Sorted(times)
    ensures
      var n := |times| - 1;
      Greedy(times, limit, window).decisions[n] <==>
      |After(Admitted(times[..n], limit, window), times[n] - window)| < limit
  {
    LastDecision(times, limit, window);
    AgreementBeforeLast(times, limit, window);
  }

  /** Safety over whole runs: no window ever holds more than the limit. */
  lemma {:induction false} GreedyKeepsLimit(times: seq<real>, limit: int, window: real)
    requires Sorted(times) && limit >= 0
    ensures AtMostPerWindow(Admitted(times, limit, window), limit, window)
  {
    if times != [] {
      var n := |times| - 1;
      GreedyKeepsLimit(times[..n], limit, window);
      DecisionFromHistory(times, limit, window);
      GreedySplits(times, limit, window);
      var admitted := Admitted(times[..n], limit, window);
      if Greedy(times, limit, window).decisions[n] {
        ChosenBounds(times[..n], Greedy(times[..n], limit, window).decisions, times[n]);
        AdmittingKeepsLimit(admitted, |After(admitted, times[n] - window)|, times[n], limit, window);
      }
    }
  }

  /** If the limiter turns `now` away, so must every policy that respects the limit
      and has admitted as many requests, each no earlier. */
  lemma DenialIsForced(ours: seq<real>, theirs: seq<real>, now: real, limit: int, window: real)
    requires Sorted(ours) && Sorted(theirs + [now])
    requires |ours| == |theirs|
    requires forall k :: 0 <= k < |ours| ==> ours[k] <= theirs[k]
    requires UpTo(ours, now)
    requires limit != 0 || window > 0.0
    requires AtMostPerWindow(theirs + [now], limit, window)
    ensures |After(ours, now - window)| < limit
  {
    var all := theirs + [now];
    assert WindowCount(all, window, now) <= limit;
    if limit == 0 {
      CountInAppend(theirs, [now], now - window, now);
    } else if |After(ours, now - window)| >= limit {
      AfterIsSuffix(ours, now - window);
      var k := |ours| - limit;
      assert now - window < ours[k] <= theirs[k] == all[k];
      LimitSpacesEntries(all, limit, window, |theirs|);
    }
  }

  /** At least as many entries, the k-th never later. */
  ghost predicate Ahead(ours: seq<real>, theirs: seq<real>) {
    |theirs| <= |ours| && forall k :: 0 <= k < |theirs| ==> ours[k] <= theirs[k]
  }

  lemma AheadStep(ours: seq<real>, theirs: seq<real>, now: real, weAdmit: bool, theyAdmit: bool)
    requires Ahead(ours, theirs) && UpTo(ours, now)
    requires theyAdmit && |ours| == |theirs| ==> weAdmit
    ensures Ahead(if weAdmit then ours + [now] else ours, if theyAdmit then theirs + [now] else theirs)
  {
  }

  /** Where a policy with as many admissions admits the last request, so does the limiter. */
  lemma LastIsMatched(times: seq<real>, policy: seq<bool>, limit: int, window: real)
    requires times != [] && Sorted(times) && |policy| == |times|
    requires limit != 0 || window > 0.0
    requires AtMostPerWindow(Chosen(times, policy), limit, window)
    requires
      var n := |times| - 1;
      && Ahead(Admitted(times[..n], limit, window), Chosen(times[..n], policy[..n]))
      && |Admitted(times[..n], limit, window)| == |Chosen(times[..n], policy[..n])| && policy[n]
    ensures Greedy(times, limit, window).decisions[|times| - 1]
  {
    var n := |times| - 1;
    var ds := Greedy(times[..n], limit, window).decisions;
    SortedPrefix(times, n);
    ChosenBounds(times[..n], ds, times[n]);
    ChosenSorted(times[..n], ds);
    ChosenSorted(times, policy);
    DenialIsForced(Chosen(times[..n], ds), Chosen(times[..n], policy[..n]), times[n], limit, window);
    DecisionFromHistory(times, limit, window);
  }

  lemma PolicyPrefix(times: seq<real>, policy: seq<bool>, limit: int, window: real)
    requires times != [] && |policy| == |times| && AtMostPerWindow(Chosen(times, policy), limit, window)
    ensures AtMostPerWindow(Chosen(times[..|times| - 1], policy[..|times| - 1]), limit, window)
  {
    var n := |times| - 1;
    if policy[n] {
      AtMostPrefix(Chosen(times[..n], policy[..n]), [times[n]], limit, window);
    }
  }

  /** Greedy stays ahead: the limiter's k-th admission is never later than the k-th
      admission of any policy that respects the limit. */
  lemma {:induction false} StaysAhead(times: seq<real>, policy: seq<bool>, limit: int, window: real)
    requires Sorted(times) && |policy| == |times|
    requires limit != 0 || window > 0.0
    requires AtMostPerWindow(Chosen(times, policy), limit, window)
    ensures Ahead(Admitted(times, limit, window), Chosen(times, policy))
  {
    if times != [] {
      var n := |times| - 1;
      SortedPrefix(times, n);
      PolicyPrefix(times, policy, limit, window);
      StaysAhead(times[..n], policy[..n], limit, window);
      var ours, theirs := Admitted(times[..n], limit, window), Chosen(times[..n], policy[..n]);
      if policy[n] && |theirs| == |ours| {
        LastIsMatched(times, policy, limit, window);
      }
      GreedySplits(times, limit, window);
      LastDecision(times, limit, window);
      ChosenBounds(times[..n], Greedy(times[..n], limit, window).decisions, times[n]);
      AheadStep(ours, theirs, times[n], Greedy(times, limit, window).decisions[n], policy[n]);
    }
  }

  ghost predicate Beaten(times: seq<real>, policy: seq<bool>, limit: int, window: real) {
    && Sorted(times) && |policy| == |times|
    && AtMostPerWindow(Chosen(times, policy), limit, window)
    && |Chosen(times, policy)| > |Admitted(times, limit, window)|
  }

  /** No run and no policy that respects the limit admits more than the limiter. */
  ghost predicate Optimal(limit: int, window: real) {
    forall times, policy :: !Beaten(times, policy, limit, window)
  }

  /** The limiter is optimal for every setting except the degenerate one in which
      it refuses everything although an empty window can never overflow. */
  lemma GreedyIsOptimal(limit: int, window: real)
    ensures Optimal(limit, window) <==> (limit != 0 || window > 0.0)
  {
    if limit != 0 || window > 0.0 {
      forall times, policy
        ensures !Beaten(times, policy, limit, window)
      {
        if Sorted(times) && |policy| == |times| && AtMostPerWindow(Chosen(times, policy), limit, window) {
          StaysAhead(times, policy, limit, window);
        }
      }
    } else {
      var times, policy := [0.0], [true];
      GreedySplits(times, limit, window);
      assert times[..0] == [] && Chosen(times, policy) == [0.0];
      forall end: real
        ensures WindowCount([0.0], window, end) <= limit
      {
        assert CountIn([0.0][1..], end - window, end) == 0;
      }
      assert Beaten(times, policy, limit, window);
    }
  }

  /** The same on every prefix of a run. */
  lemma GreedyIsOptimalOnPrefixes(times: seq<real>, policy: seq<bool>, limit: int, window: real, p: nat)
    requires Sorted(times) && |policy| == |times| && p <= |times|
    requires limit != 0 || window > 0.0
    requires AtMostPerWindow(Chosen(times, policy), limit, window)
    ensures |Chosen(times[..p], policy[..p])|
            <= |Chosen(times[..p], Greedy(times, limit, window).decisions[..p])|
    decreases |times| - p
  {
    GreedyOfPrefix(times, limit, window, p);
    ChosenOfPrefix(times, policy, p);
    var rest :| Chosen(times, policy) == Chosen(times[..p], policy[..p]) + rest;
    AtMostPrefix(Chosen(times[..p], policy[..p]), rest, limit, window);
    StaysAhead(times[..p], policy[..p], limit, window);
  }

  lemma {:induction false} GreedyOfPrefix(times: seq<real>, limit: int, window: real, p: nat)
    requires p <= |times|
    ensures Greedy(times, limit, window).decisions[..p] == Greedy(times[..p], limit, window).decisions
  {
    if p == |times| {
      assert times[..p] == times;
    } else {
      var n := |times| - 1;
      GreedyOfPrefix(times[..n], limit, window, p);
      assert times[..n][..p] == times[..p];
    }
  }

  lemma {:induction false} ChosenOfPrefix(times: seq<real>, decisions: seq<bool>, p: nat)
    requires |times| == |decisions| && p <= |times|
    ensures exists rest :: Chosen(times, decisions) == Chosen(times[..p], decisions[..p]) + rest
  {
    if p == |times| {
      assert times[..p] == times && decisions[..p] == decisions;
      assert Chosen(times, decisions) == Chosen(times[..p], decisions[..p]) + [];
    } else {
      var n := |times| - 1;
      ChosenOfPrefix(times[..n], decisions[..n], p);
      assert times[..n][..p] == times[..p] && decisions[..n][..p] == decisions[..p];
      var early := Chosen(times[..p], decisions[..p]);
      var rest :| Chosen(times[..n], decisions[..n]) == early + rest;
      assert early + rest + [times[n]] == early + (rest + [times[n]]);
    }
  }

  // ---- runs over many keys ----

  datatype Request = Request(key: string, time: real)
  datatype StoreRun = StoreRun(decisions: seq<bool>, store: Store)

  /** The whole dictionary on interleaved requests of many keys. */
  ghost function RunStore(trace: seq<Request>, limit: int, window: real): (r: StoreRun)
    ensures |r.decisions| == |trace|
  {
    if trace == [] then StoreRun([], map[])
    else
      var n := |trace| - 1;
      var before := RunStore(trace[..n], limit, window);
      var v := Decide(LogOf(before.store, trace[n].key), trace[n].time, limit, window);
      StoreRun(before.decisions + [v.admitted], before.store[trace[n].key := v.log])
  }

  ghost function TimesOf(trace: seq<Request>, key: string): seq<real> {
    if trace == [] then []
    else
      var n := |trace| - 1;
      var before := TimesOf(trace[..n], key);
      if trace[n].key == key then before + [trace[n].time] else before
  }

  ghost function DecisionsOf(trace: seq<Request>, decisions: seq<bool>, key: string): (ds: seq<bool>)
    requires |trace| == |decisions|
    ensures |ds| == |TimesOf(trace, key)|
  {
    if trace == [] then []
    else
      var n := |trace| - 1;
      var before := DecisionsOf(trace[..n], decisions[..n], key);
      if trace[n].key == key then before + [decisions[n]] else before
  }

  /** Keys do not disturb each other: inside any interleaving, each key is treated as
      if it had the limiter to itself. */
  lemma {:induction false} KeysAreIndependent(trace: seq<Request>, limit: int, window: real, key: string)
    ensures
      var run := RunStore(trace, limit, window);
      var alone := Greedy(TimesOf(trace, key), limit, window);
      LogOf(run.store, key) == alone.log && DecisionsOf(trace, run.decisions, key) == alone.decisions
  {
    if trace != [] {
      var n := |trace| - 1;
      KeysAreIndependent(trace[..n], limit, window, key);
      var run := RunStore(trace, limit, window);
      assert run.decisions[..n] == RunStore(trace[..n], limit, window).decisions;
      if trace[n].key == key {
        var times := TimesOf(trace, key);
        assert times[..|times| - 1] == TimesOf(trace[..n], key);
        assert times[|times| - 1] == trace[n].time;
      }
    }
  }
}
