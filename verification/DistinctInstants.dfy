/** Windows counted by distinct instants rather than by entries, and what repetition
    costs: with at most `r` entries at any instant a window holds at most `r` times as
    many entries as instants. */
module DistinctInstants {
  import opened Basics
  import opened SlidingWindow

  ghost function Instants(log: seq<real>, lo: real, hi: real): set<real> {
    set t | t in log && lo < t <= hi
  }

  ghost function WindowInstants(log: seq<real>, window: real, end: real): set<real> {
    Instants(log, end - window, end)
  }

  ghost predicate InstantsPerWindow(log: seq<real>, limit: int, window: real) {
    forall end: real :: |WindowInstants(log, window, end)| <= limit
  }

  ghost predicate AtMostCopies(log: seq<real>, r: nat) {
    forall t: real :: multiset(log)[t] <= r
  }

  /** How many entries are among the given instants. */
  ghost function CountAmong(log: seq<real>, ts: set<real>): nat {
    if log == [] then 0
    else CountAmong(log[..|log| - 1], ts) + if log[|log| - 1] in ts then 1 else 0
  }

  lemma {:induction false} OneInstantLess(log: seq<real>, ts: set<real>, t: real)
    requires t in ts
    ensures CountAmong(log, ts) == CountAmong(log, ts - {t}) + multiset(log)[t]
  {
    if log != [] {
      OneInstantLess(log[..|log| - 1], ts, t);
      LastOut(log);
    }
  }

  lemma {:induction false} NoInstants(log: seq<real>)
    ensures CountAmong(log, {}) == 0
  {
    if log != [] {
      NoInstants(log[..|log| - 1]);
    }
  }

  lemma {:induction false} CopiesPerInstant(log: seq<real>, ts: set<real>, r: nat)
    requires AtMostCopies(log, r)
    ensures CountAmong(log, ts) <= r * |ts|
  {
    if ts == {} {
      NoInstants(log);
    } else {
      var t := SomeElement(ts);
      OneInstantLess(log, ts, t);
      CopiesPerInstant(log, ts - {t}, r);
      assert r * |ts| == r * |ts - {t}| + r;
    }
  }

  lemma {:induction false} CountInIsAmong(log: seq<real>, lo: real, hi: real, ts: set<real>)
    requires forall t :: t in log && lo < t <= hi ==> t in ts
    ensures CountIn(log, lo, hi) <= CountAmong(log, ts)
  {
    if log != [] {
      var n := |log| - 1;
      CountInIsAmong(log[..n], lo, hi, ts);
      CountInAppend(log[..n], [log[n]], lo, hi);
      assert log == log[..n] + [log[n]];
    }
  }

  lemma FewInstantsFewEntries(log: seq<real>, limit: int, window: real, r: nat)
    requires InstantsPerWindow(log, limit, window) && AtMostCopies(log, r)
    ensures AtMostPerWindow(log, r * limit, window)
  {
    forall end: real
      ensures WindowCount(log, window, end) <= r * limit
    {
      var ts := WindowInstants(log, window, end);
      CountInIsAmong(log, end - window, end, ts);
      CopiesPerInstant(log, ts, r);
      TimesAtMost(r, |ts|, limit);
    }
  }

  lemma TimesAtMost(r: nat, a: int, b: int)
    requires a <= b
    ensures r * a <= r * b
  {
  }

  /** Choosing among requests repeats no instant more often. */
  lemma {:induction false} ChosenCopies(times: seq<real>, decisions: seq<bool>, t: real)
    requires |times| == |decisions|
    ensures multiset(Chosen(times, decisions))[t] <= multiset(times)[t]
  {
    if times != [] {
      var n := |times| - 1;
      ChosenCopies(times[..n], decisions[..n], t);
      LastOut(times);
    }
  }

  lemma {:induction false} SingleCopies(times: seq<real>)
    requires StrictlySorted(times)
    ensures AtMostCopies(times, 1)
  {
    if times != [] {
      var n := |times| - 1;
      SingleCopies(times[..n]);
      LastOut(times);
      forall t: real
        ensures multiset(times)[t] <= 1
      {
        assert t == times[n] ==> t !in times[..n];
      }
    }
  }

  /** Sorted times without a repetition are strictly sorted. */
  lemma UnrepeatedIsStrict(times: seq<real>)
    requires Sorted(times) && AtMostCopies(times, 1)
    ensures StrictlySorted(times)
  {
    forall i, j | 0 <= i < j < |times|
      ensures times[i] < times[j]
    {
      assert times == times[..j] + times[j..];
      assert times[i] in times[..j] && times[j] in times[j..];
      assert multiset(times) == multiset(times[..j]) + multiset(times[j..]);
      assert multiset(times)[times[j]] <= 1;
    }
  }

  // ---- runs that repeat every instant ----

  /** Instants that approach the end of a window without reaching it. */
  ghost function Instant(k: nat, window: real): (t: real)
    requires window > 0.0
    ensures 0.0 <= t < window
  {
    if k == 0 then 0.0 else (Instant(k - 1, window) + window) / 2.0
  }

  /** `r` requests at each of the first `n` instants. */
  ghost function Bursts(n: nat, r: nat, window: real): seq<real>
    requires window > 0.0
  {
    if n == 0 then [] else Bursts(n - 1, r, window) + Repeated(Instant(n - 1, window), r)
  }

  ghost function Repeated(t: real, r: nat): seq<real> {
    if r == 0 then [] else Repeated(t, r - 1) + [t]
  }

  lemma {:induction false} RepeatedIs(t: real, r: nat)
    ensures |Repeated(t, r)| == r && multiset(Repeated(t, r)) == multiset{}[t := r]
    ensures forall i :: 0 <= i < r ==> Repeated(t, r)[i] == t
  {
    if r > 0 {
      RepeatedIs(t, r - 1);
    }
  }

  /** All before the next instant, in order. */
  ghost predicate Before(log: seq<real>, t: real) {
    Sorted(log) && forall i :: 0 <= i < |log| ==> 0.0 <= log[i] < t
  }

  lemma {:induction false} BurstsAreOrdered(n: nat, r: nat, window: real)
    requires window > 0.0
    ensures |Bursts(n, r, window)| == n * r && Before(Bursts(n, r, window), Instant(n, window))
  {
    if n > 0 {
      BurstsAreOrdered(n - 1, r, window);
      RepeatedIs(Instant(n - 1, window), r);
      assert n * r == (n - 1) * r + r;
    }
  }

  lemma NewBurst(before: seq<real>, t: real, burst: seq<real>, r: nat)
    requires AtMostCopies(before, r) && Before(before, t) && multiset(burst) == multiset{}[t := r]
    ensures AtMostCopies(before + burst, r)
  {
    forall u: real
      ensures multiset(before + burst)[u] <= r
    {
      assert multiset(before + burst)[u] == multiset(before)[u] + multiset(burst)[u];
      assert multiset(before)[u] <= r;
      assert u == t ==> u !in before;
    }
  }

  lemma {:induction false} BurstsRepeat(n: nat, r: nat, window: real)
    requires window > 0.0
    ensures AtMostCopies(Bursts(n, r, window), r)
  {
    if n > 0 {
      BurstsRepeat(n - 1, r, window);
      BurstsAreOrdered(n - 1, r, window);
      RepeatedIs(Instant(n - 1, window), r);
      NewBurst(Bursts(n - 1, r, window), Instant(n - 1, window), Repeated(Instant(n - 1, window), r), r);
    }
  }

  ghost function Members(log: seq<real>): set<real> {
    set t | t in log
  }

  lemma {:induction false} BurstsHaveFewInstants(n: nat, r: nat, window: real)
    requires window > 0.0
    ensures |Members(Bursts(n, r, window))| <= n
  {
    if n > 0 {
      var t := Instant(n - 1, window);
      BurstsHaveFewInstants(n - 1, r, window);
      RepeatedIs(t, r);
      SubsetSize(Members(Bursts(n, r, window)), Members(Bursts(n - 1, r, window)) + {t});
    }
  }

  /** Together they lie in one window. */
  lemma BurstsShareWindow(n: nat, r: nat, window: real, end: real)
    requires window > 0.0 && Instant(n, window) <= end < window
    ensures WindowCount(Bursts(n, r, window), window, end) == n * r
  {
    BurstsAreOrdered(n, r, window);
    CountInAll(Bursts(n, r, window), end - window, end);
  }
}
