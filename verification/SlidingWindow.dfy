/** Vocabulary shared by the three sliding-window rate limiters: timestamp logs,
    the filter each limiter applies to its log, and what it means for a list of
    admitted requests to respect a limit in every window. */
module SlidingWindow {

  type Store = map<string, seq<real>>

  /** A missing key has the empty log. */
  function LogOf(store: Store, key: string): seq<real> {
    if key in store then store[key] else []
  }

  ghost predicate Sorted(times: seq<real>) {
    forall i, j :: 0 <= i < j < |times| ==> times[i] <= times[j]
  }

  ghost predicate StrictlySorted(times: seq<real>) {
    forall i, j :: 0 <= i < j < |times| ==> times[i] < times[j]
  }

  /** Every entry is at or before `now`. */
  ghost predicate UpTo(log: seq<real>, now: real) {
    forall i :: 0 <= i < |log| ==> log[i] <= now
  }

  /** The entries of `log` later than `cutoff`, in order. */
  function After(log: seq<real>, cutoff: real): seq<real> {
    if log == [] then []
    else if log[0] > cutoff then [log[0]] + After(log[1..], cutoff)
    else After(log[1..], cutoff)
  }

  /** How many entries lie in the half-open window `(lo, hi]`. */
  ghost function CountIn(log: seq<real>, lo: real, hi: real): nat {
    if log == [] then 0
    else (if lo < log[0] <= hi then 1 else 0) + CountIn(log[1..], lo, hi)
  }

  /** How many entries lie in the window that ends at `end`. */
  ghost function WindowCount(log: seq<real>, window: real, end: real): nat {
    CountIn(log, end - window, end)
  }

  /** No window of the given length holds more than `limit` entries. */
  ghost predicate AtMostPerWindow(log: seq<real>, limit: int, window: real) {
    forall end: real :: WindowCount(log, window, end) <= limit
  }

  /** The times at which `decisions` says yes. */
  ghost function Chosen(times: seq<real>, decisions: seq<bool>): seq<real>
    requires |times| == |decisions|
  {
    if times == [] then []
    else
      var n := |times| - 1;
      var before := Chosen(times[..n], decisions[..n]);
      if decisions[n] then before + [times[n]] else before
  }

  lemma SortedPrefix(times: seq<real>, n: nat)
    requires Sorted(times) && n <= |times|
    ensures Sorted(times[..n])
    ensures n < |times| ==> UpTo(times[..n], times[n])
  {
  }

  lemma {:induction false} AfterAppend(a: seq<real>, b: seq<real>, cutoff: real)
    ensures After(a + b, cutoff) == After(a, cutoff) + After(b, cutoff)
  {
    if a == [] {
      assert a + b == b;
    } else {
      assert (a + b)[1..] == a[1..] + b;
      AfterAppend(a[1..], b, cutoff);
    }
  }

  /** A later, stricter filter makes an earlier, laxer one irrelevant. */
  lemma {:induction false} AfterAfter(log: seq<real>, early: real, late: real)
    requires early <= late
    ensures After(After(log, early), late) == After(log, late)
  {
    if log != [] {
      AfterAfter(log[1..], early, late);
      if log[0] > early {
        assert ([log[0]] + After(log[1..], early))[1..] == After(log[1..], early);
      }
    }
  }

  lemma {:induction false} AfterShrinks(log: seq<real>, cutoff: real)
    ensures |After(log, cutoff)| <= |log|
  {
    if log != [] {
      AfterShrinks(log[1..], cutoff);
    }
  }

  lemma {:induction false} AfterAntitone(log: seq<real>, early: real, late: real)
    requires early <= late
    ensures |After(log, late)| <= |After(log, early)|
  {
    if log != [] {
      AfterAntitone(log[1..], early, late);
    }
  }

  lemma {:induction false} CountInAppend(a: seq<real>, b: seq<real>, lo: real, hi: real)
    ensures CountIn(a + b, lo, hi) == CountIn(a, lo, hi) + CountIn(b, lo, hi)
  {
    if a == [] {
      assert a + b == b;
    } else {
      assert (a + b)[1..] == a[1..] + b;
      CountInAppend(a[1..], b, lo, hi);
    }
  }

  lemma {:induction false} CountInAtMostAfter(log: seq<real>, lo: real, hi: real)
    ensures CountIn(log, lo, hi) <= |After(log, lo)|
  {
    if log != [] {
      CountInAtMostAfter(log[1..], lo, hi);
    }
  }

  lemma {:induction false} CountInAll(log: seq<real>, lo: real, hi: real)
    requires forall i :: 0 <= i < |log| ==> lo < log[i] <= hi
    ensures CountIn(log, lo, hi) == |log|
  {
    if log != [] {
      CountInAll(log[1..], lo, hi);
    }
  }

  /** Filtering a sorted log drops a prefix: if more than `j` entries survive, the
      one `j + 1` from the end is among them. */
  lemma {:induction false} AfterIsSuffix(log: seq<real>, cutoff: real)
    requires Sorted(log)
    ensures |After(log, cutoff)| <= |log|
    ensures After(log, cutoff) == log[|log| - |After(log, cutoff)|..]
    ensures forall i :: 0 <= i < |log| - |After(log, cutoff)| ==> log[i] <= cutoff
    ensures forall i :: |log| - |After(log, cutoff)| <= i < |log| ==> log[i] > cutoff
  {
    if log != [] {
      AfterIsSuffix(log[1..], cutoff);
      if log[0] > cutoff {
        var rest := After(log[1..], cutoff);
        assert forall i :: 0 <= i < |log[1..]| ==> log[1..][i] > cutoff;
        assert |rest| == |log| - 1;
        assert log == [log[0]] + log[1..];
      }
    }
  }

  lemma {:induction false} ChosenBounds(times: seq<real>, decisions: seq<bool>, now: real)
    requires |times| == |decisions|
    requires UpTo(times, now)
    ensures UpTo(Chosen(times, decisions), now)
  {
    if times != [] {
      var n := |times| - 1;
      ChosenBounds(times[..n], decisions[..n], now);
    }
  }

  lemma {:induction false} ChosenSorted(times: seq<real>, decisions: seq<bool>)
    requires |times| == |decisions|
    requires Sorted(times)
    ensures Sorted(Chosen(times, decisions))
  {
    if times != [] {
      var n := |times| - 1;
      ChosenSorted(times[..n], decisions[..n]);
      ChosenBounds(times[..n], decisions[..n], times[n]);
    }
  }

  lemma CountInSlice(log: seq<real>, i: nat, j: nat, lo: real, hi: real)
    requires i <= j <= |log|
    requires forall k :: i <= k < j ==> lo < log[k] <= hi
    ensures CountIn(log, lo, hi) >= j - i
  {
    assert log == log[..i] + log[i..j] + log[j..];
    CountInAppend(log[..i] + log[i..j], log[j..], lo, hi);
    CountInAppend(log[..i], log[i..j], lo, hi);
    CountInAll(log[i..j], lo, hi);
  }

  /** Sorted logs that respect the limit have their entries `limit` places apart
      at least a window apart. */
  lemma LimitSpacesEntries(log: seq<real>, limit: nat, window: real, k: nat)
    requires Sorted(log)
    requires AtMostPerWindow(log, limit, window)
    requires limit <= k < |log|
    ensures log[k] - log[k - limit] >= window || window <= 0.0
  {
    assert WindowCount(log, window, log[k]) <= limit;
    if log[k] - log[k - limit] < window && window > 0.0 {
      CountInSlice(log, k - limit, k + 1, log[k] - window, log[k]);
    }
  }

  lemma AtMostPrefix(a: seq<real>, b: seq<real>, limit: int, window: real)
    requires AtMostPerWindow(a + b, limit, window)
    ensures AtMostPerWindow(a, limit, window)
  {
    forall end: real
      ensures WindowCount(a, window, end) <= limit
    {
      CountInAppend(a, b, end - window, end);
      assert WindowCount(a + b, window, end) <= limit;
    }
  }

  /** One admission step: a limiter that admits `now` only when its log of the
      last window, which holds at least every admitted request of that window,
      has room, keeps the limit in every window. */
  lemma AdmittingKeepsLimit(admitted: seq<real>, recent: nat, now: real, limit: int, window: real)
    requires AtMostPerWindow(admitted, limit, window)
    requires UpTo(admitted, now)
    requires |After(admitted, now - window)| <= recent < limit
    ensures AtMostPerWindow(admitted + [now], limit, window)
  {
    forall end: real
      ensures WindowCount(admitted + [now], window, end) <= limit
    {
      CountInAppend(admitted, [now], end - window, end);
      assert WindowCount(admitted, window, end) <= limit;
      if end - window < now <= end {
        CountInAtMostAfter(admitted, end - window, end);
        AfterAntitone(admitted, now - window, end - window);
      }
    }
  }
}
