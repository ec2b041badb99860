/** What the Redis window guarantees by itself. It counts distinct timestamps, so it
    bounds the instants of a window, and the requests only as far as requests do not
    share them. */
module RedisWindowBound {
  import opened Basics
  import opened DenyCountingLimiter
  import opened DistinctInstants
  import opened SlidingWindow
  import opened Wrappers

  /** The sorted set still holds every recent instant admitted through Redis. */
  ghost predicate Remembers(entry: Option<SortedSet>, via: seq<real>, last: real, window: real) {
    && UpTo(via, last)
    && (forall i :: 0 <= i < |via| ==> 0.0 <= via[i])
    && match entry
       case None => via == []
       case Some(z) =>
         && UpTo(via, z.expiresAt - window - 1.0)
         && (forall i :: 0 <= i < |via| && via[i] > last - window ==> via[i] in z.scores)
  }

  lemma RememberMore(entry: Option<SortedSet>, via: seq<real>, last: real, now: real, window: real)
    requires Remembers(entry, via, last, window) && last <= now && 0.0 <= now
    ensures Remembers(entry, via, now, window)
    ensures Remembers(Some(RedisEntry(entry, now, window)), via, now, window)
    ensures Remembers(Some(RedisEntry(entry, now, window)), via + [now], now, window)
  {
  }

  /** The instants of a window that the next request falls into are among those it counts. */
  lemma WindowIsCounted(entry: Option<SortedSet>, via: seq<real>, last: real, now: real, window: real, end: real)
    requires Remembers(entry, via, last, window) && last <= now <= end && end - window < now
    ensures WindowInstants(via + [now], window, end) <= ScoresAfter(entry, now, window)
  {
    forall t | t in WindowInstants(via + [now], window, end)
      ensures t in ScoresAfter(entry, now, window)
    {
      if t != now {
        assert t in via;
        var i :| 0 <= i < |via| && via[i] == t;
      }
    }
  }

  lemma RedisAdmissionKeepsInstants(entry: Option<SortedSet>, via: seq<real>, last: real, now: real, limit: int,
                                    window: real)
    requires Remembers(entry, via, last, window) && last <= now && InstantsPerWindow(via, limit, window)
    requires |ScoresAfter(entry, now, window)| <= limit
    ensures InstantsPerWindow(via + [now], limit, window)
  {
    forall end: real
      ensures |WindowInstants(via + [now], window, end)| <= limit
    {
      if end - window < now <= end {
        WindowIsCounted(entry, via, last, now, window, end);
        SubsetSize(WindowInstants(via + [now], window, end), ScoresAfter(entry, now, window));
      } else {
        assert WindowInstants(via + [now], window, end) == WindowInstants(via, window, end);
        assert |WindowInstants(via, window, end)| <= limit;
      }
    }
  }

  // ---- whole runs ----

  ghost function RedisDecisions(times: seq<real>, limit: int, window: real): (ds: seq<bool>)
    ensures |ds| == |times|
    ensures forall i :: 0 <= i < |times| ==> ds[i] == RedisSays(FixedLimit(times, limit), window, i).allowed
  {
    seq(|times|, i requires 0 <= i < |times| => RedisSays(FixedLimit(times, limit), window, i).allowed)
  }

  /** The times Redis admits under one fixed limit. */
  ghost function RedisAdmitted(times: seq<real>, limit: int, window: real): seq<real> {
    Chosen(times, RedisDecisions(times, limit, window))
  }

  lemma RedisDecisionsPrefix(times: seq<real>, limit: int, window: real)
    requires times != []
    ensures RedisDecisions(times, limit, window)[..|times| - 1] == RedisDecisions(times[..|times| - 1], limit, window)
  {
    var n := |times| - 1;
    forall i | 0 <= i < n
      ensures RedisSays(FixedLimit(times, limit), window, i) == RedisSays(FixedLimit(times[..n], limit), window, i)
    {
      FixedLimitPrefix(times, limit, i);
      FixedLimitPrefix(times[..n], limit, i);
      assert times[..n][..i] == times[..i];
    }
  }

  ghost function EntryBeforeLast(times: seq<real>, limit: int, window: real): Option<SortedSet>
    requires times != []
  {
    RedisEntryAfter(FixedLimit(times[..|times| - 1], limit), window)
  }

  lemma LastRedisDecision(times: seq<real>, limit: int, window: real)
    requires times != []
    ensures
      var n := |times| - 1;
      var entry, before := EntryBeforeLast(times, limit, window), RedisAdmitted(times[..n], limit, window);
      && RedisEntryAfter(FixedLimit(times, limit), window) == Some(RedisEntry(entry, times[n], window))
      && RedisAdmitted(times, limit, window)
           == if |ScoresAfter(entry, times[n], window)| <= limit then before + [times[n]] else before
  {
    RedisDecisionsPrefix(times, limit, window);
    FixedLimitPrefix(times, limit, |times| - 1);
  }

  /** Requests in order of time, from zero on. */
  ghost predicate Forward(times: seq<real>) {
    Sorted(times) && forall i :: 0 <= i < |times| ==> 0.0 <= times[i]
  }

  ghost function LastOf(times: seq<real>): real {
    if times == [] then 0.0 else times[|times| - 1]
  }

  /** However timestamps repeat, no window admits more distinct instants than the limit. */
  lemma {:induction false} RedisBoundsInstants(times: seq<real>, limit: int, window: real)
    requires Forward(times) && limit >= 0
    ensures Remembers(RedisEntryAfter(FixedLimit(times, limit), window), RedisAdmitted(times, limit, window),
                      LastOf(times), window)
    ensures InstantsPerWindow(RedisAdmitted(times, limit, window), limit, window)
  {
    if times == [] {
      NoInstantsPerWindow(limit, window);
    } else {
      var n := |times| - 1;
      RedisBoundsInstants(times[..n], limit, window);
      LastRedisDecision(times, limit, window);
      var entry, via := EntryBeforeLast(times, limit, window), RedisAdmitted(times[..n], limit, window);
      RememberMore(entry, via, LastOf(times[..n]), times[n], window);
      if |ScoresAfter(entry, times[n], window)| <= limit {
        RedisAdmissionKeepsInstants(entry, via, LastOf(times[..n]), times[n], limit, window);
      }
    }
  }

  lemma NoInstantsPerWindow(limit: int, window: real)
    requires limit >= 0
    ensures InstantsPerWindow([], limit, window)
  {
    forall end: real
      ensures |WindowInstants([], window, end)| <= limit
    {
      assert WindowInstants([], window, end) == {};
    }
  }

  /** So with at most `r` requests at any instant a window admits at most `r` times the
      limit. */
  lemma RedisKeepsLimitPerCopy(times: seq<real>, limit: int, window: real, r: nat)
    requires Forward(times) && limit >= 0 && AtMostCopies(times, r)
    ensures AtMostPerWindow(RedisAdmitted(times, limit, window), r * limit, window)
  {
    RedisBoundsInstants(times, limit, window);
    forall t: real
      ensures multiset(RedisAdmitted(times, limit, window))[t] <= r
    {
      ChosenCopies(times, RedisDecisions(times, limit, window), t);
    }
    FewInstantsFewEntries(RedisAdmitted(times, limit, window), limit, window, r);
  }

  /** Where no two requests share a timestamp the limit itself is kept. */
  lemma RedisKeepsLimit(times: seq<real>, limit: int, window: real)
    requires Forward(times) && StrictlySorted(times) && limit >= 0
    ensures AtMostPerWindow(RedisAdmitted(times, limit, window), limit, window)
  {
    SingleCopies(times);
    RedisKeepsLimitPerCopy(times, limit, window, 1);
  }

  // ---- the bound is reached ----

  lemma MembersSnoc(times: seq<real>)
    requires times != []
    ensures Members(times) == Members(times[..|times| - 1]) + {times[|times| - 1]}
  {
    assert times == times[..|times| - 1] + [times[|times| - 1]];
  }

  lemma {:induction false} ScoresAreInstants(times: seq<real>, limit: int, window: real)
    ensures
      var entry := RedisEntryAfter(FixedLimit(times, limit), window);
      entry.Some? ==> entry.value.scores <= Members(times)
  {
    if times != [] {
      ScoresAreInstants(times[..|times| - 1], limit, window);
      LastRedisDecision(times, limit, window);
      MembersSnoc(times);
    }
  }

  lemma CountedAreInstants(times: seq<real>, limit: int, window: real)
    requires times != []
    ensures ScoresAfter(EntryBeforeLast(times, limit, window), times[|times| - 1], window) <= Members(times)
  {
    ScoresAreInstants(times[..|times| - 1], limit, window);
    MembersSnoc(times);
  }

  lemma LastIsAdmitted(times: seq<real>, limit: int, window: real)
    requires times != [] && |Members(times)| <= limit
    ensures RedisAdmitted(times, limit, window)
            == RedisAdmitted(times[..|times| - 1], limit, window) + [times[|times| - 1]]
  {
    CountedAreInstants(times, limit, window);
    SubsetSize(ScoresAfter(EntryBeforeLast(times, limit, window), times[|times| - 1], window), Members(times));
    LastRedisDecision(times, limit, window);
  }

  /** A run with no more instants than the limit is admitted whole. */
  lemma {:induction false} FewInstantsAllAdmitted(times: seq<real>, limit: int, window: real)
    requires |Members(times)| <= limit
    ensures RedisAdmitted(times, limit, window) == times
  {
    if times != [] {
      MembersSnoc(times);
      SubsetSize(Members(times[..|times| - 1]), Members(times));
      FewInstantsAllAdmitted(times[..|times| - 1], limit, window);
      LastIsAdmitted(times, limit, window);
    }
  }

  /** `r` times the limit is reached, for every `r` and every limit. */
  lemma RedisBoundIsReached(limit: nat, window: real, r: nat) returns (times: seq<real>, end: real)
    requires window > 0.0
    ensures Forward(times) && AtMostCopies(times, r)
    ensures WindowCount(RedisAdmitted(times, limit, window), window, end) == limit * r
  {
    times, end := Bursts(limit, r, window), Instant(limit, window);
    BurstsAreOrdered(limit, r, window);
    BurstsRepeat(limit, r, window);
    BurstsHaveFewInstants(limit, r, window);
    FewInstantsAllAdmitted(times, limit, window);
    BurstsShareWindow(limit, r, window, end);
  }

  /** Every run with at most `r` requests at any instant keeps every limit. */
  ghost predicate KeepsEveryLimit(r: nat, window: real) {
    forall times, limit: nat :: Forward(times) && AtMostCopies(times, r)
      ==> AtMostPerWindow(RedisAdmitted(times, limit, window), limit, window)
  }

  /** The Redis limiter keeps its limit exactly as long as no timestamp may repeat. */
  lemma KeepsLimitIffNothingRepeats(r: nat, window: real)
    requires window > 0.0
    ensures KeepsEveryLimit(r, window) <==> r <= 1
  {
    if r <= 1 {
      forall times, limit: nat | Forward(times) && AtMostCopies(times, r)
        ensures AtMostPerWindow(RedisAdmitted(times, limit, window), limit, window)
      {
        UnrepeatedIsStrict(times);
        RedisKeepsLimit(times, limit, window);
      }
    } else {
      var times, end := RedisBoundIsReached(1, window, r);
      assert WindowCount(RedisAdmitted(times, 1, window), window, end) > 1;
      assert !AtMostPerWindow(RedisAdmitted(times, 1, window), 1, window);
    }
  }

  /** Redis keeps no such bound when timestamps repeat: any number of requests at one
      instant pass a limit of one. */
  lemma {:induction false} RedisAdmitsAnyBurst(n: nat, window: real)
    requires window > 0.0
    ensures
      var calls := seq(n, _ => Call(0.0, 1));
      && (forall i :: 0 <= i < n ==> RedisSays(calls, window, i).allowed)
      && (n > 0 ==> RedisEntryAfter(calls, window) == Some(SortedSet({0.0}, window + 1.0)))
  {
    if n > 0 {
      RedisAdmitsAnyBurst(n - 1, window);
      var calls := seq(n, _ => Call(0.0, 1));
      var shorter := seq(n - 1, _ => Call(0.0, 1));
      assert calls[..n - 1] == shorter;
      assert ScoresAfter(RedisEntryAfter(shorter, window), 0.0, window) == {0.0};
      forall i | 0 <= i < n
        ensures RedisSays(calls, window, i).allowed
      {
        if i < n - 1 {
          assert calls[..i] == shorter[..i];
          assert RedisSays(shorter, window, i).allowed;
        }
      }
    }
  }
}
