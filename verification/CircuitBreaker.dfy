/** The circuit breaker. Its lock is released while the protected function runs, so
    the object is modelled by the three locked sections of a call, and the whole by
    arbitrary interleavings of those sections over a set of calls in flight. */
module CircuitBreaker {
  import opened Basics
  import opened Wrappers

  datatype State = Closed | Open | HalfOpen

  datatype Params = Params(failureThreshold: int, recoveryTimeout: real, halfOpenMaxCalls: int, successThreshold: int)

  datatype View = View(state: State, failureCount: int, successCount: int, halfOpenCalls: int,
                       lastFailure: Option<real>)

  const INITIAL: View := View(Closed, 0, 0, 0, None)

  predicate RecoveryDue(p: Params, v: View, now: real) {
    v.lastFailure.None? || now - v.lastFailure.value >= p.recoveryTimeout
  }

  datatype Entry = Entry(admitted: bool, view: View)

  function OnEnter(p: Params, v: View, now: real): Entry {
    if v.state.Open? && !RecoveryDue(p, v, now) then Entry(false, v)
    else
      var v' := if v.state.Open? then v.(state := HalfOpen, halfOpenCalls := 0, successCount := 0) else v;
      if v'.state.Closed? then Entry(true, v')
      else if v'.halfOpenCalls >= p.halfOpenMaxCalls then Entry(false, v')
      else Entry(true, v'.(halfOpenCalls := v'.halfOpenCalls + 1))
  }

  function OnSuccess(p: Params, v: View): View {
    if v.state.HalfOpen? then
      if v.successCount + 1 >= p.successThreshold then INITIAL
      else v.(successCount := v.successCount + 1)
    else v.(failureCount := Max(0, v.failureCount - 1))
  }

  function OnFailure(p: Params, v: View, now: real): View {
    var v' := v.(failureCount := v.failureCount + 1, lastFailure := Some(now));
    if v.state.HalfOpen? || v'.failureCount >= p.failureThreshold then v'.(state := Open) else v'
  }

  class Breaker {
    const params: Params
    var state: State
    var failureCount: int
    var successCount: int
    var halfOpenCalls: int
    var lastFailureTime: Option<real>

    ghost function AsView(): View
      reads this
    {
      View(state, failureCount, successCount, halfOpenCalls, lastFailureTime)
    }

    constructor (params: Params)
      ensures this.params == params && AsView() == INITIAL
    {
      this.params := params;
      state, failureCount, successCount, halfOpenCalls := Closed, 0, 0, 0;
      lastFailureTime := None;
    }

    /** The locked section before the protected function runs. */
    method Enter(now: real) returns (admitted: bool)
      modifies this
      ensures Entry(admitted, AsView()) == OnEnter(params, old(AsView()), now)
    {
      if state.Open? {
        if lastFailureTime.None? || now - lastFailureTime.value >= params.recoveryTimeout {
          state := HalfOpen;
          halfOpenCalls := 0;
          successCount := 0;
        } else {
          return false;
        }
      }
      if state.HalfOpen? {
        if halfOpenCalls >= params.halfOpenMaxCalls {
          return false;
        }
        halfOpenCalls := halfOpenCalls + 1;
      }
      return true;
    }

    method Succeeded()
      modifies this
      ensures AsView() == OnSuccess(params, old(AsView()))
    {
      if state.HalfOpen? {
        successCount := successCount + 1;
        if successCount >= params.successThreshold {
          Reset();
        }
      } else {
        failureCount := Max(0, failureCount - 1);
      }
    }

    method Failed(now: real)
      modifies this
      ensures AsView() == OnFailure(params, old(AsView()), now)
    {
      failureCount := failureCount + 1;
      lastFailureTime := Some(now);
      if state.HalfOpen? {
        state := Open;
      } else if failureCount >= params.failureThreshold {
        state := Open;
      }
    }

    method Reset()
      modifies this
      ensures AsView() == INITIAL
    {
      state := Closed;
      failureCount := 0;
      successCount := 0;
      halfOpenCalls := 0;
      lastFailureTime := None;
    }
  }

  // ---- interleavings ----

  /** A call enters, and later ends in success, in an expected exception, or in an
      exception that no handler of the breaker sees. */
  datatype Event =
    | Enter(id: nat, now: real)
    | Succeed(id: nat)
    | Fail(id: nat, now: real)
    | Escape(id: nat)

  /** The breaker with the calls in flight, each tagged with the half-open episode that
      admitted it (0 when it entered a closed breaker), and what has been observed:
      the tags of all admissions, the completions since the last reset and since the
      current episode began (true for a failure). */
  datatype System = System(view: View, inFlight: map<nat, nat>, episode: nat,
                           admissions: seq<nat>, sinceReset: seq<bool>, sinceEpisode: seq<bool>)

  const START: System := System(INITIAL, map[], 0, [], [], [])

  ghost function Completed(s: System, id: nat, failed: bool, view: View): System {
    s.(view := view, inFlight := s.inFlight - {id},
       sinceReset := if !s.view.state.Closed? && view.state.Closed? then [] else s.sinceReset + [failed],
       sinceEpisode := s.sinceEpisode + [failed])
  }

  ghost function Step(p: Params, s: System, e: Event): System {
    match e
    case Enter(id, now) =>
      if id in s.inFlight then s
      else
        var r := OnEnter(p, s.view, now);
        var entered := s.view.state.Open? && r.view.state.HalfOpen?;
        var s' := s.(view := r.view, episode := if entered then s.episode + 1 else s.episode,
                     sinceEpisode := if entered then [] else s.sinceEpisode);
        if r.admitted then
          var tag := if r.view.state.HalfOpen? then s'.episode else 0;
          s'.(inFlight := s'.inFlight[id := tag], admissions := s'.admissions + [tag])
        else s'
    case Succeed(id) =>
      if id in s.inFlight then Completed(s, id, false, OnSuccess(p, s.view)) else s
    case Fail(id, now) =>
      if id in s.inFlight then Completed(s, id, true, OnFailure(p, s.view, now)) else s
    case Escape(id) => s.(inFlight := s.inFlight - {id})
  }

  ghost function RunFrom(p: Params, s: System, events: seq<Event>): System
    decreases |events|
  {
    if events == [] then s else RunFrom(p, Step(p, s, events[0]), events[1..])
  }

  ghost function Run(p: Params, events: seq<Event>): System {
    RunFrom(p, START, events)
  }

  lemma {:induction false} RunAppend(p: Params, s: System, a: seq<Event>, b: seq<Event>)
    ensures RunFrom(p, s, a + b) == RunFrom(p, RunFrom(p, s, a), b)
    decreases |a|
  {
    if a == [] {
      assert a + b == b;
    } else {
      assert (a + b)[1..] == a[1..] + b;
      RunAppend(p, Step(p, s, a[0]), a[1..], b);
    }
  }

  // ---- the walk that opens the breaker ----

  /** Failures minus successes. */
  ghost function Excess(h: seq<bool>): int {
    if h == [] then 0 else Excess(h[..|h| - 1]) + (if h[|h| - 1] then 1 else -1)
  }

  ghost predicate IsMaxSuffixExcess(h: seq<bool>, x: int) {
    && (exists i :: 0 <= i <= |h| && Excess(h[i..]) == x)
    && (forall i :: 0 <= i <= |h| ==> Excess(h[i..]) <= x)
  }

  /** Some run of consecutive completions has that many more failures than successes. */
  ghost predicate Reaches(h: seq<bool>, threshold: int) {
    exists i, j :: 0 <= i <= j <= |h| && Excess(h[i..j]) >= threshold
  }

  lemma WalkStep(h: seq<bool>, failed: bool, x: int)
    requires IsMaxSuffixExcess(h, x)
    ensures IsMaxSuffixExcess(h + [failed], Max(0, x + (if failed then 1 else -1)))
  {
    var d := if failed then 1 else -1;
    var h' := h + [failed];
    forall i | 0 <= i <= |h|
      ensures Excess(h'[i..]) == Excess(h[i..]) + d
    {
      assert h'[i..][..|h'[i..]| - 1] == h[i..];
    }
    assert h'[|h'|..] == [] && Excess(h'[|h'|..]) == 0;
    if x + d >= 0 {
      var i :| 0 <= i <= |h| && Excess(h[i..]) == x;
      assert Excess(h'[i..]) == x + d;
    }
  }

  /** The last completion is what makes the walk reach the threshold. */
  lemma ReachesStep(h: seq<bool>, failed: bool, x: int, threshold: int)
    requires IsMaxSuffixExcess(h + [failed], x) && threshold >= 1
    ensures Reaches(h + [failed], threshold) <==> Reaches(h, threshold) || x >= threshold
  {
    var h' := h + [failed];
    if Reaches(h, threshold) {
      var i, j :| 0 <= i <= j <= |h| && Excess(h[i..j]) >= threshold;
      assert h'[i..j] == h[i..j];
    }
    if x >= threshold {
      var i :| 0 <= i <= |h'| && Excess(h'[i..]) == x;
      assert h'[i..|h'|] == h'[i..];
    }
    forall i | 0 <= i <= |h'|
      ensures Excess(h'[i..|h'|]) <= x
    {
      assert h'[i..|h'|] == h'[i..];
    }
    if Reaches(h', threshold) && x < threshold {
      var i, j :| 0 <= i <= j <= |h'| && Excess(h'[i..j]) >= threshold;
      assert j <= |h|;
      assert h'[i..j] == h[i..j];
    }
  }

  ghost predicate WalkInvariant(p: Params, s: System) {
    && (s.view.state.Closed? <==> !Reaches(s.sinceReset, p.failureThreshold))
    && (s.view.state.Closed? ==> IsMaxSuffixExcess(s.sinceReset, s.view.failureCount))
    && (s.view.state.Closed? ==> s.view.failureCount < p.failureThreshold)
  }

  lemma WalkInvariantStep(p: Params, s: System, e: Event)
    requires p.failureThreshold >= 1 && WalkInvariant(p, s)
    ensures WalkInvariant(p, Step(p, s, e))
  {
    if (e.Succeed? || e.Fail?) && e.id in s.inFlight {
      var h, failed := s.sinceReset, e.Fail?;
      if s.view.state.Closed? {
        WalkStep(h, failed, s.view.failureCount);
        assert s.view.failureCount >= 0 by {
          assert h[|h|..] == [] && Excess(h[|h|..]) == 0;
        }
        ReachesStep(h, failed, Max(0, s.view.failureCount + (if failed then 1 else -1)), p.failureThreshold);
      } else {
        EmptyWalk(p.failureThreshold);
        StillReaches(h, failed, p.failureThreshold);
      }
    }
  }

  lemma EmptyWalk(threshold: int)
    requires threshold >= 1
    ensures IsMaxSuffixExcess([], 0) && !Reaches([], threshold)
  {
    var none: seq<bool> := [];
    assert none[0..] == [] && Excess(none[0..]) == 0;
  }

  lemma StillReaches(h: seq<bool>, failed: bool, threshold: int)
    requires Reaches(h, threshold)
    ensures Reaches(h + [failed], threshold)
  {
    var i, j :| 0 <= i <= j <= |h| && Excess(h[i..j]) >= threshold;
    assert (h + [failed])[i..j] == h[i..j];
  }

  /** A reflected walk: over every interleaving, a closed breaker counts the largest
      excess of failures over successes among the suffixes of the completions since
      its last reset, and it is closed exactly as long as no run of consecutive
      completions since then reached the threshold. */
  lemma BreakerIsReflectedWalk(p: Params, events: seq<Event>)
    requires p.failureThreshold >= 1
    ensures WalkInvariant(p, Run(p, events))
  {
    EmptyWalk(p.failureThreshold);
    WalkInvariantRun(p, START, events);
  }

  /** That description fits exactly the breakers whose threshold is positive. */
  lemma ReflectedWalkIffPositive(p: Params)
    ensures (forall events :: WalkInvariant(p, Run(p, events))) <==> p.failureThreshold >= 1
  {
    if p.failureThreshold >= 1 {
      forall events
        ensures WalkInvariant(p, Run(p, events))
      {
        BreakerIsReflectedWalk(p, events);
      }
    } else {
      var none: seq<bool> := [];
      assert none[0..0] == [] && Excess(none[0..0]) == 0 && Reaches(none, p.failureThreshold);
      assert Run(p, []) == START;
      assert !WalkInvariant(p, Run(p, []));
    }
  }

  lemma {:induction false} WalkInvariantRun(p: Params, s: System, events: seq<Event>)
    requires p.failureThreshold >= 1 && WalkInvariant(p, s)
    ensures WalkInvariant(p, RunFrom(p, s, events))
    decreases |events|
  {
    if events != [] {
      WalkInvariantStep(p, s, events[0]);
      WalkInvariantRun(p, Step(p, s, events[0]), events[1..]);
    }
  }

  // ---- half-open episodes ----

  ghost function Probes(s: System): set<nat> {
    set id | id in s.inFlight && s.inFlight[id] == s.episode
  }

  ghost function CountTag(tags: seq<nat>, tag: nat): (n: nat)
    ensures n <= |tags|
  {
    if tags == [] then 0
    else CountTag(tags[..|tags| - 1], tag) + (if tags[|tags| - 1] == tag then 1 else 0)
  }

  /** The tags stem from episodes so far, none of which has more than `bound`. */
  ghost predicate TagsOk(tags: seq<nat>, episode: nat, bound: int) {
    && (forall i :: 0 <= i < |tags| ==> tags[i] <= episode)
    && (forall tag :: tag >= 1 ==> CountTag(tags, tag) <= bound)
  }

  ghost predicate EpisodeInvariant(p: Params, s: System) {
    && (forall id :: id in s.inFlight ==> s.inFlight[id] <= s.episode)
    && TagsOk(s.admissions, s.episode, Max(0, p.halfOpenMaxCalls))
    && (!s.view.state.Closed? ==> s.view.lastFailure.Some?)
    && (s.view.state.HalfOpen? ==>
         && s.episode >= 1
         && CountTag(s.admissions, s.episode) == s.view.halfOpenCalls
         && |s.sinceEpisode| == s.view.successCount
         && true !in s.sinceEpisode
         && s.view.successCount < Max(1, p.successThreshold))
  }

  lemma {:induction false} CountTagNew(tags: seq<nat>, tag: nat)
    requires forall i :: 0 <= i < |tags| ==> tags[i] < tag
    ensures CountTag(tags, tag) == 0
  {
    if tags != [] {
      CountTagNew(tags[..|tags| - 1], tag);
    }
  }

  lemma CountTagAppend(tags: seq<nat>, last: nat, tag: nat)
    ensures CountTag(tags + [last], tag) == CountTag(tags, tag) + (if last == tag then 1 else 0)
  {
    assert (tags + [last])[..|tags|] == tags;
  }

  /** An entry raises the count of its own tag only. */
  lemma TagCounts(tags: seq<nat>, last: nat, episode: nat, bound: int)
    requires TagsOk(tags, episode, bound) && last <= episode
    requires last >= 1 ==> CountTag(tags, last) < bound
    ensures TagsOk(tags + [last], episode, bound)
    ensures CountTag(tags + [last], last) == CountTag(tags, last) + 1
  {
    CountTagAppend(tags, last, last);
    forall t | t >= 1
      ensures CountTag(tags + [last], t) <= bound
    {
      CountTagAppend(tags, last, t);
    }
  }

  /** A new episode, and the one that also has its first entry. */
  ghost function NewEpisode(s: System): System {
    s.(view := s.view.(state := HalfOpen, halfOpenCalls := 0, successCount := 0),
       episode := s.episode + 1, sinceEpisode := [])
  }

  ghost function FirstEntry(s: System, id: nat): System {
    s.(view := s.view.(halfOpenCalls := 1), inFlight := s.inFlight[id := s.episode],
       admissions := s.admissions + [s.episode])
  }

  lemma NewEpisodeKeepsInvariant(p: Params, s: System)
    requires EpisodeInvariant(p, s) && s.view.state.Open?
    ensures EpisodeInvariant(p, NewEpisode(s))
  {
    CountTagNew(s.admissions, s.episode + 1);
  }

  lemma FirstEntryKeepsInvariant(p: Params, s: System, id: nat)
    requires EpisodeInvariant(p, s) && s.view.state.HalfOpen? && s.view.halfOpenCalls == 0 && p.halfOpenMaxCalls > 0
    ensures EpisodeInvariant(p, FirstEntry(s, id))
  {
    TagCounts(s.admissions, s.episode, s.episode, p.halfOpenMaxCalls);
  }

  /** Entering the current episode, or a closed breaker. */
  lemma EntryInEpisode(p: Params, s: System, id: nat, now: real)
    requires EpisodeInvariant(p, s) && id !in s.inFlight && !s.view.state.Open?
    ensures EpisodeInvariant(p, Step(p, s, Enter(id, now)))
  {
    if OnEnter(p, s.view, now).admitted {
      TagCounts(s.admissions, if s.view.state.HalfOpen? then s.episode else 0, s.episode, Max(0, p.halfOpenMaxCalls));
    }
  }

  lemma OpeningStep(p: Params, s: System, id: nat, now: real)
    requires id !in s.inFlight && s.view.state.Open?
    ensures Step(p, s, Event.Enter(id, now)) ==
      if !RecoveryDue(p, s.view, now) then s
      else if p.halfOpenMaxCalls > 0 then FirstEntry(NewEpisode(s), id)
      else NewEpisode(s)
  {
  }

  /** The first entry of a new episode. */
  lemma EntryOpensEpisode(p: Params, s: System, id: nat, now: real)
    requires EpisodeInvariant(p, s) && id !in s.inFlight && s.view.state.Open?
    ensures EpisodeInvariant(p, Step(p, s, Enter(id, now)))
  {
    if RecoveryDue(p, s.view, now) {
      NewEpisodeKeepsInvariant(p, s);
      if p.halfOpenMaxCalls > 0 {
        FirstEntryKeepsInvariant(p, NewEpisode(s), id);
      }
    }
    OpeningStep(p, s, id, now);
  }

  lemma EpisodeInvariantStep(p: Params, s: System, e: Event)
    requires EpisodeInvariant(p, s)
    ensures EpisodeInvariant(p, Step(p, s, e))
  {
    if e.Enter? && e.id !in s.inFlight {
      if s.view.state.Open? {
        EntryOpensEpisode(p, s, e.id, e.now);
      } else {
        EntryInEpisode(p, s, e.id, e.now);
      }
    }
  }

  lemma {:induction false} EpisodeInvariantRun(p: Params, s: System, events: seq<Event>)
    requires EpisodeInvariant(p, s)
    ensures EpisodeInvariant(p, RunFrom(p, s, events))
    decreases |events|
  {
    if events != [] {
      EpisodeInvariantStep(p, s, events[0]);
      EpisodeInvariantRun(p, Step(p, s, events[0]), events[1..]);
    }
  }

  /** Every half-open episode of every run admits at most its budget, and a breaker that
      is not closed has a recorded failure time. */
  lemma EpisodeBudget(p: Params, events: seq<Event>, episode: nat)
    requires episode >= 1
    ensures CountTag(Run(p, events).admissions, episode) <= Max(0, p.halfOpenMaxCalls)
    ensures !Run(p, events).view.state.Closed? ==> Run(p, events).view.lastFailure.Some?
  {
    EpisodeInvariantRun(p, START, events);
  }

  /** The breaker closes again exactly at a success in a half-open episode that has seen
      no failure and, with this one, the required number of successes; any failure of a
      call in flight ends the episode. */
  lemma ClosingIsEarned(p: Params, events: seq<Event>, e: Event)
    ensures
      var s, s' := Run(p, events), Run(p, events + [e]);
      !s.view.state.Closed? && s'.view.state.Closed? ==>
        && s.view.state.HalfOpen? && e.Succeed?
        && true !in s.sinceEpisode
        && |s.sinceEpisode| + 1 == Max(1, p.successThreshold)
        && s' == s.(view := INITIAL, inFlight := s.inFlight - {e.id}, sinceReset := [],
                    sinceEpisode := s.sinceEpisode + [false])
    ensures
      var s, s' := Run(p, events), Run(p, events + [e]);
      s.view.state.HalfOpen? && e.id in s.inFlight ==>
        && (e.Succeed? ==> (s'.view.state.Closed? <==> |s.sinceEpisode| + 1 == Max(1, p.successThreshold)))
        && (e.Fail? ==> s'.view.state.Open?)
  {
    EpisodeInvariantRun(p, START, events);
    RunAppend(p, START, events, [e]);
    assert RunFrom(p, Run(p, events), [e]) == Step(p, Run(p, events), e);
  }

  ghost predicate Within(e: Event, from: real, until: real) {
    e.Enter? || e.Fail? ==> from <= e.now < until
  }

  /** From a failure at `t` that leaves the breaker open, nothing is admitted before
      `t` plus the recovery timeout. */
  lemma {:induction false} OpenPeriod(p: Params, s: System, t: real, events: seq<Event>)
    requires s.view.state.Open? && s.view.lastFailure.Some? && s.view.lastFailure.value >= t
    requires forall i :: 0 <= i < |events| ==> Within(events[i], t, t + p.recoveryTimeout)
    ensures RunFrom(p, s, events).view.state.Open?
    ensures RunFrom(p, s, events).admissions == s.admissions
    ensures RunFrom(p, s, events).inFlight.Keys <= s.inFlight.Keys
    decreases |events|
  {
    if events != [] {
      assert Within(events[0], t, t + p.recoveryTimeout);
      var s' := Step(p, s, events[0]);
      if events[0].Fail? && events[0].id in s.inFlight {
        OpenStaysOpenOnFailure(p, s, events[0]);
      }
      OpenPeriod(p, s', t, events[1..]);
    }
  }

  lemma OpenStaysOpenOnFailure(p: Params, s: System, e: Event)
    requires s.view.state.Open? && e.Fail? && e.id in s.inFlight
    ensures Step(p, s, e).view.state.Open? && Step(p, s, e).view.lastFailure == Some(e.now)
  {
  }

  // ---- who is admitted ----

  ghost function FailedAt(s: System, e: Event): seq<real> {
    if e.Fail? && e.id in s.inFlight then [e.now] else []
  }

  /** The instants of the failures that calls in flight reported, along a run. */
  ghost function FailureTimes(p: Params, s: System, events: seq<Event>): seq<real>
    decreases |events|
  {
    if events == [] then [] else FailedAt(s, events[0]) + FailureTimes(p, Step(p, s, events[0]), events[1..])
  }

  /** What is recorded is the last of them; a breaker that is not closed has it recorded. */
  ghost predicate RecordsLast(v: View, failures: seq<real>) {
    && (!v.state.Closed? ==> v.lastFailure.Some?)
    && (v.lastFailure.Some? ==> failures != [] && failures[|failures| - 1] == v.lastFailure.value)
  }

  lemma RecordsLastStep(p: Params, s: System, e: Event, earlier: seq<real>)
    requires RecordsLast(s.view, earlier)
    ensures RecordsLast(Step(p, s, e).view, earlier + FailedAt(s, e))
  {
    assert FailedAt(s, e) == [] ==> earlier + FailedAt(s, e) == earlier;
  }

  lemma {:induction false} LastFailureIsRecorded(p: Params, s: System, events: seq<Event>, earlier: seq<real>)
    requires RecordsLast(s.view, earlier)
    ensures RecordsLast(RunFrom(p, s, events).view, earlier + FailureTimes(p, s, events))
    decreases |events|
  {
    if events == [] {
      assert earlier + FailureTimes(p, s, events) == earlier;
    } else {
      var one, rest := FailedAt(s, events[0]), FailureTimes(p, Step(p, s, events[0]), events[1..]);
      RecordsLastStep(p, s, events[0], earlier);
      LastFailureIsRecorded(p, Step(p, s, events[0]), events[1..], earlier + one);
      assert earlier + one + rest == earlier + (one + rest);
    }
  }

  /** Who is admitted, after every run: a closed breaker admits every call; an open one
      admits a call exactly from the recovery timeout after the last failure on, if it
      allows half-open calls at all, and is half open from then on; a half-open one
      admits exactly while the episode has admitted fewer calls than its budget. */
  lemma AdmittedExactly(p: Params, events: seq<Event>, id: nat, now: real)
    requires id !in Run(p, events).inFlight
    ensures
      var s, s', failures := Run(p, events), Run(p, events + [Event.Enter(id, now)]), FailureTimes(p, START, events);
      match s.view.state
      case Closed => id in s'.inFlight && s'.view == s.view
      case Open =>
        && failures != []
        && var due := now - failures[|failures| - 1] >= p.recoveryTimeout;
        && (id in s'.inFlight <==> due && p.halfOpenMaxCalls >= 1)
        && (s'.view.state.HalfOpen? <==> due)
      case HalfOpen =>
        && (id in s'.inFlight <==> CountTag(s.admissions, s.episode) < p.halfOpenMaxCalls)
        && s'.view.state.HalfOpen?
  {
    LastFailureIsRecorded(p, START, events, []);
    assert [] + FailureTimes(p, START, events) == FailureTimes(p, START, events);
    EpisodeInvariantRun(p, START, events);
    RunAppend(p, START, events, [Event.Enter(id, now)]);
    assert RunFrom(p, Run(p, events), [Event.Enter(id, now)]) == Step(p, Run(p, events), Event.Enter(id, now));
  }

  // ---- never wedged ----

  /** Half open, with the budget spent and no probe left to report back. */
  ghost predicate Wedged(p: Params, s: System) {
    s.view.state.HalfOpen? && s.view.halfOpenCalls >= p.halfOpenMaxCalls && Probes(s) == {}
  }

  ghost predicate AllHandled(events: seq<Event>) {
    forall i :: 0 <= i < |events| ==> !events[i].Escape?
  }

  /** The episode of a call whose exception no handler sees. */
  ghost function Escaped(s: System, e: Event): seq<nat> {
    if e.Escape? && e.id in s.inFlight then [s.inFlight[e.id]] else []
  }

  /** The episodes of all such calls along a run. */
  ghost function Escapes(p: Params, s: System, events: seq<Event>): seq<nat>
    decreases |events|
  {
    if events == [] then [] else Escaped(s, events[0]) + Escapes(p, Step(p, s, events[0]), events[1..])
  }

  lemma {:induction false} HandledDoNotEscape(p: Params, s: System, events: seq<Event>)
    requires AllHandled(events)
    ensures Escapes(p, s, events) == []
    decreases |events|
  {
    if events != [] {
      assert !events[0].Escape?;
      assert forall i :: 0 <= i < |events[1..]| ==> events[1..][i] == events[i + 1];
      HandledDoNotEscape(p, Step(p, s, events[0]), events[1..]);
    }
  }

  lemma {:induction false} EscapesAppend(p: Params, s: System, a: seq<Event>, b: seq<Event>)
    ensures Escapes(p, s, a + b) == Escapes(p, s, a) + Escapes(p, RunFrom(p, s, a), b)
    decreases |a|
  {
    if a == [] {
      assert a + b == b;
    } else {
      assert (a + b)[1..] == a[1..] + b;
      EscapesAppend(p, Step(p, s, a[0]), a[1..], b);
    }
  }

  /** Every spent unit of budget is a success counted, a probe still out, or a probe of
      this episode that escaped. */
  ghost predicate BudgetInvariant(s: System, escapes: seq<nat>) {
    s.view.state.HalfOpen? ==> s.view.halfOpenCalls <= s.view.successCount + |Probes(s)| + CountTag(escapes, s.episode)
  }

  lemma EnteringKeepsBudget(p: Params, s: System, id: nat, now: real, escapes: seq<nat>)
    requires EpisodeInvariant(p, s) && BudgetInvariant(s, escapes) && id !in s.inFlight
    ensures BudgetInvariant(Step(p, s, Event.Enter(id, now)), escapes)
  {
    var s' := Step(p, s, Event.Enter(id, now));
    if s.view.state.HalfOpen? {
      if OnEnter(p, s.view, now).admitted {
        assert Probes(s') == Probes(s) + {id};
      } else {
        assert s' == s;
      }
    } else if s.view.state.Open? && OnEnter(p, s.view, now).admitted {
      assert id in Probes(s');
      assert Probes(s') == Probes(s') - {id} + {id};
    }
  }

  lemma SuccessKeepsBudget(p: Params, s: System, id: nat, escapes: seq<nat>)
    requires BudgetInvariant(s, escapes) && id in s.inFlight
    ensures BudgetInvariant(Step(p, s, Succeed(id)), escapes)
  {
    var s' := Step(p, s, Succeed(id));
    if s'.view.state.HalfOpen? {
      assert Probes(s') == Probes(s) - {id};
    }
  }

  lemma EscapeKeepsBudget(p: Params, s: System, id: nat, escapes: seq<nat>)
    requires BudgetInvariant(s, escapes)
    ensures BudgetInvariant(Step(p, s, Escape(id)), escapes + Escaped(s, Escape(id)))
  {
    var s' := Step(p, s, Escape(id));
    if id in s.inFlight {
      CountTagAppend(escapes, s.inFlight[id], s.episode);
      assert Probes(s') == Probes(s) - {id};
    } else {
      assert escapes + Escaped(s, Escape(id)) == escapes && s'.inFlight == s.inFlight;
    }
  }

  lemma BudgetInvariantStep(p: Params, s: System, e: Event, escapes: seq<nat>)
    requires EpisodeInvariant(p, s) && BudgetInvariant(s, escapes)
    ensures BudgetInvariant(Step(p, s, e), escapes + Escaped(s, e))
  {
    assert !e.Escape? ==> escapes + Escaped(s, e) == escapes;
    match e
    case Enter(id, now) =>
      if id !in s.inFlight {
        EnteringKeepsBudget(p, s, id, now, escapes);
      }
    case Succeed(id) =>
      if id in s.inFlight {
        SuccessKeepsBudget(p, s, id, escapes);
      }
    case Fail(id, now) =>
    case Escape(id) => EscapeKeepsBudget(p, s, id, escapes);
  }

  lemma {:induction false} BudgetInvariantRun(p: Params, s: System, events: seq<Event>, escapes: seq<nat>)
    requires EpisodeInvariant(p, s) && BudgetInvariant(s, escapes)
    ensures BudgetInvariant(RunFrom(p, s, events), escapes + Escapes(p, s, events))
    decreases |events|
  {
    if events == [] {
      assert escapes + Escapes(p, s, events) == escapes;
    } else {
      var e, rest := events[0], Escapes(p, Step(p, s, events[0]), events[1..]);
      BudgetInvariantStep(p, s, e, escapes);
      EpisodeInvariantStep(p, s, e);
      BudgetInvariantRun(p, Step(p, s, e), events[1..], escapes + Escaped(s, e));
      assert escapes + Escaped(s, e) + rest == escapes + (Escaped(s, e) + rest);
    }
  }

  /** No half-open episode of the run loses more than `k` probes to escapes. */
  ghost predicate AtMostEscapes(p: Params, events: seq<Event>, k: nat) {
    forall episode :: episode >= 1 ==> CountTag(Escapes(p, START, events), episode) <= k
  }

  ghost predicate NeverWedgedByEscapes(p: Params, k: nat) {
    forall events :: AtMostEscapes(p, events, k) ==> !Wedged(p, Run(p, events))
  }

  ghost predicate NeverWedged(p: Params) {
    forall events :: AllHandled(events) ==> !Wedged(p, Run(p, events))
  }

  /** The budget covers the successes needed to close, and `k` probes besides. */
  ghost predicate BudgetCovers(p: Params, k: nat) {
    p.halfOpenMaxCalls >= Max(1, p.successThreshold) + k
  }

  lemma CoveredIsNotWedged(p: Params, events: seq<Event>, k: nat)
    requires BudgetCovers(p, k) && AtMostEscapes(p, events, k)
    ensures !Wedged(p, Run(p, events))
  {
    EpisodeInvariantRun(p, START, events);
    BudgetInvariantRun(p, START, events, []);
    assert [] + Escapes(p, START, events) == Escapes(p, START, events);
  }

  /** With at most `k` uncaught exceptions among the probes of each half-open episode,
      the breaker can never get stuck half open exactly when its budget covers the
      successes it needs and `k` calls besides. */
  lemma NeverWedgedIffBudgetCoversEscapes(p: Params, k: nat)
    ensures NeverWedgedByEscapes(p, k) <==> BudgetCovers(p, k)
  {
    if BudgetCovers(p, k) {
      forall events | AtMostEscapes(p, events, k)
        ensures !Wedged(p, Run(p, events))
      {
        CoveredIsNotWedged(p, events, k);
      }
    } else {
      var events := WedgingRun(p, k);
    }
  }

  /** When every call ends in success or an expected exception, it is the budget for the
      successes alone. */
  lemma NeverWedgedIffBudgetSuffices(p: Params)
    ensures NeverWedged(p) <==> p.halfOpenMaxCalls >= Max(1, p.successThreshold)
  {
    if BudgetCovers(p, 0) {
      forall events | AllHandled(events)
        ensures !Wedged(p, Run(p, events))
      {
        HandledDoNotEscape(p, START, events);
        CoveredIsNotWedged(p, events, 0);
      }
    } else {
      var events := WedgingRun(p, 0);
    }
  }

  /** Whatever the parameters, some run with escapes wedges the breaker. */
  lemma EscapesWedge(p: Params)
    ensures exists events :: Wedged(p, Run(p, events)) && Run(p, events).inFlight == map[]
  {
    var events := WedgingRun(p, Max(0, p.halfOpenMaxCalls));
  }

  /** Once wedged with nothing in flight, no later event admits a call or changes the
      state: the breaker is stuck for good. */
  lemma {:induction false} WedgedForever(p: Params, s: System, events: seq<Event>)
    requires Wedged(p, s) && s.inFlight == map[]
    ensures RunFrom(p, s, events) == s
    decreases |events|
  {
    if events != [] {
      assert s.inFlight - {events[0].id} == s.inFlight;
      WedgedForever(p, s, events[1..]);
    }
  }

  // ---- the wedging run: fail until open, wait, spend the budget ----

  lemma WedgingRun(p: Params, k: nat) returns (events: seq<Event>)
    requires !BudgetCovers(p, k)
    ensures Wedged(p, Run(p, events)) && Run(p, events).inFlight == map[]
    ensures AtMostEscapes(p, events, k) && (k == 0 ==> AllHandled(events))
  {
    var opening := FailUntilOpen(p, START);
    var s := Run(p, opening);
    var now := if p.recoveryTimeout > 0.0 then p.recoveryTimeout else 0.0;
    var spending := SpendBudget(p, s, now, k);
    events := opening + spending;
    RunAppend(p, START, opening, spending);
    EscapesAppend(p, START, opening, spending);
    HandledDoNotEscape(p, START, opening);
  }

  lemma TwoSteps(p: Params, s: System, a: Event, b: Event, rest: seq<Event>)
    ensures RunFrom(p, s, [a, b] + rest) == RunFrom(p, Step(p, Step(p, s, a), b), rest)
    ensures Escapes(p, s, [a, b] + rest)
         == Escaped(s, a) + (Escaped(Step(p, s, a), b) + Escapes(p, Step(p, Step(p, s, a), b), rest))
  {
    assert ([a, b] + rest)[1..] == [b] + rest;
    assert ([b] + rest)[1..] == rest;
  }

  lemma {:induction false} FailUntilOpen(p: Params, s: System) returns (events: seq<Event>)
    requires s.view.state.Closed? && s.inFlight == map[]
    ensures
      var s' := RunFrom(p, s, events);
      s'.view.state.Open? && s'.view.lastFailure == Some(0.0) && s'.inFlight == map[]
    ensures AllHandled(events)
    decreases p.failureThreshold - s.view.failureCount
  {
    var a, b := Event.Enter(0, 0.0), Fail(0, 0.0);
    var s' := Step(p, Step(p, s, a), b);
    var rest := [];
    if s'.view.state.Closed? {
      rest := FailUntilOpen(p, s');
    }
    events := [a, b] + rest;
    TwoSteps(p, s, a, b, rest);
  }

  /** The successes counted and the budget left once an entry has been tried. */
  ghost function Counted(s: System): int {
    if s.view.state.Open? then 0 else s.view.successCount
  }

  ghost function Remaining(p: Params, s: System): int {
    if s.view.state.Open? then p.halfOpenMaxCalls else p.halfOpenMaxCalls - s.view.halfOpenCalls
  }

  /** Ready to spend the rest of the budget on `k` escapes and then on successes too few
      to close the breaker. */
  ghost predicate Spendable(p: Params, s: System, now: real, k: nat) {
    && s.inFlight == map[]
    && (s.view.state.HalfOpen? || (s.view.state.Open? && RecoveryDue(p, s.view, now)))
    && 0 <= Counted(s) < Max(1, p.successThreshold) && Counted(s) + Remaining(p, s) < Max(1, p.successThreshold) + k
  }

  /** One more call through the half-open breaker. */
  lemma SpendOne(p: Params, s: System, now: real, k: nat) returns (end: Event)
    requires Spendable(p, s, now, k) && Remaining(p, s) > 0
    ensures end == if k > 0 then Escape(0) else Succeed(0)
    ensures
      var entered := Step(p, s, Event.Enter(0, now));
      var s' := Step(p, entered, end);
      && Spendable(p, s', now, if k > 0 then k - 1 else 0) && s'.view.state.HalfOpen?
      && Remaining(p, s') == Remaining(p, s) - 1
      && |Escaped(entered, end)| == if k > 0 then 1 else 0
  {
    end := if k > 0 then Escape(0) else Succeed(0);
    assert s.inFlight[0 := 0] - {0} == map[];
  }

  lemma {:induction false} SpendBudget(p: Params, s: System, now: real, k: nat) returns (events: seq<Event>)
    requires Spendable(p, s, now, k)
    ensures Wedged(p, RunFrom(p, s, events)) && RunFrom(p, s, events).inFlight == map[]
    ensures |Escapes(p, s, events)| <= k && (k == 0 ==> AllHandled(events))
    decreases Max(0, Remaining(p, s)), if s.view.state.Open? then 1 else 0
  {
    var enter := Event.Enter(0, now);
    if Remaining(p, s) > 0 {
      var end := SpendOne(p, s, now, k);
      var s' := Step(p, Step(p, s, enter), end);
      var rest := SpendBudget(p, s', now, if k > 0 then k - 1 else 0);
      events := [enter, end] + rest;
      TwoSteps(p, s, enter, end, rest);
    } else if s.view.state.Open? {
      events := [enter];
      assert RunFrom(p, s, events) == Step(p, s, enter);
    } else {
      events := [];
    }
  }
}
