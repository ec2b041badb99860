/** When the registry of jobs is right: a job must belong to an enabled configuration below
    its maximum, or something under way must be about to make that so or drop the job. */
module SchedulerRegistry {
  import opened SchedulerFailures
  import opened Wrappers

  predicate GoodIn(configs: map<string, Config>, id: string) {
    id in configs && Good(configs[id])
  }

  /** Every registered job belongs to an enabled configuration below its maximum. */
  ghost predicate Healthy(s: System) {
    forall id :: id in s.jobs ==> GoodIn(s.configs, id)
  }

  /** A run that exhausted the configuration is about to drop its job. */
  ghost predicate Owed(executing: map<string, Execution>, id: string) {
    exists r :: r in executing && executing[r] == Execution(id, Dropping)
  }

  /** An open request whose commit would make, or leave, the configuration good. */
  ghost predicate Promised(configs: map<string, Config>, requests: map<nat, Request>, id: string) {
    exists q :: q in requests && requests[q].id == id && GoodIn(Outcome(configs, requests[q]), id)
  }

  ghost predicate Covered(configs: map<string, Config>, executing: map<string, Execution>, requests: map<nat, Request>,
                          id: string)
  {
    GoodIn(configs, id) || Owed(executing, id) || Promised(configs, requests, id)
  }

  ghost predicate Sound(s: System) {
    forall id :: id in s.jobs ==> Covered(s.configs, s.executing, s.requests, id)
  }

  /** No request is open and no run has its job still to drop. */
  ghost predicate AtRest(s: System) {
    s.requests == map[] && forall r :: r in s.executing ==> !s.executing[r].phase.Dropping?
  }

  lemma SoundAtRestIsHealthy(s: System)
    requires AtRest(s)
    ensures Sound(s) <==> Healthy(s)
  {
    forall id
      ensures Covered(s.configs, s.executing, s.requests, id) <==> GoodIn(s.configs, id)
    {
    }
  }

  // ---- the steps that spoil it ----

  /** The request enters the job. */
  predicate Enters(r: Request, now: real) {
    match r.op
    case Creating(_) => Schedulable(Wanted(r.op, r.loaded), now)
    case Updating(patch) => TouchesSchedule(patch) && Schedulable(Wanted(r.op, r.loaded), now)
    case Toggling(on) => on && Schedulable(Wanted(r.op, r.loaded), now)
    case _ => false
  }

  /** The stored configuration once the run's outcome is written. */
  function Counted(stored: Config, x: Execution): Config
    requires Recording(x)
  {
    stored.(failures := Kept(stored.failures, x.phase.loaded.failures, NewCount(x)))
  }

  /** A job is entered from what was read earlier, though by now nothing stored or pending
      wants it. */
  ghost predicate EntersLate(s: System, e: Event) {
    match e
    case Register(q, now) =>
      && q in s.requests && !s.requests[q].registered && Enters(s.requests[q], now)
      && !Covered(s.configs, s.executing, s.requests, s.requests[q].id)
    case Reschedule(run, now) =>
      && run in s.executing && s.executing[run].phase.Rescheduling? && Schedulable(s.executing[run].phase.loaded, now)
      && !Covered(s.configs, s.executing, s.requests, s.executing[run].id)
    case _ => false
  }

  /** A request that disables, deletes or exhausts commits while the job is entered, or the
      last one that would have made it right fails. */
  ghost predicate LeavesJob(s: System, e: Event) {
    match e
    case Commit(q) =>
      && q in s.requests && s.requests[q].registered && s.requests[q].id in s.jobs
      && !Covered(Outcome(s.configs, s.requests[q]), s.executing, s.requests - {q}, s.requests[q].id)
    case Rollback(q) =>
      && q in s.requests && s.requests[q].id in s.jobs
      && !Covered(s.configs, s.executing, s.requests - {q}, s.requests[q].id)
    case _ => false
  }

  /** A run writes a count at or above the stored maximum without reaching the one it has
      read, or dies before it drops the job. */
  ghost predicate LeavesExhausted(s: System, e: Event) {
    match e
    case Record(run) =>
      && run in s.executing && Recording(s.executing[run]) && run in s.runs && s.executing[run].id in s.configs
      && NewCount(s.executing[run]) < s.executing[run].phase.loaded.maxFailures && s.executing[run].id in s.jobs
      && var id := s.executing[run].id;
      && !Covered(s.configs[id := Counted(s.configs[id], s.executing[run])], s.executing, s.requests, id)
    case Die(run) =>
      && run in s.executing && s.executing[run].phase.Dropping? && s.executing[run].id in s.jobs
      && !Covered(s.configs, s.executing - {run}, s.requests, s.executing[run].id)
    case _ => false
  }

  ghost predicate Spoils(s: System, e: Event) {
    EntersLate(s, e) || LeavesJob(s, e) || LeavesExhausted(s, e)
  }

  // ---- who is affected ----

  /** What is stored and under way is the same as far as `id` goes. */
  ghost predicate SameFor(s: System, t: System, id: string) {
    && (id in s.configs <==> id in t.configs) && (id in s.configs ==> s.configs[id] == t.configs[id])
    && (forall r :: r in s.executing && s.executing[r] == Execution(id, Dropping)
          <==> r in t.executing && t.executing[r] == Execution(id, Dropping))
    && (forall q :: q in s.requests && s.requests[q].id == id ==>
          q in t.requests && t.requests[q].(registered := true) == s.requests[q].(registered := true))
    && (forall q :: q in t.requests && t.requests[q].id == id ==> q in s.requests && s.requests[q].id == id)
  }

  lemma OutcomeIsLocal(configs: map<string, Config>, configs': map<string, Config>, r: Request, r': Request)
    requires r.id in configs <==> r.id in configs'
    requires r.id in configs ==> configs[r.id] == configs'[r.id]
    requires r'.(registered := true) == r.(registered := true)
    ensures GoodIn(Outcome(configs, r), r.id) <==> GoodIn(Outcome(configs', r'), r.id)
  {
  }

  lemma SamePromised(s: System, t: System, id: string)
    requires SameFor(s, t, id) && Promised(s.configs, s.requests, id)
    ensures Promised(t.configs, t.requests, id)
  {
    var q :| q in s.requests && s.requests[q].id == id && GoodIn(Outcome(s.configs, s.requests[q]), id);
    OutcomeIsLocal(s.configs, t.configs, s.requests[q], t.requests[q]);
    assert q in t.requests && t.requests[q].id == id;
  }

  lemma SameForBack(s: System, t: System, id: string)
    requires SameFor(s, t, id)
    ensures SameFor(t, s, id)
  {
    forall q | q in t.requests && t.requests[q].id == id
      ensures q in s.requests && s.requests[q].(registered := true) == t.requests[q].(registered := true)
    {
      assert q in s.requests && s.requests[q].id == id;
    }
  }

  lemma SameCover(s: System, t: System, id: string)
    requires SameFor(s, t, id)
    ensures Covered(s.configs, s.executing, s.requests, id) <==> Covered(t.configs, t.executing, t.requests, id)
  {
    SameForBack(s, t, id);
    if Promised(s.configs, s.requests, id) {
      SamePromised(s, t, id);
    }
    if Promised(t.configs, t.requests, id) {
      SamePromised(t, s, id);
    }
    if Owed(s.executing, id) {
      var r :| r in s.executing && s.executing[r] == Execution(id, Dropping);
      assert r in t.executing && t.executing[r] == Execution(id, Dropping);
    }
    if Owed(t.executing, id) {
      var r :| r in t.executing && t.executing[r] == Execution(id, Dropping);
      assert r in s.executing && s.executing[r] == Execution(id, Dropping);
    }
  }

  /** The configuration that a step is about, if any. */
  function About(s: System, e: Event): Option<string> {
    match e
    case Register(q, _) => if q in s.requests then Some(s.requests[q].id) else None
    case Commit(q) => if q in s.requests then Some(s.requests[q].id) else None
    case Rollback(q) => if q in s.requests then Some(s.requests[q].id) else None
    case Record(run) => if run in s.executing then Some(s.executing[run].id) else None
    case Die(run) => if run in s.executing then Some(s.executing[run].id) else None
    case Drop(run) => if run in s.executing then Some(s.executing[run].id) else None
    case Reschedule(run, _) => if run in s.executing then Some(s.executing[run].id) else None
    case Ask(_, id, _) => Some(id)
    case _ => None
  }

  lemma CommitElsewhere(s: System, e: Event, id: string)
    requires e.Commit? && About(s, e) != Some(id)
    ensures SameFor(s, Step(s, e), id) && Step(s, e).jobs == s.jobs
  {
    if e.q in s.requests && s.requests[e.q].registered {
      CommitOutcome(s, e.q);
    }
  }

  lemma RegisterElsewhere(s: System, e: Event, id: string)
    requires e.Register? && About(s, e) != Some(id)
    ensures SameFor(s, Step(s, e), id)
    ensures id in Step(s, e).jobs ==> id in s.jobs
  {
  }

  lemma RequestsElsewhere(s: System, e: Event, id: string)
    requires (e.Ask? || e.Register? || e.Commit? || e.Rollback?) && About(s, e) != Some(id)
    ensures SameFor(s, Step(s, e), id)
    ensures id in Step(s, e).jobs ==> id in s.jobs
  {
    if e.Commit? {
      CommitElsewhere(s, e, id);
    } else if e.Register? {
      RegisterElsewhere(s, e, id);
    }
  }

  lemma ReadsElsewhere(s: System, e: Event, id: string)
    requires e.Finish? || e.Crash?
    ensures SameFor(s, Step(s, e), id) && Step(s, e).jobs == s.jobs
  {
  }

  lemma RereadElsewhere(s: System, e: Event, id: string)
    requires e.Reread?
    ensures SameFor(s, Step(s, e), id) && Step(s, e).jobs == s.jobs
  {
  }

  lemma RecordElsewhere(s: System, e: Event, id: string)
    requires e.Record? && About(s, e) != Some(id)
    ensures SameFor(s, Step(s, e), id) && Step(s, e).jobs == s.jobs
  {
  }

  lemma LeavesElsewhere(s: System, e: Event, id: string)
    requires (e.Drop? || e.Reschedule? || e.Die?) && About(s, e) != Some(id)
    ensures SameFor(s, Step(s, e), id)
    ensures id in Step(s, e).jobs ==> id in s.jobs
  {
  }

  lemma OthersElsewhere(s: System, e: Event, id: string)
    requires e.Begin? || e.Trigger? || e.Abandon? || e.Elapsed?
    ensures SameFor(s, Step(s, e), id)
    ensures id in Step(s, e).jobs ==> id in s.jobs
  {
  }

  lemma RunsElsewhere(s: System, e: Event, id: string)
    requires !e.Ask? && !e.Register? && !e.Commit? && !e.Rollback? && About(s, e) != Some(id)
    ensures SameFor(s, Step(s, e), id)
    ensures id in Step(s, e).jobs ==> id in s.jobs
  {
    if e.Finish? || e.Crash? {
      ReadsElsewhere(s, e, id);
    } else if e.Reread? {
      RereadElsewhere(s, e, id);
    } else if e.Record? {
      RecordElsewhere(s, e, id);
    } else if e.Drop? || e.Reschedule? || e.Die? {
      LeavesElsewhere(s, e, id);
    } else {
      OthersElsewhere(s, e, id);
    }
  }

  lemma Elsewhere(s: System, e: Event, id: string)
    requires Sound(s) && About(s, e) != Some(id) && id in Step(s, e).jobs
    ensures Covered(Step(s, e).configs, Step(s, e).executing, Step(s, e).requests, id)
  {
    if e.Ask? || e.Register? || e.Commit? || e.Rollback? {
      RequestsElsewhere(s, e, id);
    } else {
      RunsElsewhere(s, e, id);
    }
    SameCover(s, Step(s, e), id);
  }

  ghost predicate CoveredIn(s: System, id: string) {
    Covered(s.configs, s.executing, s.requests, id)
  }

  // ---- what each step does to its own configuration ----

  lemma AskHere(s: System, e: Event)
    requires e.Ask? && CoveredIn(s, e.id)
    ensures CoveredIn(Step(s, e), e.id)
  {
    if Promised(s.configs, s.requests, e.id) {
      var q :| q in s.requests && s.requests[q].id == e.id && GoodIn(Outcome(s.configs, s.requests[q]), e.id);
      assert q in Step(s, e).requests && Step(s, e).requests[q] == s.requests[q];
    }
  }

  lemma RegisterHere(s: System, e: Event)
    requires e.Register? && e.q in s.requests
    ensures
      var id := s.requests[e.q].id;
      CoveredIn(Step(s, e), id) <==> CoveredIn(s, id)
    ensures
      var r := s.requests[e.q];
      !r.registered && Enters(r, e.now) ==> r.id in Step(s, e).jobs
    ensures
      var r := s.requests[e.q];
      r.id in Step(s, e).jobs && r.id !in s.jobs ==> !r.registered && Enters(r, e.now)
  {
    SameCover(s, Step(s, e), s.requests[e.q].id);
  }

  lemma RescheduleHere(s: System, e: Event)
    requires e.Reschedule? && e.run in s.executing && s.executing[e.run].phase.Rescheduling?
    ensures
      var x := s.executing[e.run];
      && (CoveredIn(Step(s, e), x.id) <==> CoveredIn(s, x.id))
      && (x.id in Step(s, e).jobs <==> Schedulable(x.phase.loaded, e.now))
  {
    SameCover(s, Step(s, e), s.executing[e.run].id);
  }

  lemma CommitHere(s: System, e: Event)
    requires e.Commit? && e.q in s.requests && s.requests[e.q].registered
    ensures
      var r := s.requests[e.q];
      && (CoveredIn(Step(s, e), r.id) <==> Covered(Outcome(s.configs, r), s.executing, s.requests - {e.q}, r.id))
      && Step(s, e).jobs == s.jobs
  {
    CommitOutcome(s, e.q);
  }

  /** Who owes a drop after the run's outcome is written. */
  lemma RecordOwes(s: System, e: Event)
    requires e.Record? && e.run in s.executing && Recording(s.executing[e.run])
    ensures
      var x := s.executing[e.run];
      var writes := e.run in s.runs && x.id in s.configs;
      Owed(Step(s, e).executing, x.id) <==>
        Owed(s.executing, x.id) || (writes && NewCount(x) >= x.phase.loaded.maxFailures)
  {
    var x, t := s.executing[e.run], Step(s, e).executing;
    if Owed(s.executing, x.id) {
      var r :| r in s.executing && s.executing[r] == Execution(x.id, Dropping);
      assert r in t && t[r] == Execution(x.id, Dropping);
    }
    if e.run in s.runs && x.id in s.configs && NewCount(x) >= x.phase.loaded.maxFailures {
      assert t[e.run] == Execution(x.id, Dropping);
    }
    if Owed(t, x.id) {
      var r :| r in t && t[r] == Execution(x.id, Dropping);
      assert r == e.run || (r in s.executing && s.executing[r] == Execution(x.id, Dropping));
    }
  }

  lemma RecordHere(s: System, e: Event)
    requires e.Record? && e.run in s.executing && Recording(s.executing[e.run])
    ensures
      var x := s.executing[e.run];
      && Step(s, e).jobs == s.jobs && Step(s, e).requests == s.requests
      && Step(s, e).configs == if e.run in s.runs && x.id in s.configs
                               then s.configs[x.id := Counted(s.configs[x.id], x)]
                               else s.configs
  {
  }

  // ---- one step ----

  /** A sound registry stays sound at a step exactly if the step does not spoil it. */
  lemma HealthStep(s: System, e: Event)
    requires Sound(s)
    ensures Sound(Step(s, e)) <==> !Spoils(s, e)
  {
    HereDecides(s, e);
    if About(s, e).Some? {
      HereIsExact(s, e, About(s, e).value);
    }
  }

  lemma HereDecides(s: System, e: Event)
    requires Sound(s)
    ensures
      var id := About(s, e);
      Sound(Step(s, e)) <==> (id.Some? && id.value in Step(s, e).jobs ==> CoveredIn(Step(s, e), id.value))
  {
    var s' := Step(s, e);
    forall id | id in s'.jobs && About(s, e) != Some(id)
      ensures Covered(s'.configs, s'.executing, s'.requests, id)
    {
      Elsewhere(s, e, id);
    }
    var id := About(s, e);
    if Sound(s') && id.Some? && id.value in s'.jobs {
      assert Covered(s'.configs, s'.executing, s'.requests, id.value);
    }
  }

  lemma HereIsExact(s: System, e: Event, id: string)
    requires Sound(s) && About(s, e) == Some(id)
    ensures (id in Step(s, e).jobs ==> CoveredIn(Step(s, e), id)) <==> !Spoils(s, e)
  {
    assert id in s.jobs ==> CoveredIn(s, id);
    match e
    case Ask(_, _, _) =>
      if CoveredIn(s, id) {
        AskHere(s, e);
      }
    case Register(_, _) => RegisterHere(s, e);
    case Commit(q) =>
      if s.requests[q].registered {
        CommitHere(s, e);
      }
    case Rollback(_) =>
    case Record(run) =>
      if Recording(s.executing[run]) {
        RecordHere(s, e);
        RecordOwes(s, e);
      }
    case Die(run) =>
      if !s.executing[run].phase.Dropping? {
        DieHere(s, e);
      }
    case Drop(_) =>
    case Reschedule(run, _) =>
      if s.executing[run].phase.Rescheduling? {
        RescheduleHere(s, e);
      }
  }

  lemma DieHere(s: System, e: Event)
    requires e.Die? && e.run in s.executing && !s.executing[e.run].phase.Dropping?
    ensures CoveredIn(Step(s, e), s.executing[e.run].id) <==> CoveredIn(s, s.executing[e.run].id)
  {
    SameCover(s, Step(s, e), s.executing[e.run].id);
  }

  /** Nothing else is under way on the configuration that could cover its job. */
  ghost predicate Alone(s: System, e: Event, id: string) {
    && About(s, e) == Some(id)
    && (forall q :: q in s.requests && s.requests[q].id == id ==> (e.Register? || e.Commit? || e.Rollback?) && e.q == q)
    && (forall r :: r in s.executing && s.executing[r] == Execution(id, Dropping) ==> e.Die? && e.run == r)
  }

  /** With nothing else under way on the configuration these are the steps that spoil the
      registry: an entry from a configuration that is not good any more and that the entry's
      own request will not make good; a commit that leaves a registered one not good; a
      rollback that leaves it so; a count at the stored maximum but below the one read; a
      death before the drop. */
  lemma SpoilingAlone(s: System, e: Event, id: string)
    requires Alone(s, e, id)
    ensures Spoils(s, e) <==>
      match e
      case Register(q, now) =>
        && !s.requests[q].registered && Enters(s.requests[q], now)
        && !GoodIn(s.configs, id) && !GoodIn(Outcome(s.configs, s.requests[q]), id)
      case Reschedule(run, now) =>
        && s.executing[run].phase.Rescheduling? && Schedulable(s.executing[run].phase.loaded, now)
        && !GoodIn(s.configs, id)
      case Commit(q) => s.requests[q].registered && id in s.jobs && !GoodIn(Outcome(s.configs, s.requests[q]), id)
      case Rollback(q) => id in s.jobs && !GoodIn(s.configs, id)
      case Record(run) =>
        && Recording(s.executing[run]) && run in s.runs && id in s.configs && id in s.jobs
        && NewCount(s.executing[run]) < s.executing[run].phase.loaded.maxFailures
        && !Good(Counted(s.configs[id], s.executing[run]))
      case Die(run) => s.executing[run].phase.Dropping? && id in s.jobs && !GoodIn(s.configs, id)
      case _ => false
  {
    if e.Register? {
      assert e.q in s.requests && s.requests[e.q].id == id;
    }
  }

  /** An entry from a configuration that is still as it was read never spoils it. */
  lemma FreshEntryIsFine(s: System, e: Event)
    requires e.Register? ==> e.q in s.requests && var r := s.requests[e.q];
      if r.op.Creating? then r.id !in s.configs else r.id in s.configs && s.configs[r.id] == r.loaded
    requires e.Reschedule? ==> e.run in s.executing && var x := s.executing[e.run];
      x.phase.Rescheduling? ==> x.id in s.configs && s.configs[x.id] == x.phase.loaded
    ensures !EntersLate(s, e)
  {
    if e.Register? && Enters(s.requests[e.q], e.now) {
      var r := s.requests[e.q];
      assert GoodIn(Outcome(s.configs, r), r.id);
    }
  }

  // ---- whole runs ----

  ghost predicate SoundAfter(events: seq<Event>, n: nat)
    requires n <= |events|
  {
    Sound(After(events[..n]))
  }

  ghost predicate SpoiltAt(events: seq<Event>, n: nat)
    requires n < |events|
  {
    Spoils(After(events[..n]), events[n])
  }

  lemma OneEventMore(events: seq<Event>, n: nat)
    requires n < |events| && SoundAfter(events, n)
    ensures SoundAfter(events, n + 1) <==> !SpoiltAt(events, n)
  {
    assert events[..n + 1][..n] == events[..n];
    HealthStep(After(events[..n]), events[n]);
  }

  lemma {:induction false} SoundUpTo(events: seq<Event>, n: nat)
    requires n <= |events| && forall k :: 0 <= k < |events| ==> !SpoiltAt(events, k)
    ensures SoundAfter(events, n)
  {
    if n > 0 {
      SoundUpTo(events, n - 1);
      OneEventMore(events, n - 1);
    }
  }

  /** Over every interleaving: the registry is sound throughout exactly if no step spoils it. */
  lemma SoundThroughoutIffNeverSpoilt(events: seq<Event>)
    ensures (forall n :: 0 <= n <= |events| ==> SoundAfter(events, n))
       <==> (forall n :: 0 <= n < |events| ==> !SpoiltAt(events, n))
  {
    if forall n :: 0 <= n < |events| ==> !SpoiltAt(events, n) {
      forall n | 0 <= n <= |events|
        ensures SoundAfter(events, n)
      {
        SoundUpTo(events, n);
      }
    }
    if forall n :: 0 <= n <= |events| ==> SoundAfter(events, n) {
      forall n | 0 <= n < |events|
        ensures !SpoiltAt(events, n)
      {
        assert SoundAfter(events, n) && SoundAfter(events, n + 1);
        OneEventMore(events, n);
      }
    }
  }

  /** So wherever no step spoils it, at rest every job belongs to an enabled configuration
      below its maximum. */
  lemma RegisteredJobsAreHealthy(events: seq<Event>)
    requires forall n :: 0 <= n < |events| ==> !SpoiltAt(events, n)
    requires AtRest(After(events))
    ensures Healthy(After(events))
  {
    SoundUpTo(events, |events|);
    assert events[..|events|] == events;
    SoundAtRestIsHealthy(After(events));
  }
}
