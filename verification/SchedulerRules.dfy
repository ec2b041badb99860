/** What single steps of the scheduler decide, in terms of the columns and the results. */
module SchedulerRules {
  import opened Wrappers
  import opened SchedulerFailures

  // ---- the verdict on a run ----

  predicate IsError(c: Collected) {
    c.error.Some? && c.error.value != ""
  }

  lemma {:induction false} CountsSome(results: seq<Collected>)
    ensures Count(results, true) > 0 <==> exists i :: 0 <= i < |results| && IsError(results[i])
    ensures Count(results, false) > 0 <==> exists i :: 0 <= i < |results| && results[i].success
  {
    if results != [] {
      var n := |results| - 1;
      CountsSome(results[..n]);
      if i :| 0 <= i < n && IsError(results[..n][i]) {
        assert IsError(results[i]);
      }
      if i :| 0 <= i < n && results[..n][i].success {
        assert results[i].success;
      }
      if i :| 0 <= i <= n && IsError(results[i]) {
        assert i < n ==> IsError(results[..n][i]);
      }
      if i :| 0 <= i <= n && results[i].success {
        assert i < n ==> results[..n][i].success;
      }
    }
  }

  /** A run that nothing interrupts adds one to the count exactly if some collection left
      an error and none succeeded; otherwise, a mixed run included, it clears the count.
      Its status says which: completed without errors, partial with both. */
  lemma VerdictByResults(s: System, run: string, results: seq<Collected>)
    requires run in s.executing && s.executing[run].phase.Working?
    requires run in s.runs && s.executing[run].id in s.configs
    ensures
      var s', id := OnRecord(OnFinish(s, run, results), run), s.executing[run].id;
      var failed := exists i :: 0 <= i < |results| && IsError(results[i]);
      var succeeded := exists i :: 0 <= i < |results| && results[i].success;
      && s'.configs[id].failures == (if failed && !succeeded then s.configs[id].failures + 1 else 0)
      && s'.runs[run].status == (if !failed then Completed else if succeeded then Partial else RunStatus.Failed)
  {
    CountsSome(results);
  }

  /** A run's end, and a crash, that nothing interrupts. */
  ghost function Finished(s: System, run: string, results: seq<Collected>): System {
    OnDrop(OnRecord(OnFinish(s, run, results), run), run)
  }

  ghost function Crashed(s: System, run: string, now: real): System {
    OnReschedule(OnReread(OnDrop(OnRecord(OnCrash(s, run), run), run), run), run, now)
  }

  ghost predicate AtWork(s: System, run: string) {
    && run in s.executing && s.executing[run].phase.Working?
    && run in s.runs && s.executing[run].id in s.configs
  }

  /** A letter is written, and the job dropped, exactly if the count comes to the maximum. */
  lemma FinishRunsItsCourse(s: System, run: string, results: seq<Collected>)
    requires AtWork(s, run)
    ensures
      var s', id := Finished(s, run, results), s.executing[run].id;
      var count, max := s'.configs[id].failures, s.configs[id].maxFailures;
      && s'.letters == s.letters + (if count >= max then [Letter(id, run, count, max, Pending)] else [])
      && s'.jobs == (if count >= max then s.jobs - {id} else s.jobs)
      && run !in s'.executing
  {
  }

  /** A crash counts as a failure; without a letter, a job that is to be run again and does
      not run once is entered anew. */
  lemma CrashRunsItsCourse(s: System, run: string, now: real)
    requires AtWork(s, run)
    ensures
      var s', id := Crashed(s, run, now), s.executing[run].id;
      var c := s.configs[id];
      var c' := c.(failures := c.failures + 1);
      && s'.configs == s.configs[id := c']
      && s'.runs == s.runs[run := s.runs[run].(status := RunStatus.Failed)]
      && s'.letters == s.letters + (if c'.failures >= c.maxFailures
                                    then [Letter(id, run, c'.failures, c.maxFailures, Pending)] else [])
      && s'.jobs == (if c'.failures >= c.maxFailures then s.jobs - {id}
                     else if c.enabled && !c.kind.Once? then Rescheduled(s.jobs, id, c', now)
                     else s.jobs)
      && run !in s'.executing
  {
    CrashCounts(s, run);
  }

  lemma CrashCounts(s: System, run: string)
    requires AtWork(s, run)
    ensures
      var s', id := OnRecord(OnCrash(s, run), run), s.executing[run].id;
      var c := s.configs[id];
      && s'.configs == s.configs[id := c.(failures := c.failures + 1)] && s'.jobs == s.jobs
      && s'.runs == s.runs[run := s.runs[run].(status := RunStatus.Failed)]
      && run in s'.executing && s'.executing[run].id == id
      && s'.executing[run].phase == (if c.failures + 1 >= c.maxFailures then Dropping else Rereading)
  {
  }

  // ---- manual triggers and abandoned letters ----

  /** A manual trigger is what lets its run begin, where the guard allows the configuration
      at all; it changes nothing else. */
  lemma TriggerLetsRun(s: System, id: string, run: string)
    requires run !in s.runs && run !in s.executing
    ensures
      var s' := Step(s, Trigger(id, run));
      && !Admits(s, id, run, true)
      && (Admits(s', id, run, true) <==>
          id in s.configs && s.configs[id].enabled && s.configs[id].failures < s.configs[id].maxFailures)
      && s' == s.(runs := s'.runs) && s'.runs - {run} == s.runs
      && (run in s'.runs ==> s'.runs[run] == Run(id, Running))
  {
  }

  /** A retry of the letter is under way. */
  ghost predicate BeingRetried(s: System, letter: nat, q: nat) {
    q in s.requests && s.requests[q].op.Retrying? && s.requests[q].op.letter == letter
  }

  /** Abandoning a letter whose configuration is there is final, but for a retry already
      under way: no new one is accepted. */
  lemma AbandonedIsFinal(s: System, e: Event, letter: nat)
    requires letter < |s.letters|
    ensures e == Abandon(letter) ==>
      Step(s, e).letters[letter].status
      == if s.letters[letter].config in s.configs then Abandoned else s.letters[letter].status
    ensures s.letters[letter].status.Abandoned? ==>
      && (forall id, run :: !Accepted(s, id, Retrying(letter, run)))
      && (letter < |Step(s, e).letters|)
      && ((e.Commit? ==> !BeingRetried(s, letter, e.q)) ==> Step(s, e).letters[letter].status.Abandoned?)
  {
  }

  // ---- the registry ----

  /** The scheduler enters a job exactly if its configuration is enabled, below its
      maximum, not past its end, and has a trigger of its kind; no other job changes. */
  lemma EntersExactly(jobs: set<string>, id: string, c: Config, now: real, other: string)
    ensures id in Rescheduled(jobs, id, c, now) <==>
      && c.enabled && c.failures < c.maxFailures && (c.endDate.Some? ==> now <= c.endDate.value)
      && (c.kind.Interval? ==> c.intervalMinutes.Some? && c.intervalMinutes.value != 0)
      && (c.kind.Cron? ==> c.cron.Some? && c.cron.value != "")
      && (c.kind.Once? ==> c.startDate.Some? && now < c.startDate.value)
    ensures other != id ==> (other in Rescheduled(jobs, id, c, now) <==> other in jobs)
  {
  }

  // ---- requests, column by column ----

  /** The column is as given, or as it was. */
  predicate Takes<T(==)>(given: Option<T>, before: T, after: T) {
    after == if given.Some? then given.value else before
  }

  predicate TakesPatch(c: Config, p: Patch, c': Config) {
    && Takes(p.expenses, c.collect.expenses, c'.collect.expenses)
    && Takes(p.resources, c.collect.resources, c'.collect.resources)
    && Takes(p.recommendations, c.collect.recommendations, c'.collect.recommendations)
    && Takes(p.kind, c.kind, c'.kind)
    && Takes(p.intervalMinutes, c.intervalMinutes, c'.intervalMinutes)
    && Takes(p.cron, c.cron, c'.cron)
    && Takes(p.startDate, c.startDate, c'.startDate)
    && Takes(p.endDate, c.endDate, c'.endDate)
    && Takes(p.enabled, c.enabled, c'.enabled)
    && Takes(p.maxFailures, c.maxFailures, c'.maxFailures)
    && c'.failures == c.failures
  }

  ghost function Served(s: System, q: nat, id: string, op: Op, now: real): System {
    OnCommit(OnRegister(OnAsk(s, q, id, op), q, now), q)
  }

  /** What a request that nothing interrupts leaves of the configuration: an update its own
      columns only, enabling and retrying a count of zero, a deletion nothing, not even
      the runs. */
  lemma RequestInColumns(s: System, q: nat, id: string, op: Op, now: real)
    requires q !in s.requests && Accepted(s, id, op)
    ensures
      var s' := Served(s, q, id, op, now);
      && (forall k :: k != id ==> (k in s'.configs <==> k in s.configs))
      && (forall k :: k != id && k in s.configs ==> s'.configs[k] == s.configs[k])
      && match op
         case Creating(data) => id in s'.configs && s'.configs[id] == data.(failures := 0)
         case Updating(patch) => id in s'.configs && TakesPatch(s.configs[id], patch, s'.configs[id])
         case Toggling(on) =>
           && id in s'.configs
           && s'.configs[id]
              == s.configs[id].(enabled := on, failures := if on then 0 else s.configs[id].failures)
         case Deleting => id !in s'.configs && forall run :: run in s'.runs ==> s'.runs[run].config != id
         case Retrying(letter, run) =>
           && id in s'.configs && s'.configs[id] == s.configs[id].(failures := 0)
           && run in s'.runs && s'.runs[run] == Run(id, Running)
           && letter < |s'.letters| && s'.letters[letter] == s.letters[letter].(status := Retried)
  {
    UninterruptedRequest(s, q, id, op, now);
    RequestLeaves(s, q, id, op, now);
  }

  lemma RequestLeaves(s: System, q: nat, id: string, op: Op, now: real)
    requires q !in s.requests && Accepted(s, id, op)
    ensures op.Deleting? ==> forall run :: run in Served(s, q, id, op, now).runs ==>
              Served(s, q, id, op, now).runs[run].config != id
    ensures op.Retrying? ==>
      && op.run in Served(s, q, id, op, now).runs && Served(s, q, id, op, now).runs[op.run] == Run(id, Running)
      && Served(s, q, id, op, now).letters
         == s.letters[op.letter := s.letters[op.letter].(status := Retried)]
  {
    AskAndRegister(s, q, id, op, now);
  }

  /** And of the registry: whether the job is there afterwards. */
  lemma RequestInRegistry(s: System, q: nat, id: string, op: Op, now: real)
    requires q !in s.requests && Accepted(s, id, op)
    ensures
      var s' := Served(s, q, id, op, now);
      && (forall k :: k != id ==> (k in s'.jobs <==> k in s.jobs))
      && match op
         case Creating(_) =>
           if s'.configs[id].enabled then id in s'.jobs <==> id in Rescheduled({}, id, s'.configs[id], now)
           else id in s'.jobs <==> id in s.jobs
         case Updating(p) =>
           if p.kind.Some? || p.intervalMinutes.Some? || p.cron.Some? || p.startDate.Some? || p.endDate.Some?
              || p.enabled.Some?
           then id in s'.jobs <==> id in Rescheduled({}, id, s'.configs[id], now)
           else id in s'.jobs <==> id in s.jobs
         case Toggling(_) => id in s'.jobs <==> id in Rescheduled({}, id, s'.configs[id], now)
         case Deleting => id !in s'.jobs
         case Retrying(_, _) => id in s'.jobs <==> id in s.jobs
  {
    UninterruptedRequest(s, q, id, op, now);
  }

  // ---- what validation lets through ----

  /** What is refused: a creation or an update that leaves nothing to collect, or that names
      a kind without its interval or expression; what is not there; an abandoned letter. */
  lemma AcceptedExactly(s: System, id: string, op: Op)
    ensures Accepted(s, id, op) <==>
      match op
      case Creating(c) =>
        && id !in s.configs
        && !(!c.collect.expenses && !c.collect.resources && !c.collect.recommendations)
        && !(c.kind.Interval? && c.intervalMinutes.GetOr(0) == 0)
        && !(c.kind.Cron? && c.cron.GetOr("") == "")
      case Updating(p) =>
        && id in s.configs
        && var c := s.configs[id];
        && ((p.expenses.None? && p.resources.None? && p.recommendations.None?)
            || p.expenses.GetOr(c.collect.expenses) || p.resources.GetOr(c.collect.resources)
            || p.recommendations.GetOr(c.collect.recommendations))
        && !(p.kind == Some(Interval) && p.intervalMinutes.GetOr(None).GetOr(c.intervalMinutes.GetOr(0)) == 0)
        && !(p.kind == Some(Cron) && p.cron.GetOr(None).GetOr(c.cron.GetOr("")) == "")
      case Toggling(_) => id in s.configs
      case Deleting => id in s.configs
      case Retrying(letter, _) =>
        && letter < |s.letters| && s.letters[letter].config == id && id in s.configs
        && s.letters[letter].status != Abandoned
  {
  }

  /** A schedule of a kind that needs an interval or an expression has one. */
  predicate HasSchedule(c: Config) {
    (c.kind.Interval? ==> Usable(c.intervalMinutes)) && (c.kind.Cron? ==> Written(c.cron))
  }

  /** The update hands in an empty interval or expression for the kind it leaves behind. */
  predicate Empties(c: Config, p: Patch) {
    || (p.kind.GetOr(c.kind).Interval? && p.intervalMinutes.Some? && !Usable(p.intervalMinutes.value))
    || (p.kind.GetOr(c.kind).Cron? && p.cron.Some? && !Written(p.cron.value))
  }

  /** A creation always leaves a schedule; an accepted update of a configuration that has
      one does exactly if it does not hand in an empty interval or expression. */
  lemma UpdateKeepsSchedule(s: System, q: nat, id: string, op: Op, now: real)
    requires q !in s.requests && Accepted(s, id, op)
    ensures op.Creating? ==>
      id in Served(s, q, id, op, now).configs && HasSchedule(Served(s, q, id, op, now).configs[id])
    ensures op.Updating? && HasSchedule(s.configs[id]) ==>
      && id in Served(s, q, id, op, now).configs
      && (HasSchedule(Served(s, q, id, op, now).configs[id]) <==> !Empties(s.configs[id], op.patch))
  {
    UninterruptedRequest(s, q, id, op, now);
  }

  const NOTHING: Patch := Patch(None, None, None, None, None, None, None, None, None, None)

  /** An interval set to null while the kind stays, or even while the kind is set to it, is
      checked as the stored one but written as null: the job goes and none comes. */
  lemma NullIntervalIsAccepted(s: System, q: nat, id: string, now: real, named: bool)
    requires q !in s.requests && id in s.configs
    requires s.configs[id].kind.Interval? && HasSchedule(s.configs[id])
    ensures
      var p := NOTHING.(kind := if named then Some(Interval) else None, intervalMinutes := Some(None));
      var s' := Served(s, q, id, Updating(p), now);
      && Accepted(s, id, Updating(p))
      && id in s'.configs && !HasSchedule(s'.configs[id]) && id !in s'.jobs
  {
    var p := NOTHING.(kind := if named then Some(Interval) else None, intervalMinutes := Some(None));
    UninterruptedRequest(s, q, id, Updating(p), now);
  }

  // ---- updates that overlap ----

  predicate Apart<T>(a: Option<T>, b: Option<T>) {
    a.None? || b.None?
  }

  /** The updates name no column in common. */
  predicate Disjoint(p1: Patch, p2: Patch) {
    && Apart(p1.expenses, p2.expenses) && Apart(p1.resources, p2.resources)
    && Apart(p1.recommendations, p2.recommendations) && Apart(p1.kind, p2.kind)
    && Apart(p1.intervalMinutes, p2.intervalMinutes) && Apart(p1.cron, p2.cron)
    && Apart(p1.startDate, p2.startDate) && Apart(p1.endDate, p2.endDate)
    && Apart(p1.enabled, p2.enabled) && Apart(p1.maxFailures, p2.maxFailures)
  }

  lemma BothMerged(c: Config, p1: Patch, p2: Patch)
    requires Disjoint(p1, p2)
    ensures Merged(Merged(c, c, Patched(c, p1)), c, Patched(c, p2)) == Patched(Patched(c, p1), p2)
  {
  }

  lemma BothCommitted(id: string, c: Config, p1: Patch, p2: Patch)
    requires Disjoint(p1, p2)
    ensures Outcome(Outcome(map[id := c], Request(id, Updating(p1), c, true)), Request(id, Updating(p2), c, true))
         == map[id := Patched(Patched(c, p1), p2)]
  {
    BothMerged(c, p1, p2);
    assert Outcome(map[id := c], Request(id, Updating(p1), c, true)) == map[id := Merged(c, c, Patched(c, p1))];
  }

  lemma PatchesCommute(c: Config, p1: Patch, p2: Patch)
    requires Disjoint(p1, p2)
    ensures Patched(Patched(c, p1), p2) == Patched(Patched(c, p2), p1)
  {
  }

  lemma PatchTakes(c: Config, p: Patch)
    ensures TakesPatch(c, p, Patched(c, p))
  {
  }

  /** Updates of different columns that have read the same row both survive, in whichever
      order they commit. */
  lemma DisjointUpdatesBothSurvive(id: string, c: Config, p1: Patch, p2: Patch) returns (both: Config)
    requires Disjoint(p1, p2)
    ensures
      var one, two := Request(id, Updating(p1), c, true), Request(id, Updating(p2), c, true);
      Outcome(Outcome(map[id := c], one), two) == Outcome(Outcome(map[id := c], two), one) == map[id := both]
    ensures exists between :: TakesPatch(c, p1, between) && TakesPatch(between, p2, both)
  {
    both := Patched(Patched(c, p1), p2);
    PatchTakes(c, p1);
    PatchTakes(Patched(c, p1), p2);
    BothCommitted(id, c, p1, p2);
    BothCommitted(id, c, p2, p1);
    PatchesCommute(c, p1, p2);
  }
}
