/** The scheduler's failure accounting: configurations that count consecutive failed
    runs, the registry of scheduled jobs, and the dead-letter queue. A transaction reads
    a configuration, and writes back the columns it changed in a later step: in between,
    and between a change of the registry and the end of its transaction, anything else
    may happen. */
module SchedulerFailures {
  import opened Wrappers

  datatype Kind = Interval | Cron | Once

  datatype Collect = Collect(expenses: bool, resources: bool, recommendations: bool)

  datatype Config = Config(collect: Collect, kind: Kind, intervalMinutes: Option<int>, cron: Option<string>,
                           startDate: Option<real>, endDate: Option<real>, enabled: bool, failures: nat,
                           maxFailures: int)

  /** The fields an update sets: nullable columns may be set to null. */
  datatype Patch = Patch(expenses: Option<bool>, resources: Option<bool>, recommendations: Option<bool>,
                         kind: Option<Kind>, intervalMinutes: Option<Option<int>>, cron: Option<Option<string>>,
                         startDate: Option<Option<real>>, endDate: Option<Option<real>>,
                         enabled: Option<bool>, maxFailures: Option<int>)

  datatype RunStatus = Running | Completed | Failed | Partial

  datatype Run = Run(config: string, status: RunStatus)

  datatype LetterStatus = Pending | Retried | Abandoned

  datatype Letter = Letter(config: string, run: string, failureCount: int, maxRetries: int, status: LetterStatus)

  /** One kind of data collected: whether it was marked successful, and its error text. */
  datatype Collected = Collected(success: bool, error: Option<string>)

  datatype Error = NotFound | BadRequest

  /** What a request does to a configuration. */
  datatype Op =
    | Creating(data: Config)
    | Updating(patch: Patch)
    | Toggling(on: bool)
    | Deleting
    | Retrying(letter: nat, run: string)

  /** A request between reading its configuration, or validating the new one, and the end
      of its transaction: what it read, and whether it has changed the registry yet. */
  datatype Request = Request(id: string, op: Op, loaded: Config, registered: bool)

  /** Where an execution past its guard stands: collecting; with the outcome known and the
      configuration read; the same after an exception; with a dead letter committed; after
      a committed crash, before and after it has read the configuration again. */
  datatype Phase =
    | Working
    | Finishing(loaded: Config, verdict: RunStatus)
    | Crashing(loaded: Config)
    | Dropping
    | Rereading
    | Rescheduling(loaded: Config)

  datatype Execution = Execution(id: string, phase: Phase)

  /** The committed tables and the job registry, with the executions and the requests
      under way. */
  datatype System = System(configs: map<string, Config>, jobs: set<string>, runs: map<string, Run>,
                           letters: seq<Letter>, executing: map<string, Execution>, requests: map<nat, Request>)

  const EMPTY: System := System(map[], {}, map[], [], map[], map[])

  predicate Usable(minutes: Option<int>) {
    minutes.Some? && minutes.value != 0
  }

  predicate Written(cron: Option<string>) {
    cron.Some? && cron.value != ""
  }

  predicate HasTrigger(c: Config, now: real) {
    match c.kind
    case Interval => Usable(c.intervalMinutes)
    case Cron => Written(c.cron)
    case Once => c.startDate.Some? && c.startDate.value > now
  }

  /** To be run: enabled, and below its maximum. */
  predicate Good(c: Config) {
    c.enabled && c.failures < c.maxFailures
  }

  predicate Schedulable(c: Config, now: real) {
    Good(c) && !(c.endDate.Some? && c.endDate.value < now) && HasTrigger(c, now)
  }

  function Rescheduled(jobs: set<string>, id: string, c: Config, now: real): set<string> {
    if Schedulable(c, now) then jobs + {id} else jobs - {id}
  }

  predicate AnyCollected(c: Collect) {
    c.expenses || c.resources || c.recommendations
  }

  predicate CreatableConfig(c: Config) {
    && AnyCollected(c.collect)
    && (c.kind.Interval? ==> Usable(c.intervalMinutes))
    && (c.kind.Cron? ==> Written(c.cron))
  }

  /** A null interval or expression in the update is checked as the stored one. */
  predicate PatchOk(c: Config, p: Patch) {
    && (p.expenses.Some? || p.resources.Some? || p.recommendations.Some? ==> AnyCollected(Patched(c, p).collect))
    && (p.kind == Some(Interval) ==>
          Usable(if p.intervalMinutes.Some? && p.intervalMinutes.value.Some?
                 then p.intervalMinutes.value else c.intervalMinutes))
    && (p.kind == Some(Cron) ==>
          Written(if p.cron.Some? && p.cron.value.Some? then p.cron.value else c.cron))
  }

  function Patched(c: Config, p: Patch): Config {
    Config(
      Collect(p.expenses.GetOr(c.collect.expenses), p.resources.GetOr(c.collect.resources),
              p.recommendations.GetOr(c.collect.recommendations)),
      p.kind.GetOr(c.kind), p.intervalMinutes.GetOr(c.intervalMinutes), p.cron.GetOr(c.cron),
      p.startDate.GetOr(c.startDate), p.endDate.GetOr(c.endDate),
      p.enabled.GetOr(c.enabled), c.failures, p.maxFailures.GetOr(c.maxFailures))
  }

  predicate TouchesSchedule(p: Patch) {
    p.kind.Some? || p.intervalMinutes.Some? || p.cron.Some? || p.startDate.Some? || p.endDate.Some? || p.enabled.Some?
  }

  // ---- requests ----

  /** The row as the request leaves it; a deletion leaves none. */
  function Wanted(op: Op, loaded: Config): Config {
    match op
    case Creating(data) => data.(failures := 0)
    case Updating(patch) => Patched(loaded, patch)
    case Toggling(on) => if on then loaded.(enabled := true, failures := 0) else loaded.(enabled := false)
    case Deleting => loaded
    case Retrying(_, _) => loaded.(failures := 0)
  }

  /** A column is written only where it differs from what was read. */
  function Kept<T(==)>(stored: T, loaded: T, wanted: T): T {
    if wanted == loaded then stored else wanted
  }

  function Merged(stored: Config, loaded: Config, wanted: Config): Config {
    Config(
      Collect(Kept(stored.collect.expenses, loaded.collect.expenses, wanted.collect.expenses),
              Kept(stored.collect.resources, loaded.collect.resources, wanted.collect.resources),
              Kept(stored.collect.recommendations, loaded.collect.recommendations, wanted.collect.recommendations)),
      Kept(stored.kind, loaded.kind, wanted.kind),
      Kept(stored.intervalMinutes, loaded.intervalMinutes, wanted.intervalMinutes),
      Kept(stored.cron, loaded.cron, wanted.cron),
      Kept(stored.startDate, loaded.startDate, wanted.startDate),
      Kept(stored.endDate, loaded.endDate, wanted.endDate),
      Kept(stored.enabled, loaded.enabled, wanted.enabled),
      Kept(stored.failures, loaded.failures, wanted.failures),
      Kept(stored.maxFailures, loaded.maxFailures, wanted.maxFailures))
  }

  predicate Accepted(s: System, id: string, op: Op) {
    match op
    case Creating(data) => id !in s.configs && CreatableConfig(data)
    case Updating(patch) => id in s.configs && PatchOk(s.configs[id], patch)
    case Toggling(_) => id in s.configs
    case Deleting => id in s.configs
    case Retrying(letter, _) => Retriable(s, letter) && s.letters[letter].config == id
  }

  /** The request reads and validates; if it is refused nothing happens. */
  function OnAsk(s: System, q: nat, id: string, op: Op): System {
    if q in s.requests || !Accepted(s, id, op) then s
    else
      var loaded := match op case Creating(data) => data case _ => s.configs[id];
      s.(requests := s.requests[q := Request(id, op, loaded, false)])
  }

  function Registered(jobs: set<string>, r: Request, now: real): set<string> {
    var c := Wanted(r.op, r.loaded);
    match r.op
    case Creating(_) => if c.enabled then Rescheduled(jobs, r.id, c, now) else jobs
    case Updating(patch) =>
      if !TouchesSchedule(patch) then jobs
      else if c.enabled then Rescheduled(jobs, r.id, c, now)
      else jobs - {r.id}
    case Toggling(on) => if on then Rescheduled(jobs, r.id, c, now) else jobs - {r.id}
    case Deleting => jobs - {r.id}
    case Retrying(_, _) => jobs
  }

  /** The request changes the registry, from what it read and wants to write. */
  function OnRegister(s: System, q: nat, now: real): System {
    if q !in s.requests || s.requests[q].registered then s
    else
      var r := s.requests[q];
      s.(jobs := Registered(s.jobs, r, now), requests := s.requests[q := r.(registered := true)])
  }

  /** A row to insert must be absent, one to change or delete still there. */
  predicate Applies(configs: map<string, Config>, r: Request) {
    if r.op.Creating? then r.id !in configs else r.id in configs
  }

  function Outcome(configs: map<string, Config>, r: Request): map<string, Config> {
    if !Applies(configs, r) then configs
    else
      match r.op
      case Creating(_) => configs[r.id := Wanted(r.op, r.loaded)]
      case Deleting => configs - {r.id}
      case _ => configs[r.id := Merged(configs[r.id], r.loaded, Wanted(r.op, r.loaded))]
  }

  function OnCommit(s: System, q: nat): System {
    if q !in s.requests || !s.requests[q].registered then s
    else
      var r := s.requests[q];
      var s' := s.(configs := Outcome(s.configs, r), requests := s.requests - {q});
      if !Applies(s.configs, r) then s'
      else
        match r.op
        case Deleting => s'.(runs := map k | k in s.runs && s.runs[k].config != r.id :: s.runs[k])
        case Retrying(letter, run) =>
          s'.(runs := s.runs[run := Run(r.id, Running)],
              letters := if letter < |s.letters|
                         then s.letters[letter := s.letters[letter].(status := Retried)] else s.letters)
        case _ => s'
  }

  /** An error at any moment: the tables are as before, the registry stays as it is. */
  function OnRollback(s: System, q: nat): System {
    s.(requests := s.requests - {q})
  }

  /** A manual trigger records a run; its execution begins later. */
  function OnTrigger(s: System, id: string, run: string): System {
    if id !in s.configs || !s.configs[id].enabled || run in s.runs then s
    else s.(runs := s.runs[run := Run(id, Running)])
  }

  predicate Retriable(s: System, letter: nat) {
    letter < |s.letters| && s.letters[letter].config in s.configs && !s.letters[letter].status.Abandoned?
  }

  function OnAbandon(s: System, letter: nat): System {
    if letter < |s.letters| && s.letters[letter].config in s.configs
    then s.(letters := s.letters[letter := s.letters[letter].(status := Abandoned)])
    else s
  }

  /** The guard of an execution: a run recorded earlier must still be there, a new one
      gets a fresh identifier, and each run is executed by one task. */
  predicate Admits(s: System, id: string, run: string, existing: bool) {
    && id in s.configs && s.configs[id].enabled && s.configs[id].failures < s.configs[id].maxFailures
    && (run in s.runs <==> existing)
    && run !in s.executing
  }

  function OnBegin(s: System, id: string, run: string, existing: bool): System {
    if !Admits(s, id, run, existing) then s
    else
      s.(runs := if existing then s.runs else s.runs[run := Run(id, Running)],
         executing := s.executing[run := Execution(id, Working)])
  }

  function Count(results: seq<Collected>, wantError: bool): nat {
    if results == [] then 0
    else
      var n := |results| - 1;
      var hit := if wantError then results[n].error.Some? && results[n].error.value != "" else results[n].success;
      Count(results[..n], wantError) + if hit then 1 else 0
  }

  function Verdict(results: seq<Collected>): RunStatus {
    if Count(results, true) == 0 then Completed
    else if Count(results, false) == 0 then Failed
    else Partial
  }

  function Left(s: System, run: string): System {
    s.(executing := s.executing - {run})
  }

  function Moved(s: System, run: string, phase: Phase): System
    requires run in s.executing
  {
    s.(executing := s.executing[run := s.executing[run].(phase := phase)])
  }

  /** The collections are done: the run and the configuration are read. */
  function OnFinish(s: System, run: string, results: seq<Collected>): System {
    if run !in s.executing || !s.executing[run].phase.Working? then s
    else
      var id := s.executing[run].id;
      if run !in s.runs || id !in s.configs then Left(s, run)
      else Moved(s, run, Finishing(s.configs[id], Verdict(results)))
  }

  /** An exception outside the collections, or a failed commit of the outcome: they are
      read again. */
  function OnCrash(s: System, run: string): System {
    if run !in s.executing || !(s.executing[run].phase.Working? || s.executing[run].phase.Finishing?) then s
    else
      var id := s.executing[run].id;
      if run !in s.runs || id !in s.configs then Left(s, run)
      else Moved(s, run, Crashing(s.configs[id]))
  }

  predicate Recording(x: Execution) {
    x.phase.Finishing? || x.phase.Crashing?
  }

  function VerdictOf(x: Execution): RunStatus
    requires Recording(x)
  {
    if x.phase.Crashing? then Failed else x.phase.verdict
  }

  /** The count to be written, from the one read. */
  function NewCount(x: Execution): nat
    requires Recording(x)
  {
    if VerdictOf(x).Failed? then x.phase.loaded.failures + 1 else 0
  }

  /** The outcome is committed: the count, a dead letter where it reaches the maximum
      read, and the run's status; without the rows nothing is. */
  function OnRecord(s: System, run: string): System {
    if run !in s.executing || !Recording(s.executing[run]) then s
    else
      var x := s.executing[run];
      if run !in s.runs || x.id !in s.configs then Left(s, run)
      else
        var loaded, stored := x.phase.loaded, s.configs[x.id];
        var exhausted := NewCount(x) >= loaded.maxFailures;
        var s' := s.(configs := s.configs[x.id :=
                       stored.(failures := Kept(stored.failures, loaded.failures, NewCount(x)))],
                     runs := s.runs[run := s.runs[run].(status := VerdictOf(x))],
                     letters := if exhausted
                                then s.letters + [Letter(x.id, run, NewCount(x), loaded.maxFailures, Pending)]
                                else s.letters);
        if exhausted then Moved(s', run, Dropping)
        else if x.phase.Crashing? then Moved(s', run, Rereading)
        else Left(s', run)
  }

  function OnDrop(s: System, run: string): System {
    if run !in s.executing || !s.executing[run].phase.Dropping? then s
    else Left(s, run).(jobs := s.jobs - {s.executing[run].id})
  }

  /** After a crash that wrote no dead letter the configuration is read again. */
  function OnReread(s: System, run: string): System {
    if run !in s.executing || !s.executing[run].phase.Rereading? then s
    else
      var id := s.executing[run].id;
      if id in s.configs && Good(s.configs[id]) && !s.configs[id].kind.Once?
      then Moved(s, run, Rescheduling(s.configs[id]))
      else Left(s, run)
  }

  function OnReschedule(s: System, run: string, now: real): System {
    if run !in s.executing || !s.executing[run].phase.Rescheduling? then s
    else
      var x := s.executing[run];
      Left(s, run).(jobs := Rescheduled(s.jobs, x.id, x.phase.loaded, now))
  }

  class Scheduler {
    var configs: map<string, Config>
    var jobs: set<string>
    var runs: map<string, Run>
    var letters: seq<Letter>
    var executing: map<string, Execution>
    var requests: map<nat, Request>

    ghost function AsSystem(): System
      reads this
    {
      System(configs, jobs, runs, letters, executing, requests)
    }

    constructor ()
      ensures AsSystem() == EMPTY
    {
      configs, jobs, runs, letters, executing, requests := map[], {}, map[], [], map[], map[];
    }

    // What a job is scheduled from is what its caller has read.
    method ScheduleJob(id: string, config: Config, now: real)
      modifies this`jobs
      ensures jobs == Rescheduled(old(jobs), id, config, now)
    {
      jobs := jobs - {id};
      if !config.enabled || config.failures >= config.maxFailures {
        return;
      }
      if config.endDate.Some? && config.endDate.value < now {
        return;
      }
      var trigger := false;
      match config.kind {
        case Interval => trigger := Usable(config.intervalMinutes);
        case Cron => trigger := Written(config.cron);
        case Once => trigger := config.startDate.Some? && config.startDate.value > now;
      }
      if trigger {
        jobs := jobs + {id};
      }
    }

    method UnscheduleJob(id: string)
      modifies this`jobs
      ensures jobs == old(jobs) - {id}
    {
      jobs := jobs - {id};
    }

    // ---- requests: read and validate ----

    method CreateConfig(q: nat, id: string, data: Config) returns (result: Result<(), Error>)
      requires q !in requests && id !in configs
      modifies this`requests
      ensures AsSystem() == OnAsk(old(AsSystem()), q, id, Creating(data))
      ensures result == if CreatableConfig(data) then Success(()) else Failure(BadRequest)
    {
      if !AnyCollected(data.collect) {
        return Failure(BadRequest);
      }
      if data.kind.Interval? && !Usable(data.intervalMinutes) {
        return Failure(BadRequest);
      }
      if data.kind.Cron? && !Written(data.cron) {
        return Failure(BadRequest);
      }
      requests := requests[q := Request(id, Creating(data), data, false)];
      return Success(());
    }

    method UpdateConfig(q: nat, id: string, data: Patch) returns (result: Result<(), Error>)
      requires q !in requests
      modifies this`requests
      ensures AsSystem() == OnAsk(old(AsSystem()), q, id, Updating(data))
      ensures result == if id !in configs then Failure(NotFound)
        else if PatchOk(configs[id], data) then Success(()) else Failure(BadRequest)
    {
      if id !in configs {
        return Failure(NotFound);
      }
      var config := configs[id];
      if data.expenses.Some? || data.resources.Some? || data.recommendations.Some? {
        if !AnyCollected(Patched(config, data).collect) {
          return Failure(BadRequest);
        }
      }
      if data.kind.Some? {
        if data.kind.value.Interval? {
          var minutes := config.intervalMinutes;
          if data.intervalMinutes.Some? && data.intervalMinutes.value.Some? {
            minutes := data.intervalMinutes.value;
          }
          if !Usable(minutes) {
            return Failure(BadRequest);
          }
        } else if data.kind.value.Cron? {
          var cron := config.cron;
          if data.cron.Some? && data.cron.value.Some? {
            cron := data.cron.value;
          }
          if !Written(cron) {
            return Failure(BadRequest);
          }
        }
      }
      requests := requests[q := Request(id, Updating(data), config, false)];
      return Success(());
    }

    method Toggle(q: nat, id: string, on: bool) returns (result: Result<(), Error>)
      requires q !in requests
      modifies this`requests
      ensures AsSystem() == OnAsk(old(AsSystem()), q, id, Toggling(on))
      ensures result == if id in configs then Success(()) else Failure(NotFound)
    {
      if id !in configs {
        return Failure(NotFound);
      }
      requests := requests[q := Request(id, Toggling(on), configs[id], false)];
      return Success(());
    }

    method DeleteConfig(q: nat, id: string) returns (result: Result<(), Error>)
      requires q !in requests
      modifies this`requests
      ensures AsSystem() == OnAsk(old(AsSystem()), q, id, Deleting)
      ensures result == if id in configs then Success(()) else Failure(NotFound)
    {
      if id !in configs {
        return Failure(NotFound);
      }
      requests := requests[q := Request(id, Deleting, configs[id], false)];
      return Success(());
    }

    method RetryLetter(q: nat, letter: nat, run: string) returns (result: Result<(), Error>)
      requires q !in requests
      modifies this`requests
      ensures letter < |letters|
              ==> AsSystem() == OnAsk(old(AsSystem()), q, letters[letter].config, Retrying(letter, run))
      ensures letter >= |letters| ==> AsSystem() == old(AsSystem())
      ensures result == if Retriable(AsSystem(), letter) then Success(())
        else if letter < |letters| && letters[letter].config in configs then Failure(BadRequest)
        else Failure(NotFound)
    {
      if letter >= |letters| || letters[letter].config !in configs {
        return Failure(NotFound);
      }
      var job := letters[letter];
      if job.status.Abandoned? {
        return Failure(BadRequest);
      }
      requests := requests[q := Request(job.config, Retrying(letter, run), configs[job.config], false)];
      return Success(());
    }

    // ---- requests: the registry, and the end of the transaction ----

    method ChangeRegistry(q: nat, now: real)
      requires q in requests && !requests[q].registered
      modifies this`jobs, this`requests
      ensures AsSystem() == OnRegister(old(AsSystem()), q, now)
    {
      var r := requests[q];
      var config := Wanted(r.op, r.loaded);
      match r.op {
        case Creating(_) =>
          if config.enabled {
            ScheduleJob(r.id, config, now);
          }
        case Updating(patch) =>
          if TouchesSchedule(patch) {
            if config.enabled {
              ScheduleJob(r.id, config, now);
            } else {
              UnscheduleJob(r.id);
            }
          }
        case Toggling(on) =>
          if on {
            ScheduleJob(r.id, config, now);
          } else {
            UnscheduleJob(r.id);
          }
        case Deleting => UnscheduleJob(r.id);
        case Retrying(_, _) =>
      }
      requests := requests[q := r.(registered := true)];
    }

    /** The session commits after the endpoint has returned. */
    method Commit(q: nat)
      requires q in requests && requests[q].registered
      modifies this
      ensures AsSystem() == OnCommit(old(AsSystem()), q)
    {
      var r := requests[q];
      requests := requests - {q};
      if !Applies(configs, r) {
        return;
      }
      configs := Outcome(configs, r);
      match r.op {
        case Deleting => runs := map k | k in runs && runs[k].config != r.id :: runs[k];
        case Retrying(letter, run) =>
          runs := runs[run := Run(r.id, Running)];
          if letter < |letters| {
            letters := letters[letter := letters[letter].(status := Retried)];
          }
        case _ =>
      }
    }

    /** On an error the session rolls back; the registry does not. */
    method Rollback(q: nat)
      modifies this`requests
      ensures AsSystem() == OnRollback(old(AsSystem()), q)
    {
      requests := requests - {q};
    }

    /** Overrides of what to collect are set on the configuration while the run is
        recorded and taken back; the run does not see them, and nothing stays. */
    method TriggerManual(id: string, run: string, expenses: Option<bool>, resources: Option<bool>,
                         recommendations: Option<bool>)
      returns (result: Result<bool, Error>)
      requires run !in runs
      modifies this
      ensures AsSystem() == OnTrigger(old(AsSystem()), id, run)
      ensures result == if id in old(configs) then Success(old(configs)[id].enabled) else Failure(NotFound)
    {
      if id !in configs {
        return Failure(NotFound);
      }
      if !configs[id].enabled {
        return Success(false);
      }
      var original := configs[id].collect;
      var overridden := Collect(expenses.GetOr(original.expenses), resources.GetOr(original.resources),
                                recommendations.GetOr(original.recommendations));
      configs := configs[id := configs[id].(collect := overridden)];
      runs := runs[run := Run(id, Running)];
      configs := configs[id := configs[id].(collect := original)];
      return Success(true);
    }

    method AbandonLetter(letter: nat) returns (result: Result<(), Error>)
      modifies this
      ensures AsSystem() == OnAbandon(old(AsSystem()), letter)
      ensures result.Success? <==> letter < |old(letters)| && old(letters)[letter].config in old(configs)
    {
      if letter >= |letters| || letters[letter].config !in configs {
        return Failure(NotFound);
      }
      letters := letters[letter := letters[letter].(status := Abandoned)];
      return Success(());
    }

    /** The guard: the execution goes on only if it is `admitted`. */
    method BeginExecution(id: string, run: string, existing: bool) returns (admitted: bool)
      requires run !in executing && (existing || run !in runs)
      modifies this
      ensures AsSystem() == OnBegin(old(AsSystem()), id, run, existing)
      ensures admitted == Admits(old(AsSystem()), id, run, existing)
    {
      if id !in configs {
        return false;
      }
      if !configs[id].enabled {
        return false;
      }
      if configs[id].failures >= configs[id].maxFailures {
        return false;
      }
      if existing {
        if run !in runs {
          return false;
        }
      } else {
        runs := runs[run := Run(id, Running)];
      }
      executing := executing[run := Execution(id, Working)];
      return true;
    }

    method FinishExecution(run: string, results: seq<Collected>)
      requires run in executing && executing[run].phase.Working?
      modifies this`executing
      ensures AsSystem() == OnFinish(old(AsSystem()), run, results)
    {
      var id := executing[run].id;
      if run !in runs || id !in configs {
        executing := executing - {run};
        return;
      }
      var successCount := Count(results, false);
      var failureCount := Count(results, true);
      var verdict := Partial;
      if failureCount == 0 {
        verdict := Completed;
      } else if successCount == 0 {
        verdict := Failed;
      }
      executing := executing[run := executing[run].(phase := Finishing(configs[id], verdict))];
    }

    method CrashExecution(run: string)
      requires run in executing && (executing[run].phase.Working? || executing[run].phase.Finishing?)
      modifies this`executing
      ensures AsSystem() == OnCrash(old(AsSystem()), run)
    {
      var id := executing[run].id;
      if run in runs && id in configs {
        executing := executing[run := executing[run].(phase := Crashing(configs[id]))];
      } else {
        executing := executing - {run};
      }
    }

    /** The commit of a finished or crashed run; the new count goes over whatever the
        configuration holds by then. */
    method RecordOutcome(run: string)
      requires run in executing && Recording(executing[run])
      modifies this
      ensures AsSystem() == OnRecord(old(AsSystem()), run)
    {
      var x := executing[run];
      if run !in runs || x.id !in configs {
        executing := executing - {run};
        return;
      }
      var count := x.phase.loaded.failures;
      if VerdictOf(x).Failed? {
        count := count + 1;
      } else {
        count := 0;
      }
      runs := runs[run := runs[run].(status := VerdictOf(x))];
      StoreCount(x.id, x.phase.loaded.failures, count);
      if count >= x.phase.loaded.maxFailures {
        letters := letters + [Letter(x.id, run, count, x.phase.loaded.maxFailures, Pending)];
        executing := executing[run := x.(phase := Dropping)];
      } else if x.phase.Crashing? {
        executing := executing[run := x.(phase := Rereading)];
      } else {
        executing := executing - {run};
      }
    }

    /** The mapper leaves out a column whose value is the one it read. */
    method StoreCount(id: string, loaded: nat, count: nat)
      requires id in configs
      modifies this`configs
      ensures configs
              == old(configs)[id := old(configs)[id].(failures := Kept(old(configs)[id].failures, loaded, count))]
    {
      if count != loaded {
        configs := configs[id := configs[id].(failures := count)];
      }
    }

    method DropExhausted(run: string)
      requires run in executing && executing[run].phase.Dropping?
      modifies this`jobs, this`executing
      ensures AsSystem() == OnDrop(old(AsSystem()), run)
    {
      UnscheduleJob(executing[run].id);
      executing := executing - {run};
    }

    method RereadConfig(run: string)
      requires run in executing && executing[run].phase.Rereading?
      modifies this`executing
      ensures AsSystem() == OnReread(old(AsSystem()), run)
    {
      var id := executing[run].id;
      if id in configs && configs[id].enabled && configs[id].failures < configs[id].maxFailures {
        if !configs[id].kind.Once? {
          executing := executing[run := executing[run].(phase := Rescheduling(configs[id]))];
          return;
        }
      }
      executing := executing - {run};
    }

    method RescheduleAfterCrash(run: string, now: real)
      requires run in executing && executing[run].phase.Rescheduling?
      modifies this`jobs, this`executing
      ensures AsSystem() == OnReschedule(old(AsSystem()), run, now)
    {
      ScheduleJob(executing[run].id, executing[run].phase.loaded, now);
      executing := executing - {run};
    }
  }

  // ---- interleavings ----

  datatype Event =
    | Ask(q: nat, id: string, op: Op)
    | Register(q: nat, now: real)
    | Commit(q: nat)
    | Rollback(q: nat)
    | Trigger(id: string, run: string)
    | Abandon(letter: nat)
    | Begin(id: string, run: string, existing: bool)
    | Finish(run: string, results: seq<Collected>)
    | Crash(run: string)
    | Record(run: string)
    | Drop(run: string)
    | Reread(run: string)
    | Reschedule(run: string, now: real)
    | Die(run: string)     // an error or cancellation that nothing handles
    | Elapsed(id: string)  // the registry drops a job whose trigger will not fire again

  function Step(s: System, e: Event): System {
    match e
    case Ask(q, id, op) => OnAsk(s, q, id, op)
    case Register(q, now) => OnRegister(s, q, now)
    case Commit(q) => OnCommit(s, q)
    case Rollback(q) => OnRollback(s, q)
    case Trigger(id, run) => OnTrigger(s, id, run)
    case Abandon(letter) => OnAbandon(s, letter)
    case Begin(id, run, existing) => OnBegin(s, id, run, existing)
    case Finish(run, results) => OnFinish(s, run, results)
    case Crash(run) => OnCrash(s, run)
    case Record(run) => OnRecord(s, run)
    case Drop(run) => OnDrop(s, run)
    case Reread(run) => OnReread(s, run)
    case Reschedule(run, now) => OnReschedule(s, run, now)
    case Die(run) => Left(s, run)
    case Elapsed(id) => s.(jobs := s.jobs - {id})
  }

  function After(events: seq<Event>): System {
    if events == [] then EMPTY else Step(After(events[..|events| - 1]), events[|events| - 1])
  }

  lemma AfterLonger(events: seq<Event>, e: Event)
    ensures After(events + [e]) == Step(After(events), e)
  {
    var longer := events + [e];
    assert longer[..|longer| - 1] == events;
  }

  // ---- where what is under way comes from ----

  /** The configuration that the execution has read and goes on from. */
  function LoadedBy(x: Execution): Option<Config> {
    match x.phase
    case Finishing(loaded, _) => Some(loaded)
    case Crashing(loaded) => Some(loaded)
    case Rescheduling(loaded) => Some(loaded)
    case _ => None
  }

  lemma RequestStep(s: System, e: Event, q: nat)
    requires q in Step(s, e).requests
    ensures if q in s.requests then Step(s, e).requests[q].(registered := true) == s.requests[q].(registered := true)
            else e.Ask? && e.q == q && Accepted(s, e.id, e.op) && Step(s, e).requests[q] == Asked(s, e.id, e.op)
  {
  }

  /** The execution is as it was, holds nothing it has read, or has just read it. */
  predicate HasJustRead(s: System, r: string, x: Execution) {
    && (r in s.executing ==> x.id == s.executing[r].id)
    && ((r in s.executing && x == s.executing[r])
        || LoadedBy(x).None?
        || (x.id in s.configs && LoadedBy(x) == Some(s.configs[x.id])))
  }

  lemma ReadStep(s: System, e: Event, r: string)
    requires (e.Finish? || e.Crash? || e.Reread?) && r in Step(s, e).executing
    ensures HasJustRead(s, r, Step(s, e).executing[r])
  {
  }

  lemma WriteStep(s: System, e: Event, r: string)
    requires (e.Record? || e.Drop? || e.Reschedule?) && r in Step(s, e).executing
    ensures HasJustRead(s, r, Step(s, e).executing[r])
  {
  }

  lemma ExecutionStep(s: System, e: Event, r: string)
    requires r in Step(s, e).executing
    ensures HasJustRead(s, r, Step(s, e).executing[r])
  {
    if e.Finish? || e.Crash? || e.Reread? {
      ReadStep(s, e, r);
    } else if e.Record? || e.Drop? || e.Reschedule? {
      WriteStep(s, e, r);
    }
  }

  // ---- a request that nothing interrupts ----

  function Asked(s: System, id: string, op: Op): Request
    requires Accepted(s, id, op)
  {
    Request(id, op, if op.Creating? then op.data else s.configs[id], false)
  }

  lemma FreshOutcome(s: System, id: string, op: Op)
    requires Accepted(s, id, op)
    ensures Outcome(s.configs, Asked(s, id, op))
      == if op.Deleting? then s.configs - {id} else s.configs[id := Wanted(op, Asked(s, id, op).loaded)]
  {
  }

  lemma CommitOutcome(s: System, q: nat)
    requires q in s.requests && s.requests[q].registered
    ensures
      var s' := OnCommit(s, q);
      && s'.configs == Outcome(s.configs, s.requests[q]) && s'.jobs == s.jobs
      && s'.executing == s.executing && s'.requests == s.requests - {q}
  {
  }

  lemma AskAndRegister(s: System, q: nat, id: string, op: Op, now: real)
    requires q !in s.requests && Accepted(s, id, op)
    ensures
      var r := Asked(s, id, op);
      OnRegister(OnAsk(s, q, id, op), q, now)
        == s.(jobs := Registered(s.jobs, r, now), requests := s.requests[q := r.(registered := true)])
  {
  }

  /** Asked, entered in the registry and committed with nothing in between, a request does
      what it wants to what is stored. */
  lemma UninterruptedRequest(s: System, q: nat, id: string, op: Op, now: real)
    requires q !in s.requests && Accepted(s, id, op)
    ensures
      var r, s' := Asked(s, id, op), OnCommit(OnRegister(OnAsk(s, q, id, op), q, now), q);
      && s'.configs == (if op.Deleting? then s.configs - {id} else s.configs[id := Wanted(op, r.loaded)])
      && s'.jobs == Registered(s.jobs, r, now)
      && s'.executing == s.executing && s'.requests == s.requests
  {
    AskAndRegister(s, q, id, op, now);
    CommitOutcome(OnRegister(OnAsk(s, q, id, op), q, now), q);
    FreshOutcome(s, id, op);
  }

  /** A run's outcome is counted onto what is stored if nothing comes between. */
  lemma UninterruptedOutcome(s: System, run: string, results: seq<Collected>)
    requires run in s.executing && s.executing[run].phase.Working?
    requires run in s.runs && s.executing[run].id in s.configs
    ensures
      var id := s.executing[run].id;
      var s' := OnRecord(OnFinish(s, run, results), run);
      s'.configs
      == s.configs[id := s.configs[id].(failures := if Verdict(results).Failed? then s.configs[id].failures + 1 else 0)]
  {
  }
}
