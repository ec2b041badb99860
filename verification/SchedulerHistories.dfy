/** Histories of the scheduler, built from the empty system: the overlap bound is reached,
    an overtaken writer loses a failure, overtaken writers pass every bound, and jobs are
    left behind that no configuration wants. */
module SchedulerHistories {
  import opened Basics
  import opened SchedulerCounts
  import opened SchedulerFailures
  import opened SchedulerOverlap
  import opened SchedulerRegistry
  import opened Wrappers

  /** Identifiers for as many runs as needed. */
  function Name(j: nat): string {
    seq(j, _ => 'r')
  }

  ghost function Names(lo: nat, hi: nat): set<string> {
    if lo >= hi then {} else Names(lo, hi - 1) + {Name(hi - 1)}
  }

  lemma NameDiffers(i: nat, j: nat)
    ensures Name(i) == Name(j) <==> i == j
  {
    assert |Name(i)| == i && |Name(j)| == j;
  }

  lemma {:induction false} NamesDiffer(i: nat, lo: nat, hi: nat)
    ensures Name(i) in Names(lo, hi) <==> lo <= i < hi
    decreases hi
  {
    if lo < hi {
      NamesDiffer(i, lo, hi - 1);
      NameDiffers(i, hi - 1);
    }
  }

  const DOWN: seq<Collected> := [Collected(false, Some("down"))]

  lemma DownIsFailed()
    ensures Verdict(DOWN) == Failed
  {
    assert DOWN[..0] == [] && DOWN[0].error.value != "";
    assert Count(DOWN, true) == 1 && Count(DOWN, false) == 0;
  }

  function Hourly(m: int, failures: nat): Config {
    Config(Collect(true, true, true), Interval, Some(60), None, None, None, true, failures, m)
  }

  function Reader(id: string, m: int, read: nat): Execution {
    Execution(id, Finishing(Hourly(m, read), Failed))
  }

  /** Where a history stands: the count, the executions, how many names are taken, and the
      dead letters. */
  datatype Place = Place(count: nat, executing: map<string, Execution>, started: nat, letters: nat)

  /** One configuration, no request under way. */
  ghost predicate At(s: System, id: string, m: int, p: Place) {
    && s.configs == map[id := Hourly(m, p.count)] && s.executing == p.executing && s.requests == map[]
    && s.runs.Keys == Names(0, p.started) && LettersOf(s.letters, id) == p.letters
  }

  /** The marks a history leaves, and that nobody is overtaken in it if it is `clean`. */
  ghost predicate History(events: seq<Event>, id: string, m: int, bound: nat, marks: seq<Mark>, clean: bool) {
    && AllKeepMaximum(events, id, m) && OverlapAtMost(events, id, bound)
    && Marks(events, id) == marks && (clean ==> NeverOvertaken(events, id))
  }

  ghost predicate Leads(events: seq<Event>, id: string, m: int, bound: nat, p: Place, marks: seq<Mark>, clean: bool) {
    History(events, id, m, bound, marks, clean) && At(After(events), id, m, p) && |p.executing| <= bound
  }

  lemma LongerOverlap(events: seq<Event>, e: Event, id: string, bound: nat)
    requires OverlapAtMost(events, id, bound) && |Active(Step(After(events), e), id)| <= bound
    ensures OverlapAtMost(events + [e], id, bound)
  {
    AfterLonger(events, e);
    var longer := events + [e];
    forall n | 0 <= n <= |longer|
      ensures Overlap(longer, id, n) <= bound
    {
      if n == |longer| {
        assert longer[..n] == longer;
      } else {
        assert longer[..n] == events[..n] && Overlap(events, id, n) <= bound;
      }
    }
  }

  lemma LongerClean(events: seq<Event>, e: Event, id: string)
    requires NeverOvertaken(events, id) && !Overtaken(After(events), e, id)
    ensures NeverOvertaken(events + [e], id)
  {
    var longer := events + [e];
    forall n | 0 <= n < |longer|
      ensures !OvertakenAt(longer, n, id)
    {
      assert longer[..n] == events[..n];
      if n < |events| {
        assert !OvertakenAt(events, n, id);
      } else {
        assert events[..n] == events;
      }
    }
  }

  lemma LongerMarks(events: seq<Event>, e: Event, id: string)
    ensures Marks(events + [e], id) == Extended(Marks(events, id), MarkOf(After(events), e, id))
  {
    assert (events + [e])[..|events|] == events;
  }

  lemma ActiveAtMost(s: System, id: string)
    ensures |Active(s, id)| <= |s.executing|
  {
    assert |s.executing| == |s.executing.Keys|;
    SubsetSize(Active(s, id), s.executing.Keys);
  }

  /** One more event: what the history says of it follows from what the step does. */
  lemma Longer(events: seq<Event>, e: Event, id: string, m: int, bound: nat, marks: seq<Mark>, mark: Option<Mark>,
               clean: bool)
    requires History(events, id, m, bound, marks, clean)
    requires KeepsMaximum(e, id, m) && |Step(After(events), e).executing| <= bound
    requires MarkOf(After(events), e, id) == mark && (clean ==> !Overtaken(After(events), e, id))
    ensures After(events + [e]) == Step(After(events), e)
    ensures History(events + [e], id, m, bound, Extended(marks, mark), clean)
  {
    AfterLonger(events, e);
    ActiveAtMost(Step(After(events), e), id);
    LongerOverlap(events, e, id, bound);
    LongerMarks(events, e, id);
    if clean {
      LongerClean(events, e, id);
    }
  }

  lemma NoMark(s: System, e: Event, id: string)
    requires !e.Commit? && !e.Record?
    ensures MarkOf(s, e, id) == None && !Overtaken(s, e, id)
  {
  }

  // ---- executions ----

  function AfterBegin(p: Place, id: string): Place {
    p.(executing := p.executing[Name(p.started) := Execution(id, Working)], started := p.started + 1)
  }

  lemma BeginAt(s: System, id: string, m: int, p: Place)
    requires At(s, id, m, p) && p.count < m && Name(p.started) !in p.executing
    ensures At(Step(s, Begin(id, Name(p.started), false)), id, m, AfterBegin(p, id))
  {
    NamesDiffer(p.started, 0, p.started);
    assert Names(0, p.started + 1) == Names(0, p.started) + {Name(p.started)};
  }

  lemma Begun(events: seq<Event>, id: string, m: int, bound: nat, p: Place, marks: seq<Mark>, clean: bool)
    returns (longer: seq<Event>)
    requires Leads(events, id, m, bound, p, marks, clean)
    requires p.count < m && |p.executing| < bound && Name(p.started) !in p.executing
    ensures Leads(longer, id, m, bound, AfterBegin(p, id), marks, clean)
  {
    var e := Begin(id, Name(p.started), false);
    BeginAt(After(events), id, m, p);
    NoMark(After(events), e, id);
    Longer(events, e, id, m, bound, marks, None, clean);
    longer := events + [e];
  }

  /** The run's collections have failed, and it has read the count. */
  function AfterRead(p: Place, id: string, m: int, r: string): Place {
    p.(executing := p.executing[r := Reader(id, m, p.count)])
  }

  lemma ReadAt(s: System, id: string, m: int, p: Place, j: nat)
    requires At(s, id, m, p) && j < p.started && Name(j) in p.executing
             && p.executing[Name(j)] == Execution(id, Working)
    ensures At(Step(s, Finish(Name(j), DOWN)), id, m, AfterRead(p, id, m, Name(j)))
  {
    DownIsFailed();
    NamesDiffer(j, 0, p.started);
  }

  lemma Read(events: seq<Event>, id: string, m: int, bound: nat, p: Place, marks: seq<Mark>, clean: bool, j: nat)
    returns (longer: seq<Event>)
    requires Leads(events, id, m, bound, p, marks, clean)
    requires j < p.started && Name(j) in p.executing && p.executing[Name(j)] == Execution(id, Working)
    ensures Leads(longer, id, m, bound, AfterRead(p, id, m, Name(j)), marks, clean)
  {
    var e := Finish(Name(j), DOWN);
    ReadAt(After(events), id, m, p, j);
    NoMark(After(events), e, id);
    Longer(events, e, id, m, bound, marks, None, clean);
    longer := events + [e];
  }

  function AfterRecord(p: Place, id: string, m: int, r: string, read: nat): Place {
    p.(count := read + 1,
       executing := if read + 1 >= m then p.executing[r := Execution(id, Dropping)] else p.executing - {r},
       letters := p.letters + if read + 1 >= m then 1 else 0)
  }

  lemma KeysKept<K, V>(t: map<K, V>, k: K, v: V)
    requires k in t
    ensures t[k := v].Keys == t.Keys
  {
  }

  lemma RecordRows(s: System, id: string, m: int, p: Place, j: nat, read: nat)
    requires At(s, id, m, p) && j < p.started && Name(j) in p.executing && p.executing[Name(j)] == Reader(id, m, read)
    ensures
      var s', p' := Step(s, Record(Name(j))), AfterRecord(p, id, m, Name(j), read);
      && s'.configs == map[id := Hourly(m, read + 1)] && s'.executing == p'.executing && s'.requests == map[]
      && s'.runs.Keys == Names(0, p.started)
  {
    NamesDiffer(j, 0, p.started);
    KeysKept(s.runs, Name(j), s.runs[Name(j)].(status := Failed));
  }

  lemma RecordMark(s: System, id: string, m: int, p: Place, j: nat, read: nat)
    requires At(s, id, m, p) && j < p.started && Name(j) in p.executing && p.executing[Name(j)] == Reader(id, m, read)
    ensures
      var e := Record(Name(j));
      && MarkOf(s, e, id) == Some(FailedRun) && (read == p.count ==> !Overtaken(s, e, id))
      && (WritesLetter(s, e, id) <==> read + 1 >= m)
  {
    NamesDiffer(j, 0, p.started);
  }

  lemma RecordAt(s: System, id: string, m: int, p: Place, j: nat, read: nat)
    requires At(s, id, m, p) && j < p.started && Name(j) in p.executing && p.executing[Name(j)] == Reader(id, m, read)
    ensures
      var e := Record(Name(j));
      && At(Step(s, e), id, m, AfterRecord(p, id, m, Name(j), read))
      && MarkOf(s, e, id) == Some(FailedRun) && (read == p.count ==> !Overtaken(s, e, id))
  {
    RecordRows(s, id, m, p, j, read);
    RecordMark(s, id, m, p, j, read);
    RecordLetters(s, Record(Name(j)), id);
  }

  lemma Recorded(events: seq<Event>, id: string, m: int, bound: nat, p: Place, marks: seq<Mark>, clean: bool, j: nat,
                 read: nat)
    returns (longer: seq<Event>)
    requires Leads(events, id, m, bound, p, marks, clean)
    requires j < p.started && Name(j) in p.executing && p.executing[Name(j)] == Reader(id, m, read)
    ensures Leads(longer, id, m, bound, AfterRecord(p, id, m, Name(j), read), marks + [FailedRun],
                  clean && read == p.count)
  {
    var e := Record(Name(j));
    RecordAt(After(events), id, m, p, j, read);
    Longer(events, e, id, m, bound, marks, Some(FailedRun), clean && read == p.count);
    longer := events + [e];
  }

  lemma DropAt(s: System, id: string, m: int, p: Place, r: string)
    requires At(s, id, m, p) && r in p.executing && p.executing[r] == Execution(id, Dropping)
    ensures At(Step(s, Drop(r)), id, m, p.(executing := p.executing - {r}))
  {
  }

  lemma Dropped(events: seq<Event>, id: string, m: int, bound: nat, p: Place, marks: seq<Mark>, clean: bool, r: string)
    returns (longer: seq<Event>)
    requires Leads(events, id, m, bound, p, marks, clean) && r in p.executing
             && p.executing[r] == Execution(id, Dropping)
    ensures Leads(longer, id, m, bound, p.(executing := p.executing - {r}), marks, clean)
  {
    DropAt(After(events), id, m, p, r);
    NoMark(After(events), Drop(r), id);
    Longer(events, Drop(r), id, m, bound, marks, None, clean);
    longer := events + [Drop(r)];
  }

  function AfterFailure(p: Place, m: int, r: string, read: nat): Place {
    p.(count := read + 1, executing := p.executing - {r}, letters := p.letters + if read + 1 >= m then 1 else 0)
  }

  /** A run fails, from what it has read: the count becomes one more than that. */
  lemma RunFails(events: seq<Event>, id: string, m: int, bound: nat, p: Place, marks: seq<Mark>, clean: bool, j: nat,
                 read: nat)
    returns (longer: seq<Event>)
    requires Leads(events, id, m, bound, p, marks, clean)
    requires j < p.started && Name(j) in p.executing && p.executing[Name(j)] == Reader(id, m, read)
    ensures Leads(longer, id, m, bound, AfterFailure(p, m, Name(j), read), marks + [FailedRun],
                  clean && read == p.count)
  {
    longer := Recorded(events, id, m, bound, p, marks, clean, j, read);
    if read + 1 >= m {
      var q := AfterRecord(p, id, m, Name(j), read);
      longer := Dropped(longer, id, m, bound, q, marks + [FailedRun], clean && read == p.count, Name(j));
      assert q.executing - {Name(j)} == p.executing - {Name(j)};
    }
  }

  // ---- requests ----

  /** A creation or an enabling that nothing interrupts, event by event. */
  lemma RequestSteps(s: System, id: string, op: Op)
    requires s.requests == map[] && Accepted(s, id, op) && (op.Creating? || op == Toggling(true))
    ensures
      var asked := Step(s, Ask(0, id, op));
      var registered := Step(asked, Register(0, 0.0));
      var s' := Step(registered, Commit(0));
      && asked.executing == registered.executing == s'.executing == s.executing
      && MarkOf(registered, Commit(0), id) == Some(Restart) && !Overtaken(registered, Commit(0), id)
      && s'.configs == s.configs[id := Wanted(op, Asked(s, id, op).loaded)]
      && s'.runs == s.runs && s'.letters == s.letters && s'.requests == map[]
  {
    UninterruptedRequest(s, 0, id, op, 0.0);
    AskAndRegister(s, 0, id, op, 0.0);
  }

  lemma Requested(events: seq<Event>, id: string, op: Op, m: int, bound: nat, marks: seq<Mark>, clean: bool)
    returns (longer: seq<Event>)
    requires History(events, id, m, bound, marks, clean) && OpKeeps(op, m) && |After(events).executing| <= bound
    requires After(events).requests == map[] && Accepted(After(events), id, op)
             && (op.Creating? || op == Toggling(true))
    ensures After(longer) == Step(Step(Step(After(events), Ask(0, id, op)), Register(0, 0.0)), Commit(0))
    ensures History(longer, id, m, bound, marks + [Restart], clean)
  {
    RequestSteps(After(events), id, op);
    longer := Unmarked(events, Ask(0, id, op), id, m, bound, marks, clean);
    longer := Unmarked(longer, Register(0, 0.0), id, m, bound, marks, clean);
    Longer(longer, Commit(0), id, m, bound, marks, Some(Restart), clean);
    longer := longer + [Commit(0)];
  }

  lemma Unmarked(events: seq<Event>, e: Event, id: string, m: int, bound: nat, marks: seq<Mark>, clean: bool)
    returns (longer: seq<Event>)
    requires History(events, id, m, bound, marks, clean) && KeepsMaximum(e, id, m)
    requires !e.Commit? && !e.Record? && |Step(After(events), e).executing| <= bound
    ensures After(longer) == Step(After(events), e) && History(longer, id, m, bound, marks, clean)
  {
    NoMark(After(events), e, id);
    Longer(events, e, id, m, bound, marks, None, clean);
    longer := events + [e];
  }

  const NOWHERE: Place := Place(0, map[], 0, 0)

  lemma Created(id: string, m: int, bound: nat) returns (events: seq<Event>)
    ensures Leads(events, id, m, bound, NOWHERE, [Restart], true)
  {
    var none: seq<Event> := [];
    assert none[..0] == none && Active(EMPTY, id) == {};
    assert Names(0, 0) == {};
    RequestSteps(EMPTY, id, Creating(Hourly(m, 0)));
    events := Requested(none, id, Creating(Hourly(m, 0)), m, bound, [], true);
    assert [] + [Restart] == [Restart];
  }

  lemma Toggled(events: seq<Event>, id: string, m: int, bound: nat, p: Place, marks: seq<Mark>, clean: bool)
    returns (longer: seq<Event>)
    requires Leads(events, id, m, bound, p, marks, clean)
    ensures Leads(longer, id, m, bound, p.(count := 0), marks + [Restart], clean)
  {
    ToggleAt(After(events), id, m, p);
    longer := Requested(events, id, Toggling(true), m, bound, marks, clean);
  }

  lemma ToggleAt(s: System, id: string, m: int, p: Place)
    requires At(s, id, m, p)
    ensures At(Step(Step(Step(s, Ask(0, id, Toggling(true))), Register(0, 0.0)), Commit(0)), id, m, p.(count := 0))
  {
    RequestSteps(s, id, Toggling(true));
    assert map[id := Hourly(m, p.count)][id := Hourly(m, 0)] == map[id := Hourly(m, 0)];
  }

  // ---- the overlap bound is reached ----

  ghost function Workers(id: string, lo: nat, hi: nat): map<string, Execution> {
    if lo >= hi then map[] else Workers(id, lo, hi - 1)[Name(hi - 1) := Execution(id, Working)]
  }

  lemma {:induction false} WorkersAre(id: string, lo: nat, hi: nat)
    requires lo <= hi
    ensures Workers(id, lo, hi).Keys == Names(lo, hi) && |Workers(id, lo, hi)| == hi - lo
    decreases hi
  {
    if lo < hi {
      WorkersAre(id, lo, hi - 1);
      NamesDiffer(hi - 1, lo, hi - 1);
    }
  }

  lemma {:induction false} WorkersFewer(id: string, lo: nat, hi: nat)
    requires lo < hi
    ensures Name(lo) in Workers(id, lo, hi) && Workers(id, lo, hi)[Name(lo)] == Execution(id, Working)
    ensures Workers(id, lo, hi) - {Name(lo)} == Workers(id, lo + 1, hi)
    decreases hi
  {
    if lo + 1 == hi {
      assert Workers(id, lo, lo) == map[];
    } else {
      WorkersFewer(id, lo, hi - 1);
      NameDiffers(lo, hi - 1);
    }
  }

  /** The first `failed` runs have failed one after the other, the next ones up to `begun`
      are at work. */
  ghost function Standing(id: string, m: int, failed: nat, begun: nat): Place {
    Place(failed, Workers(id, failed, begun), begun, if failed >= m then failed - m + 1 else 0)
  }

  lemma StandingMore(id: string, m: int, failed: nat, begun: nat)
    requires failed <= begun
    ensures
      var p := Standing(id, m, failed, begun);
      && |p.executing| == begun - failed && Name(begun) !in p.executing
      && AfterBegin(p, id) == Standing(id, m, failed, begun + 1)
  {
    NamesDiffer(begun, failed, begun);
    WorkersAre(id, failed, begun);
  }

  lemma BeginNext(events: seq<Event>, id: string, m: int, bound: nat, failed: nat, begun: nat, marks: seq<Mark>)
    returns (longer: seq<Event>)
    requires failed < m && failed <= begun < failed + bound
    requires Leads(events, id, m, bound, Standing(id, m, failed, begun), marks, true)
    ensures Leads(longer, id, m, bound, Standing(id, m, failed, begun + 1), marks, true)
  {
    StandingMore(id, m, failed, begun);
    longer := Begun(events, id, m, bound, Standing(id, m, failed, begun), marks, true);
  }

  lemma StandingFails(id: string, m: int, failed: nat, begun: nat)
    requires m >= 1 && failed < begun
    ensures
      var p, r := Standing(id, m, failed, begun), Name(failed);
      && r in p.executing && p.executing[r] == Execution(id, Working)
      && AfterFailure(AfterRead(p, id, m, r), m, r, failed) == Standing(id, m, failed + 1, begun)
  {
    var p, r := Standing(id, m, failed, begun), Name(failed);
    WorkersFewer(id, failed, begun);
    assert p.executing[r := Reader(id, m, failed)] - {r} == p.executing - {r};
  }

  lemma FailNext(events: seq<Event>, id: string, m: int, bound: nat, failed: nat, begun: nat, marks: seq<Mark>)
    returns (longer: seq<Event>)
    requires m >= 1 && failed < begun
    requires Leads(events, id, m, bound, Standing(id, m, failed, begun), marks, true)
    ensures Leads(longer, id, m, bound, Standing(id, m, failed + 1, begun), marks + [FailedRun], true)
  {
    var p, r := Standing(id, m, failed, begun), Name(failed);
    StandingFails(id, m, failed, begun);
    longer := Read(events, id, m, bound, p, marks, true, failed);
    longer := RunFails(longer, id, m, bound, AfterRead(p, id, m, r), marks, true, failed, failed);
  }

  lemma StandingStill(id: string, m: int)
    requires m >= 1
    ensures Standing(id, m, 0, 0) == NOWHERE
  {
  }

  /** Failures one at a time, up to the one below the maximum. */
  lemma {:induction false} FailInTurn(id: string, m: int, bound: nat, n: nat)
    returns (events: seq<Event>, marks: seq<Mark>)
    requires n < m && bound >= 1
    ensures Leads(events, id, m, bound, Standing(id, m, n, n), marks, true)
  {
    if n == 0 {
      StandingStill(id, m);
      marks := [Restart];
      events := Created(id, m, bound);
    } else {
      events, marks := FailInTurn(id, m, bound, n - 1);
      events := BeginNext(events, id, m, bound, n - 1, n - 1, marks);
      events := FailNext(events, id, m, bound, n - 1, n, marks);
      marks := marks + [FailedRun];
    }
  }

  lemma {:induction false} BeginMany(events: seq<Event>, id: string, m: int, bound: nat, failed: nat, begun: nat,
                                     marks: seq<Mark>)
    returns (longer: seq<Event>)
    requires failed < m && failed <= begun <= failed + bound
    requires Leads(events, id, m, bound, Standing(id, m, failed, failed), marks, true)
    ensures Leads(longer, id, m, bound, Standing(id, m, failed, begun), marks, true)
    decreases begun
  {
    if begun == failed {
      longer := events;
    } else {
      var n: nat := begun - 1;
      var fewer := BeginMany(events, id, m, bound, failed, n, marks);
      longer := BeginNext(fewer, id, m, bound, failed, n, marks);
    }
  }

  lemma {:induction false} FailMany(events: seq<Event>, id: string, m: int, bound: nat, failed: nat, begun: nat,
                                    marks: seq<Mark>)
    returns (longer: seq<Event>, marks': seq<Mark>)
    requires m >= 1 && failed <= begun && Leads(events, id, m, bound, Standing(id, m, failed, begun), marks, true)
    ensures Leads(longer, id, m, bound, Standing(id, m, begun, begun), marks', true)
    decreases begun - failed
  {
    if failed == begun {
      longer, marks' := events, marks;
    } else {
      var next := FailNext(events, id, m, bound, failed, begun, marks);
      longer, marks' := FailMany(next, id, m, bound, failed + 1, begun, marks + [FailedRun]);
    }
  }

  /** `n` failures in turn, and then as many at once as may overlap. */
  lemma AllFail(id: string, m: int, bound: nat, n: nat, last: nat) returns (events: seq<Event>, marks: seq<Mark>)
    requires n < m && bound >= 1 && last == n + bound
    ensures Leads(events, id, m, bound, Standing(id, m, last, last), marks, true)
  {
    events, marks := FailInTurn(id, m, bound, n);
    events := BeginMany(events, id, m, bound, n, last, marks);
    events, marks := FailMany(events, id, m, bound, n, last, marks);
  }

  /** What such a history says of the count and the dead letters. */
  lemma Arrived(events: seq<Event>, id: string, m: int, bound: nat, p: Place, marks: seq<Mark>, clean: bool)
    requires Leads(events, id, m, bound, p, marks, clean)
    ensures AllKeepMaximum(events, id, m) && OverlapAtMost(events, id, bound) && (clean ==> NeverOvertaken(events, id))
    ensures id in After(events).configs && After(events).configs[id].failures == p.count
    ensures LettersOf(After(events).letters, id) == p.letters && Marks(events, id) == marks
  {
  }

  /** The overlap bound is reached, for every maximum and every overlap, with no writer
      overtaken: from the empty system the count comes to the maximum less one plus the
      overlap, with a dead letter for each failure from the maximum on. */
  lemma OverlapBoundIsReached(id: string, m: int, bound: nat) returns (events: seq<Event>)
    requires m >= 1 && bound >= 1
    ensures AllKeepMaximum(events, id, m) && OverlapAtMost(events, id, bound) && NeverOvertaken(events, id)
    ensures id in After(events).configs && After(events).configs[id].failures == m - 1 + bound
    ensures LettersOf(After(events).letters, id) == bound
  {
    var last: nat := m - 1 + bound;
    var marks;
    events, marks := AllFail(id, m, bound, m - 1, last);
    Arrived(events, id, m, bound, Standing(id, m, last, last), marks, true);
  }

  /** Two overlapping executions that fail: the count passes the maximum and a second
      dead letter is written. */
  lemma OverlapPassesMaximum(id: string, m: int) returns (events: seq<Event>)
    requires m >= 1
    ensures AllKeepMaximum(events, id, m) && OverlapAtMost(events, id, 2) && NeverOvertaken(events, id)
    ensures id in After(events).configs && After(events).configs[id].failures == m + 1
    ensures LettersOf(After(events).letters, id) == 2
  {
    events := OverlapBoundIsReached(id, m, 2);
  }

  ghost predicate PassesMaximum(events: seq<Event>, id: string, m: int, bound: nat) {
    && AllKeepMaximum(events, id, m) && OverlapAtMost(events, id, bound)
    && id in After(events).configs && After(events).configs[id].failures > m
  }

  /** No history, whoever is overtaken in it, passes the maximum exactly when executions
      may not overlap. */
  lemma MaximumHoldsIffSequential(id: string, m: int, bound: nat)
    requires m >= 1
    ensures (forall events :: !PassesMaximum(events, id, m, bound)) <==> bound <= 1
  {
    if bound <= 1 {
      forall events
        ensures !PassesMaximum(events, id, m, bound)
      {
        if AllKeepMaximum(events, id, m) && OverlapAtMost(events, id, bound) {
          forall n | 0 <= n <= |events|
            ensures Overlap(events, id, n) <= 1
          {
          }
          SequentialIsCalm(events, id, m);
        }
      }
    } else {
      var events := OverlapBoundIsReached(id, m, bound);
      assert PassesMaximum(events, id, m, bound);
    }
  }

  // ---- writers that are overtaken ----

  lemma TwoBegun(id: string, m: int) returns (events: seq<Event>)
    requires m >= 1
    ensures Leads(events, id, m, 2, Standing(id, m, 0, 2), [Restart], true)
  {
    StandingStill(id, m);
    events := Created(id, m, 2);
    events := BeginNext(events, id, m, 2, 0, 0, [Restart]);
    events := BeginNext(events, id, m, 2, 0, 1, [Restart]);
  }

  function TwoReaders(id: string, m: int): Place {
    Place(0, map[Name(0) := Reader(id, m, 0), Name(1) := Reader(id, m, 0)], 2, 0)
  }

  lemma ReadersAgree(id: string, m: int)
    requires m >= 1
    ensures
      var p := Standing(id, m, 0, 2);
      && p.executing == map[Name(0) := Execution(id, Working), Name(1) := Execution(id, Working)]
      && AfterRead(AfterRead(p, id, m, Name(0)), id, m, Name(1)) == TwoReaders(id, m)
  {
    NameDiffers(0, 1);
    assert Workers(id, 0, 0) == map[] && Workers(id, 0, 1) == map[Name(0) := Execution(id, Working)];
  }

  lemma BothRead(id: string, m: int) returns (events: seq<Event>)
    requires m >= 1
    ensures Leads(events, id, m, 2, TwoReaders(id, m), [Restart], true)
  {
    events := TwoBegun(id, m);
    ReadersAgree(id, m);
    NameDiffers(0, 1);
    var p := Standing(id, m, 0, 2);
    events := Read(events, id, m, 2, p, [Restart], true, 0);
    events := Read(events, id, m, 2, AfterRead(p, id, m, Name(0)), [Restart], true, 1);
  }

  lemma BothFail(id: string, m: int) returns (events: seq<Event>)
    requires m >= 2
    ensures Leads(events, id, m, 2, Place(1, map[], 2, 0), [Restart] + [FailedRun] + [FailedRun], false)
  {
    var p, once := TwoReaders(id, m), AfterFailure(TwoReaders(id, m), m, Name(0), 0);
    FailedBoth(id, m);
    events := BothRead(id, m);
    events := RunFails(events, id, m, 2, p, [Restart], true, 0, 0);
    events := RunFails(events, id, m, 2, once, [Restart] + [FailedRun], true, 1, 0);
  }

  lemma FailedBoth(id: string, m: int)
    requires m >= 2
    ensures
      var p := TwoReaders(id, m);
      var once := AfterFailure(p, m, Name(0), 0);
      && Name(0) != Name(1) && once == Place(1, map[Name(1) := Reader(id, m, 0)], 2, 0)
      && AfterFailure(once, m, Name(1), 0) == Place(1, map[], 2, 0)
  {
    NameDiffers(0, 1);
  }

  /** A failure is lost: two runs overlap, both read a count of zero, and both fail. The
      count is one, no dead letter is written at a maximum of two, and the guard lets the
      next execution pass. */
  lemma LostFailure(id: string, m: int) returns (events: seq<Event>)
    requires m >= 2
    ensures AllKeepMaximum(events, id, m) && OverlapAtMost(events, id, 2)
    ensures Trailing(Marks(events, id)) == 2 && LettersOf(After(events).letters, id) == 0
    ensures id in After(events).configs && After(events).configs[id].failures == 1
    ensures Admits(After(events), id, Name(2), false)
  {
    events := BothFail(id, m);
    Arrived(events, id, m, 2, Place(1, map[], 2, 0), [Restart] + [FailedRun] + [FailedRun], false);
    MarkAppended([Restart], FailedRun, m);
    MarkAppended([Restart] + [FailedRun], FailedRun, m);
    NamesDiffer(2, 0, 2);
  }

  /** One run at work that has read the count it is to raise. */
  function Climbing(id: string, m: int, n: nat, letters: nat): Place {
    Place(n, map[Name(n) := Reader(id, m, n)], n + 1, letters)
  }

  /** Between the run's read and its commit the configuration is enabled again and the
      next execution passes the guard. */
  lemma EnabledBetween(events: seq<Event>, id: string, m: int, p: Place, marks: seq<Mark>) returns (longer: seq<Event>)
    requires m >= 1 && Leads(events, id, m, 2, p, marks, false) && |p.executing| == 1 && Name(p.started) !in p.executing
    ensures Leads(longer, id, m, 2, AfterBegin(p.(count := 0), id), marks + [Restart], false)
  {
    longer := Toggled(events, id, m, 2, p, marks, false);
    longer := Begun(longer, id, m, 2, p.(count := 0), marks + [Restart], false);
  }

  /** The place after that, once the run has failed and the next has read. */
  lemma ClimbPlace(id: string, m: int, n: nat, letters: nat) returns (p: Place, letters': nat)
    ensures p == AfterBegin(Climbing(id, m, n, letters).(count := 0), id)
    ensures Name(n + 1) != Name(n) && Name(n) in p.executing && p.executing[Name(n)] == Reader(id, m, n)
    ensures p.executing - {Name(n)} == map[Name(n + 1) := Execution(id, Working)]
    ensures letters' == AfterFailure(p, m, Name(n), n).letters
    ensures AfterRead(AfterFailure(p, m, Name(n), n), id, m, Name(n + 1)) == Climbing(id, m, n + 1, letters')
  {
    NameDiffers(n, n + 1);
    p := AfterBegin(Climbing(id, m, n, letters).(count := 0), id);
    letters' := AfterFailure(p, m, Name(n), n).letters;
  }

  lemma ClimbOne(events: seq<Event>, id: string, m: int, n: nat, letters: nat, marks: seq<Mark>)
    returns (longer: seq<Event>, letters': nat, marks': seq<Mark>)
    requires m >= 1 && Leads(events, id, m, 2, Climbing(id, m, n, letters), marks, false)
    ensures Leads(longer, id, m, 2, Climbing(id, m, n + 1, letters'), marks', false)
  {
    var p;
    p, letters' := ClimbPlace(id, m, n, letters);
    longer := EnabledBetween(events, id, m, Climbing(id, m, n, letters), marks);
    longer := RunFails(longer, id, m, 2, p, marks + [Restart], false, n, n);
    marks' := marks + [Restart] + [FailedRun];
    longer := Read(longer, id, m, 2, AfterFailure(p, m, Name(n), n), marks', false, n + 1);
  }

  lemma FirstReads(id: string, m: int) returns (events: seq<Event>)
    requires m >= 1
    ensures Leads(events, id, m, 2, Climbing(id, m, 0, 0), [Restart], true)
  {
    StandingStill(id, m);
    events := Created(id, m, 2);
    events := Begun(events, id, m, 2, NOWHERE, [Restart], true);
    events := Read(events, id, m, 2, AfterBegin(NOWHERE, id), [Restart], true, 0);
    assert AfterRead(AfterBegin(NOWHERE, id), id, m, Name(0)) == Climbing(id, m, 0, 0);
  }

  lemma {:induction false} Climb(id: string, m: int, n: nat)
    returns (events: seq<Event>, letters: nat, marks: seq<Mark>)
    requires m >= 1
    ensures Leads(events, id, m, 2, Climbing(id, m, n, letters), marks, false)
  {
    if n == 0 {
      letters, marks := 0, [Restart];
      events := FirstReads(id, m);
    } else {
      events, letters, marks := Climb(id, m, n - 1);
      events, letters, marks := ClimbOne(events, id, m, n - 1, letters, marks);
    }
  }

  /** Where writers may be overtaken there is no bound at all: with at most two executions
      overlapping, any count is reached at any maximum. */
  lemma OvertakenCountsHaveNoBound(id: string, m: int, n: nat) returns (events: seq<Event>)
    requires m >= 1
    ensures AllKeepMaximum(events, id, m) && OverlapAtMost(events, id, 2)
    ensures id in After(events).configs && After(events).configs[id].failures == n
  {
    var letters, marks;
    events, letters, marks := Climb(id, m, n);
  }

  // ---- jobs left behind ----

  lemma Twice(events: seq<Event>, a: Event, b: Event) returns (longer: seq<Event>)
    ensures After(longer) == Step(Step(After(events), a), b)
  {
    AfterLonger(events, a);
    AfterLonger(events + [a], b);
    longer := events + [a] + [b];
  }

  /** A creation enters its job and then fails to commit: the job has no configuration. */
  lemma RolledBackCreation(id: string, m: int) returns (events: seq<Event>)
    requires m >= 1
    ensures AtRest(After(events)) && After(events).jobs == {id} && After(events).configs == map[]
  {
    var none: seq<Event> := [];
    var data := Hourly(m, 0);
    var entered := Twice(none, Ask(0, id, Creating(data)), Register(0, 0.0));
    AfterLonger(entered, Rollback(0));
    events := entered + [Rollback(0)];
    AskAndRegister(EMPTY, 0, id, Creating(data), 0.0);
  }

  /** A run has crashed and been counted, and is about to read the configuration again. */
  ghost predicate Crashed(s: System, id: string, m: int) {
    && s.configs == map[id := Hourly(m, 1)] && s.requests == map[]
    && s.executing == map[Name(0) := Execution(id, Rereading)]
  }

  lemma CrashAt(s: System, id: string, m: int)
    requires m >= 2 && At(s, id, m, AfterBegin(NOWHERE, id))
    ensures Crashed(Step(Step(s, Crash(Name(0))), Record(Name(0))), id, m)
  {
    NamesDiffer(0, 0, 1);
    assert map[id := Hourly(m, 0)][id := Hourly(m, 1)] == map[id := Hourly(m, 1)];
  }

  lemma OneCrash(id: string, m: int) returns (events: seq<Event>)
    requires m >= 2
    ensures Crashed(After(events), id, m)
  {
    var begun := Created(id, m, 2);
    begun := Begun(begun, id, m, 2, NOWHERE, [Restart], true);
    CrashAt(After(begun), id, m);
    events := Twice(begun, Crash(Name(0)), Record(Name(0)));
  }

  function Unwanted(id: string, m: int, op: Op): map<string, Config> {
    if op.Deleting? then map[] else map[id := Hourly(m, 1).(enabled := false)]
  }

  /** The request has dropped the job, and not committed yet. */
  lemma RequestDrops(s: System, id: string, m: int, op: Op)
    requires m >= 2 && Crashed(s, id, m) && (op == Deleting || op == Toggling(false))
    ensures
      var t := Step(Step(s, Ask(0, id, op)), Register(0, 0.0));
      && t.configs == s.configs && t.executing == s.executing && id !in t.jobs
      && t.requests == map[0 := Request(id, op, Hourly(m, 1), true)]
  {
    AskAndRegister(s, 0, id, op, 0.0);
  }

  /** The run reads the configuration as it still is, and enters the job again. */
  lemma CrashReenters(t: System, id: string, m: int, requests: map<nat, Request>)
    requires m >= 2 && t.configs == map[id := Hourly(m, 1)] && t.requests == requests
    requires t.executing == map[Name(0) := Execution(id, Rereading)]
    ensures
      var u := Step(Step(t, Reread(Name(0))), Reschedule(Name(0), 0.0));
      u.configs == t.configs && u.executing == map[] && u.requests == requests && id in u.jobs
  {
  }

  lemma CommitsTooLate(u: System, id: string, m: int, op: Op)
    requires m >= 2 && u.configs == map[id := Hourly(m, 1)] && (op == Deleting || op == Toggling(false))
    requires u.requests == map[0 := Request(id, op, Hourly(m, 1), true)] && u.executing == map[]
    ensures
      var v := Step(u, Commit(0));
      v.configs == Unwanted(id, m, op) && v.jobs == u.jobs && v.executing == map[] && v.requests == map[]
  {
    CommitOutcome(u, 0);
    assert map[id := Hourly(m, 1)][id := Hourly(m, 1).(enabled := false)] == map[id := Hourly(m, 1).(enabled := false)];
    assert map[id := Hourly(m, 1)] - {id} == map[];
  }

  /** A crashed run reads the configuration after a deletion, or a disabling, has dropped
      its job and before it commits: the job is entered again and stays, without a
      configuration, or with a disabled one. */
  lemma ReenteredJob(id: string, m: int, op: Op) returns (events: seq<Event>)
    requires m >= 2 && (op == Deleting || op == Toggling(false))
    ensures AtRest(After(events)) && id in After(events).jobs && !Healthy(After(events))
    ensures After(events).configs == Unwanted(id, m, op)
  {
    var crashed := OneCrash(id, m);
    var s := After(crashed);
    RequestDrops(s, id, m, op);
    var dropped := Twice(crashed, Ask(0, id, op), Register(0, 0.0));
    CrashReenters(After(dropped), id, m, map[0 := Request(id, op, Hourly(m, 1), true)]);
    var entered := Twice(dropped, Reread(Name(0)), Reschedule(Name(0), 0.0));
    CommitsTooLate(After(entered), id, m, op);
    AfterLonger(entered, Commit(0));
    events := entered + [Commit(0)];
  }
}
