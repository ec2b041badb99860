/** What a configuration's count of failures means over every interleaving: the failed
    runs since the last restart exactly as long as no writer is overtaken by another
    between its read and its commit. */
module SchedulerCounts {
  import opened Basics
  import opened SchedulerFailures
  import opened Wrappers

  /** What the history says of one configuration: a run failed, or the count restarted. */
  datatype Mark = FailedRun | Restart

  predicate Restarts(op: Op) {
    op.Creating? || (op.Toggling? && op.on) || op.Retrying?
  }

  /** The event commits a request on the configuration. */
  predicate Commits(s: System, e: Event, id: string) {
    && e.Commit? && e.q in s.requests && s.requests[e.q].registered && s.requests[e.q].id == id
    && Applies(s.configs, s.requests[e.q])
  }

  /** The event commits the outcome of one of the configuration's runs. */
  predicate Records(s: System, e: Event, id: string) {
    && e.Record? && e.run in s.executing && s.executing[e.run].id == id && Recording(s.executing[e.run])
    && e.run in s.runs && id in s.configs
  }

  function MarkOf(s: System, e: Event, id: string): Option<Mark> {
    if Commits(s, e, id) then
      if Restarts(s.requests[e.q].op) then Some(Restart) else None
    else if Records(s, e, id) then
      Some(if VerdictOf(s.executing[e.run]).Failed? then FailedRun else Restart)
    else None
  }

  function Marks(events: seq<Event>, id: string): seq<Mark> {
    if events == [] then []
    else
      var n := |events| - 1;
      Extended(Marks(events[..n], id), MarkOf(After(events[..n]), events[n], id))
  }

  function Extended(marks: seq<Mark>, mark: Option<Mark>): seq<Mark> {
    match mark
    case None => marks
    case Some(m) => marks + [m]
  }

  /** The failed runs since the last restart. */
  function Trailing(marks: seq<Mark>): nat {
    if marks == [] || marks[|marks| - 1].Restart? then 0 else 1 + Trailing(marks[..|marks| - 1])
  }

  /** How often a failed run brought the trailing failures to the maximum or beyond. */
  function Exhaustions(marks: seq<Mark>, m: int): nat {
    if marks == [] then 0
    else Exhaustions(marks[..|marks| - 1], m) + if marks[|marks| - 1].FailedRun? && Trailing(marks) >= m then 1 else 0
  }

  function LettersOf(letters: seq<Letter>, id: string): nat {
    if letters == [] then 0
    else
      var n := |letters| - 1;
      LettersOf(letters[..n], id) + if letters[n].config == id then 1 else 0
  }

  lemma {:induction false} LettersOfUpdate(letters: seq<Letter>, i: nat, l: Letter, id: string)
    requires i < |letters| && l.config == letters[i].config
    ensures LettersOf(letters[i := l], id) == LettersOf(letters, id)
  {
    var n := |letters| - 1;
    if i < n {
      assert letters[i := l][..n] == letters[..n][i := l];
      LettersOfUpdate(letters[..n], i, l, id);
    } else {
      assert letters[i := l][..n] == letters[..n];
    }
  }

  lemma LettersOfAppend(letters: seq<Letter>, l: Letter, id: string)
    ensures LettersOf(letters + [l], id) == LettersOf(letters, id) + if l.config == id then 1 else 0
  {
    assert (letters + [l])[..|letters|] == letters;
  }

  lemma MarkAppended(marks: seq<Mark>, mark: Mark, m: int)
    ensures Trailing(marks + [mark]) == if mark.FailedRun? then Trailing(marks) + 1 else 0
    ensures Exhaustions(marks + [mark], m)
         == Exhaustions(marks, m) + if mark.FailedRun? && Trailing(marks) + 1 >= m then 1 else 0
  {
    assert (marks + [mark])[..|marks|] == marks;
  }

  // ---- who is overtaken ----

  /** The count that the writer of a mark has read; a creation reads none. */
  function CountRead(s: System, e: Event, id: string): Option<nat>
    requires MarkOf(s, e, id).Some?
  {
    if e.Record? then Some(s.executing[e.run].phase.loaded.failures)
    else if s.requests[e.q].op.Creating? then None
    else Some(s.requests[e.q].loaded.failures)
  }

  function ReadOf(s: System, e: Event, id: string): Option<nat> {
    if MarkOf(s, e, id).Some? then CountRead(s, e, id) else None
  }

  /** One more than a count that is no longer the stored one is written; or a restart is
      not written, because the count was zero when it was read, and is not any more. */
  predicate Overtakes(s: System, mark: Option<Mark>, read: Option<nat>, id: string) {
    match mark
    case None => false
    case Some(FailedRun) => id in s.configs && read != Some(s.configs[id].failures)
    case Some(Restart) => id in s.configs && read == Some(0) && s.configs[id].failures != 0
  }

  predicate Overtaken(s: System, e: Event, id: string) {
    Overtakes(s, MarkOf(s, e, id), ReadOf(s, e, id), id)
  }

  predicate OvertakenAt(events: seq<Event>, n: nat, id: string)
    requires n < |events|
  {
    Overtaken(After(events[..n]), events[n], id)
  }

  ghost predicate NeverOvertaken(events: seq<Event>, id: string) {
    forall n :: 0 <= n < |events| ==> !OvertakenAt(events, n, id)
  }

  // ---- the maximum stays ----

  predicate OpKeeps(op: Op, m: int) {
    match op
    case Creating(data) => data.maxFailures == m
    case Updating(patch) => patch.maxFailures.Some? ==> patch.maxFailures.value == m
    case _ => true
  }

  /** The configuration's maximum is `m` whenever a request sets it. */
  predicate KeepsMaximum(e: Event, id: string, m: int) {
    e.Ask? && e.id == id ==> OpKeeps(e.op, m)
  }

  ghost predicate AllKeepMaximum(events: seq<Event>, id: string, m: int) {
    forall n :: 0 <= n < |events| ==> KeepsMaximum(events[n], id, m)
  }

  predicate ReadMaximum(x: Execution, m: int) {
    LoadedBy(x).Some? ==> LoadedBy(x).value.maxFailures == m
  }

  predicate AskedMaximum(r: Request, m: int) {
    OpKeeps(r.op, m) && r.loaded.maxFailures == m
  }

  /** It is `m` in the table and in whatever has been read and not been written yet. */
  ghost predicate MaximumIs(s: System, id: string, m: int) {
    && (id in s.configs ==> s.configs[id].maxFailures == m)
    && (forall q :: q in s.requests && s.requests[q].id == id ==> AskedMaximum(s.requests[q], m))
    && (forall r :: r in s.executing && s.executing[r].id == id ==> ReadMaximum(s.executing[r], m))
  }

  lemma OutcomeMaximum(configs: map<string, Config>, r: Request, id: string, m: int)
    requires (id in configs ==> configs[id].maxFailures == m) && (r.id == id ==> AskedMaximum(r, m))
    ensures id in Outcome(configs, r) ==> Outcome(configs, r)[id].maxFailures == m
  {
  }

  lemma StoredMaximum(s: System, e: Event, id: string, m: int)
    requires MaximumIs(s, id, m) && id in Step(s, e).configs
    ensures Step(s, e).configs[id].maxFailures == m
  {
    if e.Commit? && e.q in s.requests && s.requests[e.q].registered {
      CommitOutcome(s, e.q);
      OutcomeMaximum(s.configs, s.requests[e.q], id, m);
    }
  }

  lemma AskedMaximumStays(s: System, e: Event, id: string, m: int, q: nat)
    requires MaximumIs(s, id, m) && KeepsMaximum(e, id, m)
    requires q in Step(s, e).requests && Step(s, e).requests[q].id == id
    ensures AskedMaximum(Step(s, e).requests[q], m)
  {
    RequestStep(s, e, q);
  }

  lemma ReadMaximumStays(s: System, e: Event, id: string, m: int, r: string)
    requires MaximumIs(s, id, m) && r in Step(s, e).executing && Step(s, e).executing[r].id == id
    ensures ReadMaximum(Step(s, e).executing[r], m)
  {
    ExecutionStep(s, e, r);
  }

  lemma MaximumStep(s: System, e: Event, id: string, m: int)
    requires MaximumIs(s, id, m) && KeepsMaximum(e, id, m)
    ensures MaximumIs(Step(s, e), id, m)
  {
    var s' := Step(s, e);
    if id in s'.configs {
      StoredMaximum(s, e, id, m);
    }
    forall q | q in s'.requests && s'.requests[q].id == id
      ensures AskedMaximum(s'.requests[q], m)
    {
      AskedMaximumStays(s, e, id, m, q);
    }
    forall r | r in s'.executing && s'.executing[r].id == id
      ensures ReadMaximum(s'.executing[r], m)
    {
      ReadMaximumStays(s, e, id, m, r);
    }
  }

  lemma {:induction false} MaximumThroughout(events: seq<Event>, id: string, m: int)
    requires AllKeepMaximum(events, id, m)
    ensures MaximumIs(After(events), id, m)
  {
    if events != [] {
      var n := |events| - 1;
      MaximumThroughout(events[..n], id, m);
      MaximumStep(After(events[..n]), events[n], id, m);
    }
  }

  // ---- one step ----

  /** What a step makes of the count: the mark's writer goes by what it has read. */
  ghost predicate CountFollows(s: System, s': System, mark: Option<Mark>, read: Option<nat>, id: string) {
    match mark
    case None => id in s'.configs ==> id in s.configs && s'.configs[id].failures == s.configs[id].failures
    case Some(FailedRun) =>
      id in s.configs && id in s'.configs && read.Some? && s'.configs[id].failures == read.value + 1
    case Some(Restart) =>
      && id in s'.configs && (read.Some? ==> id in s.configs)
      && s'.configs[id].failures == if read == Some(0) then s.configs[id].failures else 0
  }

  lemma OutcomeCount(s: System, e: Event, id: string)
    requires Commits(s, e, id)
    ensures CountFollows(s, s.(configs := Outcome(s.configs, s.requests[e.q])), MarkOf(s, e, id), ReadOf(s, e, id), id)
  {
  }

  lemma CommitCount(s: System, e: Event, id: string)
    requires e.Commit?
    ensures CountFollows(s, Step(s, e), MarkOf(s, e, id), ReadOf(s, e, id), id)
  {
    if e.q in s.requests && s.requests[e.q].registered {
      CommitOutcome(s, e.q);
    }
    if Commits(s, e, id) {
      OutcomeCount(s, e, id);
    }
  }

  lemma RecordCount(s: System, e: Event, id: string)
    requires e.Record?
    ensures CountFollows(s, Step(s, e), MarkOf(s, e, id), ReadOf(s, e, id), id)
  {
  }

  lemma OtherCount(s: System, e: Event, id: string)
    requires !e.Commit? && !e.Record?
    ensures MarkOf(s, e, id) == None && Step(s, e).configs == s.configs
  {
  }

  lemma CountStep(s: System, e: Event, id: string)
    ensures CountFollows(s, Step(s, e), MarkOf(s, e, id), ReadOf(s, e, id), id)
  {
    if e.Commit? {
      CommitCount(s, e, id);
    } else if e.Record? {
      RecordCount(s, e, id);
    } else {
      OtherCount(s, e, id);
    }
  }

  predicate WritesLetter(s: System, e: Event, id: string) {
    Records(s, e, id) && NewCount(s.executing[e.run]) >= s.executing[e.run].phase.loaded.maxFailures
  }

  lemma RecordLetters(s: System, e: Event, id: string)
    requires e.Record?
    ensures LettersOf(Step(s, e).letters, id) == LettersOf(s.letters, id) + if WritesLetter(s, e, id) then 1 else 0
  {
    if e.run in s.executing && Recording(s.executing[e.run]) {
      var x := s.executing[e.run];
      LettersOfAppend(s.letters, Letter(x.id, e.run, NewCount(x), x.phase.loaded.maxFailures, Pending), id);
    }
  }

  lemma RequestLetters(s: System, e: Event, id: string)
    requires !e.Record?
    ensures LettersOf(Step(s, e).letters, id) == LettersOf(s.letters, id)
  {
    if e.Commit? && e.q in s.requests && s.requests[e.q].op.Retrying? && s.requests[e.q].op.letter < |s.letters| {
      var i := s.requests[e.q].op.letter;
      LettersOfUpdate(s.letters, i, s.letters[i].(status := Retried), id);
    }
    if e.Abandon? && e.letter < |s.letters| {
      LettersOfUpdate(s.letters, e.letter, s.letters[e.letter].(status := Abandoned), id);
    }
  }

  ghost predicate Accounts(s: System, marks: seq<Mark>, id: string, m: int) {
    && (id in s.configs ==> s.configs[id].failures == Trailing(marks))
    && LettersOf(s.letters, id) == Exhaustions(marks, m)
  }

  lemma RecordedMaximum(s: System, e: Event, id: string, m: int)
    requires MaximumIs(s, id, m) && Records(s, e, id)
    ensures s.executing[e.run].phase.loaded.maxFailures == m
  {
    assert ReadMaximum(s.executing[e.run], m);
  }

  lemma LettersStep(s: System, e: Event, id: string, m: int)
    requires m >= 1 && MaximumIs(s, id, m)
    ensures LettersOf(Step(s, e).letters, id) == LettersOf(s.letters, id)
      + if MarkOf(s, e, id) == Some(FailedRun) && CountRead(s, e, id).value + 1 >= m then 1 else 0
  {
    if e.Record? {
      RecordLetters(s, e, id);
      if Records(s, e, id) {
        RecordedMaximum(s, e, id, m);
      }
    } else {
      RequestLetters(s, e, id);
    }
  }

  /** What the mark and the count read decide. */
  lemma AccountsDecided(s: System, s': System, marks: seq<Mark>, mark: Option<Mark>, read: Option<nat>, id: string,
                        m: int)
    requires m >= 1 && Accounts(s, marks, id, m) && CountFollows(s, s', mark, read, id)
    requires LettersOf(s'.letters, id) == LettersOf(s.letters, id)
      + if mark == Some(FailedRun) && read.value + 1 >= m then 1 else 0
    ensures Accounts(s', Extended(marks, mark), id, m) <==> !Overtakes(s, mark, read, id)
  {
    if mark.Some? {
      MarkAppended(marks, mark.value, m);
    }
  }

  /** A step keeps count and letters right exactly if its writer is not overtaken. */
  lemma AccountsStep(s: System, e: Event, marks: seq<Mark>, id: string, m: int)
    requires m >= 1 && MaximumIs(s, id, m) && Accounts(s, marks, id, m)
    ensures Accounts(Step(s, e), Extended(marks, MarkOf(s, e, id)), id, m) <==> !Overtaken(s, e, id)
  {
    CountStep(s, e, id);
    LettersStep(s, e, id, m);
    AccountsDecided(s, Step(s, e), marks, MarkOf(s, e, id), ReadOf(s, e, id), id, m);
  }

  // ---- whole runs ----

  ghost predicate AccountsAfter(events: seq<Event>, n: nat, id: string, m: int)
    requires n <= |events|
  {
    Accounts(After(events[..n]), Marks(events[..n], id), id, m)
  }

  ghost predicate RightThroughout(events: seq<Event>, id: string, m: int) {
    forall n :: 0 <= n <= |events| ==> AccountsAfter(events, n, id, m)
  }

  lemma OneEventMore(events: seq<Event>, n: nat, id: string, m: int)
    requires m >= 1 && AllKeepMaximum(events, id, m) && n < |events| && AccountsAfter(events, n, id, m)
    ensures AccountsAfter(events, n + 1, id, m) <==> !OvertakenAt(events, n, id)
  {
    assert events[..n + 1][..n] == events[..n];
    MaximumThroughout(events[..n], id, m);
    AccountsStep(After(events[..n]), events[n], Marks(events[..n], id), id, m);
  }

  lemma {:induction false} RightUpTo(events: seq<Event>, n: nat, id: string, m: int)
    requires m >= 1 && AllKeepMaximum(events, id, m) && NeverOvertaken(events, id) && n <= |events|
    ensures AccountsAfter(events, n, id, m)
  {
    if n > 0 {
      RightUpTo(events, n - 1, id, m);
      OneEventMore(events, n - 1, id, m);
    }
  }

  /** With the maximum kept at `m` and no writer overtaken: the stored count is the number
      of failed runs since the last restart, and the dead letters are the failed runs that
      found it at the maximum or brought it there. */
  lemma FailuresAreTrailing(events: seq<Event>, id: string, m: int)
    requires m >= 1 && AllKeepMaximum(events, id, m) && NeverOvertaken(events, id)
    ensures Accounts(After(events), Marks(events, id), id, m)
  {
    RightUpTo(events, |events|, id, m);
    assert events[..|events|] == events;
  }

  /** The exact condition, over every interleaving. */
  lemma RightThroughoutIffNeverOvertaken(events: seq<Event>, id: string, m: int)
    requires m >= 1 && AllKeepMaximum(events, id, m)
    ensures RightThroughout(events, id, m) <==> NeverOvertaken(events, id)
  {
    if NeverOvertaken(events, id) {
      forall n | 0 <= n <= |events|
        ensures AccountsAfter(events, n, id, m)
      {
        RightUpTo(events, n, id, m);
      }
    }
    if RightThroughout(events, id, m) {
      forall n | 0 <= n < |events|
        ensures !OvertakenAt(events, n, id)
      {
        assert AccountsAfter(events, n, id, m) && AccountsAfter(events, n + 1, id, m);
        OneEventMore(events, n, id, m);
      }
    }
  }

  /** An execution passes the guard exactly if its configuration is there, enabled, and
      fewer than `m` runs have failed since the last restart. */
  lemma GuardWaitsForRestart(events: seq<Event>, id: string, m: int, run: string)
    requires m >= 1 && AllKeepMaximum(events, id, m) && NeverOvertaken(events, id)
    requires run !in After(events).runs && run !in After(events).executing
    ensures
      var s := After(events);
      Admits(s, id, run, false) <==> id in s.configs && s.configs[id].enabled && Trailing(Marks(events, id)) < m
  {
    FailuresAreTrailing(events, id, m);
    MaximumThroughout(events, id, m);
  }

  // ---- nothing in between ----

  predicate WritesAt(events: seq<Event>, n: nat, id: string)
    requires n < |events|
  {
    Commits(After(events[..n]), events[n], id) || Records(After(events[..n]), events[n], id)
  }

  lemma OnlyWritesChange(s: System, e: Event, id: string)
    requires !Commits(s, e, id) && !Records(s, e, id) && id in s.configs
    ensures id in Step(s, e).configs && Step(s, e).configs[id] == s.configs[id]
  {
    if e.Commit? && e.q in s.requests && s.requests[e.q].registered {
      CommitOutcome(s, e.q);
    }
  }

  lemma {:induction false} StoredStays(events: seq<Event>, i: nat, j: nat, id: string)
    requires i <= j <= |events| && id in After(events[..i]).configs
    requires forall k :: i <= k < j ==> !WritesAt(events, k, id)
    ensures id in After(events[..j]).configs && After(events[..j]).configs[id] == After(events[..i]).configs[id]
  {
    if i < j {
      StoredStays(events, i, j - 1, id);
      assert !WritesAt(events, j - 1, id) && events[..j][..j - 1] == events[..j - 1];
      OnlyWritesChange(After(events[..j - 1]), events[j - 1], id);
    }
  }

  /** A writer is not overtaken if nobody else commits to the configuration between its
      read, after `i` events, and its own commit. */
  lemma NothingBetween(events: seq<Event>, i: nat, j: nat, id: string)
    requires i <= j < |events| && id in After(events[..i]).configs
    requires
      var s := After(events[..j]);
      MarkOf(s, events[j], id).Some? ==> CountRead(s, events[j], id) == Some(After(events[..i]).configs[id].failures)
    requires forall k :: i <= k < j ==> !WritesAt(events, k, id)
    ensures !OvertakenAt(events, j, id)
  {
    StoredStays(events, i, j, id);
  }
}
