/** How far a configuration's count can go past its maximum: by the number of executions
    that overlap, as long as no writer is overtaken, and without any bound otherwise. */
module SchedulerOverlap {
  import opened Basics
  import opened SchedulerCounts
  import opened SchedulerFailures
  import opened Wrappers

  /** Past the guard, with the outcome not committed yet. */
  predicate Counting(p: Phase) {
    p.Working? || p.Finishing? || p.Crashing?
  }

  ghost function Active(s: System, id: string): set<string> {
    set r | r in s.executing && s.executing[r].id == id && Counting(s.executing[r].phase)
  }

  /** How many executions of the configuration are active after `n` events. */
  ghost function Overlap(events: seq<Event>, id: string, n: nat): nat
    requires n <= |events|
  {
    |Active(After(events[..n]), id)|
  }

  ghost predicate OverlapAtMost(events: seq<Event>, id: string, bound: nat) {
    forall n :: 0 <= n <= |events| ==> Overlap(events, id, n) <= bound
  }

  predicate Begins(s: System, e: Event, id: string) {
    e.Begin? && e.id == id && Admits(s, id, e.run, e.existing)
  }

  lemma ActiveShrinks(s: System, e: Event, id: string)
    requires !Begins(s, e, id)
    ensures Active(Step(s, e), id) <= Active(s, id)
    ensures Records(s, e, id) ==> e.run in Active(s, id) && e.run !in Active(Step(s, e), id)
  {
  }

  lemma ActiveBegins(s: System, e: Event, id: string)
    requires Begins(s, e, id)
    ensures id in s.configs && s.configs[id].failures < s.configs[id].maxFailures
    ensures Step(s, e).configs == s.configs && Active(Step(s, e), id) == Active(s, id) + {e.run}
  {
  }

  // ---- the bound where nobody is overtaken ----

  ghost predicate Bounded(s: System, id: string, m: int, bound: nat) {
    && (id in s.configs ==> s.configs[id].failures + |Active(s, id)| < m + bound)
    && (forall i :: 0 <= i < |s.letters| && s.letters[i].config == id ==> m <= s.letters[i].failureCount < m + bound)
  }

  lemma NewLetter(s: System, e: Event, id: string, i: nat)
    requires i < |Step(s, e).letters| && Step(s, e).letters[i].config == id
    ensures i < |s.letters|
            ==> s.letters[i].config == id && s.letters[i].failureCount == Step(s, e).letters[i].failureCount
    ensures i >= |s.letters|
            ==> WritesLetter(s, e, id) && Step(s, e).letters[i].failureCount == NewCount(s.executing[e.run])
  {
  }

  lemma BoundedCount(s: System, e: Event, id: string, m: int, bound: nat)
    requires m >= 1 && MaximumIs(s, id, m) && Bounded(s, id, m, bound) && !Overtaken(s, e, id)
    requires id in Step(s, e).configs && |Active(Step(s, e), id)| <= bound
    ensures Step(s, e).configs[id].failures + |Active(Step(s, e), id)| < m + bound
  {
    if Begins(s, e, id) {
      ActiveBegins(s, e, id);
    } else {
      CountStep(s, e, id);
      ActiveShrinks(s, e, id);
      FewerActive(s, e, id);
    }
  }

  lemma FewerActive(s: System, e: Event, id: string)
    requires Active(Step(s, e), id) <= Active(s, id)
    requires Records(s, e, id) ==> e.run in Active(s, id) && e.run !in Active(Step(s, e), id)
    ensures |Active(Step(s, e), id)| <= |Active(s, id)| - if Records(s, e, id) then 1 else 0
  {
    if Records(s, e, id) {
      SubsetSize(Active(Step(s, e), id), Active(s, id) - {e.run});
    } else {
      SubsetSize(Active(Step(s, e), id), Active(s, id));
    }
  }

  lemma BoundedLetter(s: System, e: Event, id: string, m: int, bound: nat, i: nat)
    requires m >= 1 && MaximumIs(s, id, m) && Bounded(s, id, m, bound) && !Overtaken(s, e, id)
    requires i < |Step(s, e).letters| && Step(s, e).letters[i].config == id
    ensures m <= Step(s, e).letters[i].failureCount < m + bound
  {
    NewLetter(s, e, id, i);
    if i >= |s.letters| {
      RecordedMaximum(s, e, id, m);
      assert e.run in Active(s, id);
    }
  }

  lemma BoundedStep(s: System, e: Event, id: string, m: int, bound: nat)
    requires m >= 1 && MaximumIs(s, id, m) && Bounded(s, id, m, bound) && !Overtaken(s, e, id)
    requires |Active(Step(s, e), id)| <= bound
    ensures Bounded(Step(s, e), id, m, bound)
  {
    var s' := Step(s, e);
    if id in s'.configs {
      BoundedCount(s, e, id, m, bound);
    }
    forall i | 0 <= i < |s'.letters| && s'.letters[i].config == id
      ensures m <= s'.letters[i].failureCount < m + bound
    {
      BoundedLetter(s, e, id, m, bound, i);
    }
  }

  /** What holds of a history holds of its first events. */
  lemma Prefix(events: seq<Event>, n: nat, id: string, bound: nat)
    requires n <= |events| && OverlapAtMost(events, id, bound)
    ensures OverlapAtMost(events[..n], id, bound)
    ensures NeverOvertaken(events, id) ==> NeverOvertaken(events[..n], id)
  {
    forall i | 0 <= i <= n
      ensures Overlap(events[..n], id, i) <= bound
      ensures i < n && NeverOvertaken(events, id) ==> !OvertakenAt(events[..n], i, id)
    {
      assert events[..n][..i] == events[..i];
      assert Overlap(events, id, i) <= bound;
      assert i < n && NeverOvertaken(events, id) ==> !OvertakenAt(events, i, id);
    }
  }

  lemma LastOverlap(events: seq<Event>, id: string, bound: nat)
    requires OverlapAtMost(events, id, bound)
    ensures |Active(After(events), id)| <= bound
  {
    assert events[..|events|] == events && Overlap(events, id, |events|) <= bound;
  }

  /** Where no writer is overtaken the count stays below the maximum plus the number of
      executions that overlap, and so does every dead letter's. */
  lemma {:induction false} OverlapBoundsFailures(events: seq<Event>, id: string, m: int, bound: nat)
    requires m >= 1 && AllKeepMaximum(events, id, m) && NeverOvertaken(events, id)
    requires OverlapAtMost(events, id, bound)
    ensures Bounded(After(events), id, m, bound)
  {
    if events != [] {
      var n := |events| - 1;
      Prefix(events, n, id, bound);
      OverlapBoundsFailures(events[..n], id, m, bound);
      MaximumThroughout(events[..n], id, m);
      assert !OvertakenAt(events, n, id);
      LastOverlap(events, id, bound);
      BoundedStep(After(events[..n]), events[n], id, m, bound);
    }
  }

  // ---- no overlap ----

  /** The count is at most the maximum, and below it for whoever is still to count. */
  ghost predicate Calm(s: System, id: string, m: int) {
    && (id in s.configs ==> s.configs[id].failures <= m)
    && (forall r :: r in Active(s, id) ==>
          && (id in s.configs ==> s.configs[id].failures < m)
          && (LoadedBy(s.executing[r]).Some? ==> LoadedBy(s.executing[r]).value.failures < m))
    && (forall i :: 0 <= i < |s.letters| && s.letters[i].config == id ==> s.letters[i].failureCount == m)
  }

  lemma CalmCount(s: System, e: Event, id: string, m: int)
    requires m >= 1 && MaximumIs(s, id, m) && Calm(s, id, m) && id in Step(s, e).configs
    ensures Step(s, e).configs[id].failures <= m
    ensures !Records(s, e, id) && (id !in s.configs || s.configs[id].failures < m)
            ==> Step(s, e).configs[id].failures < m
  {
    CountStep(s, e, id);
    if Records(s, e, id) {
      assert e.run in Active(s, id);
    }
  }

  lemma CalmRun(s: System, e: Event, id: string, m: int, r: string)
    requires m >= 1 && MaximumIs(s, id, m) && Calm(s, id, m)
    requires |Active(s, id)| <= 1 && r in Active(Step(s, e), id)
    ensures id in Step(s, e).configs ==> Step(s, e).configs[id].failures < m
    ensures LoadedBy(Step(s, e).executing[r]).Some? ==> LoadedBy(Step(s, e).executing[r]).value.failures < m
  {
    if Begins(s, e, id) {
      ActiveBegins(s, e, id);
    } else {
      ActiveShrinks(s, e, id);
      if Records(s, e, id) {
        OnlyOne(Active(s, id), e.run, r);
      }
    }
    ExecutionStep(s, e, r);
    if id in Step(s, e).configs {
      CalmCount(s, e, id, m);
    }
  }

  lemma OnlyOne<T>(a: set<T>, x: T, y: T)
    requires |a| <= 1 && x in a && y in a
    ensures x == y
  {
    if x != y {
      SubsetSize({x, y}, a);
    }
  }

  lemma CalmLetter(s: System, e: Event, id: string, m: int, i: nat)
    requires MaximumIs(s, id, m) && m >= 1 && Calm(s, id, m)
    requires i < |Step(s, e).letters| && Step(s, e).letters[i].config == id
    ensures Step(s, e).letters[i].failureCount == m
  {
    NewLetter(s, e, id, i);
    if i >= |s.letters| {
      RecordedMaximum(s, e, id, m);
      assert e.run in Active(s, id);
    }
  }

  lemma CalmStep(s: System, e: Event, id: string, m: int)
    requires m >= 1 && MaximumIs(s, id, m) && Calm(s, id, m) && |Active(s, id)| <= 1
    ensures Calm(Step(s, e), id, m)
  {
    var s' := Step(s, e);
    if id in s'.configs {
      CalmCount(s, e, id, m);
    }
    forall r | r in Active(s', id)
      ensures id in s'.configs ==> s'.configs[id].failures < m
      ensures LoadedBy(s'.executing[r]).Some? ==> LoadedBy(s'.executing[r]).value.failures < m
    {
      CalmRun(s, e, id, m, r);
    }
    forall i | 0 <= i < |s'.letters| && s'.letters[i].config == id
      ensures s'.letters[i].failureCount == m
    {
      CalmLetter(s, e, id, m, i);
    }
  }

  lemma {:induction false} SequentialIsCalm(events: seq<Event>, id: string, m: int)
    requires m >= 1 && AllKeepMaximum(events, id, m) && OverlapAtMost(events, id, 1)
    ensures Calm(After(events), id, m)
  {
    if events != [] {
      var n := |events| - 1;
      Prefix(events, n, id, 1);
      SequentialIsCalm(events[..n], id, m);
      MaximumThroughout(events[..n], id, m);
      LastOverlap(events[..n], id, 1);
      CalmStep(After(events[..n]), events[n], id, m);
    }
  }

  /** Without overlap the count never exceeds the maximum and every dead letter was written
      on reaching it, whoever is overtaken; where nobody is, the count is the trailing
      failures. */
  lemma SequentialRunsStopAtMaximum(events: seq<Event>, id: string, m: int)
    requires m >= 1 && AllKeepMaximum(events, id, m) && OverlapAtMost(events, id, 1)
    ensures id in After(events).configs ==> After(events).configs[id].failures <= m
    ensures id in After(events).configs && NeverOvertaken(events, id) ==>
      Trailing(Marks(events, id)) == After(events).configs[id].failures
    ensures forall i :: 0 <= i < |After(events).letters| && After(events).letters[i].config == id ==>
      After(events).letters[i].failureCount == m
  {
    SequentialIsCalm(events, id, m);
    if NeverOvertaken(events, id) {
      FailuresAreTrailing(events, id, m);
    }
  }
}
