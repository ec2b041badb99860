/** Single-flight request coalescing: concurrent calls with one key share one
    execution. The coalescer's own sections are methods of a class; callers, who
    may give up, and the interleaving of everything are a state machine over them. */
module RequestCoalescer {
  import opened Wrappers

  datatype Outcome<R> = Value(value: R) | Error(message: string)

  datatype Future<R> = Unsettled | Settled(outcome: Outcome<R>) | Cancelled

  /** The life of the task that executes a request. `Skipped` is the early return of a
      task that finds no pending request under its key. */
  datatype Phase = Scheduled | Running(target: nat) | Finishing | Done | Skipped

  /** A request ever registered: the key and function it was created for, the future
      its callers share, its task, and what the function turned out to return. */
  datatype Request<R> = Request(key: string, func: nat, future: Future<R>, waiters: nat,
                                phase: Phase, result: Option<Outcome<R>>)

  datatype Core<R> = Core(pending: map<string, nat>, requests: seq<Request<R>>)

  ghost predicate Live<R>(r: Request<R>) {
    r.phase.Scheduled? || r.phase.Running? || r.phase.Finishing?
  }

  function Settle<R>(f: Future<R>, o: Outcome<R>): Future<R> {
    if f.Unsettled? then Settled(o) else f
  }

  // ---- the sections of the coalescer ----

  ghost predicate Registered<R>(c: Core<R>) {
    forall key :: key in c.pending ==> c.pending[key] < |c.requests|
  }

  ghost function CoreJoin<R>(c: Core<R>, key: string, func: nat): Core<R>
    requires Registered(c)
  {
    if key in c.pending then
      var r := c.pending[key];
      c.(requests := c.requests[r := c.requests[r].(waiters := c.requests[r].waiters + 1)])
    else
      Core(c.pending[key := |c.requests|],
           c.requests + [Request(key, func, Unsettled, 1, Scheduled, None)])
  }

  ghost function CoreBegin<R>(c: Core<R>, r: nat): Core<R>
    requires r < |c.requests|
  {
    var key := c.requests[r].key;
    var phase := if key in c.pending then Running(c.pending[key]) else Skipped;
    c.(requests := c.requests[r := c.requests[r].(phase := phase)])
  }

  /** The function returns or raises: the outcome is kept and handed to the future of
      the request the task found, unless that future is already done. */
  ghost function CoreFinish<R>(c: Core<R>, r: nat, o: Outcome<R>): Core<R>
    requires r < |c.requests| && c.requests[r].phase.Running? && c.requests[r].phase.target < |c.requests|
  {
    var t := c.requests[r].phase.target;
    var requests := c.requests[t := c.requests[t].(future := Settle(c.requests[t].future, o))];
    c.(requests := requests[r := requests[r].(phase := Finishing, result := Some(o))])
  }

  ghost function CoreCleanUp<R>(c: Core<R>, r: nat): Core<R>
    requires r < |c.requests|
  {
    Core(c.pending - {c.requests[r].key}, c.requests[r := c.requests[r].(phase := Done)])
  }

  class Coalescer<R> {
    var pending: map<string, nat>
    var requests: seq<Request<R>>

    ghost function AsCore(): Core<R>
      reads this
    {
      Core(pending, requests)
    }

    constructor ()
      ensures AsCore() == Core(map[], [])
    {
      pending := map[];
      requests := [];
    }

    /** The locked section of `coalesce`; a new task is started when nothing is pending. */
    method Join(key: string, func: nat) returns (request: nat, started: bool)
      requires Registered(AsCore())
      modifies this
      ensures AsCore() == CoreJoin(old(AsCore()), key, func)
      ensures started <==> key !in old(pending)
      ensures key in pending && pending[key] == request
    {
      if key in pending {
        request := pending[key];
        started := false;
        requests := requests[request := requests[request].(waiters := requests[request].waiters + 1)];
      } else {
        request := |requests|;
        started := true;
        requests := requests + [Request(key, func, Unsettled, 1, Scheduled, None)];
        pending := pending[key := request];
      }
    }

    method Begin(r: nat)
      requires r < |requests|
      modifies this
      ensures AsCore() == CoreBegin(old(AsCore()), r)
    {
      var key := requests[r].key;
      if key !in pending {
        requests := requests[r := requests[r].(phase := Skipped)];
        return;
      }
      requests := requests[r := requests[r].(phase := Running(pending[key]))];
    }

    method Finish(r: nat, o: Outcome<R>)
      requires r < |requests| && requests[r].phase.Running? && requests[r].phase.target < |requests|
      modifies this
      ensures AsCore() == CoreFinish(old(AsCore()), r, o)
    {
      var t := requests[r].phase.target;
      if requests[t].future.Unsettled? {
        requests := requests[t := requests[t].(future := Settled(o))];
      }
      requests := requests[r := requests[r].(phase := Finishing, result := Some(o))];
    }

    method CleanUp(r: nat)
      requires r < |requests|
      modifies this
      ensures AsCore() == CoreCleanUp(old(AsCore()), r)
    {
      pending := pending - {requests[r].key};
      requests := requests[r := requests[r].(phase := Done)];
    }
  }

  // ---- callers and interleavings ----

  datatype Wait<R> = Waiting | Received(outcome: Outcome<R>) | GaveUp | SawCancellation

  /** A caller: what it asked for, and the request it was attached to. */
  datatype Caller<R> = Caller(key: string, func: nat, request: nat, wait: Wait<R>)

  datatype System<R> = System(core: Core<R>, callers: map<nat, Caller<R>>)

  datatype Event<R> =
    | Call(caller: nat, key: string, func: nat)
    | Begin(request: nat)
    | Finish(request: nat, outcome: Outcome<R>)
    | Abort(request: nat)   // the task dies of an exception the coalescer does not catch
    | CleanUp(request: nat)
    | Wake(caller: nat)     // the shared future is done
    | GiveUp(caller: nat)   // a timeout or a cancellation from outside

  ghost function Empty<R>(): System<R> {
    System(Core(map[], []), map[])
  }

  ghost predicate WellFormed<R>(s: System<R>) {
    && Registered(s.core)
    && (forall r :: 0 <= r < |s.core.requests| && s.core.requests[r].phase.Running? ==>
          s.core.requests[r].phase.target < |s.core.requests|)
    && (forall c :: c in s.callers ==> s.callers[c].request < |s.core.requests|)
  }

  ghost predicate Enabled<R>(s: System<R>, e: Event<R>)
    requires WellFormed(s)
  {
    var requests := s.core.requests;
    match e
    case Call(caller, _, _) => caller !in s.callers
    case Begin(r) => r < |requests| && requests[r].phase.Scheduled?
    case Finish(r, _) => r < |requests| && requests[r].phase.Running?
    case Abort(r) => r < |requests| && requests[r].phase.Running?
    case CleanUp(r) => r < |requests| && requests[r].phase.Finishing?
    case Wake(c) => c in s.callers && s.callers[c].wait.Waiting? && !requests[s.callers[c].request].future.Unsettled?
    case GiveUp(c) => c in s.callers && s.callers[c].wait.Waiting?
  }

  /** One step; an event that cannot happen now changes nothing. */
  ghost function Step<R>(s: System<R>, e: Event<R>): System<R>
    requires WellFormed(s)
  {
    if !Enabled(s, e) then s
    else
      var core := s.core;
      match e
      case Call(caller, key, func) =>
        var core' := CoreJoin(core, key, func);
        System(core', s.callers[caller := Caller(key, func, core'.pending[key], Waiting)])
      case Begin(r) => s.(core := CoreBegin(core, r))
      case Finish(r, o) => s.(core := CoreFinish(core, r, o))
      case Abort(r) =>
        s.(core := core.(requests := core.requests[r := core.requests[r].(phase := Finishing)]))
      case CleanUp(r) => s.(core := CoreCleanUp(core, r))
      case Wake(c) =>
        var caller := s.callers[c];
        var future := core.requests[caller.request].future;
        var wait := if future.Settled? then Received(future.outcome) else SawCancellation;
        s.(callers := s.callers[c := caller.(wait := wait)])
      case GiveUp(c) =>
        var caller := s.callers[c];
        var r := caller.request;
        var future := if core.requests[r].future.Unsettled? then Cancelled else core.requests[r].future;
        System(core.(requests := core.requests[r := core.requests[r].(future := future)]),
               s.callers[c := caller.(wait := GaveUp)])
  }

  // ---- the protocol invariant ----

  /** The pending map and the unfinished executions correspond one to one. */
  ghost predicate OneToOne<R>(c: Core<R>) {
    && (forall key :: key in c.pending ==>
         && c.pending[key] < |c.requests|
         && c.requests[c.pending[key]].key == key
         && Live(c.requests[c.pending[key]]))
    && (forall r :: 0 <= r < |c.requests| && Live(c.requests[r]) ==>
         c.requests[r].key in c.pending && c.pending[c.requests[r].key] == r)
  }

  /** Each task serves its own request, none is ever skipped, and a settled future holds
      the result of that request's own execution. */
  ghost predicate TasksServeThemselves<R>(c: Core<R>) {
    forall r :: 0 <= r < |c.requests| ==>
      var q := c.requests[r];
      && !q.phase.Skipped?
      && (q.phase.Running? ==> q.phase.target == r)
      && (q.phase.Scheduled? || q.phase.Running? ==> q.result.None? && !q.future.Settled?)
      && (q.future.Settled? ==> q.result == Some(q.future.outcome))
      && (q.result.Some? ==> !q.future.Unsettled?)
  }

  /** Each caller is attached to a request for its key and hears that request's outcome;
      it hears of a cancellation only if a caller of that request gave up. */
  ghost predicate CallersHearTheirRequest<R>(s: System<R>) {
    && (forall c :: c in s.callers ==>
         var caller := s.callers[c];
         && caller.request < |s.core.requests|
         && var q := s.core.requests[caller.request];
         && q.key == caller.key
         && (caller.wait.Received? ==> q.future == Settled(caller.wait.outcome))
         && (caller.wait.SawCancellation? ==> q.future.Cancelled?)
         && (caller.wait.GaveUp? ==> !q.future.Unsettled?))
    && (forall r :: 0 <= r < |s.core.requests| && s.core.requests[r].future.Cancelled? ==>
         exists c :: c in s.callers && s.callers[c].request == r && s.callers[c].wait.GaveUp?)
  }

  ghost predicate Invariant<R>(s: System<R>) {
    WellFormed(s) && OneToOne(s.core) && TasksServeThemselves(s.core) && CallersHearTheirRequest(s)
  }

  ghost predicate CoreInvariant<R>(c: Core<R>) {
    Registered(c) && OneToOne(c) && TasksServeThemselves(c)
  }

  lemma JoinKeepsCore<R>(c: Core<R>, key: string, func: nat)
    requires CoreInvariant(c)
    ensures CoreInvariant(CoreJoin(c, key, func))
  {
  }

  /** What a new caller's join leaves of the requests: keys and futures stay. */
  lemma JoinKeepsRequests<R>(c: Core<R>, key: string, func: nat)
    requires CoreInvariant(c)
    ensures
      var c' := CoreJoin(c, key, func);
      && |c.requests| <= |c'.requests|
      && (forall r :: 0 <= r < |c.requests|
            ==> c'.requests[r].key == c.requests[r].key && c'.requests[r].future == c.requests[r].future)
      && (forall r :: |c.requests| <= r < |c'.requests| ==> c'.requests[r].future.Unsettled?)
      && key in c'.pending && c'.pending[key] < |c'.requests| && c'.requests[c'.pending[key]].key == key
  {
  }

  lemma CallKeepsInvariant<R>(s: System<R>, caller: nat, key: string, func: nat)
    requires Invariant(s) && caller !in s.callers
    ensures Invariant(Step(s, Call(caller, key, func)))
  {
    JoinKeepsCore(s.core, key, func);
    JoinKeepsRequests(s.core, key, func);
    var s' := Step(s, Call(caller, key, func));
    NewCallerKeepsCallers(s, s', caller, s'.callers[caller]);
  }

  lemma NewCallerKeepsCallers<R>(s: System<R>, s': System<R>, id: nat, caller: Caller<R>)
    requires CallersHearTheirRequest(s) && id !in s.callers && s'.callers == s.callers[id := caller]
    requires |s.core.requests| <= |s'.core.requests| && caller.request < |s'.core.requests|
    requires forall r :: 0 <= r < |s.core.requests| ==>
      s'.core.requests[r].key == s.core.requests[r].key && s'.core.requests[r].future == s.core.requests[r].future
    requires forall r :: |s.core.requests| <= r < |s'.core.requests| ==> s'.core.requests[r].future.Unsettled?
    requires s'.core.requests[caller.request].key == caller.key && caller.wait.Waiting?
    ensures CallersHearTheirRequest(s')
  {
    forall r | 0 <= r < |s'.core.requests| && s'.core.requests[r].future.Cancelled?
      ensures exists c :: c in s'.callers && s'.callers[c].request == r && s'.callers[c].wait.GaveUp?
    {
      assert s.core.requests[r].future.Cancelled?;
      var c :| c in s.callers && s.callers[c].request == r && s.callers[c].wait.GaveUp?;
      assert s'.callers[c] == s.callers[c];
    }
  }

  lemma BeginKeepsCore<R>(c: Core<R>, r: nat)
    requires CoreInvariant(c) && r < |c.requests| && c.requests[r].phase.Scheduled?
    ensures CoreInvariant(CoreBegin(c, r))
  {
    assert Live(c.requests[r]);
  }

  lemma FinishKeepsCore<R>(c: Core<R>, r: nat, o: Outcome<R>)
    requires CoreInvariant(c) && r < |c.requests| && c.requests[r].phase.Running?
    requires c.requests[r].phase.target < |c.requests|
    ensures CoreInvariant(CoreFinish(c, r, o))
  {
    assert c.requests[r].phase.target == r && Live(c.requests[r]);
    var q := c.requests[r];
    assert CoreFinish(c, r, o).requests
        == c.requests[r := q.(future := Settle(q.future, o), phase := Finishing, result := Some(o))];
  }

  lemma AbortKeepsCore<R>(c: Core<R>, r: nat)
    requires CoreInvariant(c) && r < |c.requests| && c.requests[r].phase.Running?
    ensures CoreInvariant(c.(requests := c.requests[r := c.requests[r].(phase := Finishing)]))
  {
    assert Live(c.requests[r]);
  }

  lemma CleanUpKeepsCore<R>(c: Core<R>, r: nat)
    requires CoreInvariant(c) && r < |c.requests| && c.requests[r].phase.Finishing?
    ensures CoreInvariant(CoreCleanUp(c, r))
  {
    assert Live(c.requests[r]);
    assert c.pending[c.requests[r].key] == r;
  }

  /** Tasks leave keys alone and only ever settle futures. */
  ghost predicate OnlySettles<R>(c: Core<R>, c': Core<R>) {
    && |c'.requests| == |c.requests|
    && forall r :: 0 <= r < |c'.requests| ==>
         && c'.requests[r].key == c.requests[r].key
         && (c'.requests[r].future == c.requests[r].future
             || (c.requests[r].future.Unsettled? && c'.requests[r].future.Settled?))
  }

  /** So what callers have heard stays true. */
  lemma CallersUnaffected<R>(s: System<R>, core: Core<R>)
    requires CallersHearTheirRequest(s) && OnlySettles(s.core, core)
    ensures CallersHearTheirRequest(s.(core := core))
  {
    forall r | 0 <= r < |core.requests| && core.requests[r].future.Cancelled?
      ensures exists c :: c in s.callers && s.callers[c].request == r && s.callers[c].wait.GaveUp?
    {
      assert s.core.requests[r].future.Cancelled?;
    }
  }

  lemma TaskKeepsCore<R>(s: System<R>, e: Event<R>)
    requires Invariant(s) && (e.Begin? || e.Finish? || e.Abort? || e.CleanUp?) && Enabled(s, e)
    ensures CoreInvariant(Step(s, e).core) && OnlySettles(s.core, Step(s, e).core)
    ensures Step(s, e) == s.(core := Step(s, e).core)
  {
    match e {
      case Begin(r) => BeginKeepsCore(s.core, r);
      case Finish(r, o) => FinishKeepsCore(s.core, r, o);
      case Abort(r) => AbortKeepsCore(s.core, r);
      case CleanUp(r) => CleanUpKeepsCore(s.core, r);
    }
  }

  lemma TaskKeepsInvariant<R>(s: System<R>, e: Event<R>)
    requires Invariant(s) && (e.Begin? || e.Finish? || e.Abort? || e.CleanUp?)
    ensures Invariant(Step(s, e))
  {
    if Enabled(s, e) {
      TaskKeepsCore(s, e);
      CallersUnaffected(s, Step(s, e).core);
    }
  }

  lemma WakeKeepsInvariant<R>(s: System<R>, c: nat)
    requires Invariant(s) && Enabled(s, Wake(c))
    ensures Invariant(Step(s, Wake(c)))
  {
    var s' := Step(s, Wake(c));
    forall r | 0 <= r < |s'.core.requests| && s'.core.requests[r].future.Cancelled?
      ensures exists d :: d in s'.callers && s'.callers[d].request == r && s'.callers[d].wait.GaveUp?
    {
      var d :| d in s.callers && s.callers[d].request == r && s.callers[d].wait.GaveUp?;
      assert s'.callers[d] == s.callers[d];
    }
  }

  lemma GiveUpKeepsCore<R>(s: System<R>, c: nat)
    requires Invariant(s) && Enabled(s, GiveUp(c))
    ensures CoreInvariant(Step(s, GiveUp(c)).core)
  {
  }

  lemma GiveUpKeepsCallers<R>(s: System<R>, c: nat)
    requires Invariant(s) && Enabled(s, GiveUp(c))
    ensures CallersHearTheirRequest(Step(s, GiveUp(c)))
  {
    var s' := Step(s, GiveUp(c));
    forall r | 0 <= r < |s'.core.requests| && s'.core.requests[r].future.Cancelled?
      ensures exists d :: d in s'.callers && s'.callers[d].request == r && s'.callers[d].wait.GaveUp?
    {
      if r == s.callers[c].request {
        assert s'.callers[c].wait.GaveUp?;
      } else {
        assert s.core.requests[r].future.Cancelled?;
        var d :| d in s.callers && s.callers[d].request == r && s.callers[d].wait.GaveUp?;
        assert s'.callers[d] == s.callers[d];
      }
    }
  }

  lemma GiveUpKeepsInvariant<R>(s: System<R>, c: nat)
    requires Invariant(s) && Enabled(s, GiveUp(c))
    ensures Invariant(Step(s, GiveUp(c)))
  {
    GiveUpKeepsCore(s, c);
    GiveUpKeepsCallers(s, c);
  }

  lemma StepKeepsInvariant<R>(s: System<R>, e: Event<R>)
    requires Invariant(s)
    ensures Invariant(Step(s, e))
  {
    match e
    case Call(caller, key, func) =>
      if caller !in s.callers {
        CallKeepsInvariant(s, caller, key, func);
      }
    case Wake(c) =>
      if Enabled(s, e) {
        WakeKeepsInvariant(s, c);
      }
    case GiveUp(c) =>
      if Enabled(s, e) {
        GiveUpKeepsInvariant(s, c);
      }
    case _ => TaskKeepsInvariant(s, e);
  }

  /** Runs, from a state that satisfies the invariant. */
  ghost function RunFrom<R>(s: System<R>, events: seq<Event<R>>): (s': System<R>)
    requires Invariant(s)
    ensures Invariant(s')
    decreases |events|
  {
    if events == [] then s
    else
      StepKeepsInvariant(s, events[0]);
      RunFrom(Step(s, events[0]), events[1..])
  }

  ghost function Run<R>(events: seq<Event<R>>): (s: System<R>)
    ensures Invariant(s)
  {
    RunFrom(Empty(), events)
  }

  /** At most one execution per key is ever in flight. */
  lemma SingleFlight<R>(events: seq<Event<R>>, r1: nat, r2: nat)
    ensures
      var requests := Run(events).core.requests;
      r1 < |requests| && r2 < |requests| && Live(requests[r1]) && Live(requests[r2]) ==>
      requests[r1].key == requests[r2].key ==> r1 == r2
  {
    assert OneToOne(Run(events).core);
  }

  /** A call joins the unfinished execution of its key, if there is one, and starts a new
      one, for its own function, if there is none. */
  lemma JoinsOrStarts<R>(events: seq<Event<R>>, caller: nat, key: string, func: nat)
    requires caller !in Run(events).callers
    ensures
      var s, s' := Run(events), Step(Run(events), Call(caller, key, func));
      && caller in s'.callers && s'.callers[caller].wait.Waiting?
      && var r := s'.callers[caller].request;
      if r < |s.core.requests|
      then Live(s.core.requests[r]) && s.core.requests[r].key == key && |s'.core.requests| == |s.core.requests|
      else
        && (forall q :: 0 <= q < |s.core.requests| && Live(s.core.requests[q]) ==> s.core.requests[q].key != key)
        && s'.core.requests == s.core.requests + [Request(key, func, Unsettled, 1, Scheduled, None)]
  {
    assert OneToOne(Run(events).core);
  }

  ghost function CallersOf<R>(s: System<R>, r: nat): set<nat> {
    set c | c in s.callers && s.callers[c].request == r
  }

  ghost predicate WaitersCounted<R>(s: System<R>) {
    forall r :: 0 <= r < |s.core.requests| ==> s.core.requests[r].waiters == |CallersOf(s, r)|
  }

  lemma OtherStepsKeepCallers<R>(s: System<R>, e: Event<R>)
    requires Invariant(s) && !e.Call?
    ensures |Step(s, e).core.requests| == |s.core.requests|
    ensures forall r :: 0 <= r < |s.core.requests| ==>
      Step(s, e).core.requests[r].waiters == s.core.requests[r].waiters && CallersOf(Step(s, e), r) == CallersOf(s, r)
  {
  }

  lemma WaitersCountedStep<R>(s: System<R>, e: Event<R>)
    requires Invariant(s) && WaitersCounted(s)
    ensures WaitersCounted(Step(s, e))
  {
    if !e.Call? {
      OtherStepsKeepCallers(s, e);
    } else if e.caller !in s.callers {
      CallStep(s, e.caller, e.key, e.func);
      assert CallersOf(s, |s.core.requests|) == {};
    }
  }

  lemma CallStep<R>(s: System<R>, caller: nat, key: string, func: nat)
    requires Invariant(s) && caller !in s.callers
    ensures
      var s' := Step(s, Call(caller, key, func));
      && caller in s'.callers
      && var joined := s'.callers[caller].request;
      && joined <= |s.core.requests|
      && |s'.core.requests| == (if joined < |s.core.requests| then |s.core.requests| else joined + 1)
      && (forall r :: 0 <= r < |s'.core.requests| ==>
            CallersOf(s', r) == if r == joined then CallersOf(s, r) + {caller} else CallersOf(s, r))
      && (forall r :: 0 <= r < |s'.core.requests| ==>
            s'.core.requests[r].waiters
            == (if r < |s.core.requests| then s.core.requests[r].waiters else 0) + if r == joined then 1 else 0)
  {
  }

  /** The count kept with a request is the number of callers attached to it. */
  lemma {:induction false} WaitersCountCallers<R>(s: System<R>, events: seq<Event<R>>)
    requires Invariant(s) && WaitersCounted(s)
    ensures WaitersCounted(RunFrom(s, events))
    decreases |events|
  {
    if events != [] {
      StepKeepsInvariant(s, events[0]);
      WaitersCountedStep(s, events[0]);
      WaitersCountCallers(Step(s, events[0]), events[1..]);
    }
  }

  /** A task in turn begins, hands its outcome to the callers it still has, and frees its
      key, so the next call with the key starts a new execution. */
  lemma TaskRunsItsCourse<R>(events: seq<Event<R>>, r: nat, o: Outcome<R>)
    requires r < |Run(events).core.requests|
    ensures
      var s := Run(events);
      var q := s.core.requests[r];
      match q.phase
      case Scheduled => Step(s, Begin(r)).core == s.core.(requests := s.core.requests[r := q.(phase := Running(r))])
      case Running(_) =>
        var future := if q.future.Cancelled? then Cancelled else Future.Settled(o);
        Step(s, Finish(r, o)).core
        == s.core.(requests := s.core.requests[r := q.(phase := Finishing, result := Some(o), future := future)])
      case Finishing =>
        && Step(s, CleanUp(r)).core.requests == s.core.requests[r := q.(phase := Done)]
        && forall k :: 0 <= k < |s.core.requests| && Live(Step(s, CleanUp(r)).core.requests[k]) ==>
             Step(s, CleanUp(r)).core.requests[k].key != q.key
      case _ => true
  {
    assert TasksServeThemselves(Run(events).core) && OneToOne(Run(events).core);
  }

  /** A task that starts always finds its request: the early return is dead code. */
  lemma NoTaskIsSkipped<R>(events: seq<Event<R>>, r: nat)
    ensures r < |Run(events).core.requests| ==> !Run(events).core.requests[r].phase.Skipped?
  {
    assert TasksServeThemselves(Run(events).core);
  }

  /** A caller that receives an outcome receives the one its request's execution
      produced; unless some caller gives up none ever hears of a cancellation. */
  lemma CallersGetTheirExecution<R>(events: seq<Event<R>>, c: nat)
    ensures
      var s := Run(events);
      c in s.callers ==>
        && var caller := s.callers[c];
        && var q := s.core.requests[caller.request];
        && q.key == caller.key
        && (caller.wait.Received? ==> q.result == Some(caller.wait.outcome))
        && (caller.wait.SawCancellation? ==>
             exists d :: d in s.callers && s.callers[d].request == caller.request && s.callers[d].wait.GaveUp?)
  {
    var s := Run(events);
    assert CallersHearTheirRequest(s) && TasksServeThemselves(s.core);
  }

  /** A caller is attached to the execution registered under its key when it calls, and
      stays attached to it. */
  lemma {:induction false} AttachmentIsForGood<R>(s: System<R>, events: seq<Event<R>>, c: nat)
    requires Invariant(s) && c in s.callers
    ensures
      var s' := RunFrom(s, events);
      && c in s'.callers
      && s'.callers[c].(wait := Waiting) == s.callers[c].(wait := Waiting)
      && (s.callers[c].wait.Waiting? || s'.callers[c] == s.callers[c])
    decreases |events|
  {
    if events != [] {
      StepKeepsInvariant(s, events[0]);
      AttachmentStep(s, events[0], c);
      AttachmentIsForGood(Step(s, events[0]), events[1..], c);
    }
  }

  lemma AttachmentStep<R>(s: System<R>, e: Event<R>, c: nat)
    requires Invariant(s) && c in s.callers
    ensures
      var s' := Step(s, e);
      && c in s'.callers
      && s'.callers[c].(wait := Waiting) == s.callers[c].(wait := Waiting)
      && (s.callers[c].wait.Waiting? || s'.callers[c] == s.callers[c])
  {
    var callers := Step(s, e).callers;
    if e.Begin? || e.Finish? || e.Abort? || e.CleanUp? {
      assert callers == s.callers;
    }
  }

  /** The pending map is empty exactly when no execution is unfinished. */
  lemma QuiescentIffEmpty<R>(events: seq<Event<R>>)
    ensures
      var c := Run(events).core;
      c.pending == map[] <==> forall r :: 0 <= r < |c.requests| ==> !Live(c.requests[r])
  {
    var c := Run(events).core;
    assert OneToOne(c);
    if c.pending != map[] {
      var key :| key in c.pending;
      assert Live(c.requests[c.pending[key]]);
    }
  }

  ghost predicate Undisturbed<R>(events: seq<Event<R>>) {
    forall i :: 0 <= i < |events| ==> !events[i].GiveUp? && !events[i].Abort?
  }

  ghost predicate FinishedAreSettled<R>(c: Core<R>) {
    forall r :: 0 <= r < |c.requests| ==>
      && !c.requests[r].future.Cancelled?
      && (c.requests[r].phase.Finishing? || c.requests[r].phase.Done? ==> c.requests[r].future.Settled?)
  }

  ghost predicate NobodyGaveUp<R>(s: System<R>) {
    forall c :: c in s.callers ==> !s.callers[c].wait.GaveUp?
  }

  lemma SettledStep<R>(s: System<R>, e: Event<R>)
    requires Invariant(s) && FinishedAreSettled(s.core) && !e.GiveUp? && !e.Abort?
    ensures FinishedAreSettled(Step(s, e).core)
  {
  }

  lemma GaveUpStep<R>(s: System<R>, e: Event<R>)
    requires Invariant(s) && NobodyGaveUp(s) && !e.GiveUp?
    ensures NobodyGaveUp(Step(s, e))
  {
  }

  lemma {:induction false} FinishedMeansSettled<R>(s: System<R>, events: seq<Event<R>>)
    requires Invariant(s) && Undisturbed(events) && FinishedAreSettled(s.core) && NobodyGaveUp(s)
    ensures FinishedAreSettled(RunFrom(s, events).core) && NobodyGaveUp(RunFrom(s, events))
    decreases |events|
  {
    if events != [] {
      var e, rest := events[0], events[1..];
      assert !e.GiveUp? && !e.Abort?;
      StepKeepsInvariant(s, e);
      SettledStep(s, e);
      GaveUpStep(s, e);
      assert Undisturbed(rest) by {
        assert forall i :: 0 <= i < |rest| ==> rest[i] == events[i + 1];
      }
      FinishedMeansSettled(Step(s, e), rest);
    }
  }

  /** In a run where nobody gives up and nothing aborts, once every execution is done each
      caller has its outcome or can be woken to receive it: nobody waits in vain. */
  lemma NobodyWaitsInVain<R>(events: seq<Event<R>>, c: nat)
    requires Undisturbed(events) && c in Run(events).callers
    requires forall r :: 0 <= r < |Run(events).core.requests| ==> !Live(Run(events).core.requests[r])
    ensures Run(events).callers[c].wait.Received? || Enabled(Run(events), Wake(c))
    ensures Step(Run(events), Wake(c)).callers[c].wait.Received?
  {
    var s := Run(events);
    FinishedMeansSettled(Empty<R>(), events);
    var q := s.core.requests[s.callers[c].request];
    assert !Live(q) && !q.phase.Skipped?;
    assert q.future.Settled?;
  }

  // ---- who waits in vain ----

  /** The executions that die of an uncaught exception along a run. */
  ghost function AbortedIn<R>(s: System<R>, events: seq<Event<R>>): set<nat>
    requires Invariant(s)
    decreases |events|
  {
    if events == [] then {}
    else
      StepKeepsInvariant(s, events[0]);
      AbortedNow(s, events[0]) + AbortedIn(Step(s, events[0]), events[1..])
  }

  ghost function AbortedNow<R>(s: System<R>, e: Event<R>): set<nat>
    requires WellFormed(s)
  {
    if e.Abort? && Enabled(s, e) then {e.request} else {}
  }

  /** The executions that are over without a result. */
  ghost function WithoutResult<R>(requests: seq<Request<R>>): set<nat> {
    set r | 0 <= r < |requests| && EndedWithoutResult(requests[r])
  }

  ghost predicate EndedWithoutResult<R>(r: Request<R>) {
    (r.phase.Finishing? || r.phase.Done?) && r.result.None?
  }

  /** A change to one request. */
  lemma OneRequestChanges<R>(requests: seq<Request<R>>, r: nat, q: Request<R>)
    requires r < |requests|
    ensures WithoutResult(requests[r := q])
         == WithoutResult(requests) - {r} + if EndedWithoutResult(q) then {r} else {}
  {
  }

  lemma TaskWithoutResult<R>(s: System<R>, e: Event<R>)
    requires Invariant(s) && (e.Begin? || e.Finish? || e.Abort? || e.CleanUp?) && Enabled(s, e)
    ensures WithoutResult(Step(s, e).core.requests) == WithoutResult(s.core.requests) + AbortedNow(s, e)
  {
    var requests, requests' := s.core.requests, Step(s, e).core.requests;
    assert requests' == requests[e.request := requests'[e.request]];
    OneRequestChanges(requests, e.request, requests'[e.request]);
  }

  lemma CallerWithoutResult<R>(s: System<R>, e: Event<R>)
    requires Invariant(s) && (e.Call? || e.Wake? || e.GiveUp?) && Enabled(s, e)
    ensures WithoutResult(Step(s, e).core.requests) == WithoutResult(s.core.requests)
  {
    if e.GiveUp? {
      var r := s.callers[e.caller].request;
      OneRequestChanges(s.core.requests, r, Step(s, e).core.requests[r]);
    }
  }

  lemma {:induction false} AbortedHaveNoResult<R>(s: System<R>, events: seq<Event<R>>)
    requires Invariant(s)
    ensures WithoutResult(RunFrom(s, events).core.requests) == WithoutResult(s.core.requests) + AbortedIn(s, events)
    decreases |events|
  {
    if events != [] {
      var e := events[0];
      StepKeepsInvariant(s, e);
      if !Enabled(s, e) {
      } else if e.Call? || e.Wake? || e.GiveUp? {
        CallerWithoutResult(s, e);
      } else {
        TaskWithoutResult(s, e);
      }
      AbortedHaveNoResult(Step(s, e), events[1..]);
    }
  }

  /** Only giving up, by it or another caller, can end its wait. */
  ghost predicate WaitsInVain<R>(s: System<R>, c: nat)
    requires WellFormed(s)
  {
    c in s.callers && s.callers[c].wait.Waiting? && !Enabled(s, Wake(c))
  }

  ghost predicate AnyGaveUp<R>(s: System<R>, r: nat) {
    exists d :: d in s.callers && s.callers[d].request == r && s.callers[d].wait.GaveUp?
  }

  /** Over every run, once all executions are done: a caller waits in vain exactly if its
      execution was aborted and no caller of it has given up. */
  lemma WaitsInVainIffAborted<R>(events: seq<Event<R>>, c: nat)
    requires c in Run(events).callers
    requires forall r :: 0 <= r < |Run(events).core.requests| ==> !Live(Run(events).core.requests[r])
    ensures
      var s := Run(events);
      var r := s.callers[c].request;
      WaitsInVain(s, c) <==> r in AbortedIn(Empty(), events) && !AnyGaveUp(s, r)
  {
    var s := Run(events);
    AbortedHaveNoResult(Empty<R>(), events);
    var r := s.callers[c].request;
    var q := s.core.requests[r];
    assert !Live(q) && !q.phase.Skipped?;
    assert r in WithoutResult(s.core.requests) <==> q.result.None?;
    assert q.result.None? ==> (q.future.Cancelled? <==> AnyGaveUp(s, r));
  }

  // ---- the same answer as a direct call? ----

  /** The keys under which each function is called, and what each function returns. */
  datatype Usage<!R> = Usage(keyOf: nat -> string, answer: nat -> Outcome<R>)

  ghost predicate Follows<R>(u: Usage<R>, s: System<R>) {
    && (forall c :: c in s.callers ==> s.callers[c].key == u.keyOf(s.callers[c].func))
    && (forall r :: 0 <= r < |s.core.requests| ==>
         && s.core.requests[r].key == u.keyOf(s.core.requests[r].func)
         && (s.core.requests[r].result.Some? ==> s.core.requests[r].result.value == u.answer(s.core.requests[r].func)))
  }

  /** Every run in which functions are called under their keys and return their answers
      gives each caller the answer of the function it passed. */
  ghost predicate LikeDirectCalls<R(!new)>(u: Usage<R>) {
    forall events: seq<Event<R>> :: Follows(u, Run(events)) ==> AnsweredDirectly(u, Run(events))
  }

  ghost predicate AnsweredDirectly<R>(u: Usage<R>, s: System<R>) {
    forall c :: c in s.callers && s.callers[c].wait.Received? ==>
      s.callers[c].wait.outcome == u.answer(s.callers[c].func)
  }

  ghost predicate KeyDeterminesAnswer<R>(u: Usage<R>) {
    forall f, g :: u.keyOf(f) == u.keyOf(g) ==> u.answer(f) == u.answer(g)
  }

  lemma DeterminedAnswers<R(!new)>(u: Usage<R>, events: seq<Event<R>>)
    requires KeyDeterminesAnswer(u) && Follows(u, Run(events))
    ensures AnsweredDirectly(u, Run(events))
  {
    forall c | c in Run(events).callers
      ensures Run(events).callers[c].wait.Received? ==>
        Run(events).callers[c].wait.outcome == u.answer(Run(events).callers[c].func)
    {
      CallersGetTheirExecution(events, c);
    }
  }

  lemma MixedAnswers<R(!new)>(u: Usage<R>, f: nat, g: nat)
    requires u.keyOf(f) == u.keyOf(g) && u.answer(f) != u.answer(g)
    ensures
      var s := Run(MixingRun(u.keyOf(f), f, g, u.answer(f)));
      Follows(u, s) && !AnsweredDirectly(u, s)
  {
    SharedKeyMixesAnswers(u.keyOf(f), f, g, u.answer(f));
    assert 1 in Run(MixingRun(u.keyOf(f), f, g, u.answer(f))).callers;
  }

  /** The key leaves the function out, so coalescing is transparent exactly when
      functions that share a key give the same answer. */
  lemma TransparentIffKeyDeterminesAnswer<R(!new)>(u: Usage<R>)
    ensures LikeDirectCalls(u) <==> KeyDeterminesAnswer(u)
  {
    if KeyDeterminesAnswer(u) {
      forall events: seq<Event<R>> | Follows(u, Run(events))
        ensures AnsweredDirectly(u, Run(events))
      {
        DeterminedAnswers(u, events);
      }
    } else {
      var f, g :| u.keyOf(f) == u.keyOf(g) && u.answer(f) != u.answer(g);
      MixedAnswers(u, f, g);
    }
  }

  /** Two concurrent calls under one key: the second caller's function never runs. */
  ghost function MixingRun<R>(key: string, f: nat, g: nat, o: Outcome<R>): seq<Event<R>> {
    [Call(0, key, f), Call(1, key, g), Begin(0), Finish(0, o), Wake(1)]
  }

  lemma RunOne<R>(s: System<R>, e: Event<R>, rest: seq<Event<R>>)
    requires Invariant(s)
    ensures Invariant(Step(s, e)) && RunFrom(s, [e] + rest) == RunFrom(Step(s, e), rest)
  {
    StepKeepsInvariant(s, e);
    assert ([e] + rest)[1..] == rest;
  }

  ghost function Shared<R>(key: string, f: nat, q: Request<R>, callers: map<nat, Caller<R>>): System<R> {
    System(Core(map[key := 0], [q]), callers)
  }

  lemma MixingJoin<R>(key: string, f: nat, g: nat)
    ensures
      var q: Request<R> := Request(key, f, Unsettled, 1, Scheduled, None);
      var both := map[0 := Caller(key, f, 0, Waiting), 1 := Caller(key, g, 0, Waiting)];
      && Step(Empty(), Call(0, key, f)) == Shared(key, f, q, map[0 := both[0]])
      && Step(Shared(key, f, q, map[0 := both[0]]), Call(1, key, g)) == Shared(key, f, q.(waiters := 2), both)
  {
  }

  lemma MixingExecute<R>(key: string, f: nat, o: Outcome<R>, callers: map<nat, Caller<R>>)
    requires forall c :: c in callers ==> callers[c].request == 0
    ensures
      var q: Request<R> := Request(key, f, Unsettled, 2, Scheduled, None);
      var running := Shared(key, f, q.(phase := Running(0)), callers);
      && Step(Shared(key, f, q, callers), Begin(0)) == running
      && Step(running, Finish(0, o)) == Shared(key, f, Request(key, f, Settled(o), 2, Finishing, Some(o)), callers)
  {
  }

  lemma MixingCalls<R>(key: string, f: nat, g: nat, rest: seq<Event<R>>)
    ensures
      var both := map[0 := Caller(key, f, 0, Waiting), 1 := Caller(key, g, 0, Waiting)];
      var s: System<R> := Shared(key, f, Request(key, f, Unsettled, 2, Scheduled, None), both);
      Invariant(s) && Run([Call(0, key, f), Call(1, key, g)] + rest) == RunFrom(s, rest)
  {
    MixingJoin<R>(key, f, g);
    var a, b: Event<R> := Call(0, key, f), Call(1, key, g);
    assert [a, b] + rest == [a] + ([b] + rest);
    RunOne(Empty(), a, [b] + rest);
    RunOne(Step(Empty(), a), b, rest);
  }

  lemma MixingTask<R>(key: string, f: nat, o: Outcome<R>, callers: map<nat, Caller<R>>, rest: seq<Event<R>>)
    requires forall c :: c in callers ==> callers[c].request == 0
    requires Invariant(Shared(key, f, Request(key, f, Unsettled, 2, Scheduled, None), callers))
    ensures
      var s := Shared(key, f, Request(key, f, Unsettled, 2, Scheduled, None), callers);
      var s' := Shared(key, f, Request(key, f, Settled(o), 2, Finishing, Some(o)), callers);
      Invariant(s') && RunFrom(s, [Begin(0), Finish(0, o)] + rest) == RunFrom(s', rest)
  {
    MixingExecute(key, f, o, callers);
    var s := Shared(key, f, Request(key, f, Unsettled, 2, Scheduled, None), callers);
    var b, e: Event<R> := Begin(0), Finish(0, o);
    assert [b, e] + rest == [b] + ([e] + rest);
    RunOne(s, b, [e] + rest);
    RunOne(Step(s, b), e, rest);
  }

  lemma MixingWake<R>(key: string, f: nat, g: nat, o: Outcome<R>, s: System<R>)
    requires s == Shared(key, f, Request(key, f, Settled(o), 2, Finishing, Some(o)),
      map[0 := Caller(key, f, 0, Waiting), 1 := Caller(key, g, 0, Waiting)])
    requires Invariant(s)
    ensures RunFrom(s, [Wake(1)])
         == s.(callers := map[0 := Caller(key, f, 0, Waiting), 1 := Caller(key, g, 0, Received(o))])
  {
    var w: Event<R> := Wake(1);
    assert [w] == [w] + [];
    RunOne(s, w, []);
  }

  lemma SharedKeyMixesAnswers<R>(key: string, f: nat, g: nat, o: Outcome<R>)
    ensures
      var s := Run(MixingRun(key, f, g, o));
      && s.callers == map[0 := Caller(key, f, 0, Waiting), 1 := Caller(key, g, 0, Received(o))]
      && s.core.requests == [Request(key, f, Settled(o), 2, Finishing, Some(o))]
  {
    var calls, task, wake: seq<Event<R>> := [Call(0, key, f), Call(1, key, g)], [Begin(0), Finish(0, o)], [Wake(1)];
    assert MixingRun(key, f, g, o) == calls + (task + wake);
    MixingCalls(key, f, g, task + wake);
    var both := map[0 := Caller(key, f, 0, Waiting), 1 := Caller(key, g, 0, Waiting)];
    MixingTask(key, f, o, both, wake);
    MixingWake(key, f, g, o, Shared(key, f, Request(key, f, Settled(o), 2, Finishing, Some(o)), both));
  }
}
