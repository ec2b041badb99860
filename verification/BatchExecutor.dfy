/** The batch executor: submitted items wait in a queue until a full batch or a timer
    hands them to the batch processor. The lock is held while the processor runs, so
    a submission and a timer firing are each one step. */
module BatchExecutor {
  /** What became of the future a submitter waits on. */
  datatype Settlement<R> = Unsettled | Result(value: R) | Failed(message: string) | Withdrawn

  datatype Ticket = Ticket(item: string, future: nat)

  /** What the processor did with a batch: its results, the exception it raised, or one, such
      as a cancellation, that is not caught. */
  datatype Reply<R> = Results(values: seq<R>) | Raised(message: string) | Escaped

  /** No timer, one that will fire, or one whose task has ended without being reset. */
  datatype Timer = Unset | Armed | Dead

  datatype View<R> = View(pending: seq<Ticket>, timer: Timer, futures: seq<Settlement<R>>)

  function Items(batch: seq<Ticket>): (items: seq<string>)
    ensures |items| == |batch|
  {
    seq(|batch|, i requires 0 <= i < |batch| => batch[i].item)
  }

  /** Where a slice that ends at `k` ends in a list of `n` elements; a negative `k`
      counts from the back. */
  function SliceEnd(n: nat, k: int): (end: nat)
    ensures end <= n
  {
    if k >= n then n
    else if k >= 0 then k
    else if n + k >= 0 then n + k
    else 0
  }

  ghost predicate FuturesExist<R>(tickets: seq<Ticket>, futures: seq<Settlement<R>>) {
    forall i :: 0 <= i < |tickets| ==> tickets[i].future < |futures|
  }

  /** The processor's word on place `i` of the batch; results are paired with futures up
      to the shorter of the two. */
  function Verdict<R>(reply: Reply<R>, i: nat): Settlement<R> {
    match reply
    case Results(values) => if i < |values| then Result(values[i]) else Unsettled
    case Raised(message) => Failed(message)
    case Escaped => Unsettled
  }

  /** The reply settles the future at place `i`. */
  predicate Reaches<R>(reply: Reply<R>, i: nat) {
    match reply
    case Results(values) => i < |values|
    case Raised(_) => true
    case Escaped => false
  }

  /** The futures after the first `n` places of the batch have been dealt with; a future
      that is already done is left alone. */
  ghost function Distributed<R>(futures: seq<Settlement<R>>, batch: seq<Ticket>, reply: Reply<R>,
                                n: nat): (f: seq<Settlement<R>>)
    requires n <= |batch| && FuturesExist(batch, futures)
    ensures |f| == |futures|
  {
    if n == 0 then futures
    else
      var before := Distributed(futures, batch, reply, n - 1);
      var id := batch[n - 1].future;
      if before[id].Unsettled? then before[id := Verdict(reply, n - 1)] else before
  }

  /** What is left of a queue after some of its head has been taken. */
  ghost predicate IsSuffix(rest: seq<Ticket>, all: seq<Ticket>) {
    |rest| <= |all| && rest == all[|all| - |rest|..]
  }

  ghost function Processed<R>(v: View<R>, batchSize: int, reply: seq<string> -> Reply<R>): View<R>
    requires FuturesExist(v.pending, v.futures)
  {
    if v.pending == [] then v
    else
      var end := SliceEnd(|v.pending|, batchSize);
      var batch := v.pending[..end];
      View(v.pending[end..], v.timer, Distributed(v.futures, batch, reply(Items(batch)), |batch|))
  }

  /** The processor's exception on the first batch is not caught. */
  ghost predicate Escapes<R>(v: View<R>, batchSize: int, reply: seq<string> -> Reply<R>) {
    v.pending != [] && reply(Items(v.pending[..SliceEnd(|v.pending|, batchSize)])).Escaped?
  }

  ghost function Submitted<R>(v: View<R>, item: string, batchSize: int, reply: seq<string> -> Reply<R>): View<R>
    requires FuturesExist(v.pending, v.futures)
  {
    var v' := View(v.pending + [Ticket(item, |v.futures|)], v.timer, v.futures + [Unsettled]);
    if |v'.pending| >= batchSize then Processed(v', batchSize, reply)
    else v'.(timer := if v.timer.Unset? then Armed else v.timer)
  }

  ghost function Fired<R>(v: View<R>, batchSize: int, reply: seq<string> -> Reply<R>): View<R>
    requires FuturesExist(v.pending, v.futures)
  {
    Processed(v, batchSize, reply).(timer := if Escapes(v, batchSize, reply) then Dead else Unset)
  }

  class Executor<R> {
    const batchSize: int
    var pending: seq<Ticket>
    var timer: Timer
    var futures: seq<Settlement<R>>

    ghost function AsView(): View<R>
      reads this
    {
      View(pending, timer, futures)
    }

    constructor (batchSize: int)
      ensures this.batchSize == batchSize && AsView() == View([], Unset, [])
    {
      this.batchSize := batchSize;
      pending := [];
      timer := Unset;
      futures := [];
    }

    method Submit(item: string, reply: seq<string> -> Reply<R>) returns (future: nat)
      requires FuturesExist(pending, futures)
      modifies this
      ensures AsView() == Submitted(old(AsView()), item, batchSize, reply)
      ensures future == |old(futures)|
    {
      future := |futures|;
      futures := futures + [Unsettled];
      pending := pending + [Ticket(item, future)];
      if |pending| >= batchSize {
        var escaped := ProcessBatch(reply);
      } else if timer.Unset? {
        timer := Armed;
      }
    }

    /** An exception that escapes skips the reset of the timer, whose task has ended. */
    method TimerCallback(reply: seq<string> -> Reply<R>)
      requires FuturesExist(pending, futures)
      modifies this
      ensures AsView() == Fired(old(AsView()), batchSize, reply)
    {
      if pending != [] {
        var escaped := ProcessBatch(reply);
        if escaped {
          timer := Dead;
          return;
        }
      }
      timer := Unset;
    }

    method ProcessBatch(reply: seq<string> -> Reply<R>) returns (escaped: bool)
      requires FuturesExist(pending, futures)
      modifies this
      ensures AsView() == Processed(old(AsView()), batchSize, reply)
      ensures escaped <==> Escapes(old(AsView()), batchSize, reply)
    {
      escaped := false;
      if pending == [] {
        return;
      }
      var end := SliceEnd(|pending|, batchSize);
      var batch := pending[..end];
      pending := pending[end..];
      var answer := reply(Items(batch));
      match answer
      case Results(values) =>
        var paired := if |values| < |batch| then |values| else |batch|;
        for i := 0 to paired
          invariant pending == old(pending)[end..] && timer == old(timer)
          invariant futures == Distributed(old(futures), batch, answer, i)
        {
          if futures[batch[i].future].Unsettled? {
            futures := futures[batch[i].future := Result(values[i])];
          }
        }
        UnpairedStay(old(futures), batch, answer, paired, |batch|);
      case Raised(message) =>
        for i := 0 to |batch|
          invariant pending == old(pending)[end..] && timer == old(timer)
          invariant futures == Distributed(old(futures), batch, answer, i)
        {
          if futures[batch[i].future].Unsettled? {
            futures := futures[batch[i].future := Failed(message)];
          }
        }
      case Escaped =>
        UnpairedStay(futures, batch, answer, 0, |batch|);
        escaped := true;
    }
  }

  lemma {:induction false} UnpairedStay<R>(futures: seq<Settlement<R>>, batch: seq<Ticket>, reply: Reply<R>,
                                           from: nat, n: nat)
    requires from <= n <= |batch| && FuturesExist(batch, futures)
    requires forall i :: from <= i < n ==> !Reaches(reply, i)
    ensures Distributed(futures, batch, reply, n) == Distributed(futures, batch, reply, from)
  {
    if from < n {
      UnpairedStay(futures, batch, reply, from, n - 1);
      assert !Reaches(reply, n - 1) && Verdict(reply, n - 1).Unsettled?;
    }
  }

  // ---- runs ----

  datatype Batch<R> = Batch(tickets: seq<Ticket>, reply: Reply<R>)

  /** The executor with everything ever submitted and every batch ever processed. */
  datatype System<R> = System(view: View<R>, submitted: seq<Ticket>, batches: seq<Batch<R>>)

  datatype Event<!R> =
    | Submit(item: string, reply: seq<string> -> Reply<R>)
    | Fire(reply: seq<string> -> Reply<R>)
    | Withdraw(future: nat)   // a submitter gives up waiting
    | Stop                    // the timer's task is cancelled before it fires

  ghost function Recorded<R>(batches: seq<Batch<R>>, pending: seq<Ticket>, batchSize: int,
                             reply: seq<string> -> Reply<R>): seq<Batch<R>> {
    if pending == [] then batches
    else
      var tickets := pending[..SliceEnd(|pending|, batchSize)];
      batches + [Batch(tickets, reply(Items(tickets)))]
  }

  ghost predicate WellFormed<R>(s: System<R>) {
    && |s.view.futures| == |s.submitted|
    && (forall i :: 0 <= i < |s.submitted| ==> s.submitted[i].future == i)
    && IsSuffix(s.view.pending, s.submitted)
  }

  lemma WellFormedFuturesExist<R>(s: System<R>)
    requires WellFormed(s)
    ensures FuturesExist(s.view.pending, s.view.futures)
  {
    forall i | 0 <= i < |s.view.pending|
      ensures s.view.pending[i].future < |s.view.futures|
    {
      assert s.view.pending[i] == s.submitted[|s.submitted| - |s.view.pending| + i];
    }
  }

  lemma SubmittedIsSuffix(pending: seq<Ticket>, submitted: seq<Ticket>, ticket: Ticket, rest: seq<Ticket>)
    requires IsSuffix(pending, submitted) && IsSuffix(rest, pending + [ticket])
    ensures IsSuffix(rest, submitted + [ticket])
  {
  }

  lemma ProcessedForm<R>(v: View<R>, batchSize: int, reply: seq<string> -> Reply<R>)
    requires FuturesExist(v.pending, v.futures)
    ensures
      var v' := Processed(v, batchSize, reply);
      |v'.futures| == |v.futures| && IsSuffix(v'.pending, v.pending)
  {
  }

  lemma SubmitKeepsForm<R>(s: System<R>, item: string, batchSize: int, reply: seq<string> -> Reply<R>)
    requires WellFormed(s) && FuturesExist(s.view.pending, s.view.futures)
    ensures
      var v := Submitted(s.view, item, batchSize, reply);
      |v.futures| == |s.submitted| + 1 && IsSuffix(v.pending, s.submitted + [Ticket(item, |s.view.futures|)])
  {
    var ticket := Ticket(item, |s.view.futures|);
    var v := View(s.view.pending + [ticket], s.view.timer, s.view.futures + [Unsettled]);
    ProcessedForm(v, batchSize, reply);
    SubmittedIsSuffix(s.view.pending, s.submitted, ticket, Submitted(s.view, item, batchSize, reply).pending);
  }

  lemma FireKeepsForm<R>(s: System<R>, batchSize: int, reply: seq<string> -> Reply<R>)
    requires WellFormed(s) && FuturesExist(s.view.pending, s.view.futures)
    ensures
      var v := Fired(s.view, batchSize, reply);
      |v.futures| == |s.submitted| && IsSuffix(v.pending, s.submitted)
  {
    ProcessedForm(s.view, batchSize, reply);
    SuffixOfSuffix(Processed(s.view, batchSize, reply).pending, s.view.pending, s.submitted);
  }

  lemma SuffixOfSuffix(a: seq<Ticket>, b: seq<Ticket>, c: seq<Ticket>)
    requires IsSuffix(a, b) && IsSuffix(b, c)
    ensures IsSuffix(a, c)
  {
  }

  ghost function Step<R>(s: System<R>, e: Event<R>, batchSize: int): (s': System<R>)
    requires WellFormed(s)
    ensures WellFormed(s')
  {
    WellFormedFuturesExist(s);
    match e
    case Submit(item, reply) =>
      var ticket := Ticket(item, |s.view.futures|);
      var pending := s.view.pending + [ticket];
      SubmitKeepsForm(s, item, batchSize, reply);
      System(Submitted(s.view, item, batchSize, reply), s.submitted + [ticket],
             if |pending| >= batchSize then Recorded(s.batches, pending, batchSize, reply) else s.batches)
    case Fire(reply) =>
      FireKeepsForm(s, batchSize, reply);
      if s.view.timer.Armed? then
        System(Fired(s.view, batchSize, reply), s.submitted, Recorded(s.batches, s.view.pending, batchSize, reply))
      else s
    case Withdraw(f) =>
      if f < |s.view.futures| && s.view.futures[f].Unsettled? then
        s.(view := s.view.(futures := s.view.futures[f := Withdrawn]))
      else s
    case Stop => if s.view.timer.Armed? then s.(view := s.view.(timer := Dead)) else s
  }

  ghost function Run<R>(events: seq<Event<R>>, batchSize: int): (s: System<R>)
    ensures WellFormed(s)
  {
    if events == [] then System(View([], Unset, []), [], [])
    else Step(Run(events[..|events| - 1], batchSize), events[|events| - 1], batchSize)
  }

  // ---- safety ----

  ghost function Flatten<R>(batches: seq<Batch<R>>): seq<Ticket> {
    if batches == [] then [] else Flatten(batches[..|batches| - 1]) + batches[|batches| - 1].tickets
  }

  /** The future of each ticket of a processed batch holds the processor's word on its
      own place, unless its submitter withdrew. */
  ghost predicate Honoured<R>(batch: Batch<R>, futures: seq<Settlement<R>>) {
    forall i :: 0 <= i < |batch.tickets| ==>
      && batch.tickets[i].future < |futures|
      && (futures[batch.tickets[i].future] == Verdict(batch.reply, i) || futures[batch.tickets[i].future].Withdrawn?)
  }

  ghost predicate Waiting<R>(tickets: seq<Ticket>, futures: seq<Settlement<R>>) {
    forall i :: 0 <= i < |tickets| ==>
      && tickets[i].future < |futures|
      && (futures[tickets[i].future].Unsettled? || futures[tickets[i].future].Withdrawn?)
  }

  ghost predicate AllHonoured<R>(batches: seq<Batch<R>>, futures: seq<Settlement<R>>, batchSize: int) {
    forall b :: 0 <= b < |batches| ==> 1 <= |batches[b].tickets| <= batchSize && Honoured(batches[b], futures)
  }

  ghost predicate Invariant<R>(s: System<R>, batchSize: int) {
    && Flatten(s.batches) + s.view.pending == s.submitted
    && AllHonoured(s.batches, s.view.futures, batchSize)
    && Waiting(s.view.pending, s.view.futures)
    && |s.view.pending| < batchSize
    && (s.view.pending != [] ==> !s.view.timer.Unset?)
  }

  /** Distribution touches exactly the futures of the batch. */
  lemma {:induction false} DistributedPointwise<R>(futures: seq<Settlement<R>>, batch: seq<Ticket>, reply: Reply<R>,
                                                   n: nat, id: nat)
    requires n <= |batch| && FuturesExist(batch, futures) && id < |futures|
    requires forall i, j :: 0 <= i < j < |batch| ==> batch[i].future != batch[j].future
    ensures forall i :: 0 <= i < n && batch[i].future == id ==>
      Distributed(futures, batch, reply, n)[id] == if futures[id].Unsettled? then Verdict(reply, i) else futures[id]
    ensures (forall i :: 0 <= i < n ==> batch[i].future != id)
            ==> Distributed(futures, batch, reply, n)[id] == futures[id]
  {
    if n > 0 {
      DistributedPointwise(futures, batch, reply, n - 1, id);
    }
  }

  /** No future, once settled, ever changes: it is settled at most once. */
  lemma SettledOnce<R>(s: System<R>, e: Event<R>, batchSize: int, id: nat)
    requires WellFormed(s) && id < |s.view.futures| && !s.view.futures[id].Unsettled?
    ensures Step(s, e, batchSize).view.futures[id] == s.view.futures[id]
  {
    WellFormedFuturesExist(s);
    var v := if e.Submit? then
        View(s.view.pending + [Ticket(e.item, |s.view.futures|)], s.view.timer, s.view.futures + [Unsettled])
      else s.view;
    if e.Submit? || e.Fire? {
      var end := SliceEnd(|v.pending|, batchSize);
      DoneStaysDone(v.futures, v.pending[..end], e.reply(Items(v.pending[..end])), end, id);
    }
  }

  lemma {:induction false} DoneStaysDone<R>(futures: seq<Settlement<R>>, batch: seq<Ticket>, reply: Reply<R>, n: nat,
                                            id: nat)
    requires n <= |batch| && FuturesExist(batch, futures) && id < |futures| && !futures[id].Unsettled?
    ensures Distributed(futures, batch, reply, n)[id] == futures[id]
  {
    if n > 0 {
      DoneStaysDone(futures, batch, reply, n - 1, id);
    }
  }

  lemma BatchIsHonoured<R>(futures: seq<Settlement<R>>, batch: seq<Ticket>, reply: Reply<R>)
    requires Waiting(batch, futures) && FuturesExist(batch, futures)
    requires forall i, j :: 0 <= i < j < |batch| ==> batch[i].future != batch[j].future
    ensures Honoured(Batch(batch, reply), Distributed(futures, batch, reply, |batch|))
  {
    forall i | 0 <= i < |batch|
      ensures
        var f := Distributed(futures, batch, reply, |batch|)[batch[i].future];
        f == Verdict(reply, i) || f.Withdrawn?
    {
      DistributedPointwise(futures, batch, reply, |batch|, batch[i].future);
    }
  }

  /** Futures from before the batch are left as they were. */
  lemma {:induction false} EarlierUntouched<R>(futures: seq<Settlement<R>>, batch: seq<Ticket>, reply: Reply<R>,
                                               n: nat, first: nat)
    requires n <= |batch| && FuturesExist(batch, futures)
    requires forall i :: 0 <= i < |batch| ==> batch[i].future >= first
    ensures forall id :: 0 <= id < first && id < |futures| ==> Distributed(futures, batch, reply, n)[id] == futures[id]
  {
    if n > 0 {
      EarlierUntouched(futures, batch, reply, n - 1, first);
    }
  }

  lemma EarlierStayHonoured<R>(s: System<R>, futures: seq<Settlement<R>>, batchSize: int)
    requires WellFormed(s) && Flatten(s.batches) + s.view.pending == s.submitted
    requires AllHonoured(s.batches, s.view.futures, batchSize)
    requires |futures| >= |s.view.futures|
    requires forall id :: 0 <= id < |s.submitted| - |s.view.pending| ==> futures[id] == s.view.futures[id]
    ensures AllHonoured(s.batches, futures, batchSize)
  {
    forall b | 0 <= b < |s.batches|
      ensures Honoured(s.batches[b], futures)
    {
      assert Honoured(s.batches[b], s.view.futures);
      forall i | 0 <= i < |s.batches[b].tickets|
        ensures
          var id := s.batches[b].tickets[i].future;
          id < |s.submitted| - |s.view.pending| && futures[id] == s.view.futures[id]
      {
        EarlierTicket(s, b, i);
      }
    }
  }

  /** Processing a queue whose tickets are the last ones submitted. */
  lemma ProcessingKeepsInvariant<R>(s: System<R>, batchSize: int, reply: seq<string> -> Reply<R>)
    requires WellFormed(s) && s.view.pending != [] && 1 <= batchSize
    requires Flatten(s.batches) + s.view.pending == s.submitted
    requires AllHonoured(s.batches, s.view.futures, batchSize)
    requires Waiting(s.view.pending, s.view.futures) && |s.view.pending| <= batchSize
    ensures FuturesExist(s.view.pending, s.view.futures)
    ensures
      var v := Processed(s.view, batchSize, reply);
      v.pending == [] && Invariant(System(v, s.submitted, Recorded(s.batches, s.view.pending, batchSize, reply)),
                                   batchSize)
  {
    WellFormedFuturesExist(s);
    WholeQueue(s.view, s.batches, batchSize, reply);
    AnsweredQueue(s, batchSize, reply(Items(s.view.pending)));
  }

  lemma AnsweredQueue<R>(s: System<R>, batchSize: int, answer: Reply<R>)
    requires WellFormed(s) && s.view.pending != [] && |s.view.pending| <= batchSize
    requires Flatten(s.batches) + s.view.pending == s.submitted
    requires AllHonoured(s.batches, s.view.futures, batchSize)
    requires Waiting(s.view.pending, s.view.futures) && FuturesExist(s.view.pending, s.view.futures)
    ensures
      var batch := s.view.pending;
      var futures := Distributed(s.view.futures, batch, answer, |batch|);
      && AllHonoured(s.batches + [Batch(batch, answer)], futures, batchSize)
      && Flatten(s.batches + [Batch(batch, answer)]) == s.submitted
  {
    var batch := s.view.pending;
    var futures := Distributed(s.view.futures, batch, answer, |batch|);
    PendingIsLast(s);
    BatchIsHonoured(s.view.futures, batch, answer);
    EarlierUntouched(s.view.futures, batch, answer, |batch|, |s.submitted| - |batch|);
    EarlierStayHonoured(s, futures, batchSize);
    OneMoreBatch(s.batches, Batch(batch, answer), futures, batchSize);
  }

  /** A queue that fits one batch is processed whole. */
  lemma WholeQueue<R>(v: View<R>, batches: seq<Batch<R>>, batchSize: int, reply: seq<string> -> Reply<R>)
    requires FuturesExist(v.pending, v.futures) && v.pending != [] && |v.pending| <= batchSize
    ensures
      var answer := reply(Items(v.pending));
      && Processed(v, batchSize, reply) == View([], v.timer, Distributed(v.futures, v.pending, answer, |v.pending|))
      && Recorded(batches, v.pending, batchSize, reply) == batches + [Batch(v.pending, answer)]
  {
    assert v.pending[..|v.pending|] == v.pending && v.pending[|v.pending|..] == [];
  }

  lemma OneMoreBatch<R>(batches: seq<Batch<R>>, batch: Batch<R>, futures: seq<Settlement<R>>, batchSize: int)
    requires AllHonoured(batches, futures, batchSize)
    requires 1 <= |batch.tickets| <= batchSize && Honoured(batch, futures)
    ensures AllHonoured(batches + [batch], futures, batchSize)
    ensures Flatten(batches + [batch]) == Flatten(batches) + batch.tickets
  {
    assert (batches + [batch])[..|batches|] == batches;
  }

  lemma PendingIsLast<R>(s: System<R>)
    requires WellFormed(s)
    ensures forall i :: 0 <= i < |s.view.pending| ==>
      s.view.pending[i].future == |s.submitted| - |s.view.pending| + i
  {
    forall i | 0 <= i < |s.view.pending|
      ensures s.view.pending[i].future == |s.submitted| - |s.view.pending| + i
    {
      assert s.view.pending[i] == s.submitted[|s.submitted| - |s.view.pending| + i];
    }
  }

  /** Tickets of processed batches come before every pending one. */
  lemma EarlierTicket<R>(s: System<R>, b: nat, i: nat)
    requires WellFormed(s) && Flatten(s.batches) + s.view.pending == s.submitted
    requires b < |s.batches| && i < |s.batches[b].tickets|
    ensures s.batches[b].tickets[i].future < |s.submitted| - |s.view.pending|
  {
    var k := FlattenIndex(s.batches, b, i);
    assert s.submitted[k] == s.batches[b].tickets[i];
  }

  lemma {:induction false} FlattenIndex<R>(batches: seq<Batch<R>>, b: nat, i: nat) returns (k: nat)
    requires b < |batches| && i < |batches[b].tickets|
    ensures k < |Flatten(batches)| && Flatten(batches)[k] == batches[b].tickets[i]
  {
    var n := |batches| - 1;
    if b == n {
      k := |Flatten(batches[..n])| + i;
    } else {
      k := FlattenIndex(batches[..n], b, i);
    }
  }

  lemma SubmitKeepsInvariant<R>(s: System<R>, item: string, reply: seq<string> -> Reply<R>, batchSize: int)
    requires WellFormed(s) && Invariant(s, batchSize)
    ensures Invariant(Step(s, Submit(item, reply), batchSize), batchSize)
  {
    WellFormedFuturesExist(s);
    var ticket := Ticket(item, |s.view.futures|);
    var queued := Queued(s, ticket);
    EarlierStayHonoured(s, queued.view.futures, batchSize);
    if |queued.view.pending| >= batchSize {
      ProcessingKeepsInvariant(queued, batchSize, reply);
    }
  }

  ghost function WithQueued<R>(s: System<R>, ticket: Ticket): System<R> {
    System(View(s.view.pending + [ticket], s.view.timer, s.view.futures + [Unsettled]),
           s.submitted + [ticket], s.batches)
  }

  lemma Queued<R>(s: System<R>, ticket: Ticket) returns (queued: System<R>)
    requires WellFormed(s) && ticket.future == |s.view.futures|
    requires Flatten(s.batches) + s.view.pending == s.submitted
    requires Waiting(s.view.pending, s.view.futures)
    ensures queued == WithQueued(s, ticket)
    ensures WellFormed(queued) && Waiting(queued.view.pending, queued.view.futures)
    ensures Flatten(s.batches) + queued.view.pending == queued.submitted
  {
    queued := WithQueued(s, ticket);
    QueuedForm(s, ticket);
    WaitingAppend(s.view.pending, s.view.futures, ticket);
    AppendLast(Flatten(s.batches), s.view.pending, ticket);
  }

  lemma QueuedForm<R>(s: System<R>, ticket: Ticket)
    requires WellFormed(s) && ticket.future == |s.view.futures|
    ensures WellFormed(WithQueued(s, ticket))
  {
    SuffixGrows(s.view.pending, s.submitted, ticket);
  }

  lemma SuffixGrows(rest: seq<Ticket>, all: seq<Ticket>, last: Ticket)
    requires IsSuffix(rest, all)
    ensures IsSuffix(rest + [last], all + [last])
  {
  }

  lemma AppendLast(a: seq<Ticket>, b: seq<Ticket>, last: Ticket)
    ensures a + (b + [last]) == a + b + [last]
  {
  }

  lemma WaitingAppend<R>(pending: seq<Ticket>, futures: seq<Settlement<R>>, ticket: Ticket)
    requires Waiting(pending, futures) && ticket.future == |futures|
    ensures Waiting(pending + [ticket], futures + [Unsettled])
  {
  }

  lemma WithdrawKeepsInvariant<R>(s: System<R>, f: nat, batchSize: int)
    requires WellFormed(s) && Invariant(s, batchSize)
    ensures Invariant(Step(s, Withdraw(f), batchSize), batchSize)
  {
    WellFormedFuturesExist(s);
    if f < |s.view.futures| {
      var futures := s.view.futures[f := Withdrawn];
      assert Waiting(s.view.pending, futures);
      assert AllHonoured(s.batches, futures, batchSize) by {
        forall b | 0 <= b < |s.batches|
          ensures Honoured(s.batches[b], futures)
        {
          assert Honoured(s.batches[b], s.view.futures);
        }
      }
    }
  }

  lemma FireKeepsInvariant<R>(s: System<R>, reply: seq<string> -> Reply<R>, batchSize: int)
    requires WellFormed(s) && Invariant(s, batchSize)
    ensures Invariant(Step(s, Fire(reply), batchSize), batchSize)
  {
    WellFormedFuturesExist(s);
    if s.view.timer.Armed? && s.view.pending != [] {
      ProcessingKeepsInvariant(s, batchSize, reply);
    }
  }

  lemma StepKeepsInvariant<R>(s: System<R>, e: Event<R>, batchSize: int)
    requires WellFormed(s) && Invariant(s, batchSize)
    ensures Invariant(Step(s, e, batchSize), batchSize)
  {
    match e
    case Submit(item, reply) => SubmitKeepsInvariant(s, item, reply, batchSize);
    case Fire(reply) => FireKeepsInvariant(s, reply, batchSize);
    case Withdraw(f) => WithdrawKeepsInvariant(s, f, batchSize);
    case Stop =>
  }

  /** Over every run: the batches are consecutive pieces of the submission order, none
      empty or over-full; each processed ticket has its own place's result; fewer than
      a batch wait, and only with a timer, armed or dead. */
  lemma {:induction false} BatchesAreSafe<R>(events: seq<Event<R>>, batchSize: int)
    requires batchSize >= 1
    ensures Invariant(Run(events, batchSize), batchSize)
  {
    if events != [] {
      var n := |events| - 1;
      BatchesAreSafe(events[..n], batchSize);
      StepKeepsInvariant(Run(events[..n], batchSize), events[n], batchSize);
    }
  }

  // ---- who gets what ----

  /** Over every run, each place of a processed batch got its own word: the result at the
      same place, the exception raised, or nothing; unless its submitter withdrew. */
  lemma EachPlaceGetsItsOwn<R>(events: seq<Event<R>>, batchSize: int, b: nat, i: nat)
    requires batchSize >= 1
    requires b < |Run(events, batchSize).batches| && i < |Run(events, batchSize).batches[b].tickets|
    ensures
      var s := Run(events, batchSize);
      var id := s.batches[b].tickets[i].future;
      && id < |s.view.futures|
      && (s.view.futures[id].Withdrawn? ||
          match s.batches[b].reply
          case Results(values) => if i < |values| then s.view.futures[id] == Result(values[i])
                                  else s.view.futures[id].Unsettled?
          case Raised(message) => s.view.futures[id] == Failed(message)
          case Escaped => s.view.futures[id].Unsettled?)
  {
    BatchesAreSafe(events, batchSize);
    assert Honoured(Run(events, batchSize).batches[b], Run(events, batchSize).view.futures);
  }

  lemma SubmissionOutcome<R>(s: System<R>, batchSize: int, item: string, reply: seq<string> -> Reply<R>)
    requires WellFormed(s) && FuturesExist(s.view.pending, s.view.futures) && |s.view.pending| < batchSize
    ensures
      var s', queue := Step(s, Submit(item, reply), batchSize), s.view.pending + [Ticket(item, |s.view.futures|)];
      if |queue| == batchSize
      then s'.view.pending == [] && s'.batches == s.batches + [Batch(queue, reply(Items(queue)))]
      else s'.view.pending == queue && s'.batches == s.batches && s'.view.futures == s.view.futures + [Unsettled]
  {
    var queue := s.view.pending + [Ticket(item, |s.view.futures|)];
    assert queue[..|queue|] == queue && queue[|queue|..] == [];
  }

  /** A submission hands over exactly a full batch, the queue with the new item; short of
      that the item waits, and no future changes. */
  lemma SubmissionWaitsUnlessFull<R>(events: seq<Event<R>>, batchSize: int, item: string,
                                     reply: seq<string> -> Reply<R>)
    requires batchSize >= 1
    ensures
      var s, s' := Run(events, batchSize), Step(Run(events, batchSize), Submit(item, reply), batchSize);
      var queue := s.view.pending + [Ticket(item, |s.view.futures|)];
      if |queue| == batchSize
      then s'.view.pending == [] && |s'.batches| == |s.batches| + 1 && s'.batches[|s.batches|].tickets == queue
      else |queue| < batchSize && s'.view.pending == queue && s'.batches == s.batches
           && s'.view.futures == s.view.futures + [Unsettled]
  {
    BatchesAreSafe(events, batchSize);
    var s := Run(events, batchSize);
    WellFormedFuturesExist(s);
    SubmissionOutcome(s, batchSize, item, reply);
  }

  /** The processor answers every item by itself. */
  ghost predicate AnswersEach<R>(reply: seq<string> -> Reply<R>, answer: string -> R) {
    forall items :: AnswersAll(reply(items), items, answer)
  }

  ghost predicate AnswersAll<R>(reply: Reply<R>, items: seq<string>, answer: string -> R) {
    reply.Results? && |reply.values| == |items| && forall i :: 0 <= i < |items| ==> reply.values[i] == answer(items[i])
  }

  ghost predicate AllAnswerEach<R>(events: seq<Event<R>>, answer: string -> R) {
    forall i :: 0 <= i < |events| && (events[i].Submit? || events[i].Fire?) ==> AnswersEach(events[i].reply, answer)
  }

  /** What was submitted, in order. */
  ghost function ItemsSubmitted<R>(events: seq<Event<R>>): seq<string> {
    if events == [] then []
    else
      var e := events[|events| - 1];
      ItemsSubmitted(events[..|events| - 1]) + (if e.Submit? then [e.item] else [])
  }

  ghost predicate BatchesAnswered<R>(batches: seq<Batch<R>>, answer: string -> R) {
    forall b :: 0 <= b < |batches| ==> BatchAnswered(batches[b], answer)
  }

  ghost predicate BatchAnswered<R>(batch: Batch<R>, answer: string -> R) {
    && batch.reply.Results? && |batch.reply.values| == |batch.tickets|
    && (forall i :: 0 <= i < |batch.tickets| ==> batch.reply.values[i] == answer(batch.tickets[i].item))
  }

  lemma RecordedAnswered<R>(batches: seq<Batch<R>>, pending: seq<Ticket>, batchSize: int,
                            reply: seq<string> -> Reply<R>, answer: string -> R)
    requires BatchesAnswered(batches, answer) && AnswersEach(reply, answer)
    ensures BatchesAnswered(Recorded(batches, pending, batchSize, reply), answer)
  {
    var tickets := pending[..SliceEnd(|pending|, batchSize)];
    assert AnswersAll(reply(Items(tickets)), Items(tickets), answer);
  }

  lemma AnsweredStep<R>(s: System<R>, e: Event<R>, batchSize: int, answer: string -> R)
    requires WellFormed(s) && BatchesAnswered(s.batches, answer)
    requires e.Submit? || e.Fire? ==> AnswersEach(e.reply, answer)
    ensures BatchesAnswered(Step(s, e, batchSize).batches, answer)
  {
    WellFormedFuturesExist(s);
    match e
    case Submit(item, reply) =>
      RecordedAnswered(s.batches, s.view.pending + [Ticket(item, |s.view.futures|)], batchSize, reply, answer);
    case Fire(reply) => RecordedAnswered(s.batches, s.view.pending, batchSize, reply, answer);
    case _ =>
  }

  ghost predicate Keeps<R>(s: System<R>, items: seq<string>) {
    |s.submitted| == |items| && forall i :: 0 <= i < |items| ==> s.submitted[i].item == items[i]
  }

  lemma {:induction false} SubmissionsKept<R>(events: seq<Event<R>>, batchSize: int)
    ensures Keeps(Run(events, batchSize), ItemsSubmitted(events))
  {
    if events != [] {
      SubmissionsKept(events[..|events| - 1], batchSize);
      WellFormedFuturesExist(Run(events[..|events| - 1], batchSize));
    }
  }

  lemma {:induction false} AnsweredThroughout<R>(events: seq<Event<R>>, batchSize: int, answer: string -> R)
    requires AllAnswerEach(events, answer)
    ensures BatchesAnswered(Run(events, batchSize).batches, answer)
  {
    if events != [] {
      var n := |events| - 1;
      AnsweredThroughout(events[..n], batchSize, answer);
      AnsweredStep(Run(events[..n], batchSize), events[n], batchSize, answer);
    }
  }

  /** Batching is transparent: over every run whose processor answers item by item, each
      submitter has the answer to its own item, has withdrawn, or is still pending. */
  lemma BatchingIsTransparent<R>(events: seq<Event<R>>, batchSize: int, answer: string -> R, id: nat)
    requires batchSize >= 1 && AllAnswerEach(events, answer)
    requires id < |ItemsSubmitted(events)|
    ensures
      var v := Run(events, batchSize).view;
      && |v.futures| == |ItemsSubmitted(events)|
      && (v.futures[id] == Result(answer(ItemsSubmitted(events)[id])) || v.futures[id].Withdrawn?
          || (v.futures[id].Unsettled? && Ticket(ItemsSubmitted(events)[id], id) in v.pending))
  {
    var s := Run(events, batchSize);
    BatchesAreSafe(events, batchSize);
    SubmissionsKept(events, batchSize);
    AnsweredThroughout(events, batchSize, answer);
    var done := Flatten(s.batches);
    assert s.submitted[id] == Ticket(ItemsSubmitted(events)[id], id);
    if id < |done| {
      var b, i := FlattenPlace(s.batches, id);
      assert done[id] == s.submitted[id];
      EachPlaceGetsItsOwn(events, batchSize, b, i);
      assert BatchAnswered(s.batches[b], answer);
    } else {
      assert s.view.pending[id - |done|] == s.submitted[id];
    }
  }

  // ---- the timer ----

  /** The step ends the timer's task without resetting the timer: it is cancelled, or it
      fires and the processor's exception on the batch it hands over is not caught. */
  ghost predicate Kills<R>(s: System<R>, e: Event<R>, batchSize: int)
    requires WellFormed(s)
  {
    && s.view.timer.Armed?
    && (e.Stop? || (e.Fire? && exists tickets ::
          Step(s, e, batchSize).batches == s.batches + [Batch(tickets, Escaped)]))
  }

  ghost predicate TimerDied<R>(events: seq<Event<R>>, batchSize: int) {
    events != [] &&
      var n := |events| - 1;
      TimerDied(events[..n], batchSize) || Kills(Run(events[..n], batchSize), events[n], batchSize)
  }

  lemma TimerStep<R>(s: System<R>, e: Event<R>, batchSize: int)
    requires WellFormed(s)
    ensures Step(s, e, batchSize).view.timer.Dead? <==> s.view.timer.Dead? || Kills(s, e, batchSize)
  {
    WellFormedFuturesExist(s);
    if e.Fire? && s.view.timer.Armed? {
      var batches := Recorded(s.batches, s.view.pending, batchSize, e.reply);
      if s.view.pending != [] {
        var tickets := s.view.pending[..SliceEnd(|s.view.pending|, batchSize)];
        var reply := e.reply(Items(tickets));
        assert batches == s.batches + [Batch(tickets, reply)] && batches[|s.batches|].reply == reply;
      }
    }
  }

  lemma {:induction false} DeadIffDied<R>(events: seq<Event<R>>, batchSize: int)
    ensures Run(events, batchSize).view.timer.Dead? <==> TimerDied(events, batchSize)
  {
    if events != [] {
      var n := |events| - 1;
      DeadIffDied(events[..n], batchSize);
      TimerStep(Run(events[..n], batchSize), events[n], batchSize);
    }
  }

  /** Over every run: items that wait have a timer that will fire exactly if no timer has
      died so far. */
  lemma LiveTimerIffNoneDied<R>(events: seq<Event<R>>, batchSize: int)
    requires batchSize >= 1
    ensures
      var v := Run(events, batchSize).view;
      v.pending != [] ==> (v.timer.Armed? <==> !TimerDied(events, batchSize))
  {
    BatchesAreSafe(events, batchSize);
    DeadIffDied(events, batchSize);
  }

  /** A live timer, when it fires, empties the queue; and items that wait have one as long
      as none has died. */
  lemma FiringEmptiesQueue<R>(events: seq<Event<R>>, batchSize: int, reply: seq<string> -> Reply<R>)
    requires batchSize >= 1
    ensures
      var s := Run(events, batchSize);
      && (s.view.timer.Armed? ==> Step(s, Fire(reply), batchSize).view.pending == [])
      && (s.view.pending != [] && !TimerDied(events, batchSize) ==> s.view.timer.Armed?)
  {
    BatchesAreSafe(events, batchSize);
    LiveTimerIffNoneDied(events, batchSize);
    var s := Run(events, batchSize);
    WellFormedFuturesExist(s);
    if s.view.pending != [] {
      ProcessingKeepsInvariant(s, batchSize, reply);
    }
  }

  // ---- who is served ----

  ghost predicate OnePerItem<R>(reply: Reply<R>, n: nat) {
    match reply
    case Results(values) => |values| == n
    case Raised(_) => true
    case Escaped => false
  }

  /** Once nothing is pending, exactly those submitters are left waiting who have not given
      up and whose place their batch's reply does not reach. */
  lemma LeftWaitingIffUnreached<R>(events: seq<Event<R>>, batchSize: int, id: nat) returns (b: nat, i: nat)
    requires batchSize >= 1
    requires Run(events, batchSize).view.pending == [] && id < |Run(events, batchSize).submitted|
    ensures
      var s := Run(events, batchSize);
      && b < |s.batches| && i < |s.batches[b].tickets| && s.batches[b].tickets[i].future == id
      && (s.view.futures[id].Unsettled? <==> !s.view.futures[id].Withdrawn? && !Reaches(s.batches[b].reply, i))
  {
    BatchesAreSafe(events, batchSize);
    var s := Run(events, batchSize);
    b, i := FlattenPlace(s.batches, id);
    assert s.submitted == Flatten(s.batches);
    assert s.submitted[id].future == id;
    assert Honoured(s.batches[b], s.view.futures);
  }

  /** So once every batch was answered item by item, no submitter is left waiting. */
  lemma EveryoneIsServed<R>(events: seq<Event<R>>, batchSize: int, id: nat)
    requires batchSize >= 1
    requires var s := Run(events, batchSize);
      && s.view.pending == [] && id < |s.submitted|
      && forall b :: 0 <= b < |s.batches| ==> OnePerItem(s.batches[b].reply, |s.batches[b].tickets|)
    ensures !Run(events, batchSize).view.futures[id].Unsettled?
  {
    var b, i := LeftWaitingIffUnreached(events, batchSize, id);
    var s := Run(events, batchSize);
    assert OnePerItem(s.batches[b].reply, |s.batches[b].tickets|);
  }

  lemma {:induction false} FlattenPlace<R>(batches: seq<Batch<R>>, k: nat) returns (b: nat, i: nat)
    requires k < |Flatten(batches)|
    ensures b < |batches| && i < |batches[b].tickets| && batches[b].tickets[i] == Flatten(batches)[k]
  {
    var n := |batches| - 1;
    if k < |Flatten(batches[..n])| {
      b, i := FlattenPlace(batches[..n], k);
    } else {
      b, i := n, k - |Flatten(batches[..n])|;
    }
  }

  // ---- who is forgotten ----

  /** Whoever waits after the run has a timer that will fire. */
  ghost predicate HasTimer<R>(s: System<R>) {
    s.view.pending != [] ==> s.view.timer.Armed?
  }

  /** On every run, of those in which timers may or may not die. */
  ghost predicate NobodyIsForgotten<R(!new)>(batchSize: int, mayDie: bool) {
    forall events: seq<Event<R>> :: mayDie || !TimerDied(events, batchSize) ==> HasTimer(Run(events, batchSize))
  }

  /** Waiting items always have a live timer exactly when the batch size is positive and
      no timer dies; with batches of one nothing ever waits. */
  lemma TimerGuaranteeIffPositive<R(!new)>(batchSize: int, mayDie: bool, reply: seq<string> -> Reply<R>)
    ensures NobodyIsForgotten<R>(batchSize, mayDie) <==> batchSize == 1 || (batchSize > 1 && !mayDie)
  {
    if batchSize == 1 || (batchSize > 1 && !mayDie) {
      forall events: seq<Event<R>> | mayDie || !TimerDied(events, batchSize)
        ensures HasTimer(Run(events, batchSize))
      {
        TimerIsSet(events, batchSize);
      }
    } else {
      var events := SomeoneIsForgotten(batchSize, reply);
    }
  }

  lemma SomeoneIsForgotten<R>(batchSize: int, reply: seq<string> -> Reply<R>) returns (events: seq<Event<R>>)
    requires batchSize != 1
    ensures !HasTimer(Run(events, batchSize)) && (batchSize <= 0 ==> !TimerDied(events, batchSize))
  {
    if batchSize <= 0 {
      events := [Submit("", reply)];
      OneIsForgotten(batchSize, reply);
    } else {
      events := StrandedAfterEscape<R>(batchSize);
    }
  }

  lemma TimerIsSet<R>(events: seq<Event<R>>, batchSize: int)
    requires batchSize == 1 || (batchSize > 1 && !TimerDied(events, batchSize))
    ensures HasTimer(Run(events, batchSize))
  {
    BatchesAreSafe(events, batchSize);
    LiveTimerIffNoneDied(events, batchSize);
  }

  lemma OneIsForgotten<R>(batchSize: int, reply: seq<string> -> Reply<R>)
    requires batchSize <= 0
    ensures !HasTimer(Run([Submit("", reply)], batchSize)) && !TimerDied([Submit("", reply)], batchSize)
  {
    ForgottenView(batchSize, reply);
    DeadIffDied<R>([Submit("", reply)], batchSize);
  }

  lemma ForgottenView<R>(batchSize: int, reply: seq<string> -> Reply<R>)
    requires batchSize <= 0
    ensures Run([Submit("", reply)], batchSize).view == View([Ticket("", 0)], Unset, [Unsettled])
  {
    FirstStep<R>(Submit("", reply), batchSize);
    ForgottenAtOnce(System(View([], Unset, []), [], []), batchSize, reply);
  }

  ghost function Escaping<R>(items: seq<string>): Reply<R> {
    Escaped
  }

  /** One item waits; its timer fires and the processor's exception escapes; the next item
      waits for a timer that never fires, and the first one for a result. */
  lemma StrandedAfterEscape<R>(batchSize: int) returns (events: seq<Event<R>>)
    requires batchSize >= 2
    ensures TimerDied(events, batchSize)
    ensures Run(events, batchSize).view == View([Ticket("", 1)], Dead, [Unsettled, Unsettled])
  {
    var a, b, c: Event<R> := Submit("", Escaping), Fire(Escaping), Submit("", Escaping);
    var s: System<R> := System(View([], Unset, []), [], []);
    FirstStep<R>(a, batchSize);
    WaitsFirst(s, batchSize);
    NextStep([a], b, batchSize);
    EscapesOnce(Run([a], batchSize), batchSize);
    NextStep([a] + [b], c, batchSize);
    WaitsNext(Run([a] + [b], batchSize), batchSize);
    events := [a] + [b] + [c];
    DeadIffDied(events, batchSize);
  }

  lemma NextStep<R>(events: seq<Event<R>>, e: Event<R>, batchSize: int)
    ensures Run(events + [e], batchSize) == Step(Run(events, batchSize), e, batchSize)
  {
    assert (events + [e])[..|events|] == events;
  }

  lemma WaitsFirst<R>(s: System<R>, batchSize: int)
    requires batchSize >= 2 && s == System(View([], Unset, []), [], [])
    ensures Step(s, Submit("", Escaping), batchSize).view == View([Ticket("", 0)], Armed, [Unsettled])
  {
    Alone(Ticket("", 0));
    Alone<Settlement<R>>(Unsettled);
  }

  lemma EscapesOnce<R>(s: System<R>, batchSize: int)
    requires batchSize >= 2 && WellFormed(s) && s.view == View([Ticket("", 0)], Armed, [Unsettled])
    ensures Step(s, Fire(Escaping), batchSize).view == View([], Dead, [Unsettled])
  {
    var batch := [Ticket("", 0)];
    assert batch[..1] == batch && batch[1..] == [];
    UnpairedStay<R>([Unsettled], batch, Escaped, 0, 1);
  }

  lemma WaitsNext<R>(s: System<R>, batchSize: int)
    requires batchSize >= 2 && WellFormed(s) && s.view == View([], Dead, [Unsettled])
    ensures Step(s, Submit("", Escaping), batchSize).view == View([Ticket("", 1)], Dead, [Unsettled, Unsettled])
  {
    Alone(Ticket("", 1));
    var unsettled: Settlement<R> := Unsettled;
    assert [unsettled] + [unsettled] == [unsettled, unsettled];
  }

  lemma FirstStep<R>(e: Event<R>, batchSize: int)
    ensures Run([e], batchSize) == Step(System(View([], Unset, []), [], []), e, batchSize)
  {
    var none: seq<Event<R>> := [];
    assert [e][..0] == none;
  }

  lemma NothingTaken<R>(ticket: Ticket, futures: seq<Settlement<R>>, batchSize: int, reply: seq<string> -> Reply<R>)
    requires batchSize <= 0 && ticket.future < |futures|
    ensures
      var v := View([ticket], Unset, futures);
      Processed(v, batchSize, reply) == v
  {
    assert [ticket][0..] == [ticket] && SliceEnd(1, batchSize) == 0;
  }

  lemma Alone<T>(x: T)
    ensures [] + [x] == [x]
  {
  }

  lemma SubmittedAndForgotten<R>(start: View<R>, batchSize: int, reply: seq<string> -> Reply<R>)
    requires batchSize <= 0 && start == View([], Unset, [])
    ensures Submitted(start, "", batchSize, reply) == View([Ticket("", 0)], Unset, [Unsettled])
  {
    Alone(Ticket("", 0));
    Alone<Settlement<R>>(Unsettled);
    NothingTaken<R>(Ticket("", 0), [Unsettled], batchSize, reply);
  }

  lemma ForgottenAtOnce<R>(s: System<R>, batchSize: int, reply: seq<string> -> Reply<R>)
    requires batchSize <= 0 && s == System(View([], Unset, []), [], [])
    ensures Step(s, Submit("", reply), batchSize).view == View([Ticket("", 0)], Unset, [Unsettled])
  {
    SubmittedAndForgotten(s.view, batchSize, reply);
  }
}
