/** Calls to the credential cache that interleave: a call looks into memory, then into
    Redis, and writes memory and Redis later; an invalidation clears first one level and
    then the other. */
module CredentialRaces {
  import opened CredentialCache
  import opened Wrappers

  /** Where a call stands after a miss in memory: before Redis, with what Redis held, with
      what it has decrypted, and with memory written. */
  datatype Phase =
    | Started
    | Found(credentials: Credentials)
    | Decrypted(credentials: Credentials)
    | Writing(credentials: Credentials)

  datatype Call = Call(account: Account, config: Config)

  /** Both levels, the calls begun so far, those under way, and the answers given. */
  datatype Race = Race(levels: Levels, begun: map<nat, Call>, phases: map<nat, Phase>, answers: map<nat, Credentials>)

  const IDLE: Race := Race(EMPTY, map[], map[], map[])

  datatype Move =
    | Start(q: nat, call: Call, now: real)
    | Look(q: nat, now: real, readable: bool)
    | Fill(q: nat, now: real)
    | Push(q: nat, now: real, writable: bool)
    | Forget(account: Account)                  // memory loses the account
    | Delete(account: Account)                  // Redis loses it

  function Ended(s: Race, q: nat, c: Credentials): Race {
    s.(phases := s.phases - {q}, answers := s.answers[q := c])
  }

  function OnStart(s: Race, q: nat, call: Call, now: real): Race {
    if q in s.begun then s
    else
      var memory := Unexpired(s.levels.memory, now);
      var s' := s.(levels := s.levels.(memory := memory), begun := s.begun[q := call]);
      if Hit(memory, call.account, now) then Ended(s', q, memory[call.account].credentials)
      else s'.(phases := s.phases[q := Started])
  }

  function OnLook(x: World, s: Race, q: nat, now: real, readable: bool): Race {
    if q !in s.phases || q !in s.begun || !s.phases[q].Started? then s
    else
      var call := s.begun[q];
      if x.settings.hasRedis && readable && Hit(s.levels.redis, call.account, now)
      then s.(phases := s.phases[q := Found(s.levels.redis[call.account].credentials)])
      else
        match x.decrypt(call.config)
        case None => s.(phases := s.phases - {q})
        case Some(c) => s.(phases := s.phases[q := Decrypted(c)])
  }

  function OnFill(s: Race, q: nat, now: real): Race {
    if q !in s.phases || q !in s.begun || !(s.phases[q].Found? || s.phases[q].Decrypted?) then s
    else
      var c := s.phases[q].credentials;
      var s' := s.(levels := s.levels.(memory := s.levels.memory[s.begun[q].account := Entry(c, now + MEMORY_TTL)]));
      if s.phases[q].Found? then Ended(s', q, c) else s'.(phases := s.phases[q := Writing(c)])
  }

  function OnPush(x: World, s: Race, q: nat, now: real, writable: bool): Race {
    if q !in s.phases || q !in s.begun || !s.phases[q].Writing? then s
    else
      var c := s.phases[q].credentials;
      var redis := if x.settings.hasRedis && writable && x.settings.ttl > 0.0
                   then s.levels.redis[s.begun[q].account := Entry(c, now + x.settings.ttl)]
                   else s.levels.redis;
      Ended(s.(levels := s.levels.(redis := redis)), q, c)
  }

  function Next(x: World, s: Race, e: Move): Race {
    match e
    case Start(q, call, now) => OnStart(s, q, call, now)
    case Look(q, now, readable) => OnLook(x, s, q, now, readable)
    case Fill(q, now) => OnFill(s, q, now)
    case Push(q, now, writable) => OnPush(x, s, q, now, writable)
    case Forget(a) => s.(levels := s.levels.(memory := s.levels.memory - {a}))
    case Delete(a) => s.(levels := s.levels.(redis := s.levels.redis - {a}))
  }

  function RunFrom(x: World, s: Race, moves: seq<Move>): Race {
    if moves == [] then s else Next(x, RunFrom(x, s, moves[..|moves| - 1]), moves[|moves| - 1])
  }

  lemma UninterruptedMiss(x: World, s: Race, q: nat, now: real, w: Weather)
    requires q in s.begun && q in s.phases && s.phases[q].Started?
    ensures
      var a, supplied := s.begun[q].account, x.decrypt(s.begun[q].config);
      var s' := OnPush(x, OnFill(OnLook(x, s, q, now, w.readable), q, now), q, now, w.writable);
      var memory, redis := s.levels.memory, s.levels.redis;
      s'.levels ==
        if x.settings.hasRedis && w.readable && Hit(redis, a, now)
        then Levels(memory[a := Entry(redis[a].credentials, now + MEMORY_TTL)], redis)
        else if supplied.None? then s.levels
        else Levels(memory[a := Entry(supplied.value, now + MEMORY_TTL)],
                    if x.settings.hasRedis && w.writable && x.settings.ttl > 0.0
                    then redis[a := Entry(supplied.value, now + x.settings.ttl)] else redis)
  {
  }

  lemma UninterruptedAnswer(x: World, s: Race, q: nat, now: real, w: Weather)
    requires q in s.begun && q in s.phases && s.phases[q].Started?
    ensures
      var a, supplied := s.begun[q].account, x.decrypt(s.begun[q].config);
      var s' := OnPush(x, OnFill(OnLook(x, s, q, now, w.readable), q, now), q, now, w.writable);
      var got := if x.settings.hasRedis && w.readable && Hit(s.levels.redis, a, now)
                 then Some(s.levels.redis[a].credentials) else supplied;
      && s'.phases == s.phases - {q}
      && s'.answers == (if got.Some? then s.answers[q := got.value] else s.answers)
  {
  }

  /** A call that nothing interrupts leaves the levels, and is answered, as the call in one
      step is. */
  lemma UninterruptedCall(x: World, s: Race, q: nat, call: Call, now: real, w: Weather)
    requires q !in s.begun && q !in s.phases
    ensures
      var started := OnStart(s, q, call, now);
      var s' := OnPush(x, OnFill(OnLook(x, started, q, now, w.readable), q, now), q, now, w.writable);
      var got := Got(x.settings, s.levels, call.account, x.decrypt(call.config), now, w);
      && s'.levels == OnGet(x.settings, s.levels, call.account, x.decrypt(call.config), now, w)
      && q !in s'.phases && s'.phases - {q} == s.phases
      && s'.answers == (if got.Some? then s.answers[q := got.value] else s.answers)
  {
    if !Hit(Unexpired(s.levels.memory, now), call.account, now) {
      UninterruptedMiss(x, OnStart(s, q, call, now), q, now, w);
      UninterruptedAnswer(x, OnStart(s, q, call, now), q, now, w);
    }
  }

  /** Calls under way and calls answered have begun. */
  ghost predicate Named(s: Race) {
    s.phases.Keys <= s.begun.Keys && s.answers.Keys <= s.begun.Keys
  }

  lemma {:induction false} NamedThroughout(x: World, moves: seq<Move>)
    ensures Named(RunFrom(x, IDLE, moves))
  {
    if moves != [] {
      NamedThroughout(x, moves[..|moves| - 1]);
    }
  }

  // ---- an invalidation that no call straddles ----

  /** Nothing is cached of the account, and no call is at it. */
  ghost predicate Clean(s: Race, a: Account) {
    && a !in s.levels.memory && a !in s.levels.redis
    && Named(s) && forall q :: q in s.phases ==> s.begun[q].account != a
  }

  /** The decryption of a configuration passed by a call for the account that is not among
      those begun `before`. */
  ghost predicate FromLater(x: World, s: Race, before: set<nat>, a: Account, c: Credentials) {
    exists p :: p in s.begun && p !in before && s.begun[p].account == a && x.decrypt(s.begun[p].config) == Some(c)
  }

  ghost predicate AllLater(x: World, s: Race, before: set<nat>, a: Account) {
    && (a in s.levels.memory ==> FromLater(x, s, before, a, s.levels.memory[a].credentials))
    && (a in s.levels.redis ==> FromLater(x, s, before, a, s.levels.redis[a].credentials))
    && Named(s)
    && (forall q :: q in s.phases && s.begun[q].account == a ==>
          q !in before && (!s.phases[q].Started? ==> FromLater(x, s, before, a, s.phases[q].credentials)))
    && (forall q :: q in s.answers && q !in before && s.begun[q].account == a ==>
          FromLater(x, s, before, a, s.answers[q]))
  }

  lemma LaterStays(x: World, s: Race, e: Move, before: set<nat>, a: Account, c: Credentials)
    requires FromLater(x, s, before, a, c)
    ensures FromLater(x, Next(x, s, e), before, a, c)
  {
    var p :| p in s.begun && p !in before && s.begun[p].account == a && x.decrypt(s.begun[p].config) == Some(c);
    assert p in Next(x, s, e).begun && Next(x, s, e).begun[p] == s.begun[p];
  }

  lemma AllStayLater(x: World, s: Race, e: Move, before: set<nat>, a: Account)
    ensures forall c :: FromLater(x, s, before, a, c) ==> FromLater(x, Next(x, s, e), before, a, c)
  {
    forall c | FromLater(x, s, before, a, c)
      ensures FromLater(x, Next(x, s, e), before, a, c)
    {
      LaterStays(x, s, e, before, a, c);
    }
  }

  lemma LookIsLater(x: World, s: Race, e: Move, before: set<nat>, a: Account)
    requires AllLater(x, s, before, a) && before <= s.begun.Keys && e.Look?
    ensures AllLater(x, Next(x, s, e), before, a)
  {
    AllStayLater(x, s, e, before, a);
    if e.q in s.phases && s.begun[e.q].account == a && x.decrypt(s.begun[e.q].config).Some? {
      assert FromLater(x, s, before, a, x.decrypt(s.begun[e.q].config).value);
    }
  }

  lemma StartIsLater(x: World, s: Race, e: Move, before: set<nat>, a: Account)
    requires AllLater(x, s, before, a) && before <= s.begun.Keys && e.Start?
    ensures AllLater(x, Next(x, s, e), before, a)
  {
    AllStayLater(x, s, e, before, a);
  }

  lemma WriteIsLater(x: World, s: Race, e: Move, before: set<nat>, a: Account)
    requires AllLater(x, s, before, a) && before <= s.begun.Keys && (e.Fill? || e.Push?)
    ensures AllLater(x, Next(x, s, e), before, a)
  {
    AllStayLater(x, s, e, before, a);
  }

  lemma LaterStep(x: World, s: Race, e: Move, before: set<nat>, a: Account)
    requires AllLater(x, s, before, a) && before <= s.begun.Keys
    ensures AllLater(x, Next(x, s, e), before, a) && before <= Next(x, s, e).begun.Keys
  {
    if e.Look? {
      LookIsLater(x, s, e, before, a);
    } else if e.Start? {
      StartIsLater(x, s, e, before, a);
    } else if e.Fill? || e.Push? {
      WriteIsLater(x, s, e, before, a);
    } else {
      AllStayLater(x, s, e, before, a);
    }
  }

  lemma {:induction false} LaterThroughout(x: World, s: Race, moves: seq<Move>, a: Account)
    requires Clean(s, a)
    ensures AllLater(x, RunFrom(x, s, moves), s.begun.Keys, a) && s.begun.Keys <= RunFrom(x, s, moves).begun.Keys
  {
    if moves != [] {
      var n := |moves| - 1;
      LaterThroughout(x, s, moves[..n], a);
      LaterStep(x, RunFrom(x, s, moves[..n]), moves[n], s.begun.Keys, a);
    }
  }

  /** Once an invalidation has cleared both levels with no call at the account, every later
      call is answered from a configuration that it or another later call supplied. */
  lemma QuietInvalidationIsRespected(x: World, s: Race, moves: seq<Move>, a: Account, q: nat)
    requires Clean(s, a)
    requires
      var t := RunFrom(x, s, moves);
      q in t.begun && q in t.answers && q !in s.begun && t.begun[q].account == a
    ensures
      var t := RunFrom(x, s, moves);
      FromLater(x, t, s.begun.Keys, a, t.answers[q])
  {
    LaterThroughout(x, s, moves, a);
  }

  /** Clearing both levels makes the account clean exactly if no call is at it. */
  lemma CleanIffNoCall(x: World, s: Race, a: Account)
    requires Named(s)
    ensures Clean(Next(x, Next(x, s, Forget(a)), Delete(a)), a)
       <==> forall q :: q in s.phases ==> s.begun[q].account != a
  {
  }

  // ---- an invalidation that a call straddles ----

  lemma OneMore(x: World, s: Race, moves: seq<Move>, e: Move)
    ensures RunFrom(x, s, moves + [e]) == Next(x, RunFrom(x, s, moves), e)
  {
    assert (moves + [e])[..|moves|] == moves;
  }

  lemma DecryptsBefore(x: World, a: Account, previous: Config) returns (moves: seq<Move>)
    requires x.decrypt(previous).Some?
    ensures |moves| == 2
    ensures
      var c := x.decrypt(previous).value;
      RunFrom(x, IDLE, moves) == Race(EMPTY, map[0 := Call(a, previous)], map[0 := Decrypted(c)], map[])
  {
    moves := [Start(0, Call(a, previous), 0.0)];
    OneMore(x, IDLE, [], moves[0]);
    assert [] + moves == moves && Unexpired(map[], 0.0) == map[];
    OneMore(x, IDLE, moves, Look(0, 0.0, true));
    moves := moves + [Look(0, 0.0, true)];
  }

  /** A call has decrypted the previous configuration when the account is invalidated on both
      levels, and writes memory afterwards: the next call, with the current configuration,
      is answered with the previous credentials. */
  lemma StraddlingCallSurvives(x: World, a: Account, previous: Config, current: Config) returns (moves: seq<Move>)
    requires x.decrypt(previous).Some?
    ensures |moves| == 6 && moves[2] == Forget(a) && moves[3] == Delete(a)
            && moves[5] == Start(1, Call(a, current), 0.0)
    ensures 1 in RunFrom(x, IDLE, moves).answers && Some(RunFrom(x, IDLE, moves).answers[1]) == x.decrypt(previous)
  {
    var c := x.decrypt(previous).value;
    moves := DecryptsBefore(x, a, previous);
    OneMore(x, IDLE, moves, Forget(a));
    OneMore(x, IDLE, moves + [Forget(a)], Delete(a));
    moves := moves + [Forget(a)] + [Delete(a)];
    assert EMPTY.memory - {a} == map[] && EMPTY.redis - {a} == map[];
    OneMore(x, IDLE, moves, Fill(0, 0.0));
    OneMore(x, IDLE, moves + [Fill(0, 0.0)], Start(1, Call(a, current), 0.0));
    moves := moves + [Fill(0, 0.0)] + [Start(1, Call(a, current), 0.0)];
    assert Unexpired(map[a := Entry(c, MEMORY_TTL)], 0.0) == map[a := Entry(c, MEMORY_TTL)];
  }
}
