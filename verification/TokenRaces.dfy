/** Rotations that interleave: a rotation reads its token, marks it used and issues the
    successor in separate calls to Redis, and anything else may happen in between. */
module TokenRaces {
  import opened TokenRotation
  import opened Wrappers

  /** A rotation under way: what it read, and whether it has marked the token yet. */
  datatype Rotation = Rotation(token: Token, data: Data, marked: bool)

  /** Redis, the tokens issued with the last of each chain, the rotations under way and
      begun so far, and for each rotation completed the token and its successor. */
  datatype Race = Race(store: Store, issued: map<Token, Issue>, last: map<Token, Token>,
                       rotations: map<nat, Rotation>, begun: set<nat>, successors: seq<(Token, Token)>)

  const IDLE: Race := Race(map[], map[], map[], map[], {}, [])

  datatype Move =
    | Create(user: string, session: string, token: Token, now: real, stores: bool)
    | Read(q: nat, token: Token, now: real)
    | Mark(q: nat, now: real)
    | Complete(q: nat, successor: Token, now: real, stores: bool)
    | Fail(q: nat)
    | Revoke(user: string, now: real, stuck: set<Token>)

  /** The read finds an unused token, and the rotation goes on. */
  predicate Opens(s: Race, e: Move) {
    e.Read? && e.q !in s.begun && Lookup(s.store, e.token, e.now).Some? && !Lookup(s.store, e.token, e.now).value.used
  }

  predicate Marks(s: Race, e: Move) {
    e.Mark? && e.q in s.rotations && !s.rotations[e.q].marked
  }

  predicate Completes(s: Race, e: Move) {
    e.Complete? && e.q in s.rotations && s.rotations[e.q].marked
  }

  function OnComplete(s: Race, r: Rotation, q: nat, successor: Token, now: real, stores: bool): Race {
    var s' := s.(store := OnCreate(s.store, r.data.user, r.data.session, successor, now, stores),
                 rotations := s.rotations - {q}, successors := s.successors + [(r.token, successor)]);
    if r.token in s.issued
    then s'.(issued := s.issued[successor := s.issued[r.token]], last := s.last[s.issued[r.token].chain := successor])
    else s'
  }

  function Next(s: Race, e: Move): Race {
    match e
    case Create(user, session, token, now, stores) =>
      s.(store := OnCreate(s.store, user, session, token, now, stores),
         issued := s.issued[token := Issue(user, session, token)], last := s.last[token := token])
    case Read(q, token, now) =>
      if Opens(s, e)
      then s.(rotations := s.rotations[q := Rotation(token, Lookup(s.store, token, now).value, false)],
              begun := s.begun + {q})
      else s
    case Mark(q, now) =>
      if Marks(s, e) then
        var r := s.rotations[q];
        s.(store := s.store[r.token := Stored(r.data.(used := true), now + USED_TTL)],
           rotations := s.rotations[q := r.(marked := true)])
      else s
    case Complete(q, successor, now, stores) =>
      if Completes(s, e) then OnComplete(s, s.rotations[q], q, successor, now, stores) else s
    case Fail(q) => s.(rotations := s.rotations - {q})
    case Revoke(user, now, stuck) => s.(store := OnRevoke(s.store, user, now, stuck))
  }

  /** With nothing in between the three calls are the rotation of one step. */
  lemma UninterruptedRotation(s: Race, q: nat, token: Token, successor: Token, now: real, stores: bool,
                              stuck: set<Token>)
    requires Opens(s, Read(q, token, now)) && q !in s.rotations
    ensures Next(Next(Next(s, Read(q, token, now)), Mark(q, now)), Complete(q, successor, now, stores)).store
         == OnRotate(s.store, token, successor, now, stores, stuck)
  {
  }

  function After(moves: seq<Move>): Race {
    if moves == [] then IDLE else Next(After(moves[..|moves| - 1]), moves[|moves| - 1])
  }

  /** New tokens are ones never issued before. */
  predicate Fresh(s: Race, e: Move) {
    match e
    case Create(_, _, token, _, _) => token !in s.issued
    case Complete(_, successor, _, _) => successor !in s.issued
    case _ => true
  }

  ghost predicate Legal(moves: seq<Move>) {
    forall n :: 0 <= n < |moves| ==> FreshAt(moves, n)
  }

  ghost predicate FreshAt(moves: seq<Move>, n: nat)
    requires n < |moves|
  {
    Fresh(After(moves[..n]), moves[n])
  }

  // ---- every interleaving ----

  /** Marked once: whatever is stored of the token says so. */
  ghost predicate Spent(s: Race, t: Token) {
    t in s.issued && (t in s.store ==> s.store[t].data.used)
  }

  ghost predicate Known(s: Race) {
    && (forall t :: t in s.store ==> t in s.issued)
    && (forall q :: q in s.rotations ==> q in s.begun && s.rotations[q].token in s.issued)
    && (forall q :: q in s.rotations && s.rotations[q].marked ==> Spent(s, s.rotations[q].token))
  }

  lemma SpentStays(s: Race, e: Move, t: Token)
    requires Known(s) && Fresh(s, e) && Spent(s, t)
    ensures Spent(Next(s, e), t)
  {
  }

  lemma KnownStep(s: Race, e: Move)
    requires Known(s) && Fresh(s, e)
    ensures Known(Next(s, e))
    ensures Marks(s, e) ==> Spent(Next(s, e), s.rotations[e.q].token)
  {
    forall q | q in Next(s, e).rotations && Next(s, e).rotations[q].marked
      ensures Spent(Next(s, e), Next(s, e).rotations[q].token)
    {
      if q in s.rotations && s.rotations[q].marked {
        SpentStays(s, e, s.rotations[q].token);
      }
    }
  }

  lemma {:induction false} KnownThroughout(moves: seq<Move>, n: nat)
    requires Legal(moves) && n <= |moves|
    ensures Known(After(moves[..n]))
  {
    if n > 0 {
      KnownThroughout(moves, n - 1);
      assert moves[..n][..n - 1] == moves[..n - 1] && FreshAt(moves, n - 1);
      KnownStep(After(moves[..n - 1]), moves[n - 1]);
    }
  }

  lemma {:induction false} SpentThroughout(moves: seq<Move>, k: nat, n: nat, t: Token)
    requires Legal(moves) && k <= n <= |moves| && Spent(After(moves[..k]), t)
    ensures Spent(After(moves[..n]), t)
  {
    if k < n {
      SpentThroughout(moves, k, n - 1, t);
      KnownThroughout(moves, n - 1);
      assert moves[..n][..n - 1] == moves[..n - 1] && FreshAt(moves, n - 1);
      SpentStays(After(moves[..n - 1]), moves[n - 1], t);
    }
  }

  ghost predicate OpensAt(moves: seq<Move>, i: nat, t: Token)
    requires i < |moves|
  {
    Opens(After(moves[..i]), moves[i]) && moves[i].token == t
  }

  ghost predicate MarksAt(moves: seq<Move>, k: nat, t: Token)
    requires k < |moves|
  {
    var s := After(moves[..k]);
    Marks(s, moves[k]) && s.rotations[moves[k].q].token == t
  }

  /** Over every interleaving: whoever rotates a token has read it before anybody marked it,
      so that two rotations of one token overlap. */
  lemma RotationsOfOneTokenOverlap(moves: seq<Move>, i: nat, k: nat, t: Token)
    requires Legal(moves) && i < |moves| && k < |moves| && OpensAt(moves, i, t) && MarksAt(moves, k, t)
    ensures i < k
  {
    if k < i {
      KnownThroughout(moves, k);
      assert moves[..k + 1][..k] == moves[..k] && FreshAt(moves, k);
      KnownStep(After(moves[..k]), moves[k]);
      SpentThroughout(moves, k + 1, i, t);
    }
  }

  // ---- rotations of one token apart ----

  /** No rotation begins on a token that another is at. */
  ghost predicate Apart(s: Race, e: Move) {
    Opens(s, e) ==> forall q :: q in s.rotations ==> s.rotations[q].token != e.token
  }

  ghost predicate ApartAt(moves: seq<Move>, n: nat)
    requires n < |moves|
  {
    Apart(After(moves[..n]), moves[n])
  }

  ghost predicate AllApart(moves: seq<Move>) {
    forall n :: 0 <= n < |moves| ==> ApartAt(moves, n)
  }

  ghost predicate ChainsKnown(s: Race) {
    && (forall t :: t in s.issued ==> s.issued[t].chain in s.last)
    && (forall c :: c in s.last ==> c in s.issued && s.issued[c].chain == c)
  }

  /** An unused token, and the token of a rotation under way, is the last of its chain. */
  ghost predicate Heads(s: Race)
    requires Known(s) && ChainsKnown(s)
  {
    && (forall t :: t in s.store && !s.store[t].data.used ==> s.last[s.issued[t].chain] == t)
    && (forall q :: q in s.rotations ==> s.last[s.issued[s.rotations[q].token].chain] == s.rotations[q].token)
    && (forall p, q :: p in s.rotations && q in s.rotations && s.rotations[p].token == s.rotations[q].token ==> p == q)
  }

  /** Tokens rotated already are spent, each once, and no rotation is at them. */
  ghost predicate SourcesDone(s: Race) {
    && (forall i :: 0 <= i < |s.successors| ==> Spent(s, s.successors[i].0))
    && (forall i, q :: 0 <= i < |s.successors| && q in s.rotations ==> s.rotations[q].token != s.successors[i].0)
    && (forall i, j :: 0 <= i < j < |s.successors| ==> s.successors[i].0 != s.successors[j].0)
  }

  ghost predicate Orderly(s: Race) {
    Known(s) && ChainsKnown(s) && Heads(s) && SourcesDone(s)
  }

  lemma SourcesStaySpent(s: Race, e: Move)
    requires Known(s) && SourcesDone(s) && Fresh(s, e)
    ensures forall i :: 0 <= i < |s.successors| ==> Spent(Next(s, e), s.successors[i].0)
  {
    forall i | 0 <= i < |s.successors|
      ensures Spent(Next(s, e), s.successors[i].0)
    {
      SpentStays(s, e, s.successors[i].0);
    }
  }

  lemma ReadHeads(s: Race, e: Move)
    requires Orderly(s) && e.Read? && Apart(s, e)
    ensures Known(Next(s, e)) && ChainsKnown(Next(s, e)) && Heads(Next(s, e))
  {
  }

  lemma ReadSources(s: Race, e: Move)
    requires Orderly(s) && e.Read?
    ensures SourcesDone(Next(s, e))
  {
    SourcesStaySpent(s, e);
  }

  lemma ReadIsOrderly(s: Race, e: Move)
    requires Orderly(s) && e.Read? && Apart(s, e)
    ensures Orderly(Next(s, e))
  {
    ReadHeads(s, e);
    ReadSources(s, e);
  }

  lemma MarkHeads(s: Race, e: Move)
    requires Orderly(s) && e.Mark?
    ensures Known(Next(s, e)) && ChainsKnown(Next(s, e)) && Heads(Next(s, e))
  {
    KnownStep(s, e);
  }

  lemma MarkSources(s: Race, e: Move)
    requires Orderly(s) && e.Mark?
    ensures SourcesDone(Next(s, e))
  {
    SourcesStaySpent(s, e);
  }

  lemma MarkIsOrderly(s: Race, e: Move)
    requires Orderly(s) && e.Mark?
    ensures Orderly(Next(s, e))
  {
    MarkHeads(s, e);
    MarkSources(s, e);
  }

  lemma CompleteIsOrderly(s: Race, e: Move)
    requires Orderly(s) && e.Complete? && Fresh(s, e)
    ensures Orderly(Next(s, e))
  {
    SourcesStaySpent(s, e);
    KnownStep(s, e);
    if Completes(s, e) {
      CompletedHeads(s, e.q, e.successor, e.now, e.stores);
      CompletedSources(s, e.q, e.successor, e.now, e.stores);
    }
  }

  lemma CompletedHeads(s: Race, q: nat, successor: Token, now: real, stores: bool)
    requires Orderly(s) && q in s.rotations && s.rotations[q].marked && successor !in s.issued
    ensures
      var s' := OnComplete(s, s.rotations[q], q, successor, now, stores);
      Known(s') && ChainsKnown(s') && Heads(s')
  {
    KnownStep(s, Complete(q, successor, now, stores));
  }

  lemma CompletedSources(s: Race, q: nat, successor: Token, now: real, stores: bool)
    requires Orderly(s) && q in s.rotations && s.rotations[q].marked && successor !in s.issued
    requires forall i :: 0 <= i < |s.successors| ==>
      Spent(OnComplete(s, s.rotations[q], q, successor, now, stores), s.successors[i].0)
    ensures SourcesDone(OnComplete(s, s.rotations[q], q, successor, now, stores))
  {
    SpentStays(s, Complete(q, successor, now, stores), s.rotations[q].token);
  }

  lemma CreateKnown(s: Race, e: Move)
    requires Known(s) && ChainsKnown(s) && e.Create? && Fresh(s, e)
    ensures Known(Next(s, e)) && ChainsKnown(Next(s, e))
  {
    KnownStep(s, e);
  }

  lemma CreateHeads(s: Race, e: Move)
    requires Known(s) && ChainsKnown(s) && Heads(s) && e.Create? && Fresh(s, e)
    ensures Known(Next(s, e)) && ChainsKnown(Next(s, e)) && Heads(Next(s, e))
  {
    CreateKnown(s, e);
    forall t | t in s.issued
      ensures s.issued[t].chain != e.token
    {
      assert s.issued[t].chain in s.last;
    }
    var s' := Next(s, e);
    forall t | t in s'.store && !s'.store[t].data.used
      ensures s'.last[s'.issued[t].chain] == t
    {
      assert t == e.token || (t in s.store && s.store[t] == s'.store[t]);
    }
  }

  lemma CreateIsOrderly(s: Race, e: Move)
    requires Orderly(s) && e.Create? && Fresh(s, e)
    ensures Orderly(Next(s, e))
  {
    CreateHeads(s, e);
    CreateSources(s, e);
  }

  lemma CreateSources(s: Race, e: Move)
    requires Known(s) && SourcesDone(s) && e.Create? && Fresh(s, e)
    ensures SourcesDone(Next(s, e))
  {
    SourcesStaySpent(s, e);
  }

  lemma FewerIsOrderly(s: Race, e: Move)
    requires Orderly(s) && (e.Fail? || e.Revoke?)
    ensures Orderly(Next(s, e))
  {
    SourcesStaySpent(s, e);
    KnownStep(s, e);
  }

  lemma {:induction false} ApartIsOrderly(moves: seq<Move>, n: nat)
    requires Legal(moves) && AllApart(moves) && n <= |moves|
    ensures Orderly(After(moves[..n]))
  {
    if n > 0 {
      ApartIsOrderly(moves, n - 1);
      var s, e := After(moves[..n - 1]), moves[n - 1];
      assert moves[..n][..n - 1] == moves[..n - 1] && FreshAt(moves, n - 1) && ApartAt(moves, n - 1);
      if e.Read? {
        ReadIsOrderly(s, e);
      } else if e.Mark? {
        MarkIsOrderly(s, e);
      } else if e.Complete? {
        CompleteIsOrderly(s, e);
      } else if e.Create? {
        CreateIsOrderly(s, e);
      } else {
        FewerIsOrderly(s, e);
      }
    }
  }

  predicate Rotatable(s: Race, t: Token, now: real) {
    Lookup(s.store, t, now).Some? && !Lookup(s.store, t, now).value.used
  }

  /** Where rotations of one token do not overlap, whatever else interleaves: no token is
      rotated twice, and each chain has at most one token that could still be. */
  lemma ApartRotationsAreLinear(moves: seq<Move>, a: Token, b: Token, now: real)
    requires Legal(moves) && AllApart(moves)
    ensures
      var s := After(moves);
      && (forall i, j :: 0 <= i < j < |s.successors| ==> s.successors[i].0 != s.successors[j].0)
      && (Rotatable(s, a, now) && Rotatable(s, b, now) ==>
            && a in s.issued && b in s.issued
            && (s.issued[a].chain == s.issued[b].chain ==> a == b))
  {
    ApartIsOrderly(moves, |moves|);
    assert moves[..|moves|] == moves;
  }

  // ---- rotations of one token that overlap ----

  lemma OneMore(moves: seq<Move>, e: Move)
    ensures After(moves + [e]) == Next(After(moves), e)
  {
    assert (moves + [e])[..|moves|] == moves;
  }

  lemma LegalMore(moves: seq<Move>, e: Move)
    requires Legal(moves) && Fresh(After(moves), e)
    ensures Legal(moves + [e])
  {
    var longer := moves + [e];
    forall n | 0 <= n < |longer|
      ensures FreshAt(longer, n)
    {
      assert longer[..n] == moves[..n];
      if n < |moves| {
        assert FreshAt(moves, n);
      } else {
        assert moves[..n] == moves;
      }
    }
  }

  lemma Then(moves: seq<Move>, e: Move) returns (longer: seq<Move>)
    requires Legal(moves) && Fresh(After(moves), e)
    ensures Legal(longer) && After(longer) == Next(After(moves), e)
  {
    OneMore(moves, e);
    LegalMore(moves, e);
    longer := moves + [e];
  }

  ghost predicate BothMarked(s: Race, user: string, session: string, t: Token) {
    var d := Data(user, session, false);
    && s.store == map[t := Stored(d.(used := true), USED_TTL)]
    && s.issued == map[t := Issue(user, session, t)] && s.last == map[t := t] && s.successors == []
    && s.rotations == map[0 := Rotation(t, d, true), 1 := Rotation(t, d, true)]
  }

  function BothReading(user: string, session: string, t: Token): Race {
    var d := Data(user, session, false);
    Race(map[t := Stored(d, REFRESH_TTL)], map[t := Issue(user, session, t)], map[t := t],
         map[0 := Rotation(t, d, false), 1 := Rotation(t, d, false)], {0, 1}, [])
  }

  lemma BothRead(user: string, session: string, t: Token) returns (moves: seq<Move>)
    ensures Legal(moves) && After(moves) == BothReading(user, session, t)
  {
    moves := Then([], Move.Create(user, session, t, 0.0, true));
    moves := Then(moves, Read(0, t, 0.0));
    moves := Then(moves, Read(1, t, 0.0));
  }

  lemma MarkTwice(user: string, session: string, t: Token)
    ensures BothMarked(Next(Next(BothReading(user, session, t), Mark(0, 0.0)), Mark(1, 0.0)), user, session, t)
  {
  }

  lemma BothMark(user: string, session: string, t: Token) returns (moves: seq<Move>)
    ensures Legal(moves) && BothMarked(After(moves), user, session, t)
  {
    moves := BothRead(user, session, t);
    MarkTwice(user, session, t);
    moves := Then(moves, Mark(0, 0.0));
    moves := Then(moves, Mark(1, 0.0));
  }

  /** Two rotations of one token both read it unused: it has two successors, and both can
      be rotated on. */
  lemma OverlapForksChain(user: string, session: string, t: Token, a: Token, b: Token) returns (moves: seq<Move>)
    requires a != t && b != t && a != b
    ensures Legal(moves) && After(moves).successors == [(t, a), (t, b)]
    ensures Rotatable(After(moves), a, 0.0) && Rotatable(After(moves), b, 0.0)
    ensures
      var issued := After(moves).issued;
      a in issued && b in issued && issued[a].chain == issued[b].chain == t
  {
    moves := BothMark(user, session, t);
    moves := Then(moves, Complete(0, a, 0.0, true));
    moves := Then(moves, Complete(1, b, 0.0, true));
  }
}
