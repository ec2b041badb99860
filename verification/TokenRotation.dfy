/** Refresh tokens: issued in pairs with an access token, kept in Redis with an expiry,
    rotated on use, and watched for reuse. A rotation is one atomic step; new tokens are
    fresh; hashing is injective, so records are filed under the token itself. */
module TokenRotation {
  import opened Wrappers

  type Token = string

  datatype Data = Data(user: string, session: string, used: bool)

  /** A Redis value with the instant it expires. */
  datatype Stored = Stored(data: Data, expires: real)

  datatype Error = Unauthorized | NotFound | Reused

  const REFRESH_TTL: real := 604800.0  // seven days
  const USED_TTL: real := 60.0

  type Store = map<Token, Stored>

  /** What a read at `now` finds. */
  function Lookup(s: Store, t: Token, now: real): Option<Data> {
    if t in s && now < s[t].expires then Some(s[t].data) else None
  }

  /** Issuing goes on when Redis fails: the token is then not stored. */
  function OnCreate(s: Store, user: string, session: string, token: Token, now: real, stores: bool): Store {
    if stores then s[token := Stored(Data(user, session, false), now + REFRESH_TTL)] else s
  }

  /** All the user's records go but those in `stuck`: the ones whose delete raises, which
      is swallowed, or that the scan is cut short of. */
  function OnRevoke(s: Store, user: string, now: real, stuck: set<Token>): Store {
    map t | t in s && (t in stuck || !(now < s[t].expires && s[t].data.user == user)) :: s[t]
  }

  function OnRotate(s: Store, token: Token, successor: Token, now: real, stores: bool, stuck: set<Token>): Store {
    match Lookup(s, token, now)
    case None => s
    case Some(d) =>
      if d.used then OnRevoke(s, d.user, now, stuck)
      else OnCreate(s[token := Stored(d.(used := true), now + USED_TTL)], d.user, d.session, successor, now, stores)
  }

  class TokenManager {
    const hasRedis: bool
    var redis: Store

    constructor (hasRedis: bool)
      ensures this.hasRedis == hasRedis && redis == map[]
    {
      this.hasRedis := hasRedis;
      redis := map[];
    }

    /** `newToken` is drawn at random by the caller's environment; `redisFails` tells
        whether the write raises. */
    method CreateTokenPair(user: string, session: string, newToken: Token, now: real, redisFails: bool)
      returns (refreshToken: Token)
      modifies this
      ensures refreshToken == newToken
      ensures redis == OnCreate(old(redis), user, session, newToken, now, hasRedis && !redisFails)
    {
      refreshToken := newToken;
      if !hasRedis {
        return;
      }
      if !redisFails {
        redis := redis[newToken := Stored(Data(user, session, false), now + REFRESH_TTL)];
      }
    }

    method RotateRefreshToken(token: Token, newToken: Token, now: real, redisFails: bool, stuck: set<Token>)
      returns (result: Result<Token, Error>)
      modifies this
      ensures redis == if hasRedis then OnRotate(old(redis), token, newToken, now, !redisFails, stuck) else old(redis)
      ensures result == if !hasRedis then Failure(Unauthorized)
        else match Lookup(old(redis), token, now)
          case None => Failure(NotFound)
          case Some(d) => if d.used then Failure(Reused) else Success(newToken)
    {
      if !hasRedis {
        return Failure(Unauthorized);
      }
      var stored := Lookup(redis, token, now);
      if stored.None? {
        return Failure(NotFound);
      }
      var data := stored.value;
      if data.used {
        var revoked := RevokeAllUserSessions(data.user, now, stuck);
        return Failure(Reused);
      }
      data := data.(used := true);
      redis := redis[token := Stored(data, now + USED_TTL)];
      var pair := CreateTokenPair(data.user, data.session, newToken, now, redisFails);
      return Success(pair);
    }

    /** The scan visits every key once, in some order, and passes over a delete that raises. */
    method RevokeAllUserSessions(user: string, now: real, stuck: set<Token>) returns (revoked: nat)
      modifies this
      ensures redis == if hasRedis then OnRevoke(old(redis), user, now, stuck) else old(redis)
      ensures revoked == |old(redis)| - |redis|
    {
      revoked := 0;
      if !hasRedis {
        return;
      }
      ghost var before := redis;
      var keys := redis.Keys;
      while keys != {}
        invariant keys <= before.Keys && redis.Keys <= before.Keys
        invariant forall t :: t in before && t in keys ==> t in redis
        invariant forall t :: t in before && t !in keys ==>
          (t in redis <==> t in stuck || !(now < before[t].expires && before[t].data.user == user))
        invariant forall t :: t in redis ==> redis[t] == before[t]
        invariant revoked == |before| - |redis|
        decreases keys
      {
        var key :| key in keys;
        keys := keys - {key};
        var stored := Lookup(redis, key, now);
        if stored.Some? && stored.value.user == user {
          if key !in stuck {
            redis := redis - {key};
            revoked := revoked + 1;
          }
        }
      }
    }
  }

  // ---- runs ----

  datatype Event =
    | Create(user: string, session: string, token: Token, now: real, stores: bool)
    | Rotate(token: Token, successor: Token, now: real, stores: bool, stuck: set<Token>)
    | Revoke(user: string, now: real, stuck: set<Token>)

  /** To whom a token was issued, and the pair creation its chain starts from. */
  datatype Issue = Issue(user: string, session: string, chain: Token)

  /** Redis with what the history has issued: the last token of every chain, and for
      each rotation the token spent and its successor. */
  datatype World = World(store: Store, issued: map<Token, Issue>, last: map<Token, Token>,
                         rotations: seq<(Token, Token)>)

  const START: World := World(map[], map[], map[], [])

  function Step(w: World, e: Event): World {
    match e
    case Create(user, session, token, now, stores) =>
      World(OnCreate(w.store, user, session, token, now, stores),
            w.issued[token := Issue(user, session, token)], w.last[token := token], w.rotations)
    case Rotate(token, successor, now, stores, stuck) =>
      var store := OnRotate(w.store, token, successor, now, stores, stuck);
      if Succeeds(w, token, now) && token in w.issued then
        var chain := w.issued[token].chain;
        World(store, w.issued[successor := w.issued[token]], w.last[chain := successor],
              w.rotations + [(token, successor)])
      else w.(store := store)
    case Revoke(user, now, stuck) => w.(store := OnRevoke(w.store, user, now, stuck))
  }

  predicate Succeeds(w: World, token: Token, now: real) {
    Lookup(w.store, token, now).Some? && !Lookup(w.store, token, now).value.used
  }

  function After(events: seq<Event>): World {
    if events == [] then START else Step(After(events[..|events| - 1]), events[|events| - 1])
  }

  function When(e: Event): real {
    e.now
  }

  /** New tokens are ones never issued before. */
  predicate Fresh(w: World, e: Event) {
    match e
    case Create(_, _, token, _, _) => token !in w.issued
    case Rotate(_, successor, _, _, _) => successor !in w.issued
    case Revoke(_, _, _) => true
  }

  /** The clock does not run backwards. */
  predicate Legal(events: seq<Event>) {
    events != [] ==>
      var n := |events| - 1;
      Legal(events[..n]) && Fresh(After(events[..n]), events[n]) && (n > 0 ==> When(events[n - 1]) <= When(events[n]))
  }

  ghost predicate StoreOk(w: World) {
    forall t :: t in w.store ==>
      t in w.issued && w.store[t].data.user == w.issued[t].user && w.store[t].data.session == w.issued[t].session
  }

  ghost predicate ChainsOk(w: World) {
    && (forall t :: t in w.issued ==> w.issued[t].chain in w.last)
    && (forall c :: c in w.last ==> c in w.issued && w.issued[c].chain == c)
  }

  /** An unused token is the last of its chain. */
  ghost predicate HeadsOk(w: World)
    requires StoreOk(w) && ChainsOk(w)
  {
    forall t :: t in w.store && !w.store[t].data.used ==> w.last[w.issued[t].chain] == t
  }

  ghost predicate RotationsOk(w: World) {
    forall i :: 0 <= i < |w.rotations| ==> Spent(w, w.rotations[i].0)
  }

  ghost predicate Inv(w: World) {
    StoreOk(w) && ChainsOk(w) && HeadsOk(w) && RotationsOk(w)
  }

  /** Rotated already: whatever is stored of the token says so. */
  ghost predicate Spent(w: World, t: Token) {
    t in w.issued && (t in w.store ==> w.store[t].data.used)
  }

  lemma ShrinkKeepsInv(w: World, store: Store)
    requires Inv(w) && forall t :: t in store ==> t in w.store && store[t] == w.store[t]
    ensures Inv(w.(store := store))
  {
    forall i | 0 <= i < |w.rotations|
      ensures Spent(w.(store := store), w.rotations[i].0)
    {
      assert Spent(w, w.rotations[i].0);
    }
  }

  /** A new token, at the end of its chain. */
  lemma IssueKeepsInv(w: World, token: Token, issue: Issue, expires: real, stores: bool)
    requires Inv(w) && token !in w.issued
    requires issue.chain == token || issue.chain in w.last
    requires forall t :: t in w.store && w.issued[t].chain == issue.chain ==> w.store[t].data.used
    ensures
      var store := if stores then w.store[token := Stored(Data(issue.user, issue.session, false), expires)]
          else w.store;
      Inv(World(store, w.issued[token := issue], w.last[issue.chain := token], w.rotations))
  {
    var store := if stores then w.store[token := Stored(Data(issue.user, issue.session, false), expires)] else w.store;
    var w' := World(store, w.issued[token := issue], w.last[issue.chain := token], w.rotations);
    forall i | 0 <= i < |w.rotations|
      ensures Spent(w', w.rotations[i].0)
    {
      assert Spent(w, w.rotations[i].0);
    }
  }

  lemma MarkKeepsInv(w: World, token: Token, expires: real)
    requires Inv(w) && token in w.store && !w.store[token].data.used
    ensures
      var w' := w.(store := w.store[token := Stored(w.store[token].data.(used := true), expires)]);
      && Inv(w') && Spent(w', token)
      && forall t :: t in w'.store && w'.issued[t].chain == w.issued[token].chain ==> w'.store[t].data.used
  {
    var w' := w.(store := w.store[token := Stored(w.store[token].data.(used := true), expires)]);
    forall i | 0 <= i < |w.rotations|
      ensures Spent(w', w.rotations[i].0)
    {
      assert Spent(w, w.rotations[i].0);
    }
  }

  lemma RecordKeepsInv(w: World, token: Token, successor: Token)
    requires Inv(w) && Spent(w, token)
    ensures Inv(w.(rotations := w.rotations + [(token, successor)]))
  {
    var w' := w.(rotations := w.rotations + [(token, successor)]);
    forall i | 0 <= i < |w'.rotations|
      ensures Spent(w', w'.rotations[i].0)
    {
      assert i < |w.rotations| ==> Spent(w, w.rotations[i].0);
    }
  }

  lemma RotateKeepsInv(w: World, token: Token, successor: Token, now: real, stores: bool, stuck: set<Token>)
    requires Inv(w) && successor !in w.issued && Succeeds(w, token, now)
    ensures Inv(Step(w, Rotate(token, successor, now, stores, stuck)))
  {
    MarkKeepsInv(w, token, now + USED_TTL);
    var w1 := w.(store := w.store[token := Stored(w.store[token].data.(used := true), now + USED_TTL)]);
    IssueKeepsInv(w1, successor, w.issued[token], now + REFRESH_TTL, stores);
    var w2 := Step(w, Rotate(token, successor, now, stores, stuck)).(rotations := w.rotations);
    assert Inv(w2) && Spent(w2, token);
    RecordKeepsInv(w2, token, successor);
  }

  lemma RefusalKeepsInv(w: World, token: Token, successor: Token, now: real, stores: bool, stuck: set<Token>)
    requires Inv(w) && !Succeeds(w, token, now)
    ensures Inv(Step(w, Rotate(token, successor, now, stores, stuck)))
  {
    ShrinkKeepsInv(w, OnRotate(w.store, token, successor, now, stores, stuck));
  }

  lemma StepKeepsInv(w: World, e: Event)
    requires Inv(w) && Fresh(w, e)
    ensures Inv(Step(w, e))
  {
    match e
    case Create(user, session, token, now, stores) =>
      IssueKeepsInv(w, token, Issue(user, session, token), now + REFRESH_TTL, stores);
    case Rotate(token, successor, now, stores, stuck) =>
      if Succeeds(w, token, now) {
        RotateKeepsInv(w, token, successor, now, stores, stuck);
      } else {
        RefusalKeepsInv(w, token, successor, now, stores, stuck);
      }
    case Revoke(user, now, stuck) =>
      ShrinkKeepsInv(w, OnRevoke(w.store, user, now, stuck));
  }

  lemma {:induction false} RunsKeepInv(events: seq<Event>)
    requires Legal(events)
    ensures Inv(After(events))
  {
    if events != [] {
      var n := |events| - 1;
      RunsKeepInv(events[..n]);
      StepKeepsInv(After(events[..n]), events[n]);
    }
  }

  /** Every chain has at most one token that could still be rotated. */
  lemma OneLiveTokenPerChain(events: seq<Event>, a: Token, b: Token, now: real)
    requires Legal(events) && Succeeds(After(events), a, now) && Succeeds(After(events), b, now)
    ensures a in After(events).issued && b in After(events).issued
    ensures After(events).issued[a].chain == After(events).issued[b].chain ==> a == b
  {
    RunsKeepInv(events);
  }

  ghost predicate DistinctSources(rotations: seq<(Token, Token)>) {
    forall i, j :: 0 <= i < j < |rotations| ==> rotations[i].0 != rotations[j].0
  }

  lemma StepKeepsDistinct(w: World, e: Event)
    requires Inv(w) && DistinctSources(w.rotations)
    ensures DistinctSources(Step(w, e).rotations)
  {
    if e.Rotate? && Succeeds(w, e.token, e.now) {
      forall i | 0 <= i < |w.rotations|
        ensures w.rotations[i].0 != e.token
      {
        assert Spent(w, w.rotations[i].0);
      }
    }
  }

  /** No token is rotated twice: its successor is unique over the whole run. */
  lemma {:induction false} OneSuccessorPerToken(events: seq<Event>)
    requires Legal(events)
    ensures DistinctSources(After(events).rotations)
  {
    if events != [] {
      var n := |events| - 1;
      OneSuccessorPerToken(events[..n]);
      RunsKeepInv(events[..n]);
      StepKeepsDistinct(After(events[..n]), events[n]);
    }
  }

  /** Presenting a rotated token while its record survives is detected, and of all the
      user's tokens Redis still returns exactly those it did before whose delete failed. */
  lemma ReuseLeavesNothing(events: seq<Event>, token: Token, successor: Token, now: real, stores: bool,
                           stuck: set<Token>, t: Token)
    requires Legal(events) && Lookup(After(events).store, token, now).Some? && !Succeeds(After(events), token, now)
    requires t in After(events).issued
    ensures
      var w, w' := After(events), Step(After(events), Rotate(token, successor, now, stores, stuck));
      && token in w.issued
      && (w.issued[t].user == w.issued[token].user ==>
           Lookup(w'.store, t, now) == if t in stuck then Lookup(w.store, t, now) else None)
  {
    RunsKeepInv(events);
  }

  // ---- revocation is final ----

  /** Issued, and not to be rotated any more. */
  ghost predicate Dead(w: World, t: Token, now: real) {
    t in w.issued && !Succeeds(w, t, now)
  }

  lemma DeadStays(w: World, e: Event, t: Token, now: real)
    requires Fresh(w, e) && Dead(w, t, now) && now <= When(e)
    ensures Dead(Step(w, e), t, When(e))
  {
  }

  lemma {:induction false} TimesGrow(events: seq<Event>, i: nat, j: nat)
    requires Legal(events) && i <= j < |events|
    ensures When(events[i]) <= When(events[j])
  {
    var n := |events| - 1;
    if i < j {
      if j < n {
        TimesGrow(events[..n], i, j);
        assert events[..n][i] == events[i] && events[..n][j] == events[j];
      } else {
        TimesGrow(events[..n], i, n - 1);
        assert events[..n][n - 1] == events[n - 1];
      }
    }
  }

  /** A token that cannot be rotated after `k` events never can be again. */
  lemma {:induction false} NeverComesBack(events: seq<Event>, k: nat, t: Token)
    requires Legal(events) && 0 < k <= |events|
    requires Dead(After(events[..k]), t, When(events[k - 1]))
    ensures Dead(After(events), t, When(events[|events| - 1]))
  {
    var n := |events| - 1;
    if k <= n {
      assert events[..n][..k] == events[..k];
      NeverComesBack(events[..n], k, t);
      TimesGrow(events, n - 1, n);
      DeadStays(After(events[..n]), events[n], t, When(events[n - 1]));
    } else {
      assert events[..k] == events;
    }
  }

  /** Whom an event revokes all tokens of, if anybody, and the deletes that fail. */
  function Revoked(w: World, e: Event): Option<string> {
    match e
    case Revoke(user, _, _) => Some(user)
    case Rotate(token, _, now, _, _) =>
      (match Lookup(w.store, token, now)
       case Some(d) => if d.used then Some(d.user) else None
       case None => None)
    case _ => None
  }

  function Stuck(e: Event): set<Token> {
    if e.Create? then {} else e.stuck
  }

  lemma RevocationStep(w: World, e: Event, t: Token)
    requires Inv(w) && t in w.issued && Revoked(w, e) == Some(w.issued[t].user)
    ensures t in Step(w, e).issued
    ensures Succeeds(Step(w, e), t, When(e)) <==> t in Stuck(e) && Succeeds(w, t, When(e))
  {
  }

  /** Event `k` revokes the token's user. */
  ghost predicate RevokesOwner(events: seq<Event>, k: nat, t: Token) {
    && k < |events| && t in After(events[..k]).issued
    && Revoked(After(events[..k]), events[k]) == Some(After(events[..k]).issued[t].user)
  }

  /** The token could be rotated when it was revoked, and its delete failed. */
  ghost predicate SlipsThrough(events: seq<Event>, k: nat, t: Token)
    requires k < |events|
  {
    t in Stuck(events[k]) && Succeeds(After(events[..k]), t, When(events[k]))
  }

  lemma AfterRevocation(events: seq<Event>, k: nat, t: Token)
    requires Legal(events) && RevokesOwner(events, k, t)
    ensures t in After(events[..k + 1]).issued
    ensures Succeeds(After(events[..k + 1]), t, When(events[k])) <==> SlipsThrough(events, k, t)
  {
    LegalPrefix(events, k);
    RunsKeepInv(events[..k]);
    RevocationStep(After(events[..k]), events[k], t);
    assert events[..k + 1][..k] == events[..k] && events[..k + 1][k] == events[k];
  }

  /** Once a user's tokens are revoked, by request or by detected reuse, none issued
      before is ever rotated again, unless its delete failed. */
  lemma RevocationIsFinal(events: seq<Event>, k: nat, t: Token, later: real)
    requires Legal(events) && RevokesOwner(events, k, t) && !SlipsThrough(events, k, t)
    requires When(events[|events| - 1]) <= later
    ensures !Succeeds(After(events), t, later)
  {
    AfterRevocation(events, k, t);
    NeverComesBack(events, k + 1, t);
  }

  /** After this run the token cannot be rotated at `later`, if that is not in the past. */
  ghost predicate NotRotatedAt(events: seq<Event>, t: Token, later: real) {
    Legal(events) && events != [] && When(events[|events| - 1]) <= later ==> !Succeeds(After(events), t, later)
  }

  /** However the run goes on, the token is not rotated. */
  ghost predicate NeverRotatedAfter(events: seq<Event>, t: Token) {
    forall more: seq<Event>, later: real :: NotRotatedAt(events + more, t, later)
  }

  lemma SlippedIsRotatable(events: seq<Event>, k: nat, t: Token)
    requires |events| == k + 1 && Legal(events) && RevokesOwner(events, k, t) && SlipsThrough(events, k, t)
    ensures !NotRotatedAt(events + [], t, When(events[k]))
  {
    AfterRevocation(events, k, t);
    assert events[..k + 1] == events == events + [];
  }

  lemma RevokedForGood(events: seq<Event>, k: nat, t: Token, more: seq<Event>, later: real)
    requires |events| == k + 1 && RevokesOwner(events, k, t) && !SlipsThrough(events, k, t)
    ensures NotRotatedAt(events + more, t, later)
  {
    assert (events + more)[..k] == events[..k] && (events + more)[k] == events[k];
    if Legal(events + more) && When((events + more)[|events + more| - 1]) <= later {
      RevocationIsFinal(events + more, k, t, later);
    }
  }

  /** The exact condition: a revocation is final for a token exactly if it did not slip
      through. */
  lemma RevocationIsFinalIffDeleted(events: seq<Event>, t: Token)
    requires events != [] && Legal(events) && RevokesOwner(events, |events| - 1, t)
    ensures NeverRotatedAfter(events, t) <==> !SlipsThrough(events, |events| - 1, t)
  {
    var k := |events| - 1;
    if SlipsThrough(events, k, t) {
      SlippedIsRotatable(events, k, t);
    } else {
      forall more: seq<Event>, later: real
        ensures NotRotatedAt(events + more, t, later)
      {
        RevokedForGood(events, k, t, more, later);
      }
    }
  }

  lemma {:induction false} LegalPrefix(events: seq<Event>, k: nat)
    requires Legal(events) && k <= |events|
    ensures Legal(events[..k])
  {
    var n := |events| - 1;
    if k <= n {
      LegalPrefix(events[..n], k);
      assert events[..n][..k] == events[..k];
    } else {
      assert events[..k] == events;
    }
  }

  // ---- how long reuse is detected ----

  /** Event `j` does not delete the token's record. */
  ghost predicate LeavesAlone(events: seq<Event>, j: nat, t: Token, user: string)
    requires j < |events|
  {
    Revoked(After(events[..j]), events[j]) == Some(user) ==> t in Stuck(events[j])
  }

  /** No event after `k` deletes the token's record. */
  ghost predicate Untouched(events: seq<Event>, k: nat, t: Token, user: string) {
    forall j :: k < j < |events| ==> LeavesAlone(events, j, t, user)
  }

  /** Event `k` rotates the token. */
  ghost predicate RotatedAt(events: seq<Event>, k: nat, t: Token, user: string) {
    && k < |events| && events[k].Rotate? && events[k].token == t
    && Succeeds(After(events[..k]), t, When(events[k])) && After(events[..k]).store[t].data.user == user
  }

  lemma PrefixAgrees(events: seq<Event>, n: nat, k: nat, t: Token, user: string)
    requires k < n <= |events|
    ensures RotatedAt(events[..n], k, t, user) == RotatedAt(events, k, t, user)
    ensures LeavesAlone(events[..n], k, t, user) == LeavesAlone(events, k, t, user)
  {
    assert events[..n][..k] == events[..k] && events[..n][k] == events[k];
  }

  lemma UntouchedPrefix(events: seq<Event>, n: nat, k: nat, t: Token, user: string)
    requires n <= |events| && Untouched(events, k, t, user)
    ensures Untouched(events[..n], k, t, user)
  {
    forall j | k < j < n
      ensures LeavesAlone(events[..n], j, t, user)
    {
      PrefixAgrees(events, n, j, t, user);
    }
  }

  ghost predicate Waits(w: World, t: Token, user: string, expires: real) {
    t in w.store && w.store[t] == Stored(Data(user, w.store[t].data.session, true), expires)
  }

  lemma UsedStep(w: World, e: Event, t: Token, user: string, expires: real)
    requires Inv(w) && Fresh(w, e) && Waits(w, t, user, expires)
    requires Revoked(w, e) == Some(user) ==> t in Stuck(e)
    ensures Waits(Step(w, e), t, user, expires)
  {
  }

  lemma UsedOneMore(events: seq<Event>, n: nat, t: Token, user: string, expires: real)
    requires |events| == n + 1 && Legal(events) && Waits(After(events[..n]), t, user, expires)
    requires LeavesAlone(events, n, t, user)
    ensures Waits(After(events), t, user, expires)
  {
    RunsKeepInv(events[..n]);
    UsedStep(After(events[..n]), events[n], t, user, expires);
  }

  lemma RotatedWaits(w: World, e: Event)
    requires Inv(w) && Fresh(w, e) && e.Rotate? && Succeeds(w, e.token, e.now)
    ensures Waits(Step(w, e), e.token, w.store[e.token].data.user, e.now + USED_TTL)
  {
  }

  lemma RotatedLast(events: seq<Event>, k: nat, t: Token, user: string)
    requires Legal(events) && |events| == k + 1 && RotatedAt(events, k, t, user)
    ensures Waits(After(events), t, user, When(events[k]) + USED_TTL)
  {
    RunsKeepInv(events[..k]);
    RotatedWaits(After(events[..k]), events[k]);
  }

  lemma {:induction false} UsedRecordWaits(events: seq<Event>, k: nat, t: Token, user: string)
    requires Legal(events) && RotatedAt(events, k, t, user) && Untouched(events, k, t, user)
    ensures Waits(After(events), t, user, When(events[k]) + USED_TTL)
  {
    var n := |events| - 1;
    if k == n {
      RotatedLast(events, k, t, user);
    } else {
      PrefixAgrees(events, n, k, t, user);
      UntouchedPrefix(events, n, k, t, user);
      UsedRecordWaits(events[..n], k, t, user);
      assert LeavesAlone(events, n, t, user);
      UsedOneMore(events, n, t, user, When(events[k]) + USED_TTL);
    }
  }

  /** A token rotated by event `k`, presented again while its record is left: its reuse
      is detected exactly if less than a minute has passed since. */
  lemma ReuseIsDetectedForAMinute(events: seq<Event>, k: nat, t: Token, user: string, successor: Token, now: real,
                                  stores: bool,
                                  stuck: set<Token>)
    requires Legal(events) && RotatedAt(events, k, t, user) && Untouched(events, k, t, user)
    ensures Revoked(After(events), Rotate(t, successor, now, stores, stuck)).Some? <==> now < When(events[k]) + 60.0
    ensures !Succeeds(After(events), t, now)
  {
    UsedRecordWaits(events, k, t, user);
  }
}
