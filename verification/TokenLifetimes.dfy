/** How long a refresh token can be rotated, and whose tokens a revocation takes. */
module TokenLifetimes {
  import opened Wrappers
  import opened TokenRotation

  /** A revocation, by request or by detected reuse, takes nothing from anybody else. */
  lemma OthersKeepTheirTokens(events: seq<Event>, e: Event, t: Token, now: real)
    requires Legal(events) && t in After(events).issued
    requires Revoked(After(events), e).Some? && Revoked(After(events), e) != Some(After(events).issued[t].user)
    ensures Lookup(Step(After(events), e).store, t, now) == Lookup(After(events).store, t, now)
  {
    RunsKeepInv(events);
  }

  /** Event `k` issues the token: a login, or the rotation of its predecessor. */
  ghost predicate IssuedAt(events: seq<Event>, k: nat, t: Token) {
    k < |events| &&
    match events[k]
    case Create(_, _, token, _, _) => token == t
    case Rotate(token, successor, now, _, _) => successor == t && Succeeds(After(events[..k]), token, now)
    case Revoke(_, _, _) => false
  }

  ghost predicate Persisted(e: Event)
    requires !e.Revoke?
  {
    e.stores
  }

  /** Event `k` has issued it to the user. */
  ghost predicate IssuedTo(events: seq<Event>, k: nat, t: Token, user: string) {
    IssuedAt(events, k, t) && t in After(events[..k + 1]).issued && After(events[..k + 1]).issued[t].user == user
  }

  /** Event `j` rotates the token. */
  ghost predicate Rotates(events: seq<Event>, j: nat, t: Token)
    requires j < |events|
  {
    events[j].Rotate? && events[j].token == t && Succeeds(After(events[..j]), t, When(events[j]))
  }

  /** Since event `k` the token has not been rotated and its owner's tokens have not been
      revoked, or its delete failed each time. */
  ghost predicate Untaken(events: seq<Event>, k: nat, t: Token, user: string) {
    forall j :: k < j < |events| ==> !Rotates(events, j, t) && LeavesAlone(events, j, t, user)
  }

  ghost predicate Good(w: World, t: Token, user: string, expires: real) {
    && t in w.issued && w.issued[t].user == user
    && t in w.store && !w.store[t].data.used && w.store[t].data.user == user && w.store[t].expires == expires
  }

  ghost predicate GoodIf(good: bool, w: World, t: Token, user: string, expires: real, now: real) {
    if good then Good(w, t, user, expires) else Dead(w, t, now)
  }

  lemma JustIssued(w: World, e: Event, t: Token)
    requires Inv(w) && Fresh(w, e)
    requires (e.Create? && e.token == t) || (e.Rotate? && e.successor == t && Succeeds(w, e.token, e.now))
    ensures t in Step(w, e).issued
    ensures GoodIf(e.stores, Step(w, e), t, Step(w, e).issued[t].user, e.now + 604800.0, e.now)
  {
  }

  lemma GoodStep(w: World, e: Event, t: Token, user: string, expires: real)
    requires Inv(w) && Fresh(w, e) && Good(w, t, user, expires)
    ensures
      var rotated := e.Rotate? && e.token == t && Succeeds(w, t, When(e));
      var revoked := Revoked(w, e) == Some(user) && t !in Stuck(e);
      GoodIf(!rotated && !revoked, Step(w, e), t, user, expires, When(e))
  {
  }

  lemma FirstFate(events: seq<Event>, t: Token)
    requires events != [] && Legal(events) && IssuedAt(events, |events| - 1, t)
    ensures
      var e := events[|events| - 1];
      && t in After(events).issued
      && GoodIf(Persisted(e), After(events), t, After(events).issued[t].user, When(e) + 604800.0, When(e))
  {
    var n := |events| - 1;
    RunsKeepInv(events[..n]);
    JustIssued(After(events[..n]), events[n], t);
  }

  lemma NextFate(events: seq<Event>, n: nat, good: bool, t: Token, user: string, expires: real)
    requires 0 < n && |events| == n + 1 && Legal(events)
    requires GoodIf(good, After(events[..n]), t, user, expires, When(events[n - 1]))
    ensures GoodIf(good && !Rotates(events, n, t) && LeavesAlone(events, n, t, user), After(events), t, user, expires,
                   When(events[n]))
  {
    RunsKeepInv(events[..n]);
    if good {
      GoodStep(After(events[..n]), events[n], t, user, expires);
    } else {
      DeadStays(After(events[..n]), events[n], t, When(events[n - 1]));
    }
  }

  lemma UntakenStep(events: seq<Event>, n: nat, k: nat, t: Token, user: string)
    requires k < n && |events| == n + 1
    ensures Untaken(events, k, t, user) <==>
      Untaken(events[..n], k, t, user) && !Rotates(events, n, t) && LeavesAlone(events, n, t, user)
  {
    forall j | k < j < n
      ensures Rotates(events[..n], j, t) == Rotates(events, j, t)
      ensures LeavesAlone(events[..n], j, t, user) == LeavesAlone(events, j, t, user)
    {
      assert events[..n][..j] == events[..j] && events[..n][j] == events[j];
    }
    if Untaken(events[..n], k, t, user) {
      assert forall j :: k < j < n ==> !Rotates(events[..n], j, t) && LeavesAlone(events[..n], j, t, user);
    }
  }

  lemma SameIssue(events: seq<Event>, n: nat, k: nat, t: Token, user: string)
    requires k < n <= |events|
    ensures IssuedTo(events[..n], k, t, user) == IssuedTo(events, k, t, user)
  {
    assert events[..n][..k] == events[..k] && events[..n][..k + 1] == events[..k + 1];
  }

  lemma {:induction false} Fate(events: seq<Event>, k: nat, t: Token, user: string)
    requires Legal(events) && IssuedTo(events, k, t, user)
    ensures GoodIf(Persisted(events[k]) && Untaken(events, k, t, user), After(events), t, user,
                   When(events[k]) + 604800.0, When(events[|events| - 1]))
  {
    var n := |events| - 1;
    if k == n {
      assert events[..k + 1] == events;
      FirstFate(events, t);
    } else {
      SameIssue(events, n, k, t, user);
      Fate(events[..n], k, t, user);
      UntakenStep(events, n, k, t, user);
      NextFate(events, n, Persisted(events[k]) && Untaken(events[..n], k, t, user), t, user,
               When(events[k]) + 604800.0);
    }
  }

  /** Every issued token has one owner: the user who logs in, or the predecessor's. */
  lemma IssuedToSomebody(events: seq<Event>, k: nat, t: Token) returns (user: string)
    requires Legal(events) && IssuedAt(events, k, t)
    ensures IssuedTo(events, k, t, user)
    ensures events[k].Create? ==> user == events[k].user
    ensures events[k].Rotate? ==>
      events[k].token in After(events[..k]).issued && user == After(events[..k]).issued[events[k].token].user
  {
    LegalPrefix(events, k + 1);
    LegalPrefix(events, k);
    RunsKeepInv(events[..k]);
    assert events[..k + 1][..k] == events[..k];
    FirstFate(events[..k + 1], t);
    user := After(events[..k + 1]).issued[t].user;
  }

  /** Which tokens can be rotated, exactly, after every run: a token can be rotated at
      `later` if and only if it was stored when issued, less than seven days have passed
      since, it has not been rotated yet, and no revocation of its own user's tokens has
      deleted it. */
  lemma RotatableForSevenDays(events: seq<Event>, k: nat, t: Token, user: string, later: real)
    requires Legal(events) && IssuedTo(events, k, t, user) && When(events[|events| - 1]) <= later
    ensures Succeeds(After(events), t, later) <==>
      Persisted(events[k]) && later < When(events[k]) + 604800.0 && Untaken(events, k, t, user)
  {
    Fate(events, k, t, user);
  }
}
