/** Revoking a user's tokens while rotations are under way. */
module LogoutRaces {
  import opened TokenRaces
  import R = TokenRotation

  /** Records and rotations under way carry the user their token was issued to. */
  ghost predicate UsersKnown(s: Race) {
    && (forall t :: t in s.store ==> t in s.issued && s.store[t].data.user == s.issued[t].user)
    && (forall q :: q in s.rotations ==>
          s.rotations[q].token in s.issued && s.rotations[q].data.user == s.issued[s.rotations[q].token].user)
  }

  lemma UsersKnownStep(s: Race, e: Move)
    requires UsersKnown(s) && Fresh(s, e)
    ensures UsersKnown(Next(s, e))
  {
  }

  lemma {:induction false} UsersKnownThroughout(moves: seq<Move>, n: nat)
    requires Legal(moves) && n <= |moves|
    ensures UsersKnown(After(moves[..n]))
  {
    if n > 0 {
      UsersKnownThroughout(moves, n - 1);
      assert moves[..n][..n - 1] == moves[..n - 1] && FreshAt(moves, n - 1);
      UsersKnownStep(After(moves[..n - 1]), moves[n - 1]);
    }
  }

  ghost predicate UnderWay(s: Race, user: string) {
    exists q :: q in s.rotations && s.rotations[q].data.user == user
  }

  /** The token is the user's, and can be rotated. */
  ghost predicate LoggedIn(s: Race, user: string, t: R.Token, now: real) {
    && t in s.issued && s.issued[t].user == user
    && R.Lookup(s.store, t, now).Some? && !R.Lookup(s.store, t, now).value.used
  }

  /** The user has neither a rotation under way nor a record that outlives `since`. */
  ghost predicate LoggedOut(s: Race, user: string, since: real) {
    && !UnderWay(s, user)
    && forall t :: t in s.store && s.store[t].data.user == user ==> s.store[t].expires <= since
  }

  /** The user does not log in again, and the clock does not go back behind `since`. */
  ghost predicate Later(e: Move, user: string, since: real) {
    match e
    case Create(u, _, _, _, _) => u != user
    case Read(_, _, now) => since <= now
    case _ => true
  }

  lemma LoggedOutStep(s: Race, e: Move, user: string, since: real)
    requires UsersKnown(s) && Fresh(s, e) && LoggedOut(s, user, since) && Later(e, user, since)
    ensures LoggedOut(Next(s, e), user, since)
  {
    var s' := Next(s, e);
    forall q | q in s'.rotations
      ensures s'.rotations[q].data.user != user
    {
      assert q in s.rotations ==> s.rotations[q].data.user != user;
    }
  }

  lemma {:induction false} StaysLoggedOut(moves: seq<Move>, more: seq<Move>, user: string, since: real)
    requires Legal(moves + more) && LoggedOut(After(moves), user, since)
    requires forall i :: 0 <= i < |more| ==> Later(more[i], user, since)
    ensures LoggedOut(After(moves + more), user, since)
    decreases |more|
  {
    if more == [] {
      assert moves + more == moves;
    } else {
      var n := |more| - 1;
      var run := moves + more[..n];
      assert moves + more == run + [more[n]] && (moves + more)[..|run|] == run;
      Shorter(moves + more, |run|);
      StaysLoggedOut(moves, more[..n], user, since);
      UsersKnownThroughout(moves + more, |run|);
      assert FreshAt(moves + more, |run|);
      LoggedOutStep(After(run), more[n], user, since);
    }
  }

  lemma Shorter(moves: seq<Move>, n: nat)
    requires Legal(moves) && n <= |moves|
    ensures Legal(moves[..n])
  {
    forall k | 0 <= k < n
      ensures FreshAt(moves[..n], k)
    {
      assert moves[..n][..k] == moves[..k] && FreshAt(moves, k);
    }
  }

  /** However the run goes on without another login, the user cannot rotate any token. */
  ghost predicate NeverLoggedInAgain(moves: seq<Move>, user: string, since: real) {
    forall more: seq<Move>, t: R.Token, now: real :: StaysOut(moves, more, user, since, t, now)
  }

  ghost predicate StaysOut(moves: seq<Move>, more: seq<Move>, user: string, since: real, t: R.Token, now: real) {
    Legal(moves + more) && (forall i :: 0 <= i < |more| ==> Later(more[i], user, since)) && since <= now ==>
      !LoggedIn(After(moves + more), user, t, now)
  }

  lemma RevokedIsLoggedOut(moves: seq<Move>, user: string, since: real)
    requires Legal(moves) && moves != [] && moves[|moves| - 1] == Revoke(user, since, {})
    requires !UnderWay(After(moves), user)
    ensures LoggedOut(After(moves), user, since)
  {
    var n := |moves| - 1;
    UsersKnownThroughout(moves, n);
  }

  /** The marking, if it is still to come, and the completion of a rotation. */
  ghost function Completion(s: Race, q: nat, successor: R.Token, now: real): seq<Move>
    requires q in s.rotations
  {
    if s.rotations[q].marked then [Complete(q, successor, now, true)]
    else [Mark(q, now), Complete(q, successor, now, true)]
  }

  lemma MarkedCompletes(s: Race, q: nat, successor: R.Token, now: real)
    requires UsersKnown(s) && q in s.rotations && s.rotations[q].marked && successor !in s.issued
    ensures LoggedIn(Next(s, Complete(q, successor, now, true)), s.rotations[q].data.user, successor, now)
  {
  }

  lemma RunOneMore(moves: seq<Move>, e: Move)
    requires Legal(moves) && Fresh(After(moves), e)
    ensures Legal(moves + [e]) && After(moves + [e]) == Next(After(moves), e)
  {
    var longer := moves + [e];
    assert longer[..|moves|] == moves;
    forall k | 0 <= k < |longer|
      ensures FreshAt(longer, k)
    {
      if k < |moves| {
        assert longer[..k] == moves[..k] && FreshAt(moves, k);
      }
    }
  }

  lemma CompletionLogsIn(moves: seq<Move>, q: nat, successor: R.Token, now: real)
    requires Legal(moves) && q in After(moves).rotations
    requires successor !in After(moves).issued
    ensures
      var s := After(moves);
      var more := Completion(s, q, successor, now);
      && Legal(moves + more)
      && LoggedIn(After(moves + more), s.rotations[q].data.user, successor, now)
  {
    var s := After(moves);
    assert moves[..|moves|] == moves;
    UsersKnownThroughout(moves, |moves|);
    var done := Complete(q, successor, now, true);
    if s.rotations[q].marked {
      MarkedCompletes(s, q, successor, now);
      RunOneMore(moves, done);
    } else {
      var mark := Mark(q, now);
      RunOneMore(moves, mark);
      UsersKnownStep(s, mark);
      MarkedCompletes(Next(s, mark), q, successor, now);
      RunOneMore(moves + [mark], done);
      assert moves + [mark] + [done] == moves + [mark, done];
    }
  }

  /** A revocation that deletes every record logs its user out, for every interleaving to
      come, exactly if no rotation of one of the user's tokens is under way: one that is
      puts its token back, and issues the next. */
  lemma LogoutIsFinalIffQuiet(moves: seq<Move>, user: string, since: real, unissued: R.Token)
    requires Legal(moves) && moves != [] && moves[|moves| - 1] == Revoke(user, since, {})
    requires unissued !in After(moves).issued
    ensures NeverLoggedInAgain(moves, user, since) <==> !UnderWay(After(moves), user)
  {
    var s := After(moves);
    if UnderWay(s, user) {
      var q :| q in s.rotations && s.rotations[q].data.user == user;
      CompletionLogsIn(moves, q, unissued, since);
      assert !StaysOut(moves, Completion(s, q, unissued, since), user, since, unissued, since);
    } else {
      RevokedIsLoggedOut(moves, user, since);
      forall more: seq<Move>, t: R.Token, now: real
        ensures StaysOut(moves, more, user, since, t, now)
      {
        NobodyLoggedIn(moves, more, user, since, t, now);
      }
    }
  }

  lemma NobodyLoggedIn(moves: seq<Move>, more: seq<Move>, user: string, since: real, t: R.Token, now: real)
    requires LoggedOut(After(moves), user, since)
    ensures StaysOut(moves, more, user, since, t, now)
  {
    if Legal(moves + more) && (forall i :: 0 <= i < |more| ==> Later(more[i], user, since)) {
      StaysLoggedOut(moves, more, user, since);
      assert (moves + more)[..|moves + more|] == moves + more;
      UsersKnownThroughout(moves + more, |moves + more|);
    }
  }
}
