/** The cost cache's table of active refreshes, which lets one task per organization into
    the body of a refresh. Tasks are scheduled in the background or call directly, enter,
    leave and end in any interleaving; each step below runs without a suspension. */
module RefreshGuard {
  type Org = string
  type Task = nat

  /** Where a task stands that the table should know of: created in the background for
      the organization and not yet called, or inside the body. */
  datatype Phase = Waiting(org: Org) | Inside(org: Org)

  /** The table, the tasks that have ended, and where the others stand. */
  datatype State = State(active: map<Org, Task>, ended: set<Task>, engaged: map<Task, Phase>)

  const IDLE: State := State(map[], {}, map[])

  predicate Busy(s: State, org: Org) {
    org in s.active && s.active[org] !in s.ended
  }

  function OnSchedule(s: State, org: Org, task: Task): State {
    if Busy(s, org) then s
    else s.(active := s.active[org := task], engaged := s.engaged[task := Waiting(org)])
  }

  predicate LetsIn(s: State, org: Org, current: Task) {
    !Busy(s, org) || s.active[org] == current
  }

  /** A call that is not let in returns at once. */
  function OnCall(s: State, org: Org, current: Task): State {
    if LetsIn(s, org, current) then s.(active := s.active[org := current], engaged := s.engaged[current := Inside(org)])
    else s.(engaged := s.engaged - {current})
  }

  function OnLeave(s: State, org: Org, current: Task): State {
    s.(active := if org in s.active && s.active[org] == current then s.active - {org} else s.active,
       engaged := s.engaged - {current})
  }

  /** A task ends, wherever it was outside the body. */
  function OnEnd(s: State, t: Task): State {
    s.(ended := s.ended + {t}, engaged := s.engaged - {t})
  }

  class CostCache {
    var active: map<Org, Task>
    var ended: set<Task>
    ghost var engaged: map<Task, Phase>

    ghost function AsState(): State
      reads this
    {
      State(active, ended, engaged)
    }

    constructor ()
      ensures AsState() == IDLE
    {
      active, ended, engaged := map[], {}, map[];
    }

    method ScheduleBackgroundRefresh(org: Org, task: Task) returns (created: bool)
      modifies this
      ensures AsState() == OnSchedule(old(AsState()), org, task)
      ensures created == !Busy(old(AsState()), org)
    {
      if org in active && active[org] !in ended {
        return false;
      }
      engaged := engaged[task := Waiting(org)];
      active := active[org := task];
      return true;
    }

    /** The opening of a refresh: without `entered` it is skipped. */
    method EnterRefresh(org: Org, current: Task) returns (entered: bool)
      modifies this
      ensures AsState() == OnCall(old(AsState()), org, current)
      ensures entered == LetsIn(old(AsState()), org, current)
    {
      if org in active && active[org] !in ended && active[org] != current {
        engaged := engaged - {current};
        return false;
      }
      active := active[org := current];
      engaged := engaged[current := Inside(org)];
      return true;
    }

    /** The closing clause, after success, failure or cancellation. */
    method LeaveRefresh(org: Org, current: Task)
      modifies this
      ensures AsState() == OnLeave(old(AsState()), org, current)
    {
      if org in active && active[org] == current {
        active := active - {org};
      }
      engaged := engaged - {current};
    }

    method TaskEnded(t: Task)
      modifies this
      ensures AsState() == OnEnd(old(AsState()), t)
    {
      ended := ended + {t};
      engaged := engaged - {t};
    }

    method IsRefreshing(org: Org) returns (refreshing: bool)
      ensures refreshing == Busy(AsState(), org)
    {
      refreshing := org in active && active[org] !in ended;
    }
  }

  // ---- interleavings ----

  datatype Event =
    | Schedule(org: Org, task: Task)
    | Call(org: Org, current: Task)
    | Leave(org: Org, current: Task)
    | End(task: Task)

  /** What tasks do: a created task is new, a task calls while it runs and not from
      inside a refresh, a background task calls for its organization, and a task leaves
      the body it is in before it ends. */
  ghost predicate CanHappen(s: State, e: Event) {
    match e
    case Schedule(_, task) => task !in s.ended && task !in s.engaged
    case Call(org, current) => current !in s.ended && (current in s.engaged ==> s.engaged[current] == Waiting(org))
    case Leave(org, current) => current in s.engaged && s.engaged[current] == Inside(org)
    case End(task) => task in s.engaged ==> s.engaged[task].Waiting?
  }

  function Step(s: State, e: Event): State {
    match e
    case Schedule(org, task) => OnSchedule(s, org, task)
    case Call(org, current) => OnCall(s, org, current)
    case Leave(org, current) => OnLeave(s, org, current)
    case End(task) => OnEnd(s, task)
  }

  function After(events: seq<Event>): State {
    if events == [] then IDLE else Step(After(events[..|events| - 1]), events[|events| - 1])
  }

  ghost predicate Happened(events: seq<Event>) {
    events != [] ==>
      Happened(events[..|events| - 1]) && CanHappen(After(events[..|events| - 1]), events[|events| - 1])
  }

  /** Among tasks that run, the table is the inverse of where they stand. */
  ghost predicate TableIsRight(s: State) {
    && (forall t :: t in s.engaged ==> t !in s.ended && s.engaged[t].org in s.active && s.active[s.engaged[t].org] == t)
    && (forall org :: Busy(s, org) ==> s.active[org] in s.engaged && s.engaged[s.active[org]].org == org)
  }

  lemma StepKeepsTable(s: State, e: Event)
    requires TableIsRight(s) && CanHappen(s, e)
    ensures TableIsRight(Step(s, e))
  {
  }

  lemma {:induction false} TableStaysRight(events: seq<Event>)
    requires Happened(events)
    ensures TableIsRight(After(events))
  {
    if events != [] {
      var n := |events| - 1;
      TableStaysRight(events[..n]);
      StepKeepsTable(After(events[..n]), events[n]);
    }
  }

  /** At most one task is inside the body for an organization, or waits to enter it. */
  lemma OneRefreshPerOrganization(events: seq<Event>, a: Task, b: Task)
    requires Happened(events)
    requires a in After(events).engaged && b in After(events).engaged
    requires After(events).engaged[a].org == After(events).engaged[b].org
    ensures a == b
  {
    TableStaysRight(events);
  }

  ghost predicate Unattended(s: State, org: Org) {
    forall t :: t in s.engaged ==> s.engaged[t].org != org
  }

  /** A background refresh is created exactly if no task is at the organization; it then
      waits there, and nobody else moves. */
  lemma CreatedIffUnattended(events: seq<Event>, org: Org, task: Task)
    requires Happened(events) && CanHappen(After(events), Schedule(org, task))
    ensures
      var s, s' := After(events), After(events + [Schedule(org, task)]);
      if Unattended(s, org)
      then s'.engaged == s.engaged[task := Waiting(org)] && org in s'.active && s'.active[org] == task
      else s' == s
  {
    TableStaysRight(events);
    Longer(events, Schedule(org, task));
  }

  /** A call goes inside exactly if no other task is at the organization, and is over
      otherwise; nobody else moves. */
  lemma EnteredIffAlone(events: seq<Event>, org: Org, current: Task)
    requires Happened(events) && CanHappen(After(events), Call(org, current))
    ensures
      var s, s' := After(events), After(events + [Call(org, current)]);
      s'.engaged == if Unattended(s.(engaged := s.engaged - {current}), org)
                    then s.engaged[current := Phase.Inside(org)] else s.engaged - {current}
  {
    TableStaysRight(events);
    Longer(events, Call(org, current));
    var s := After(events);
    var others := s.(engaged := s.engaged - {current});
    if LetsIn(s, org, current) {
      assert Unattended(others, org);
    } else {
      assert s.active[org] in others.engaged && others.engaged[s.active[org]].org == org;
    }
  }

  lemma Longer(events: seq<Event>, e: Event)
    ensures After(events + [e]) == Step(After(events), e)
  {
    assert (events + [e])[..|events|] == events;
  }

  /** A call is turned away exactly if another task refreshes the organization or has
      been created to, so what it asks for is being done. */
  lemma RefusedOnlyWhileRefreshing(events: seq<Event>, org: Org, current: Task)
    requires Happened(events) && CanHappen(After(events), Call(org, current))
    ensures !LetsIn(After(events), org, current) <==>
      exists t :: t in After(events).engaged && t != current && After(events).engaged[t].org == org
  {
    TableStaysRight(events);
    var s := After(events);
    if Busy(s, org) {
      assert s.active[org] in s.engaged;
    }
  }

  /** A background task is never turned away when it calls. */
  lemma BackgroundTaskEnters(events: seq<Event>, t: Task)
    requires Happened(events) && t in After(events).engaged && After(events).engaged[t].Waiting?
    ensures LetsIn(After(events), After(events).engaged[t].org, t)
  {
    TableStaysRight(events);
  }

  /** Leaving removes the task's own entry, always, and no other. */
  lemma LeavingRemovesOwnEntry(events: seq<Event>, org: Org, current: Task)
    requires Happened(events) && CanHappen(After(events), Leave(org, current))
    ensures org in After(events).active && After(events).active[org] == current
    ensures OnLeave(After(events), org, current).active == After(events).active - {org}
  {
    TableStaysRight(events);
  }

  /** The status reported for an organization is right: some task is at it. */
  lemma StatusIsRight(events: seq<Event>, org: Org)
    requires Happened(events)
    ensures Busy(After(events), org) <==> exists t :: t in After(events).engaged && After(events).engaged[t].org == org
  {
    TableStaysRight(events);
    if Busy(After(events), org) {
      assert After(events).active[org] in After(events).engaged;
    }
  }

  /** No organization is locked out: with no task at it, the next call is let in. */
  lemma IdleOrganizationIsOpen(events: seq<Event>, org: Org, current: Task)
    requires Happened(events)
    requires forall t :: t in After(events).engaged ==> After(events).engaged[t].org != org
    ensures LetsIn(After(events), org, current)
  {
    TableStaysRight(events);
  }
}
