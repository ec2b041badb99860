/** Migration 010: every organization gets the built-in system roles with exactly their
    permissions, and assignments of two legacy roles move to the roles that replace
    them. Roles, permissions and assignments are soft-deleted tables with the unique
    constraints of the initial schema. */
module RoleMigration {
  import opened Wrappers
  import opened SoftDeleteTable
  import opened RoleTables

  type Roles = seq<Row<RoleKey, RoleInfo>>
  type Perms = seq<Row<PermKey, ()>>
  type Assigns = seq<Row<AssignKey, Grant>>

  /** The rows of the three tables. */
  datatype Rows = Rows(roles: Roles, perms: Perms, assigns: Assigns)

  /** One existing row after the first loop of the synchronization. */
  function SyncedRow(r: Row<PermKey, ()>, role: nat, wanted: set<PermKey>, now: real): Row<PermKey, ()> {
    if r.key.role != role then r
    else if r.key in wanted then if Live(r) then r else r.(deletedAt := None, updatedAt := now)
    else if Live(r) then r.(deletedAt := Some(now), updatedAt := now)
    else r
  }

  ghost predicate DistinctIds(roles: Roles, nextId: nat) {
    && (forall i :: 0 <= i < |roles| ==> roles[i].value.id < nextId)
    && (forall i, j :: 0 <= i < j < |roles| ==> roles[i].value.id != roles[j].value.id)
  }

  class Database {
    var roles: Roles
    var perms: Perms
    var assigns: Assigns
    var nextId: nat

    ghost predicate Valid()
      reads this
    {
      Unique(roles) && Unique(perms) && Unique(assigns) && DistinctIds(roles, nextId)
    }

    method SyncRolePermissions(role: nat, permissions: seq<(string, string)>, now: real)
      requires Valid()
      modifies this`perms
      ensures Valid()
      ensures Contents(perms).Keys == SyncedKeys(old(Contents(perms).Keys), role, Wanted(role, permissions))
      ensures forall k :: k in Contents(perms) <==>
        if k.role == role
        then exists action, resource ::
               (action, resource) in permissions && k.action == Upper(action) && k.resource == Upper(resource)
        else k in old(Contents(perms))
      ensures Contents(perms).Keys == old(Contents(perms).Keys) ==> perms == old(perms)
      ensures Stamped(old(perms), perms, now)
    {
      var wanted := Wanted(role, permissions);
      var existing := perms;
      ReviseRows(role, wanted, now);
      FirstPassDone(existing, perms, role, wanted, now);
      InsertMissing(existing, role, wanted, now);
      SyncResult(existing, perms, role, wanted, now);
      SyncedPairs(Contents(existing).Keys, role, permissions);
    }

    /** The first loop: existing rows are revived or marked deleted. */
    method ReviseRows(role: nat, wanted: set<PermKey>, now: real)
      modifies this`perms
      ensures FirstPass(old(perms), perms, |perms|, role, wanted, now)
    {
      var existing := perms;
      for i := 0 to |existing|
        invariant FirstPass(existing, perms, i, role, wanted, now)
      {
        var row := existing[i];
        if row.key.role == role {
          if row.key in wanted {
            if row.deletedAt.Some? {
              perms := perms[i := row.(deletedAt := None, updatedAt := now)];
            }
          } else if row.deletedAt.None? {
            perms := perms[i := row.(deletedAt := Some(now), updatedAt := now)];
          }
        }
      }
    }

    /** The second loop: what had no row gets one. */
    method InsertMissing(existing: Perms, role: nat, wanted: set<PermKey>, now: real)
      requires SecondPass(existing, perms, {}, role, wanted, now)
      modifies this`perms
      ensures SecondPass(existing, perms, wanted, role, wanted, now)
    {
      var todo := wanted;
      while todo != {}
        invariant todo <= wanted
        invariant SecondPass(existing, perms, wanted - todo, role, wanted, now)
        decreases todo
      {
        var key :| key in todo;
        SecondPassStep(existing, perms, wanted - todo, key, role, wanted, now);
        assert wanted - (todo - {key}) == wanted - todo + {key};
        todo := todo - {key};
        if Find(existing, key).None? {
          perms := perms + [Row(key, (), None, now)];
        }
      }
      assert wanted - todo == wanted;
    }

    /** The row of the system role is revived or created, and its permissions set. */
    method UpsertSystemRole(org: string, spec: RoleSpec, now: real) returns (id: nat)
      requires Valid()
      modifies this`roles, this`perms, this`nextId
      ensures Valid()
      ensures Contents(roles) == old(Contents(roles))[RoleKey(org, spec.name) := RoleInfo(id, spec.description, true)]
      ensures Contents(perms).Keys == SyncedKeys(old(Contents(perms).Keys), id, Wanted(id, spec.permissions))
      ensures Contents(perms).Keys == old(Contents(perms).Keys) ==> perms == old(perms)
      ensures Contents(roles) == old(Contents(roles)) ==> SameButUpdates(old(roles), roles)
      ensures RoleKey(org, spec.name) in old(Contents(roles)) ==> id == old(Contents(roles))[RoleKey(org, spec.name)].id
    {
      var key := RoleKey(org, spec.name);
      var found := Find(roles, key);
      if found.Some? {
        var i := found.value;
        id := roles[i].value.id;
        var row := Row(key, RoleInfo(id, spec.description, true), None, now);
        ContentsAt(roles, i);
        ContentsUpdate(roles, i, row);
        roles := roles[i := row];
      } else {
        id := nextId;
        nextId := nextId + 1;
        var row := Row(key, RoleInfo(id, spec.description, true), None, now);
        ContentsAppend(roles, row);
        AbsentFromContents(roles, key);
        roles := roles + [row];
      }
      SyncRolePermissions(id, spec.permissions, now);
    }

    method MigrateAssignments(org: string, from: nat, to: nat, now: real)
      requires Valid() && from != to
      modifies this`assigns
      ensures Valid()
      ensures Contents(assigns) == Moved(old(Contents(assigns)), org, from, to)
    {
      var existing := assigns;
      for i := 0 to |existing|
        invariant Handing(existing, assigns, from, to)
        invariant Contents(assigns) == Received(existing[..i], org, from, to) + Contents(existing)
      {
        assert existing[..i + 1][..i] == existing[..i];
        var row := existing[i];
        if row.key.org == org && row.key.role == from && row.deletedAt.None? {
          var target := AssignKey(row.key.user, to, org);
          ghost var before := assigns;
          var found := Find(assigns, target);
          if found.Some? {
            if assigns[found.value].deletedAt.Some? {
              assigns := assigns[found.value := Row(target, row.value, None, now)];
            }
          } else {
            assigns := assigns + [Row(target, row.value, None, now)];
          }
          assert assigns == HandedOver(before, target, row.value, now);
          HandOverStep(existing, before, i, org, from, to, now);
        }
      }
      assert existing[..|existing|] == existing;
      MoveResult(existing, assigns, org, from, to);
      RetireAssignments(org, from, now);
    }

    /** The closing update: every live assignment of the role is marked deleted. */
    method RetireAssignments(org: string, role: nat, now: real)
      requires Valid()
      modifies this`assigns
      ensures Valid()
      ensures Contents(assigns) == Contents(old(assigns)) - Retired(old(assigns), |old(assigns)|, org, role)
    {
      var all := assigns;
      for i := 0 to |all|
        invariant Unique(assigns) && |assigns| == |all|
        invariant forall j :: i <= j < |all| ==> assigns[j] == all[j]
        invariant Contents(assigns) == Contents(all) - Retired(all, i, org, role)
      {
        var row := all[i];
        RetiredStep(all, i, org, role);
        if row.key.org == org && row.key.role == role && row.deletedAt.None? {
          ContentsUpdate(assigns, i, row.(deletedAt := Some(now), updatedAt := now));
          assigns := assigns[i := row.(deletedAt := Some(now), updatedAt := now)];
        }
      }
    }

    method SoftDeleteRole(id: nat, now: real)
      requires Valid()
      modifies this`roles, this`perms
      ensures Valid()
      ensures Contents(perms).Keys == set k | k in old(Contents(perms)) && k.role != id
      ensures Contents(roles)
              == map k | k in old(Contents(roles)) && old(Contents(roles))[k].id != id :: old(Contents(roles))[k]
    {
      SoftDeletePermissions(id, now);
      SoftDeleteRoleRow(id, now);
    }

    method SoftDeletePermissions(id: nat, now: real)
      requires Unique(perms)
      modifies this`perms
      ensures Unique(perms) && Contents(perms).Keys == set k | k in old(Contents(perms)) && k.role != id
    {
      ghost var before := perms;
      for i := 0 to |perms|
        invariant Unique(perms) && |perms| == |before|
        invariant forall j :: 0 <= j < |perms| ==> perms[j].key == before[j].key
        invariant forall j :: 0 <= j < i ==> (Live(perms[j]) <==> Live(before[j]) && before[j].key.role != id)
        invariant forall j :: i <= j < |perms| ==> perms[j] == before[j]
      {
        if perms[i].key.role == id && perms[i].deletedAt.None? {
          perms := perms[i := perms[i].(deletedAt := Some(now), updatedAt := now)];
        }
      }
      RetiredKeys(before, perms, id);
    }

    method SoftDeleteRoleRow(id: nat, now: real)
      requires Unique(roles) && DistinctIds(roles, nextId)
      modifies this`roles
      ensures Unique(roles) && DistinctIds(roles, nextId)
      ensures Contents(roles)
              == map k | k in old(Contents(roles)) && old(Contents(roles))[k].id != id :: old(Contents(roles))[k]
    {
      ghost var before := roles;
      for i := 0 to |roles|
        invariant Unique(roles) && |roles| == |before|
        invariant forall j :: 0 <= j < |roles| ==> roles[j].key == before[j].key && roles[j].value == before[j].value
        invariant forall j :: 0 <= j < i ==> (Live(roles[j]) <==> Live(before[j]) && before[j].value.id != id)
        invariant forall j :: i <= j < |roles| ==> roles[j] == before[j]
      {
        if roles[i].value.id == id && roles[i].deletedAt.None? {
          roles := roles[i := roles[i].(deletedAt := Some(now), updatedAt := now)];
        }
      }
      RetiredRoles(before, roles, id);
    }

    /** The first loop over an organization: every system role, by name. */
    method SetUpRoles(org: string, specs: seq<RoleSpec>, now: real) returns (roleIdsByName: map<string, nat>)
      requires Valid() && DistinctNames(specs)
      modifies this`roles, this`perms, this`nextId
      ensures Valid()
      ensures SpecsDone(Summary(), org, specs, |specs|) && SpecsKept(old(Summary()), Summary(), org, specs, |specs|)
      ensures RecordedIds(roleIdsByName, Summary(), org, specs, |specs|)
      ensures SpecsDone(old(Summary()), org, specs, |specs|)
              ==> SameButUpdates(old(roles), roles) && perms == old(perms)
    {
      ghost var s0 := Summary();
      ghost var roles0, perms0 := roles, perms;
      roleIdsByName := map[];
      for i := 0 to |specs|
        invariant Valid() && SpecsDone(Summary(), org, specs, i) && SpecsKept(s0, Summary(), org, specs, i)
        invariant RecordedIds(roleIdsByName, Summary(), org, specs, i)
        invariant SpecsDone(s0, org, specs, |specs|) ==> SameButUpdates(roles0, roles) && perms == perms0
      {
        ghost var before := Summary();
        ghost var rolesBefore := roles;
        var id := UpsertSystemRole(org, specs[i], now);
        SummaryIdsDistinct();
        SpecStep(s0, before, Summary(), org, specs, i, id);
        RecordStep(roleIdsByName, before, Summary(), org, specs, i, id);
        roleIdsByName := roleIdsByName[specs[i].name := id];
        if SpecsDone(s0, org, specs, |specs|) {
          SameContents(roles0, rolesBefore);
          NothingToSet(s0, before, org, specs, i, id);
        }
      }
    }

    /** One legacy role, if it is live, hands over to its target and is deleted. */
    method ReplaceLegacyRole(org: string, name: string, target: nat, now: real)
      requires Valid()
      requires RoleKey(org, name) in Contents(roles) ==> Contents(roles)[RoleKey(org, name)].id != target
      modifies this`roles, this`perms, this`assigns
      ensures Valid()
      ensures RoleKey(org, name) !in old(Contents(roles)) ==>
        roles == old(roles) && perms == old(perms) && assigns == old(assigns)
      ensures RoleKey(org, name) in old(Contents(roles)) ==>
        RoleReplaced(old(Summary()), Summary(), org, old(Contents(roles))[RoleKey(org, name)].id, target)
    {
      var found := Find(roles, RoleKey(org, name));
      LookedUp(roles, RoleKey(org, name));
      if found.Some? && roles[found.value].deletedAt.None? && roles[found.value].value.id != target {
        var legacy := roles[found.value].value.id;
        MigrateAssignments(org, legacy, target, now);
        SoftDeleteRole(legacy, now);
      }
    }

    /** How the second loop stands after the first `i` legacy roles. */
    ghost predicate Replacing(t1: Tables, before: Rows, org: string, renames: seq<Rename>, i: nat)
      reads this
      requires i <= |renames|
    {
      && Valid() && HandedOn(t1, Summary(), org, renames, i)
      && (NoLegacy(t1, org, renames) ==> Rows(roles, perms, assigns) == before)
    }

    /** The second loop's body: one more legacy role. */
    method ReplaceNextLegacyRole(ghost t1: Tables, ghost before: Rows, org: string, specs: seq<RoleSpec>,
                                 renames: seq<Rename>,
                                 i: nat, roleIdsByName: map<string, nat>, now: real)
      requires PlanOk(specs, renames) && i < |renames| && IdsDistinct(t1.roles)
      requires SpecsDone(t1, org, specs, |specs|) && RecordedIds(roleIdsByName, t1, org, specs, |specs|)
      requires Replacing(t1, before, org, renames, i)
      modifies this`roles, this`perms, this`assigns
      ensures Replacing(t1, before, org, renames, i + 1)
    {
      ghost var t := Summary();
      LegacyLookup(t1, t, org, specs, renames, i);
      TargetIsRecorded(t1, org, specs, renames, roleIdsByName, i);
      ReplaceLegacyRole(org, renames[i].legacy, roleIdsByName[renames[i].target], now);
      HandedOnStep(t1, t, Summary(), org, specs, renames, i);
    }

    /** The second loop: the live legacy roles hand over and are deleted. */
    method ReplaceLegacyRoles(org: string, specs: seq<RoleSpec>, renames: seq<Rename>, roleIdsByName: map<string,
                              nat>, now: real)
      requires Valid() && PlanOk(specs, renames)
      requires SpecsDone(Summary(), org, specs, |specs|) && RecordedIds(roleIdsByName, Summary(), org, specs, |specs|)
      modifies this`roles, this`perms, this`assigns
      ensures Valid()
      ensures LegacyGone(old(Summary()), Summary(), org, renames, |renames|)
      ensures
        var moves := Moves(old(Summary()).roles, old(Summary()).roles, org, renames, |renames|);
        Contents(assigns) == MoveAll(old(Summary()).grants, org, moves)
      ensures NoLegacy(old(Summary()), org, renames) ==>
        roles == old(roles) && perms == old(perms) && assigns == old(assigns)
    {
      ghost var t1, before := Summary(), Rows(roles, perms, assigns);
      SummaryIdsDistinct();
      for i := 0 to |renames|
        invariant Replacing(t1, before, org, renames, i)
      {
        ReplaceNextLegacyRole(t1, before, org, specs, renames, i, roleIdsByName, now);
      }
    }

    /** One organization: the system roles first, then the legacy roles. */
    method UpgradeOrg(org: string, specs: seq<RoleSpec>, renames: seq<Rename>, now: real)
      requires Valid() && PlanOk(specs, renames)
      modifies this
      ensures Valid()
      ensures OrgUpgraded(old(Summary()), Summary(), org, specs, renames)
      ensures IdsDistinct(old(Summary()).roles) && IdsDistinct(Summary().roles)
      ensures Settled(old(Summary()), org, specs, renames) ==>
        SameButUpdates(old(roles), roles) && perms == old(perms) && assigns == old(assigns)
    {
      ghost var s0 := Summary();
      SummaryIdsDistinct();
      var roleIdsByName := SetUpRoles(org, specs, now);
      ghost var s1 := Summary();
      SummaryIdsDistinct();
      ReplaceLegacyRoles(org, specs, renames, roleIdsByName, now);
      SummaryIdsDistinct();
      UpgradeResult(s0, s1, Summary(), org, specs, renames);
    }

    /** How the migration stands after the first `n` organizations: the trail of tables
        so far, and nothing but update times written if all were settled at the start. */
    ghost predicate Progress(trail: seq<Tables>, before: Rows, orgIds: seq<string>, n: nat, specs: seq<RoleSpec>,
                             renames: seq<Rename>)
      reads this
      requires n <= |orgIds|
    {
      && Valid() && IsTrail(trail, orgIds[..n], specs, renames) && trail[n] == Summary()
      && (AllSettled(trail[0], orgIds, specs, renames) ==>
            trail[n] == trail[0] && SameButUpdates(before.roles, roles) && perms == before.perms
                && assigns == before.assigns)
    }

    /** The loop's body: one more organization. */
    method UpgradeNext(ghost trail: seq<Tables>, ghost before: Rows, orgIds: seq<string>, i: nat,
                       specs: seq<RoleSpec>, renames: seq<Rename>, now: real)
      returns (ghost longer: seq<Tables>)
      requires i < |orgIds| && Progress(trail, before, orgIds, i, specs, renames) && PlanOk(specs, renames)
      modifies this
      ensures longer == trail + [Summary()] && Progress(longer, before, orgIds, i + 1, specs, renames)
    {
      ghost var roles1 := roles;
      UpgradeOrg(orgIds[i], specs, renames, now);
      TrailSnoc(trail, Summary(), orgIds, i, specs, renames);
      longer := trail + [Summary()];
      if AllSettled(trail[0], orgIds, specs, renames) {
        SameTwice(before.roles, roles1, roles);
      }
    }

    /** The whole migration: the live organizations one after the other, each at its own
        instant. */
    method Upgrade(orgIds: seq<string>, now: seq<real>, specs: seq<RoleSpec>, renames: seq<Rename>)
      requires Valid() && PlanOk(specs, renames)
      requires |now| == |orgIds| && forall i, j :: 0 <= i < j < |orgIds| ==> orgIds[i] != orgIds[j]
      modifies this
      ensures Valid()
      ensures Upgraded(old(Summary()), Summary(), orgIds, specs, renames) && IdsDistinct(old(Summary()).roles)
      ensures AllSettled(old(Summary()), orgIds, specs, renames) ==>
        SameButUpdates(old(roles), roles) && perms == old(perms) && assigns == old(assigns)
    {
      ghost var s0, before, trail := Summary(), Rows(roles, perms, assigns), [Summary()];
      SummaryIdsDistinct();
      for i := 0 to |orgIds|
        invariant |trail| == i + 1 && trail[0] == s0 && Progress(trail, before, orgIds, i, specs, renames)
      {
        trail := UpgradeNext(trail, before, orgIds, i, specs, renames, now[i]);
      }
      assert orgIds[..|orgIds|] == orgIds;
      TrailUpgrades(trail, orgIds, specs, renames);
    }

    /** What the three tables say. */
    ghost function Summary(): Tables
      reads this
    {
      Tables(Contents(roles), Contents(perms).Keys, Contents(assigns))
    }

    lemma SummaryIdsDistinct()
      requires Valid()
      ensures IdsDistinct(Contents(roles))
    {
      forall a, b | a in Contents(roles) && b in Contents(roles) && a != b
        ensures Contents(roles)[a].id != Contents(roles)[b].id
      {
        ContentsKeys(roles, a);
        ContentsKeys(roles, b);
        var i :| 0 <= i < |roles| && roles[i].key == a && Live(roles[i]);
        var j :| 0 <= j < |roles| && roles[j].key == b && Live(roles[j]);
        ContentsAt(roles, i);
        ContentsAt(roles, j);
      }
    }
  }

  // ---- what the loops add up to ----

  lemma AbsentFromContents<K, V>(t: seq<Row<K, V>>, key: K)
    requires forall i :: 0 <= i < |t| ==> t[i].key != key
    ensures key !in Contents(t)
  {
    ContentsKeys(t, key);
  }

  lemma InContents<K, V>(t: seq<Row<K, V>>, key: K)
    requires Unique(t)
    ensures key in Contents(t) <==> exists i :: 0 <= i < |t| && t[i].key == key && Live(t[i])
  {
    ContentsKeys(t, key);
    forall i | 0 <= i < |t| && t[i].key == key && Live(t[i])
      ensures key in Contents(t)
    {
      ContentsAt(t, i);
    }
  }

  /** What looking a role up by name tells. */
  lemma LookedUp(t: Roles, key: RoleKey)
    requires Unique(t)
    ensures
      var found := Find(t, key);
      && (key in Contents(t) <==> found.Some? && Live(t[found.value]))
      && (key in Contents(t) ==> Contents(t)[key] == t[found.value].value)
  {
    match Find(t, key)
    case None => AbsentFromContents(t, key);
    case Some(i) => ContentsAt(t, i);
  }

  ghost predicate FirstPass(existing: Perms, perms: Perms, n: nat, role: nat, wanted: set<PermKey>, now: real) {
    && |perms| == |existing| && n <= |existing|
    && (forall j :: 0 <= j < n ==> perms[j] == SyncedRow(existing[j], role, wanted, now))
    && (forall j :: n <= j < |perms| ==> perms[j] == existing[j])
  }

  /** The existing rows are synchronized and the wanted keys in `done` have a row. */
  ghost predicate SecondPass(existing: Perms, perms: Perms, done: set<PermKey>, role: nat, wanted: set<PermKey>,
                             now: real) {
    && Unique(perms) && |perms| >= |existing|
    && (forall j :: 0 <= j < |existing| ==> perms[j] == SyncedRow(existing[j], role, wanted, now))
    && (forall j :: |existing| <= j < |perms| ==>
         Live(perms[j]) && perms[j].updatedAt == now && perms[j].key in done && Find(existing, perms[j].key).None?)
    && (forall k :: k in done && Find(existing, k).None? ==> HasRow(perms, |existing|, k))
  }

  /** No row goes, and every row that is new or changed says when. */
  ghost predicate Stamped(before: Perms, after: Perms, now: real) {
    && |before| <= |after|
    && (forall j :: 0 <= j < |after| && (j < |before| ==> after[j] != before[j]) ==> after[j].updatedAt == now)
  }

  ghost predicate HasRow(perms: Perms, from: nat, key: PermKey) {
    exists j :: from <= j < |perms| && perms[j].key == key
  }

  lemma FirstPassDone(existing: Perms, perms: Perms, role: nat, wanted: set<PermKey>, now: real)
    requires Unique(existing) && FirstPass(existing, perms, |existing|, role, wanted, now)
    ensures SecondPass(existing, perms, {}, role, wanted, now)
  {
    assert forall j :: 0 <= j < |existing| ==> perms[j].key == existing[j].key;
  }

  lemma SecondPassStep(existing: Perms, perms: Perms, done: set<PermKey>, key: PermKey, role: nat,
                       wanted: set<PermKey>, now: real)
    requires SecondPass(existing, perms, done, role, wanted, now) && key !in done
    ensures
      var perms' := if Find(existing, key).None? then perms + [Row(key, (), None, now)] else perms;
      SecondPass(existing, perms', done + {key}, role, wanted, now)
  {
    if Find(existing, key).None? {
      var perms' := perms + [Row(key, (), None, now)];
      forall j | 0 <= j < |perms|
        ensures perms[j].key != key
      {
        assert j < |existing| ==> perms[j].key == existing[j].key;
      }
      assert perms'[|perms|].key == key;
      forall k | k in done + {key} && Find(existing, k).None?
        ensures HasRow(perms', |existing|, k)
      {
        if k != key {
          assert HasRow(perms, |existing|, k);
          var j :| |existing| <= j < |perms| && perms[j].key == k;
          assert perms'[j].key == k;
        }
      }
    }
  }

  lemma SyncResult(existing: Perms, perms: Perms, role: nat, wanted: set<PermKey>, now: real)
    requires Unique(existing) && SecondPass(existing, perms, wanted, role, wanted, now)
    requires forall k :: k in wanted ==> k.role == role
    ensures Contents(perms).Keys == SyncedKeys(Contents(existing).Keys, role, wanted)
    ensures Contents(perms).Keys == Contents(existing).Keys ==> perms == existing
  {
    forall k
      ensures k in Contents(perms) <==> k in SyncedKeys(Contents(existing).Keys, role, wanted)
    {
      SyncKey(existing, perms, role, wanted, now, k);
    }
    if Contents(perms).Keys == Contents(existing).Keys {
      forall j | 0 <= j < |existing|
        ensures perms[j] == existing[j]
      {
        ContentsAt(existing, j);
        ContentsAt(perms, j);
      }
      if |perms| > |existing| {
        ContentsAt(perms, |existing|);
        AbsentFromContents(existing, perms[|existing|].key);
      }
    }
  }

  lemma SyncKey(existing: Perms, perms: Perms, role: nat, wanted: set<PermKey>, now: real, k: PermKey)
    requires Unique(existing) && SecondPass(existing, perms, wanted, role, wanted, now)
    requires forall k :: k in wanted ==> k.role == role
    ensures k in Contents(perms) <==> (k in Contents(existing) && k.role != role) || k in wanted
  {
    InContents(existing, k);
    InContents(perms, k);
    var found := Find(existing, k);
    if found.Some? {
      assert perms[found.value].key == k;
      assert forall j :: 0 <= j < |perms| && perms[j].key == k ==> j == found.value;
    } else if k in wanted {
      assert HasRow(perms, |existing|, k);
    }
  }

  /** What the first `n` assignment rows hand over. */
  ghost function Received(rows: Assigns, org: string, from: nat, to: nat): map<AssignKey, Grant> {
    if rows == [] then map[]
    else
      var n := |rows| - 1;
      var before := Received(rows[..n], org, from, to);
      if Live(rows[n]) && rows[n].key.org == org && rows[n].key.role == from
      then before[AssignKey(rows[n].key.user, to, org) := rows[n].value]
      else before
  }

  lemma {:induction false} ReceivedKeys(rows: Assigns, org: string, from: nat, to: nat, k: AssignKey)
    ensures k in Received(rows, org, from, to) ==>
      k.role == to && k.org == org
        && exists i :: 0 <= i < |rows| && rows[i].key == AssignKey(k.user, from, org) && Live(rows[i])
  {
    if rows != [] {
      var n := |rows| - 1;
      ReceivedKeys(rows[..n], org, from, to, k);
      if k in Received(rows[..n], org, from, to) {
        var i :| 0 <= i < n && rows[..n][i].key == AssignKey(k.user, from, org) && Live(rows[..n][i]);
        assert rows[i].key == AssignKey(k.user, from, org) && Live(rows[i]);
      } else if k in Received(rows, org, from, to) {
        assert rows[n].key == AssignKey(k.user, from, org);
      }
    }
  }

  /** The live rows of the role in the organization, among the first `n`. */
  ghost function Retired(rows: Assigns, n: nat, org: string, role: nat): set<AssignKey>
    requires n <= |rows|
  {
    set i | 0 <= i < n && Live(rows[i]) && rows[i].key.org == org && rows[i].key.role == role :: rows[i].key
  }

  lemma RetiredStep(rows: Assigns, n: nat, org: string, role: nat)
    requires n < |rows|
    ensures Retired(rows, n + 1, org, role) == Retired(rows, n, org, role)
      + if Live(rows[n]) && rows[n].key.org == org && rows[n].key.role == role then {rows[n].key} else {}
  {
  }

  /** One user's assignment handed to the target role. */
  function HandedOver(rows: Assigns, target: AssignKey, grant: Grant, now: real): Assigns {
    match Find(rows, target)
    case None => rows + [Row(target, grant, None, now)]
    case Some(i) => if Live(rows[i]) then rows else rows[i := Row(target, grant, None, now)]
  }

  /** Rows of the legacy role are untouched and new rows belong to the target role. */
  ghost predicate Handing(existing: Assigns, rows: Assigns, from: nat, to: nat) {
    && Unique(rows) && |rows| >= |existing|
    && (forall j :: 0 <= j < |existing| && existing[j].key.role == from ==> rows[j] == existing[j])
    && (forall j :: 0 <= j < |existing| ==> rows[j].key == existing[j].key)
    && (forall j :: |existing| <= j < |rows| ==> rows[j].key.role == to)
  }

  lemma HandedOverFacts(existing: Assigns, rows: Assigns, from: nat, target: AssignKey, grant: Grant, now: real)
    requires Handing(existing, rows, from, target.role) && from != target.role
    ensures Handing(existing, HandedOver(rows, target, grant, now), from, target.role)
    ensures Contents(HandedOver(rows, target, grant, now))
         == if target in Contents(rows) then Contents(rows) else Contents(rows)[target := grant]
  {
    match Find(rows, target)
    case None =>
      AbsentFromContents(rows, target);
      ContentsAppend(rows, Row(target, grant, None, now));
    case Some(i) =>
      ContentsAt(rows, i);
      if !Live(rows[i]) {
        ContentsUpdate(rows, i, Row(target, grant, None, now));
      }
  }

  lemma {:induction false} ReceivedAt(rows: Assigns, org: string, from: nat, to: nat, i: nat)
    requires Unique(rows) && i < |rows| && Live(rows[i]) && rows[i].key.org == org && rows[i].key.role == from
    ensures
      var k := AssignKey(rows[i].key.user, to, org);
      k in Received(rows, org, from, to) && Received(rows, org, from, to)[k] == rows[i].value
  {
    var n := |rows| - 1;
    if i < n {
      ReceivedAt(rows[..n], org, from, to, i);
      assert rows[i].key != rows[n].key;
    }
  }

  /** Handing over row `i` adds it to what has been received. */
  lemma HandOverStep(existing: Assigns, rows: Assigns, i: nat, org: string, from: nat, to: nat, now: real)
    requires Unique(existing) && i < |existing| && Handing(existing, rows, from, to) && from != to
    requires Live(existing[i]) && existing[i].key.org == org && existing[i].key.role == from
    requires Contents(rows) == Received(existing[..i], org, from, to) + Contents(existing)
    ensures
      var rows' := HandedOver(rows, AssignKey(existing[i].key.user, to, org), existing[i].value, now);
      && Handing(existing, rows', from, to)
      && Contents(rows') == Received(existing[..i + 1], org, from, to) + Contents(existing)
  {
    assert existing[..i + 1][..i] == existing[..i];
    var target := AssignKey(existing[i].key.user, to, org);
    HandedOverFacts(existing, rows, from, target, existing[i].value, now);
    ReceivedKeys(existing[..i], org, from, to, target);
  }

  lemma ReceivedIsRenamed(rows: Assigns, org: string, from: nat, to: nat)
    requires Unique(rows)
    ensures Received(rows, org, from, to) == Renamed(Contents(rows), org, from, to)
  {
    forall k
      ensures k in Renamed(Contents(rows), org, from, to) <==> k in Received(rows, org, from, to)
      ensures k in Received(rows, org, from, to) ==>
        Received(rows, org, from, to)[k] == Renamed(Contents(rows), org, from, to)[k]
    {
      ReceivedKey(rows, org, from, to, k);
    }
  }

  lemma ReceivedKey(rows: Assigns, org: string, from: nat, to: nat, k: AssignKey)
    requires Unique(rows)
    ensures k in Renamed(Contents(rows), org, from, to) <==> k in Received(rows, org, from, to)
    ensures k in Received(rows, org, from, to) ==>
      Received(rows, org, from, to)[k] == Renamed(Contents(rows), org, from, to)[k]
  {
    var legacy := AssignKey(k.user, from, org);
    RenamedAt(Contents(rows), org, from, to, k);
    ReceivedKeys(rows, org, from, to, k);
    InContents(rows, legacy);
    if legacy in Contents(rows) && k.role == to && k.org == org {
      var i :| 0 <= i < |rows| && rows[i].key == legacy && Live(rows[i]);
      ReceivedAt(rows, org, from, to, i);
      ContentsAt(rows, i);
    }
  }

  lemma MoveResult(existing: Assigns, all: Assigns, org: string, from: nat, to: nat)
    requires Unique(existing) && Handing(existing, all, from, to) && from != to
    ensures (Received(existing, org, from, to) + Contents(existing)) - Retired(all, |all|, org, from)
         == Moved(Contents(existing), org, from, to)
  {
    var g := Contents(existing);
    ReceivedIsRenamed(existing, org, from, to);
    forall k
      ensures k in Retired(all, |all|, org, from) <==> k in g && k.org == org && k.role == from
    {
      InContents(existing, k);
      if k in g && k.org == org && k.role == from {
        var i :| 0 <= i < |existing| && existing[i].key == k && Live(existing[i]);
        assert all[i].key == k && Live(all[i]);
      }
    }
    assert Retired(all, |all|, org, from) == set k | k in g && k.org == org && k.role == from;
  }

  lemma RetiredKeys(before: Perms, after: Perms, id: nat)
    requires Unique(before) && Unique(after) && |before| == |after|
    requires forall j :: 0 <= j < |after| ==> after[j].key == before[j].key
    requires forall j :: 0 <= j < |after| ==> (Live(after[j]) <==> Live(before[j]) && before[j].key.role != id)
    ensures Contents(after).Keys == set k | k in Contents(before) && k.role != id
  {
    forall k
      ensures k in Contents(after) <==> k in Contents(before) && k.role != id
    {
      InContents(before, k);
      InContents(after, k);
    }
  }

  lemma RetiredRoles(before: Roles, after: Roles, id: nat)
    requires Unique(before) && Unique(after) && |before| == |after|
    requires forall j :: 0 <= j < |after| ==> after[j].key == before[j].key && after[j].value == before[j].value
    requires forall j :: 0 <= j < |after| ==> (Live(after[j]) <==> Live(before[j]) && before[j].value.id != id)
    ensures Contents(after) == map k | k in Contents(before) && Contents(before)[k].id != id :: Contents(before)[k]
  {
    var kept := map k | k in Contents(before) && Contents(before)[k].id != id :: Contents(before)[k];
    forall k
      ensures k in Contents(after) <==> k in kept
      ensures k in kept ==> Contents(after)[k] == kept[k]
    {
      InContents(before, k);
      InContents(after, k);
      if i: nat :| i < |before| && before[i].key == k && Live(before[i]) {
        ContentsAt(before, i);
        ContentsAt(after, i);
      }
    }
  }
}
