/** What migration 010 does to the three role tables, told by their live contents: which
    roles exist, which permissions they carry and who is assigned to them. */
module RoleTables {
  import opened Wrappers

  datatype RoleKey = RoleKey(org: string, name: string)
  datatype RoleInfo = RoleInfo(id: nat, description: string, isDefault: bool)
  datatype PermKey = PermKey(role: nat, action: string, resource: string)
  datatype AssignKey = AssignKey(user: string, role: nat, org: string)
  datatype Grant = Grant(assignedBy: Option<string>, assignedAt: Option<real>, expiresAt: Option<real>)

  datatype RoleSpec = RoleSpec(name: string, description: string, permissions: seq<(string, string)>)
  datatype Rename = Rename(legacy: string, target: string)

  function UpperChar(c: char): char {
    if 'a' <= c <= 'z' then ((c as int) - 32) as char else c
  }

  function Upper(s: string): string {
    seq(|s|, i requires 0 <= i < |s| => UpperChar(s[i]))
  }

  /** The permission rows a role should have: its pairs, in upper case. */
  function Wanted(role: nat, permissions: seq<(string, string)>): set<PermKey> {
    set p | p in permissions :: PermKey(role, Upper(p.0), Upper(p.1))
  }

  lemma WantedPairs(role: nat, permissions: seq<(string, string)>, k: PermKey)
    ensures k in Wanted(role, permissions) <==>
      && k.role == role
      && exists action, resource ::
           (action, resource) in permissions && k.action == Upper(action) && k.resource == Upper(resource)
  {
    if k in Wanted(role, permissions) {
      var p :| p in permissions && k == PermKey(role, Upper(p.0), Upper(p.1));
      assert (p.0, p.1) in permissions;
    }
    if action, resource :| (action, resource) in permissions && k == PermKey(role, Upper(action), Upper(resource)) {
      var p := (action, resource);
      assert p in permissions && k == PermKey(role, Upper(p.0), Upper(p.1));
    }
  }

  ghost function SyncedKeys(keys: set<PermKey>, role: nat, wanted: set<PermKey>): set<PermKey> {
    (set k | k in keys && k.role != role) + wanted
  }

  /** Synchronizing leaves other roles' permissions and gives the role its pairs. */
  lemma SyncedPairs(keys: set<PermKey>, role: nat, permissions: seq<(string, string)>)
    ensures forall k :: k in SyncedKeys(keys, role, Wanted(role, permissions)) <==>
      if k.role == role
      then exists action, resource ::
             (action, resource) in permissions && k.action == Upper(action) && k.resource == Upper(resource)
      else k in keys
  {
    forall k
      ensures k in Wanted(role, permissions) <==>
        && k.role == role
        && exists action, resource ::
             (action, resource) in permissions && k.action == Upper(action) && k.resource == Upper(resource)
    {
      WantedPairs(role, permissions, k);
    }
  }

  /** Assignments of `from` in the organization handed to `to`; one already held under
      `to` stays as it is. */
  ghost function Moved(g: map<AssignKey, Grant>, org: string, from: nat, to: nat): map<AssignKey, Grant> {
    (Renamed(g, org, from, to) + g) - (set k | k in g && k.org == org && k.role == from)
  }

  ghost function Renamed(g: map<AssignKey, Grant>, org: string, from: nat, to: nat): map<AssignKey, Grant> {
    map k | k in g && k.org == org && k.role == from :: AssignKey(k.user, to, org) := g[k]
  }

  lemma RenamedAt(g: map<AssignKey, Grant>, org: string, from: nat, to: nat, k: AssignKey)
    ensures k in Renamed(g, org, from, to) <==> k.role == to && k.org == org && AssignKey(k.user, from, org) in g
    ensures k in Renamed(g, org, from, to) ==> Renamed(g, org, from, to)[k] == g[AssignKey(k.user, from, org)]
  {
    var legacy := AssignKey(k.user, from, org);
    if legacy in g && k.role == to && k.org == org {
      assert k == AssignKey(legacy.user, to, org);
    }
  }

  // ---- one organization ----

  datatype Tables = Tables(roles: map<RoleKey, RoleInfo>, perms: set<PermKey>, grants: map<AssignKey, Grant>)

  ghost predicate IdsDistinct(roles: map<RoleKey, RoleInfo>) {
    forall a, b :: a in roles && b in roles && a != b ==> roles[a].id != roles[b].id
  }

  ghost predicate IsSpecName(specs: seq<RoleSpec>, n: nat, name: string)
    requires n <= |specs|
  {
    exists i :: 0 <= i < n && specs[i].name == name
  }

  ghost predicate IsLegacyName(renames: seq<Rename>, n: nat, name: string)
    requires n <= |renames|
  {
    exists i :: 0 <= i < n && renames[i].legacy == name
  }

  ghost predicate DistinctNames(specs: seq<RoleSpec>) {
    forall i, j :: 0 <= i < j < |specs| ==> specs[i].name != specs[j].name
  }

  ghost predicate PlanOk(specs: seq<RoleSpec>, renames: seq<Rename>) {
    && DistinctNames(specs)
    && (forall i, j :: 0 <= i < j < |renames| ==> renames[i].legacy != renames[j].legacy)
    && (forall i :: 0 <= i < |renames| ==>
         IsSpecName(specs, |specs|, renames[i].target) && !IsSpecName(specs, |specs|, renames[i].legacy))
  }

  ghost function PermsOf(perms: set<PermKey>, role: nat): set<PermKey> {
    set k | k in perms && k.role == role
  }

  /** The system role is live, as specified, with exactly its permissions. */
  ghost predicate HasSpec(t: Tables, org: string, spec: RoleSpec) {
    var key := RoleKey(org, spec.name);
    && key in t.roles
    && t.roles[key].description == spec.description && t.roles[key].isDefault
    && PermsOf(t.perms, t.roles[key].id) == Wanted(t.roles[key].id, spec.permissions)
  }

  ghost predicate SpecsDone(t: Tables, org: string, specs: seq<RoleSpec>, n: nat)
    requires n <= |specs|
  {
    forall i :: 0 <= i < n ==> HasSpec(t, org, specs[i])
  }

  /** The table of identifiers the first loop builds. */
  ghost predicate RecordedIds(ids: map<string, nat>, t: Tables, org: string, specs: seq<RoleSpec>, n: nat)
    requires n <= |specs| && SpecsDone(t, org, specs, n)
  {
    forall i :: 0 <= i < n ==>
      HasSpec(t, org, specs[i]) && specs[i].name in ids && ids[specs[i].name] == t.roles[RoleKey(org, specs[i].name)].id
  }

  ghost predicate IsSpecId(t: Tables, org: string, specs: seq<RoleSpec>, n: nat, id: nat)
    requires n <= |specs|
  {
    exists i :: 0 <= i < n && RoleKey(org, specs[i].name) in t.roles && t.roles[RoleKey(org, specs[i].name)].id == id
  }

  ghost predicate SameRole(a: Tables, b: Tables, key: RoleKey) {
    (key in a.roles <==> key in b.roles) && (key in a.roles ==> a.roles[key] == b.roles[key])
  }

  /** Setting up system roles touches those roles and their permissions only. */
  ghost predicate SpecsKept(t0: Tables, t: Tables, org: string, specs: seq<RoleSpec>, n: nat)
    requires n <= |specs|
  {
    && (forall key: RoleKey :: !(key.org == org && IsSpecName(specs, n, key.name)) ==> SameRole(t0, t, key))
    && (forall p: PermKey :: !IsSpecId(t, org, specs, n, p.role) ==> (p in t.perms <==> p in t0.perms))
  }

  lemma SyncLeavesOthers(perms: set<PermKey>, role: nat, permissions: seq<(string, string)>, other: nat)
    requires other != role
    ensures PermsOf(SyncedKeys(perms, role, Wanted(role, permissions)), other) == PermsOf(perms, other)
  {
  }

  lemma SyncSetsRole(perms: set<PermKey>, role: nat, permissions: seq<(string, string)>)
    ensures PermsOf(SyncedKeys(perms, role, Wanted(role, permissions)), role) == Wanted(role, permissions)
  {
  }

  lemma SpecStep(t0: Tables, t: Tables, t': Tables, org: string, specs: seq<RoleSpec>, n: nat, id: nat)
    requires n < |specs| && DistinctNames(specs)
    requires SpecsDone(t, org, specs, n) && SpecsKept(t0, t, org, specs, n)
    requires t'.roles == t.roles[RoleKey(org, specs[n].name) := RoleInfo(id, specs[n].description, true)]
    requires t'.perms == SyncedKeys(t.perms, id, Wanted(id, specs[n].permissions))
    requires IdsDistinct(t'.roles)
    ensures SpecsDone(t', org, specs, n + 1) && SpecsKept(t0, t', org, specs, n + 1)
  {
    var key := RoleKey(org, specs[n].name);
    forall i | 0 <= i < n
      ensures HasSpec(t', org, specs[i])
    {
      var k := RoleKey(org, specs[i].name);
      assert HasSpec(t, org, specs[i]) && k != key && t'.roles[k] == t.roles[k];
      assert k in t'.roles && key in t'.roles && t'.roles[key].id == id;
      SyncLeavesOthers(t.perms, id, specs[n].permissions, t.roles[k].id);
    }
    SyncSetsRole(t.perms, id, specs[n].permissions);
    forall k: RoleKey | !(k.org == org && IsSpecName(specs, n + 1, k.name))
      ensures SameRole(t0, t', k)
    {
      assert specs[n].name == k.name ==> IsSpecName(specs, n + 1, k.name);
      assert IsSpecName(specs, n, k.name) ==> IsSpecName(specs, n + 1, k.name);
      assert SameRole(t0, t, k);
    }
    forall p: PermKey | !IsSpecId(t', org, specs, n + 1, p.role)
      ensures p in t'.perms <==> p in t0.perms
    {
      assert t'.roles[key].id == id;
      assert p.role != id;
    }
  }

  /** Where the specification already holds, setting it again changes nothing. */
  lemma UpsertIsNoOp(t: Tables, org: string, spec: RoleSpec, id: nat)
    requires HasSpec(t, org, spec) && id == t.roles[RoleKey(org, spec.name)].id
    ensures t.roles[RoleKey(org, spec.name) := RoleInfo(id, spec.description, true)] == t.roles
    ensures SyncedKeys(t.perms, id, Wanted(id, spec.permissions)) == t.perms
  {
    forall k
      ensures k in SyncedKeys(t.perms, id, Wanted(id, spec.permissions)) <==> k in t.perms
    {
      assert k in PermsOf(t.perms, id) <==> k in t.perms && k.role == id;
      assert k in Wanted(id, spec.permissions) <==> k in PermsOf(t.perms, id);
    }
  }

  lemma NothingToSet(t0: Tables, t: Tables, org: string, specs: seq<RoleSpec>, i: nat, id: nat)
    requires i < |specs| && SpecsDone(t0, org, specs, |specs|) && t.roles == t0.roles && t.perms == t0.perms
    requires RoleKey(org, specs[i].name) in t.roles ==> id == t.roles[RoleKey(org, specs[i].name)].id
    ensures t.roles[RoleKey(org, specs[i].name) := RoleInfo(id, specs[i].description, true)] == t.roles
    ensures SyncedKeys(t.perms, id, Wanted(id, specs[i].permissions)) == t.perms
  {
    assert HasSpec(t0, org, specs[i]);
    UpsertIsNoOp(t, org, specs[i], id);
  }

  lemma RecordStep(ids: map<string, nat>, t: Tables, t': Tables, org: string, specs: seq<RoleSpec>, i: nat, id: nat)
    requires i < |specs| && DistinctNames(specs) && SpecsDone(t, org, specs, i) && SpecsDone(t', org, specs, i + 1)
    requires RecordedIds(ids, t, org, specs, i)
    requires t'.roles == t.roles[RoleKey(org, specs[i].name) := RoleInfo(id, specs[i].description, true)]
    ensures RecordedIds(ids[specs[i].name := id], t', org, specs, i + 1)
  {
    forall j | 0 <= j <= i
      ensures
        && HasSpec(t', org, specs[j]) && specs[j].name in ids[specs[i].name := id]
        && ids[specs[i].name := id][specs[j].name] == t'.roles[RoleKey(org, specs[j].name)].id
    {
      assert HasSpec(t', org, specs[j]);
      if j < i {
        assert HasSpec(t, org, specs[j]) && specs[j].name != specs[i].name;
      }
    }
  }

  // ---- the legacy roles ----

  datatype Move = Move(from: nat, to: nat)

  /** The hand-overs of the first `n` renames: the legacy roles that were live before,
      each to the role that bears the target name after. */
  ghost function Moves(before: map<RoleKey, RoleInfo>, after: map<RoleKey, RoleInfo>, org: string,
                       renames: seq<Rename>, n: nat): seq<Move>
    requires n <= |renames|
  {
    if n == 0 then []
    else
      var earlier := Moves(before, after, org, renames, n - 1);
      var legacy, target := RoleKey(org, renames[n - 1].legacy), RoleKey(org, renames[n - 1].target);
      if legacy in before && target in after then earlier + [Move(before[legacy].id, after[target].id)] else earlier
  }

  ghost function MoveAll(g: map<AssignKey, Grant>, org: string, moves: seq<Move>): map<AssignKey, Grant> {
    if moves == [] then g
    else
      var n := |moves| - 1;
      Moved(MoveAll(g, org, moves[..n]), org, moves[n].from, moves[n].to)
  }

  ghost predicate MovesOk(moves: seq<Move>) {
    && (forall i, j :: 0 <= i < j < |moves| ==> moves[i].from != moves[j].from)
    && (forall i, j :: 0 <= i < |moves| && 0 <= j < |moves| ==> moves[i].to != moves[j].from)
  }

  /** A permission of one of the first `n` legacy roles. */
  ghost predicate IsLegacyId(t: Tables, org: string, renames: seq<Rename>, n: nat, id: nat)
    requires n <= |renames|
  {
    exists i :: 0 <= i < n && RoleKey(org, renames[i].legacy) in t.roles
        && t.roles[RoleKey(org, renames[i].legacy)].id == id
  }

  ghost predicate LegacyGone(t1: Tables, t: Tables, org: string, renames: seq<Rename>, n: nat)
    requires n <= |renames|
  {
    && (forall key: RoleKey ::
          key in t.roles <==> key in t1.roles && !(key.org == org && IsLegacyName(renames, n, key.name)))
    && (forall key: RoleKey :: key in t.roles ==> t.roles[key] == t1.roles[key])
    && (forall p: PermKey :: p in t.perms <==> p in t1.perms && !IsLegacyId(t1, org, renames, n, p.role))
  }

  lemma TargetIsNamed(specs: seq<RoleSpec>, renames: seq<Rename>, i: nat)
    requires PlanOk(specs, renames) && i < |renames|
    ensures exists j :: 0 <= j < |specs| && specs[j].name == renames[i].target
  {
    assert IsSpecName(specs, |specs|, renames[i].target);
  }

  lemma TargetIsRecorded(t: Tables, org: string, specs: seq<RoleSpec>, renames: seq<Rename>, ids: map<string, nat>,
                         i: nat)
    requires PlanOk(specs, renames) && i < |renames|
    requires SpecsDone(t, org, specs, |specs|) && RecordedIds(ids, t, org, specs, |specs|)
    ensures RoleKey(org, renames[i].target) in t.roles && renames[i].target in ids
    ensures ids[renames[i].target] == t.roles[RoleKey(org, renames[i].target)].id
  {
    TargetIsNamed(specs, renames, i);
    var j :| 0 <= j < |specs| && specs[j].name == renames[i].target;
    assert HasSpec(t, org, specs[j]);
  }

  /** The next legacy role is still as it was, and is not its own target. */
  lemma LegacyLookup(t1: Tables, t: Tables, org: string, specs: seq<RoleSpec>, renames: seq<Rename>, i: nat)
    requires PlanOk(specs, renames) && i < |renames| && LegacyGone(t1, t, org, renames, i)
    requires SpecsDone(t1, org, specs, |specs|) && IdsDistinct(t1.roles)
    ensures
      var legacy, target := RoleKey(org, renames[i].legacy), RoleKey(org, renames[i].target);
      && SameRole(t1, t, legacy)
      && target in t1.roles
      && (legacy in t1.roles ==> t1.roles[legacy].id != t1.roles[target].id)
  {
    var legacy, target := RoleKey(org, renames[i].legacy), RoleKey(org, renames[i].target);
    TargetIsNamed(specs, renames, i);
    var j :| 0 <= j < |specs| && specs[j].name == renames[i].target;
    assert HasSpec(t1, org, specs[j]);
    assert legacy != target;
    assert !IsLegacyName(renames, i, renames[i].legacy);
  }

  /** The role and its permissions are gone and its assignments moved. */
  ghost predicate RoleReplaced(t: Tables, t': Tables, org: string, id: nat, target: nat) {
    && t'.roles == (map k | k in t.roles && t.roles[k].id != id :: t.roles[k])
    && t'.perms == (set k | k in t.perms && k.role != id)
    && t'.grants == Moved(t.grants, org, id, target)
  }

  lemma LegacyStep(t1: Tables, t: Tables, t': Tables, org: string, renames: seq<Rename>, i: nat, target: nat)
    requires i < |renames| && LegacyGone(t1, t, org, renames, i) && IdsDistinct(t1.roles)
    requires RoleKey(org, renames[i].legacy) in t.roles
    requires RoleReplaced(t, t', org, t.roles[RoleKey(org, renames[i].legacy)].id, target)
    ensures LegacyGone(t1, t', org, renames, i + 1)
  {
    var legacy := RoleKey(org, renames[i].legacy);
    var id := t.roles[legacy].id;
    forall key: RoleKey
      ensures key in t'.roles <==> key in t1.roles && !(key.org == org && IsLegacyName(renames, i + 1, key.name))
    {
      assert key in t1.roles && key != legacy ==> t1.roles[key].id != id;
      assert IsLegacyName(renames, i + 1, key.name)
             <==> IsLegacyName(renames, i, key.name) || renames[i].legacy == key.name;
    }
    forall p: PermKey
      ensures p in t'.perms <==> p in t1.perms && !IsLegacyId(t1, org, renames, i + 1, p.role)
    {
      assert IsLegacyId(t1, org, renames, i + 1, p.role) <==> IsLegacyId(t1, org, renames, i, p.role) || p.role == id;
    }
  }

  lemma LegacyAbsentStep(t1: Tables, t: Tables, org: string, renames: seq<Rename>, i: nat)
    requires i < |renames| && LegacyGone(t1, t, org, renames, i)
    requires RoleKey(org, renames[i].legacy) !in t.roles && SameRole(t1, t, RoleKey(org, renames[i].legacy))
    ensures LegacyGone(t1, t, org, renames, i + 1)
  {
    forall key: RoleKey
      ensures key in t.roles <==> key in t1.roles && !(key.org == org && IsLegacyName(renames, i + 1, key.name))
    {
      assert IsLegacyName(renames, i + 1, key.name)
             <==> IsLegacyName(renames, i, key.name) || renames[i].legacy == key.name;
    }
    forall p: PermKey
      ensures IsLegacyId(t1, org, renames, i + 1, p.role) <==> IsLegacyId(t1, org, renames, i, p.role)
    {
    }
  }

  ghost predicate NoLegacy(t: Tables, org: string, renames: seq<Rename>) {
    forall i :: 0 <= i < |renames| ==> RoleKey(org, renames[i].legacy) !in t.roles
  }

  /** Nothing is left to do for the organization. */
  ghost predicate Settled(t: Tables, org: string, specs: seq<RoleSpec>, renames: seq<Rename>) {
    SpecsDone(t, org, specs, |specs|) && NoLegacy(t, org, renames)
  }

  ghost predicate LegacyPermsGone(t0: Tables, t: Tables, org: string, renames: seq<Rename>) {
    forall p: PermKey :: p in t.perms ==> !IsLegacyId(t0, org, renames, |renames|, p.role)
  }

  ghost predicate OrgUpgraded(t0: Tables, t: Tables, org: string, specs: seq<RoleSpec>, renames: seq<Rename>) {
    && Settled(t, org, specs, renames)
    && (forall key: RoleKey ::
         !(key.org == org && (IsSpecName(specs, |specs|, key.name) || IsLegacyName(renames, |renames|, key.name)))
         ==> SameRole(t0, t, key))
    && (forall p: PermKey ::
         !IsSpecId(t, org, specs, |specs|, p.role) && !IsLegacyId(t0, org, renames, |renames|, p.role)
         ==> (p in t.perms <==> p in t0.perms))
    && LegacyPermsGone(t0, t, org, renames)
    && t.grants == MoveAll(t0.grants, org, Moves(t0.roles, t.roles, org, renames, |renames|))
    && MovesOk(Moves(t0.roles, t.roles, org, renames, |renames|))
  }

  /** Only the organization's own legacy and target entries decide the moves. */
  lemma {:induction false} MovesCongruent(a: map<RoleKey, RoleInfo>, a': map<RoleKey, RoleInfo>,
                                         b: map<RoleKey, RoleInfo>, b': map<RoleKey, RoleInfo>,
                                         org: string, renames: seq<Rename>, n: nat)
    requires n <= |renames|
    requires forall i :: 0 <= i < n ==>
      var k := RoleKey(org, renames[i].legacy);
      (k in a <==> k in a') && (k in a ==> a[k] == a'[k])
    requires forall i :: 0 <= i < n ==>
      var k := RoleKey(org, renames[i].target);
      (k in b <==> k in b') && (k in b ==> b[k] == b'[k])
    ensures Moves(a, b, org, renames, n) == Moves(a', b', org, renames, n)
  {
    if n > 0 {
      MovesCongruent(a, a', b, b', org, renames, n - 1);
    }
  }

  lemma {:induction false} MovesAreOk(r: map<RoleKey, RoleInfo>, org: string, specs: seq<RoleSpec>,
                                      renames: seq<Rename>, n: nat)
    requires IdsDistinct(r) && PlanOk(specs, renames) && n <= |renames|
    ensures MovesOk(Moves(r, r, org, renames, n))
    ensures forall m :: m in Moves(r, r, org, renames, n) ==> ComesFrom(m, r, org, renames, n)
  {
    if n > 0 {
      MovesAreOk(r, org, specs, renames, n - 1);
      var moves, earlier := Moves(r, r, org, renames, n), Moves(r, r, org, renames, n - 1);
      forall m | m in moves
        ensures ComesFrom(m, r, org, renames, n)
      {
        if m in earlier {
          assert ComesFrom(m, r, org, renames, n - 1);
        }
      }
      forall i, j | 0 <= i < |moves| && 0 <= j < |moves|
        ensures moves[i].to != moves[j].from
        ensures i != j ==> moves[i].from != moves[j].from
      {
        assert moves[i] in moves && moves[j] in moves;
        assert i != j && i < |earlier| && j < |earlier| ==> earlier[i].from != earlier[j].from;
        SourcesDiffer(r, org, specs, renames, n, moves[i], moves[j]);
        if i != j && (i == |earlier| || j == |earlier|) {
          var e := if i == |earlier| then j else i;
          assert moves[e] in earlier;
          assert ComesFrom(moves[e], r, org, renames, n - 1);
          LastSourceDiffers(r, org, specs, renames, n, moves[e]);
        }
      }
    }
  }

  ghost predicate ComesFrom(m: Move, r: map<RoleKey, RoleInfo>, org: string, renames: seq<Rename>, n: nat)
    requires n <= |renames|
  {
    exists i :: 0 <= i < n
      && RoleKey(org, renames[i].legacy) in r && r[RoleKey(org, renames[i].legacy)].id == m.from
      && RoleKey(org, renames[i].target) in r && r[RoleKey(org, renames[i].target)].id == m.to
  }

  lemma SourcesDiffer(r: map<RoleKey, RoleInfo>, org: string, specs: seq<RoleSpec>, renames: seq<Rename>, n: nat,
                      a: Move, b: Move)
    requires IdsDistinct(r) && PlanOk(specs, renames) && n <= |renames|
    requires ComesFrom(a, r, org, renames, n) && ComesFrom(b, r, org, renames, n)
    ensures a.to != b.from
  {
    var i :| 0 <= i < n
      && RoleKey(org, renames[i].legacy) in r && r[RoleKey(org, renames[i].legacy)].id == a.from
      && RoleKey(org, renames[i].target) in r && r[RoleKey(org, renames[i].target)].id == a.to;
    var j :| 0 <= j < n
      && RoleKey(org, renames[j].legacy) in r && r[RoleKey(org, renames[j].legacy)].id == b.from
      && RoleKey(org, renames[j].target) in r && r[RoleKey(org, renames[j].target)].id == b.to;
    assert IsSpecName(specs, |specs|, renames[i].target) && !IsSpecName(specs, |specs|, renames[j].legacy);
    assert RoleKey(org, renames[i].target) != RoleKey(org, renames[j].legacy);
  }

  lemma LastSourceDiffers(r: map<RoleKey, RoleInfo>, org: string, specs: seq<RoleSpec>, renames: seq<Rename>, n: nat,
                          a: Move)
    requires IdsDistinct(r) && PlanOk(specs, renames) && 0 < n <= |renames|
    requires ComesFrom(a, r, org, renames, n - 1)
    ensures RoleKey(org, renames[n - 1].legacy) in r ==> a.from != r[RoleKey(org, renames[n - 1].legacy)].id
  {
    var i :| 0 <= i < n - 1
      && RoleKey(org, renames[i].legacy) in r && r[RoleKey(org, renames[i].legacy)].id == a.from
      && RoleKey(org, renames[i].target) in r && r[RoleKey(org, renames[i].target)].id == a.to;
    assert RoleKey(org, renames[i].legacy) != RoleKey(org, renames[n - 1].legacy);
  }

  /** The legacy roles of the second loop are those of the start, and its targets those
      of the end. */
  lemma SameMoves(t0: Tables, t1: Tables, t: Tables, org: string, specs: seq<RoleSpec>, renames: seq<Rename>)
    requires PlanOk(specs, renames)
    requires SpecsKept(t0, t1, org, specs, |specs|) && LegacyGone(t1, t, org, renames, |renames|)
    ensures Moves(t0.roles, t.roles, org, renames, |renames|) == Moves(t1.roles, t1.roles, org, renames, |renames|)
    ensures NoLegacy(t, org, renames)
    ensures forall i :: 0 <= i < |renames| ==> SameRole(t0, t1, RoleKey(org, renames[i].legacy))
  {
    forall i | 0 <= i < |renames|
      ensures SameRole(t0, t1, RoleKey(org, renames[i].legacy))
      ensures RoleKey(org, renames[i].legacy) !in t.roles
      ensures SameRole(t1, t, RoleKey(org, renames[i].target))
    {
      assert !IsSpecName(specs, |specs|, renames[i].legacy) && IsSpecName(specs, |specs|, renames[i].target);
      assert IsLegacyName(renames, |renames|, renames[i].legacy);
      SpecIsNotLegacy(specs, renames, renames[i].target);
    }
    MovesCongruent(t0.roles, t1.roles, t.roles, t1.roles, org, renames, |renames|);
  }

  lemma OtherPermsKept(t0: Tables, t1: Tables, t: Tables, org: string, specs: seq<RoleSpec>, renames: seq<Rename>,
                       p: PermKey)
    requires SpecsDone(t, org, specs, |specs|) && SpecsKept(t0, t1, org, specs, |specs|)
    requires LegacyGone(t1, t, org, renames, |renames|)
    requires forall i :: 0 <= i < |renames| ==> SameRole(t0, t1, RoleKey(org, renames[i].legacy))
    requires !IsSpecId(t, org, specs, |specs|, p.role) && !IsLegacyId(t0, org, renames, |renames|, p.role)
    ensures p in t.perms <==> p in t0.perms
  {
    assert !IsLegacyId(t1, org, renames, |renames|, p.role);
    assert !IsSpecId(t1, org, specs, |specs|, p.role) by {
      forall i | 0 <= i < |specs| && RoleKey(org, specs[i].name) in t1.roles
        ensures t1.roles[RoleKey(org, specs[i].name)].id != p.role
      {
        assert HasSpec(t, org, specs[i]);
      }
    }
  }

  lemma LegacyPermsAreGone(t0: Tables, t1: Tables, t: Tables, org: string, renames: seq<Rename>)
    requires LegacyGone(t1, t, org, renames, |renames|)
    requires forall i :: 0 <= i < |renames| ==> SameRole(t0, t1, RoleKey(org, renames[i].legacy))
    ensures LegacyPermsGone(t0, t, org, renames)
  {
    forall p: PermKey | p in t.perms
      ensures !IsLegacyId(t0, org, renames, |renames|, p.role)
    {
      assert !IsLegacyId(t1, org, renames, |renames|, p.role);
    }
  }

  lemma UpgradeResult(t0: Tables, t1: Tables, t: Tables, org: string, specs: seq<RoleSpec>, renames: seq<Rename>)
    requires PlanOk(specs, renames) && IdsDistinct(t1.roles)
    requires SpecsDone(t1, org, specs, |specs|) && SpecsKept(t0, t1, org, specs, |specs|)
    requires LegacyGone(t1, t, org, renames, |renames|)
    requires t.grants == MoveAll(t0.grants, org, Moves(t1.roles, t1.roles, org, renames, |renames|))
    ensures OrgUpgraded(t0, t, org, specs, renames)
    ensures Settled(t0, org, specs, renames) ==> NoLegacy(t1, org, renames)
  {
    MovesAreOk(t1.roles, org, specs, renames, |renames|);
    SameMoves(t0, t1, t, org, specs, renames);
    LegacyPermsAreGone(t0, t1, t, org, renames);
    forall i | 0 <= i < |specs|
      ensures HasSpec(t, org, specs[i])
    {
      SpecSurvives(t1, t, org, specs, renames, i);
    }
    forall p: PermKey
      | !IsSpecId(t, org, specs, |specs|, p.role) && !IsLegacyId(t0, org, renames, |renames|, p.role)
      ensures p in t.perms <==> p in t0.perms
    {
      OtherPermsKept(t0, t1, t, org, specs, renames, p);
    }
  }

  lemma SpecIsNotLegacy(specs: seq<RoleSpec>, renames: seq<Rename>, name: string)
    requires PlanOk(specs, renames) && IsSpecName(specs, |specs|, name)
    ensures !IsLegacyName(renames, |renames|, name)
  {
  }

  lemma SpecSurvives(t1: Tables, t: Tables, org: string, specs: seq<RoleSpec>, renames: seq<Rename>, i: nat)
    requires PlanOk(specs, renames) && IdsDistinct(t1.roles) && i < |specs|
    requires HasSpec(t1, org, specs[i]) && LegacyGone(t1, t, org, renames, |renames|)
    ensures HasSpec(t, org, specs[i])
    ensures t.roles[RoleKey(org, specs[i].name)] == t1.roles[RoleKey(org, specs[i].name)]
  {
    var key := RoleKey(org, specs[i].name);
    assert IsSpecName(specs, |specs|, specs[i].name);
    SpecIsNotLegacy(specs, renames, specs[i].name);
    var id := t1.roles[key].id;
    assert !IsLegacyId(t1, org, renames, |renames|, id) by {
      forall j | 0 <= j < |renames| && RoleKey(org, renames[j].legacy) in t1.roles
        ensures t1.roles[RoleKey(org, renames[j].legacy)].id != id
      {
        assert renames[j].legacy != specs[i].name;
      }
    }
    assert PermsOf(t.perms, id) == PermsOf(t1.perms, id);
  }

  lemma MovesStep(g: map<AssignKey, Grant>, r: map<RoleKey, RoleInfo>, org: string, renames: seq<Rename>, n: nat)
    requires n < |renames| && RoleKey(org, renames[n].target) in r
    ensures
      var legacy, target := RoleKey(org, renames[n].legacy), RoleKey(org, renames[n].target);
      var earlier := MoveAll(g, org, Moves(r, r, org, renames, n));
      MoveAll(g, org, Moves(r, r, org, renames, n + 1))
        == if legacy in r then Moved(earlier, org, r[legacy].id, r[target].id) else earlier
  {
    var moves := Moves(r, r, org, renames, n + 1);
    if RoleKey(org, renames[n].legacy) in r {
      assert moves[..|moves| - 1] == Moves(r, r, org, renames, n);
    }
  }

  /** The first `i` legacy roles have handed over and are gone. */
  ghost predicate HandedOn(t1: Tables, t: Tables, org: string, renames: seq<Rename>, i: nat)
    requires i <= |renames|
  {
    LegacyGone(t1, t, org, renames, i)
        && t.grants == MoveAll(t1.grants, org, Moves(t1.roles, t1.roles, org, renames, i))
  }

  lemma HandedOnStep(t1: Tables, t: Tables, t': Tables, org: string, specs: seq<RoleSpec>, renames: seq<Rename>, i: nat)
    requires PlanOk(specs, renames) && i < |renames| && HandedOn(t1, t, org, renames, i)
    requires SpecsDone(t1, org, specs, |specs|) && IdsDistinct(t1.roles)
    requires
      var legacy, target := RoleKey(org, renames[i].legacy), RoleKey(org, renames[i].target);
      && target in t1.roles
      && if legacy in t.roles then RoleReplaced(t, t', org, t.roles[legacy].id, t1.roles[target].id) else t' == t
    ensures HandedOn(t1, t', org, renames, i + 1)
  {
    LegacyLookup(t1, t, org, specs, renames, i);
    MovesStep(t1.grants, t1.roles, org, renames, i);
    if RoleKey(org, renames[i].legacy) in t.roles {
      LegacyStep(t1, t, t', org, renames, i, t1.roles[RoleKey(org, renames[i].target)].id);
    } else {
      LegacyAbsentStep(t1, t, org, renames, i);
    }
  }

  // ---- what becomes of one assignment ----

  /** The role that stands for `role` after the moves. */
  ghost function Redirect(role: nat, moves: seq<Move>): nat {
    if moves == [] then role
    else
      var n := |moves| - 1;
      if moves[n].from == role then moves[n].to else Redirect(role, moves[..n])
  }

  ghost function Redirected(k: AssignKey, org: string, moves: seq<Move>): AssignKey {
    if k.org == org then k.(role := Redirect(k.role, moves)) else k
  }

  lemma {:induction false} RedirectFixed(role: nat, moves: seq<Move>)
    requires forall i :: 0 <= i < |moves| ==> moves[i].from != role
    ensures Redirect(role, moves) == role
  {
    if moves != [] {
      RedirectFixed(role, moves[..|moves| - 1]);
    }
  }

  lemma {:induction false} RedirectAvoids(role: nat, moves: seq<Move>, from: nat)
    requires role != from && forall i :: 0 <= i < |moves| ==> moves[i].to != from
    ensures Redirect(role, moves) != from
  {
    if moves != [] {
      RedirectAvoids(role, moves[..|moves| - 1], from);
    }
  }

  /** One more move: the earlier result, handed over if it lands on the source. */
  lemma RedirectStep(k: AssignKey, org: string, moves: seq<Move>)
    requires MovesOk(moves) && moves != []
    ensures
      var n := |moves| - 1;
      var k1 := Redirected(k, org, moves[..n]);
      Redirected(k, org, moves) == if k1.org == org && k1.role == moves[n].from then k1.(role := moves[n].to) else k1
  {
    var n := |moves| - 1;
    if k.org == org {
      if k.role == moves[n].from {
        RedirectFixed(k.role, moves[..n]);
      } else {
        RedirectAvoids(k.role, moves[..n], moves[n].from);
      }
    }
  }

  /** An assignment held after the moves continues one held before: its own, when there
      was one. */
  ghost predicate Continues(g: map<AssignKey, Grant>, org: string, moves: seq<Move>, k: AssignKey, grant: Grant,
                            k0: AssignKey) {
    k0 in g && Redirected(k0, org, moves) == k && g[k0] == grant && (k in g ==> k0 == k)
  }

  lemma MovedAt(g: map<AssignKey, Grant>, org: string, from: nat, to: nat, k: AssignKey)
    requires from != to
    ensures k in Moved(g, org, from, to) <==>
      (k in g && !(k.org == org && k.role == from))
          || (k.role == to && k.org == org && AssignKey(k.user, from, org) in g)
    ensures k in Moved(g, org, from, to) ==>
      Moved(g, org, from, to)[k] == if k in g then g[k] else g[AssignKey(k.user, from, org)]
  {
    RenamedAt(g, org, from, to, k);
  }

  lemma GrantMoves(g: map<AssignKey, Grant>, org: string, from: nat, to: nat, k: AssignKey)
    requires from != to && k in g
    ensures (if k.org == org && k.role == from then k.(role := to) else k) in Moved(g, org, from, to)
  {
    MovedAt(g, org, from, to, if k.org == org && k.role == from then k.(role := to) else k);
  }

  lemma {:induction false} EveryGrantMoves(g: map<AssignKey, Grant>, org: string, moves: seq<Move>, k: AssignKey)
    requires MovesOk(moves) && k in g
    ensures Redirected(k, org, moves) in MoveAll(g, org, moves)
  {
    if moves != [] {
      var n := |moves| - 1;
      EveryGrantMoves(g, org, moves[..n], k);
      RedirectStep(k, org, moves);
      assert moves[n].from != moves[n].to;
      GrantMoves(MoveAll(g, org, moves[..n]), org, moves[n].from, moves[n].to, Redirected(k, org, moves[..n]));
    }
  }

  lemma {:induction false} EveryGrantContinues(g: map<AssignKey, Grant>, org: string, moves: seq<Move>, k: AssignKey)
    returns (k0: AssignKey)
    requires MovesOk(moves) && k in MoveAll(g, org, moves)
    ensures Continues(g, org, moves, k, MoveAll(g, org, moves)[k], k0)
  {
    if moves == [] {
      k0 := k;
    } else {
      var n := |moves| - 1;
      var h := MoveAll(g, org, moves[..n]);
      assert moves[n].from != moves[n].to;
      MovedAt(h, org, moves[n].from, moves[n].to, k);
      var k1 := if k in h then k else AssignKey(k.user, moves[n].from, org);
      k0 := EveryGrantContinues(g, org, moves[..n], k1);
      RedirectStep(k0, org, moves);
      if k in g {
        RedirectStep(k, org, moves);
        StaysHeld(g, org, moves, k);
      }
    }
  }

  /** An assignment held before and after was held throughout. */
  lemma StaysHeld(g: map<AssignKey, Grant>, org: string, moves: seq<Move>, k: AssignKey)
    requires MovesOk(moves) && moves != [] && k in g && k in MoveAll(g, org, moves)
    ensures k in MoveAll(g, org, moves[..|moves| - 1])
  {
    var n := |moves| - 1;
    if k.org == org && exists i :: 0 <= i < n && moves[i].from == k.role {
      var i :| 0 <= i < n && moves[i].from == k.role;
      SourceEmptied(g, org, moves, i, k);
    } else {
      StaysUnlessSource(g, org, moves[..n], k);
    }
  }

  lemma StaysUnlessSource(g: map<AssignKey, Grant>, org: string, moves: seq<Move>, k: AssignKey)
    requires MovesOk(moves) && k in g
    requires k.org != org || forall i :: 0 <= i < |moves| ==> moves[i].from != k.role
    ensures k in MoveAll(g, org, moves)
  {
    EveryGrantMoves(g, org, moves, k);
    if k.org == org {
      RedirectFixed(k.role, moves);
    }
  }

  lemma {:induction false} SourceEmptied(g: map<AssignKey, Grant>, org: string, moves: seq<Move>, i: nat, k: AssignKey)
    requires MovesOk(moves) && i < |moves| && k.org == org && k.role == moves[i].from
    ensures k !in MoveAll(g, org, moves)
  {
    var n := |moves| - 1;
    assert moves[n].from != moves[n].to && moves[n].to != k.role;
    MovedAt(MoveAll(g, org, moves[..n]), org, moves[n].from, moves[n].to, k);
    if i < n {
      SourceEmptied(g, org, moves[..n], i, k);
    }
  }

  // ---- every organization ----

  ghost predicate AllSettled(t: Tables, orgs: seq<string>, specs: seq<RoleSpec>, renames: seq<Rename>) {
    forall i :: 0 <= i < |orgs| ==> Settled(t, orgs[i], specs, renames)
  }

  /** An assignment under the name its role has after the migration. */
  ghost function NewKey(k: AssignKey, t0: Tables, t: Tables, orgs: seq<string>, renames: seq<Rename>): AssignKey {
    if k.org in orgs then Redirected(k, k.org, Moves(t0.roles, t.roles, k.org, renames, |renames|)) else k
  }

  ghost predicate ContinuesGrant(t0: Tables, t: Tables, orgs: seq<string>, renames: seq<Rename>, k: AssignKey,
                                 k0: AssignKey) {
    && k in t.grants && k0 in t0.grants
    && NewKey(k0, t0, t, orgs, renames) == k
    && t.grants[k] == t0.grants[k0]
    && (k in t0.grants ==> k0 == k)
  }

  /** The assignments are the prior ones, renamed. */
  ghost predicate GrantsRenamed(t0: Tables, t: Tables, orgs: seq<string>, renames: seq<Rename>) {
    && (forall k :: k in t0.grants ==> NewKey(k, t0, t, orgs, renames) in t.grants)
    && (forall k :: k in t.grants ==> exists k0 :: ContinuesGrant(t0, t, orgs, renames, k, k0))
  }

  /** A role the migration may give or take permissions of. */
  ghost predicate Concerned(t0: Tables, t: Tables, orgs: seq<string>, specs: seq<RoleSpec>, renames: seq<Rename>,
                            id: nat) {
    exists i :: 0 <= i < |orgs| && ConcernedIn(t0, t, orgs[i], specs, renames, id)
  }

  ghost predicate ConcernedIn(t0: Tables, t: Tables, org: string, specs: seq<RoleSpec>, renames: seq<Rename>, id: nat) {
    IsSpecId(t, org, specs, |specs|, id) || IsLegacyId(t0, org, renames, |renames|, id)
  }

  ghost predicate RolesKept(t0: Tables, t: Tables, orgs: seq<string>, specs: seq<RoleSpec>, renames: seq<Rename>) {
    forall key: RoleKey ::
      !(key.org in orgs && (IsSpecName(specs, |specs|, key.name) || IsLegacyName(renames, |renames|, key.name)))
      ==> SameRole(t0, t, key)
  }

  ghost predicate PermsKept(t0: Tables, t: Tables, orgs: seq<string>, specs: seq<RoleSpec>, renames: seq<Rename>) {
    forall p: PermKey :: !Concerned(t0, t, orgs, specs, renames, p.role) ==> (p in t.perms <==> p in t0.perms)
  }

  ghost predicate HandOversOk(t0: Tables, t: Tables, orgs: seq<string>, renames: seq<Rename>) {
    forall i :: 0 <= i < |orgs| ==> MovesOk(Moves(t0.roles, t.roles, orgs[i], renames, |renames|))
  }

  /** The outcome: every organization has its system roles as specified and no legacy
      role, other roles and permissions are as before, assignments are renamed. */
  ghost predicate Upgraded(t0: Tables, t: Tables, orgs: seq<string>, specs: seq<RoleSpec>, renames: seq<Rename>) {
    && AllSettled(t, orgs, specs, renames)
    && RolesKept(t0, t, orgs, specs, renames)
    && PermsKept(t0, t, orgs, specs, renames)
    && GrantsRenamed(t0, t, orgs, renames)
    && HandOversOk(t0, t, orgs, renames)
  }

  lemma NothingUpgraded(t: Tables, specs: seq<RoleSpec>, renames: seq<Rename>)
    ensures Upgraded(t, t, [], specs, renames)
  {
    forall k | k in t.grants
      ensures exists k0 :: ContinuesGrant(t, t, [], renames, k, k0)
    {
      assert ContinuesGrant(t, t, [], renames, k, k);
    }
  }

  /** Another organization's outcome is not undone. */
  lemma SettledSurvives(t: Tables, t': Tables, org: string, other: string, specs: seq<RoleSpec>, renames: seq<Rename>)
    requires OrgUpgraded(t, t', org, specs, renames) && other != org && Settled(t, other, specs, renames)
    requires IdsDistinct(t.roles) && IdsDistinct(t'.roles)
    ensures Settled(t', other, specs, renames)
  {
    forall i | 0 <= i < |specs|
      ensures HasSpec(t', other, specs[i])
    {
      var key := RoleKey(other, specs[i].name);
      assert HasSpec(t, other, specs[i]) && SameRole(t, t', key);
      var id := t.roles[key].id;
      assert !IsSpecId(t', org, specs, |specs|, id) && !IsLegacyId(t, org, renames, |renames|, id);
      assert PermsOf(t'.perms, id) == PermsOf(t.perms, id);
    }
    forall i | 0 <= i < |renames|
      ensures RoleKey(other, renames[i].legacy) !in t'.roles
    {
      assert SameRole(t, t', RoleKey(other, renames[i].legacy));
    }
  }

  lemma PermsKeptStep(t0: Tables, t: Tables, t': Tables, orgs: seq<string>, org: string, specs: seq<RoleSpec>,
                      renames: seq<Rename>)
    requires RolesKept(t0, t, orgs, specs, renames) && PermsKept(t0, t, orgs, specs, renames)
    requires org !in orgs && OrgUpgraded(t, t', org, specs, renames)
    ensures PermsKept(t0, t', orgs + [org], specs, renames)
  {
    forall p: PermKey | !Concerned(t0, t', orgs + [org], specs, renames, p.role)
      ensures p in t'.perms <==> p in t0.perms
    {
      assert (orgs + [org])[|orgs|] == org;
      assert !ConcernedIn(t0, t', org, specs, renames, p.role);
      assert forall i :: 0 <= i < |renames| ==> SameRole(t0, t, RoleKey(org, renames[i].legacy));
      assert !IsLegacyId(t, org, renames, |renames|, p.role);
      forall i | 0 <= i < |orgs|
        ensures !ConcernedIn(t0, t, orgs[i], specs, renames, p.role)
      {
        assert (orgs + [org])[i] == orgs[i];
        assert !ConcernedIn(t0, t', orgs[i], specs, renames, p.role);
        assert forall j :: 0 <= j < |specs| ==> SameRole(t, t', RoleKey(orgs[i], specs[j].name));
      }
    }
  }

  lemma NewKeyStep(t0: Tables, t: Tables, t': Tables, orgs: seq<string>, org: string, specs: seq<RoleSpec>,
                   renames: seq<Rename>, k: AssignKey)
    requires RolesKept(t0, t, orgs, specs, renames) && org !in orgs && OrgUpgraded(t, t', org, specs, renames)
    ensures NewKey(k, t0, t', orgs + [org], renames)
         == Redirected(NewKey(k, t0, t, orgs, renames), org, Moves(t.roles, t'.roles, org, renames, |renames|))
  {
    if k.org == org {
      assert forall i :: 0 <= i < |renames| ==> SameRole(t0, t, RoleKey(org, renames[i].legacy));
      MovesCongruent(t0.roles, t.roles, t'.roles, t'.roles, org, renames, |renames|);
    } else {
      assert forall i :: 0 <= i < |renames| ==> SameRole(t, t', RoleKey(k.org, renames[i].target));
      MovesCongruent(t0.roles, t0.roles, t.roles, t'.roles, k.org, renames, |renames|);
    }
  }

  lemma GrantsStep(t0: Tables, t: Tables, t': Tables, orgs: seq<string>, org: string, specs: seq<RoleSpec>,
                   renames: seq<Rename>)
    requires RolesKept(t0, t, orgs, specs, renames) && GrantsRenamed(t0, t, orgs, renames)
    requires org !in orgs && OrgUpgraded(t, t', org, specs, renames)
    ensures GrantsRenamed(t0, t', orgs + [org], renames)
  {
    var moves := Moves(t.roles, t'.roles, org, renames, |renames|);
    forall k | k in t0.grants
      ensures NewKey(k, t0, t', orgs + [org], renames) in t'.grants
    {
      NewKeyStep(t0, t, t', orgs, org, specs, renames, k);
      EveryGrantMoves(t.grants, org, moves, NewKey(k, t0, t, orgs, renames));
    }
    forall k | k in t'.grants
      ensures exists k0 :: ContinuesGrant(t0, t', orgs + [org], renames, k, k0)
    {
      var k1 := EveryGrantContinues(t.grants, org, moves, k);
      var k0 :| ContinuesGrant(t0, t, orgs, renames, k1, k0);
      NewKeyStep(t0, t, t', orgs, org, specs, renames, k0);
      if k in t0.grants && k.org == org {
        assert NewKey(k, t0, t, orgs, renames) == k;
      }
      assert ContinuesGrant(t0, t', orgs + [org], renames, k, k0);
    }
  }

  lemma HandOversStep(t0: Tables, t: Tables, t': Tables, orgs: seq<string>, org: string, specs: seq<RoleSpec>,
                      renames: seq<Rename>)
    requires RolesKept(t0, t, orgs, specs, renames) && HandOversOk(t0, t, orgs, renames)
    requires org !in orgs && OrgUpgraded(t, t', org, specs, renames)
    ensures HandOversOk(t0, t', orgs + [org], renames)
  {
    forall i | 0 <= i < |orgs + [org]|
      ensures MovesOk(Moves(t0.roles, t'.roles, (orgs + [org])[i], renames, |renames|))
    {
      if i < |orgs| {
        assert forall j :: 0 <= j < |renames| ==> SameRole(t, t', RoleKey(orgs[i], renames[j].target));
        MovesCongruent(t0.roles, t0.roles, t.roles, t'.roles, orgs[i], renames, |renames|);
      } else {
        assert forall j :: 0 <= j < |renames| ==> SameRole(t0, t, RoleKey(org, renames[j].legacy));
        MovesCongruent(t0.roles, t.roles, t'.roles, t'.roles, org, renames, |renames|);
      }
    }
  }

  lemma UpgradedStep(t0: Tables, t: Tables, t': Tables, orgs: seq<string>, org: string, specs: seq<RoleSpec>,
                     renames: seq<Rename>)
    requires Upgraded(t0, t, orgs, specs, renames) && org !in orgs
    requires OrgUpgraded(t, t', org, specs, renames) && IdsDistinct(t.roles) && IdsDistinct(t'.roles)
    ensures Upgraded(t0, t', orgs + [org], specs, renames)
  {
    forall i | 0 <= i < |orgs + [org]|
      ensures Settled(t', (orgs + [org])[i], specs, renames)
    {
      if i < |orgs| {
        SettledSurvives(t, t', org, orgs[i], specs, renames);
      }
    }
    forall key: RoleKey
      | !(key.org in orgs + [org]
          && (IsSpecName(specs, |specs|, key.name) || IsLegacyName(renames, |renames|, key.name)))
      ensures SameRole(t0, t', key)
    {
      assert SameRole(t0, t, key) && SameRole(t, t', key);
    }
    PermsKeptStep(t0, t, t', orgs, org, specs, renames);
    GrantsStep(t0, t, t', orgs, org, specs, renames);
    HandOversStep(t0, t, t', orgs, org, specs, renames);
  }

  /** The tables before, between and after the organizations in turn. */
  ghost predicate IsTrail(ts: seq<Tables>, orgs: seq<string>, specs: seq<RoleSpec>, renames: seq<Rename>)
    decreases |orgs|
  {
    && |ts| == |orgs| + 1
    && (orgs != [] ==>
         var n := |orgs| - 1;
         && IsTrail(ts[..n + 1], orgs[..n], specs, renames)
         && OrgUpgraded(ts[n], ts[n + 1], orgs[n], specs, renames)
         && IdsDistinct(ts[n].roles) && IdsDistinct(ts[n + 1].roles))
  }

  lemma TrailSnoc(ts: seq<Tables>, t: Tables, orgs: seq<string>, n: nat, specs: seq<RoleSpec>, renames: seq<Rename>)
    requires n < |orgs| && IsTrail(ts, orgs[..n], specs, renames) && OrgUpgraded(ts[n], t, orgs[n], specs, renames)
    requires IdsDistinct(ts[n].roles) && IdsDistinct(t.roles)
    ensures IsTrail(ts + [t], orgs[..n + 1], specs, renames)
  {
    assert (ts + [t])[..|ts|] == ts && orgs[..n + 1][..n] == orgs[..n];
  }

  lemma UpgradedNext(t0: Tables, t: Tables, t': Tables, orgs: seq<string>, n: nat, specs: seq<RoleSpec>,
                     renames: seq<Rename>)
    requires |orgs| == n + 1 && orgs[n] !in orgs[..n]
    requires Upgraded(t0, t, orgs[..n], specs, renames) && OrgUpgraded(t, t', orgs[n], specs, renames)
    requires IdsDistinct(t.roles) && IdsDistinct(t'.roles)
    ensures Upgraded(t0, t', orgs, specs, renames)
  {
    UpgradedStep(t0, t, t', orgs[..n], orgs[n], specs, renames);
    assert orgs[..n] + [orgs[n]] == orgs;
  }

  /** Taking the organizations one after the other gives the whole outcome. */
  lemma {:induction false} TrailUpgrades(ts: seq<Tables>, orgs: seq<string>, specs: seq<RoleSpec>, renames: seq<Rename>)
    requires IsTrail(ts, orgs, specs, renames)
    requires forall i, j :: 0 <= i < j < |orgs| ==> orgs[i] != orgs[j]
    ensures Upgraded(ts[0], ts[|orgs|], orgs, specs, renames)
    decreases |orgs|
  {
    if orgs == [] {
      NothingUpgraded(ts[0], specs, renames);
    } else {
      var n := |orgs| - 1;
      TrailUpgrades(ts[..n + 1], orgs[..n], specs, renames);
      UpgradedNext(ts[0], ts[n], ts[n + 1], orgs, n, specs, renames);
    }
  }
}
