/** What migration 010 means for one role and for one user. */
module RoleOutcome {
  import opened RoleTables

  /** Letters lose their case as the alphabet pairs them, everything else stays. */
  lemma UpperLetterByLetter(s: string)
    ensures |Upper(s)| == |s|
    ensures forall i :: 0 <= i < |s| && 'a' <= s[i] <= 'z' ==>
      Upper(s)[i] as int - 'A' as int == s[i] as int - 'a' as int
    ensures forall i :: 0 <= i < |s| && !('a' <= s[i] <= 'z') ==> Upper(s)[i] == s[i]
  {
  }

  /** Afterwards a system role carries exactly the permissions its specification lists:
      the first of each pair is the action, the second the resource. */
  lemma RolesCarryTheirPermissions(t0: Tables, t: Tables, orgs: seq<string>, specs: seq<RoleSpec>,
                                   renames: seq<Rename>, org: string, spec: RoleSpec, k: PermKey)
    requires Upgraded(t0, t, orgs, specs, renames) && org in orgs && spec in specs
    ensures RoleKey(org, spec.name) in t.roles
    ensures k.role == t.roles[RoleKey(org, spec.name)].id ==>
      (k in t.perms <==>
       exists action, resource ::
         (action, resource) in spec.permissions && k.action == Upper(action) && k.resource == Upper(resource))
  {
    var o :| 0 <= o < |orgs| && orgs[o] == org;
    var i :| 0 <= i < |specs| && specs[i] == spec;
    assert Settled(t, orgs[o], specs, renames) && HasSpec(t, org, specs[i]);
    var id := t.roles[RoleKey(org, spec.name)].id;
    assert k in PermsOf(t.perms, id) <==> k in t.perms && k.role == id;
    WantedPairs(id, spec.permissions, k);
  }

  /** No legacy role is left, and the roles the migration does not
      speak of are as they were. */
  lemma OtherRolesAreKept(t0: Tables, t: Tables, orgs: seq<string>, specs: seq<RoleSpec>, renames: seq<Rename>,
                          key: RoleKey)
    requires Upgraded(t0, t, orgs, specs, renames) && PlanOk(specs, renames)
    ensures key.org in orgs && (exists i :: 0 <= i < |renames| && renames[i].legacy == key.name) ==> key !in t.roles
    ensures
      || (key.org in orgs && exists i :: 0 <= i < |specs| && specs[i].name == key.name)
      || (key.org in orgs && exists i :: 0 <= i < |renames| && renames[i].legacy == key.name)
      || ((key in t.roles <==> key in t0.roles) && (key in t.roles ==> t.roles[key] == t0.roles[key]))
  {
    if key.org in orgs {
      var o :| 0 <= o < |orgs| && orgs[o] == key.org;
      assert Settled(t, orgs[o], specs, renames);
    }
    assert IsSpecName(specs, |specs|, key.name) || IsLegacyName(renames, |renames|, key.name) || SameRole(t0, t, key);
    assert key.org in orgs || SameRole(t0, t, key);
  }

  /** Permissions change only of the specified and the legacy roles. */
  lemma OtherPermissionsAreKept(t0: Tables, t: Tables, orgs: seq<string>, specs: seq<RoleSpec>,
                                renames: seq<Rename>, k: PermKey)
    requires Upgraded(t0, t, orgs, specs, renames)
    requires forall org, spec :: org in orgs && spec in specs && RoleKey(org, spec.name) in t.roles ==>
               t.roles[RoleKey(org, spec.name)].id != k.role
    requires forall org, rename :: org in orgs && rename in renames && RoleKey(org, rename.legacy) in t0.roles ==>
               t0.roles[RoleKey(org, rename.legacy)].id != k.role
    ensures k in t.perms <==> k in t0.perms
  {
    forall o | 0 <= o < |orgs|
      ensures !ConcernedIn(t0, t, orgs[o], specs, renames, k.role)
    {
      assert orgs[o] in orgs;
      assert forall i :: 0 <= i < |specs| ==> specs[i] in specs;
      assert forall i :: 0 <= i < |renames| ==> renames[i] in renames;
    }
  }

  // ---- where an assignment goes ----

  lemma {:induction false} LegacyIsRedirected(t0: Tables, t: Tables, org: string, renames: seq<Rename>, n: nat, i: nat)
    requires i < n <= |renames| && IdsDistinct(t0.roles)
    requires forall a, b :: 0 <= a < b < |renames| ==> renames[a].legacy != renames[b].legacy
    requires forall j :: 0 <= j < n ==> RoleKey(org, renames[j].target) in t.roles
    requires RoleKey(org, renames[i].legacy) in t0.roles
    ensures Redirect(t0.roles[RoleKey(org, renames[i].legacy)].id, Moves(t0.roles, t.roles, org, renames, n))
         == t.roles[RoleKey(org, renames[i].target)].id
  {
    var earlier := Moves(t0.roles, t.roles, org, renames, n - 1);
    assert Moves(t0.roles, t.roles, org, renames, n) != earlier ==>
      Moves(t0.roles, t.roles, org, renames, n)[..|earlier|] == earlier;
    if i < n - 1 {
      assert RoleKey(org, renames[i].legacy) != RoleKey(org, renames[n - 1].legacy);
      LegacyIsRedirected(t0, t, org, renames, n - 1, i);
    }
  }

  lemma {:induction false} OtherIsNotRedirected(t0: Tables, t: Tables, org: string, renames: seq<Rename>, n: nat,
                                                role: nat)
    requires n <= |renames| && !IsLegacyId(t0, org, renames, n, role)
    ensures Redirect(role, Moves(t0.roles, t.roles, org, renames, n)) == role
  {
    if n > 0 {
      var earlier := Moves(t0.roles, t.roles, org, renames, n - 1);
      assert Moves(t0.roles, t.roles, org, renames, n) != earlier ==>
        Moves(t0.roles, t.roles, org, renames, n)[..|earlier|] == earlier;
      OtherIsNotRedirected(t0, t, org, renames, n - 1, role);
    }
  }

  lemma {:induction false} LegacyIsMoved(t0: Tables, t: Tables, org: string, renames: seq<Rename>, n: nat, i: nat)
    requires i < n <= |renames| && RoleKey(org, renames[i].legacy) in t0.roles
    requires RoleKey(org, renames[i].target) in t.roles
    ensures Move(t0.roles[RoleKey(org, renames[i].legacy)].id, t.roles[RoleKey(org, renames[i].target)].id)
         in Moves(t0.roles, t.roles, org, renames, n)
  {
    if i < n - 1 {
      LegacyIsMoved(t0, t, org, renames, n - 1, i);
    }
  }

  lemma TargetsAreThere(t0: Tables, t: Tables, orgs: seq<string>, specs: seq<RoleSpec>, renames: seq<Rename>,
                        org: string, i: nat)
    requires Upgraded(t0, t, orgs, specs, renames) && PlanOk(specs, renames) && org in orgs && i < |renames|
    ensures RoleKey(org, renames[i].target) in t.roles
  {
    TargetIsNamed(specs, renames, i);
    var j :| 0 <= j < |specs| && specs[j].name == renames[i].target;
    var o :| 0 <= o < |orgs| && orgs[o] == org;
    assert Settled(t, orgs[o], specs, renames) && HasSpec(t, org, specs[j]);
  }

  /** Who held a legacy role holds the role that replaces it, and the legacy role no more. */
  lemma LegacyHoldersAreHandedOver(t0: Tables, t: Tables, orgs: seq<string>, specs: seq<RoleSpec>,
                                   renames: seq<Rename>, k: AssignKey, i: nat)
    requires Upgraded(t0, t, orgs, specs, renames) && PlanOk(specs, renames) && IdsDistinct(t0.roles)
    requires k in t0.grants && k.org in orgs && i < |renames|
    requires RoleKey(k.org, renames[i].legacy) in t0.roles && t0.roles[RoleKey(k.org, renames[i].legacy)].id == k.role
    ensures RoleKey(k.org, renames[i].target) in t.roles && k !in t.grants
    ensures AssignKey(k.user, t.roles[RoleKey(k.org, renames[i].target)].id, k.org) in t.grants
  {
    forall j | 0 <= j < |renames|
      ensures RoleKey(k.org, renames[j].target) in t.roles
    {
      TargetsAreThere(t0, t, orgs, specs, renames, k.org, j);
    }
    LegacyIsRedirected(t0, t, k.org, renames, |renames|, i);
    assert NewKey(k, t0, t, orgs, renames) in t.grants;
    if k in t.grants {
      var k0 :| ContinuesGrant(t0, t, orgs, renames, k, k0);
      var o :| 0 <= o < |orgs| && orgs[o] == k.org;
      LegacyIsMoved(t0, t, orgs[o], renames, |renames|, i);
      assert false;
    }
  }

  /** Every other assignment stays, unchanged. */
  lemma OtherHoldersStay(t0: Tables, t: Tables, orgs: seq<string>, specs: seq<RoleSpec>, renames: seq<Rename>,
                         k: AssignKey)
    requires Upgraded(t0, t, orgs, specs, renames) && k in t0.grants
    requires k.org !in orgs || forall i :: 0 <= i < |renames| && RoleKey(k.org, renames[i].legacy) in t0.roles ==>
               t0.roles[RoleKey(k.org, renames[i].legacy)].id != k.role
    ensures k in t.grants && t.grants[k] == t0.grants[k]
  {
    if k.org in orgs {
      OtherIsNotRedirected(t0, t, k.org, renames, |renames|, k.role);
    }
    assert NewKey(k, t0, t, orgs, renames) in t.grants;
    var k0 :| ContinuesGrant(t0, t, orgs, renames, k, k0);
  }

  /** Nobody gains a role but by being handed over, with the grantor and times of the
      legacy assignment. */
  lemma NobodyElseGains(t0: Tables, t: Tables, orgs: seq<string>, specs: seq<RoleSpec>, renames: seq<Rename>,
                        k: AssignKey)
    requires Upgraded(t0, t, orgs, specs, renames) && PlanOk(specs, renames) && IdsDistinct(t0.roles)
    requires k in t.grants && k !in t0.grants
    ensures k.org in orgs
    ensures exists i :: 0 <= i < |renames| && HandedTo(t0, t, renames[i], k)
  {
    var k0 :| ContinuesGrant(t0, t, orgs, renames, k, k0);
    if !IsLegacyId(t0, k0.org, renames, |renames|, k0.role) {
      OtherIsNotRedirected(t0, t, k0.org, renames, |renames|, k0.role);
      assert false;
    }
    var i :| 0 <= i < |renames| && RoleKey(k0.org, renames[i].legacy) in t0.roles
          && t0.roles[RoleKey(k0.org, renames[i].legacy)].id == k0.role;
    forall j | 0 <= j < |renames|
      ensures RoleKey(k.org, renames[j].target) in t.roles
    {
      TargetsAreThere(t0, t, orgs, specs, renames, k.org, j);
    }
    LegacyIsRedirected(t0, t, k.org, renames, |renames|, i);
    assert HandedTo(t0, t, renames[i], k);
  }

  ghost predicate HandedTo(t0: Tables, t: Tables, rename: Rename, k: AssignKey) {
    var legacy, target := RoleKey(k.org, rename.legacy), RoleKey(k.org, rename.target);
    && legacy in t0.roles && target in t.roles && t.roles[target].id == k.role
    && var held := AssignKey(k.user, t0.roles[legacy].id, k.org);
    held in t0.grants && k in t.grants && t.grants[k] == t0.grants[held]
  }
}
