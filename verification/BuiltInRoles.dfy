/** The built-in roles and the legacy names they replace. */
module BuiltInRoles {
  import opened RoleTables
  import opened RoleOutcome

  const ROLE_SPECS: seq<RoleSpec> := [
    RoleSpec(
      "Organization Admin",
      "Full administrative control across all organization resources.",
      [
        ("manage", "organization"), ("manage", "user"), ("manage", "cloud_account"),
        ("manage", "pool"), ("manage", "expense"), ("manage", "resource"),
        ("manage", "recommendation"), ("manage", "rule"), ("manage", "notification"),
        ("manage", "enterprise")
      ]),
    RoleSpec(
      "Admin View Only",
      "Read-only visibility across organization and enterprise resources.",
      [
        ("read", "organization"), ("read", "user"), ("read", "cloud_account"),
        ("read", "pool"), ("read", "expense"), ("read", "resource"),
        ("read", "recommendation"), ("read", "rule"), ("read", "notification"),
        ("read", "enterprise")
      ]),
    RoleSpec(
      "Engineer",
      "Operational role for engineering workflows with limited write access.",
      [
        ("read", "organization"), ("read", "user"), ("read", "cloud_account"),
        ("create", "cloud_account"), ("update", "cloud_account"), ("read", "pool"),
        ("read", "expense"), ("read", "resource"), ("manage", "recommendation"),
        ("read", "rule"), ("read", "notification")
      ]),
    RoleSpec(
      "Viewer",
      "General read-only access for business stakeholders.",
      [
        ("read", "organization"), ("read", "user"), ("read", "cloud_account"),
        ("read", "pool"), ("read", "expense"), ("read", "resource"),
        ("read", "recommendation"), ("read", "rule"), ("read", "notification"),
        ("read", "enterprise")
      ]),
    RoleSpec(
      "Billing Admin",
      "Cost and billing operations role with expense management access.",
      [
        ("read", "organization"), ("read", "user"), ("read", "cloud_account"),
        ("read", "pool"), ("manage", "expense"), ("read", "resource"),
        ("read", "recommendation"), ("read", "notification"), ("read", "enterprise")
      ]),
    RoleSpec(
      "Security Auditor",
      "Read-only role for security and compliance review workflows.",
      [
        ("read", "organization"), ("read", "user"), ("read", "cloud_account"),
        ("read", "pool"), ("read", "expense"), ("read", "resource"),
        ("read", "recommendation"), ("read", "rule"), ("read", "notification"),
        ("read", "enterprise")
      ])
  ]

  const LEGACY_ROLE_RENAMES: seq<Rename> := [
    Rename("Organization Owner", "Organization Admin"),
    Rename("Finance", "Billing Admin")
  ]

  lemma PlanByLengths(specs: seq<RoleSpec>, renames: seq<Rename>, lengths: seq<nat>)
    requires |specs| == |lengths| == 6 && |renames| == 2
    requires lengths == [18, 15, 8, 6, 13, 16]
    requires forall i :: 0 <= i < 6 ==> |specs[i].name| == lengths[i]
    requires |renames[0].legacy| == 18 && renames[0].legacy != specs[0].name && |renames[1].legacy| == 7
    requires renames[0].target == specs[0].name && renames[1].target == specs[4].name
    ensures PlanOk(specs, renames)
  {
  }

  /** What the migration's theorems ask of its tables: no role is specified twice, and a
      legacy name is replaced by a specified one and is not specified itself. */
  lemma BuiltInPlanIsOk()
    ensures PlanOk(ROLE_SPECS, LEGACY_ROLE_RENAMES)
  {
    var specs, renames := ROLE_SPECS, LEGACY_ROLE_RENAMES;
    assert |specs| == 6 && |renames| == 2;
    assert |specs[0].name| == 18 && |specs[1].name| == 15 && |specs[2].name| == 8;
    assert |specs[3].name| == 6 && |specs[4].name| == 13 && |specs[5].name| == 16;
    assert renames[0].legacy[13] == 'O' && specs[0].name[13] == 'A';
    assert |renames[0].legacy| == 18 && |renames[1].legacy| == 7;
    PlanByLengths(specs, renames, [18, 15, 8, 6, 13, 16]);
  }

  lemma UpperPair()
    ensures Upper("manage") == "MANAGE" && Upper("organization") == "ORGANIZATION"
  {
    var m, o := Upper("manage"), Upper("organization");
    assert m[0] == 'M' && m[1] == 'A' && m[2] == 'N' && m[3] == 'A' && m[4] == 'G' && m[5] == 'E';
    assert o[0] == 'O' && o[1] == 'R' && o[2] == 'G' && o[3] == 'A' && o[4] == 'N' && o[5] == 'I';
    assert o[6] == 'Z' && o[7] == 'A' && o[8] == 'T' && o[9] == 'I' && o[10] == 'O' && o[11] == 'N';
    assert m == "MANAGE" && o == "ORGANIZATION";
  }

  /** In every organization the built-in administrator may manage the organization. */
  lemma AdminsManageOrganizations(t0: Tables, t: Tables, orgs: seq<string>, org: string)
    requires Upgraded(t0, t, orgs, ROLE_SPECS, LEGACY_ROLE_RENAMES) && org in orgs
    ensures RoleKey(org, "Organization Admin") in t.roles
    ensures PermKey(t.roles[RoleKey(org, "Organization Admin")].id, "MANAGE", "ORGANIZATION") in t.perms
  {
    var spec := ROLE_SPECS[0];
    RolesCarryTheirPermissions(t0, t, orgs, ROLE_SPECS, LEGACY_ROLE_RENAMES, org, spec,
                               PermKey(t.roles[RoleKey(org, spec.name)].id, "MANAGE", "ORGANIZATION"));
    UpperPair();
    assert spec.permissions[0] == ("manage", "organization");
  }
}
