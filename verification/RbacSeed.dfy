/**
 Seeding the permission catalogue and the system roles: upsert both, then rebuild what each system role grants.
 It may start from any tables, however an earlier release or an administrator left them.
 */
module RbacSeed {
  import opened Authorization
  import opened Permissions
  import opened Wrappers

  datatype PermissionDef = PermissionDef(key: string, description: string)
  datatype RoleDef = RoleDef(key: string, name: string, permissions: seq<string>)

  datatype Role = Role(id: RoleId, name: string, system: bool)

  /** The primary key of permissions and the unique index on the role key make these maps. */
  datatype Tables = Tables(permissions: map<string, string>, roles: map<string, Role>, rolePermissions: set<(RoleId, string)>)

  ghost predicate IdsUnique(t: Tables) {
    forall k, l :: k in t.roles && l in t.roles && t.roles[k].id == t.roles[l].id ==> k == l
  }

  /** Ids are unique, and every grant is of an existing role and an existing permission. */
  ghost predicate Sound(t: Tables) {
    && IdsUnique(t)
    && (forall rp :: rp in t.rolePermissions ==> rp.1 in t.permissions && exists k :: k in t.roles && t.roles[k].id == rp.0)
  }

  /** The codes stored for a role. */
  function CodesOf(stored: set<(RoleId, string)>, role: RoleId): set<string> {
    set rp | rp in stored && rp.0 == role :: rp.1
  }

  lemma CodesAre(stored: set<(RoleId, string)>, role: RoleId)
    ensures forall code :: code in CodesOf(stored, role) <==> (role, code) in stored
  {
    forall code ensures code in CodesOf(stored, role) <==> (role, code) in stored {
      assert (role, code).0 == role && (role, code).1 == code;
    }
  }

  function Codes(bundle: seq<string>): set<string> {
    set code | code in bundle
  }

  predicate Distinct(keys: seq<string>) {
    forall i, j :: 0 <= i < j < |keys| ==> keys[i] != keys[j]
  }

  function PermissionKeys(catalogue: seq<PermissionDef>): seq<string> {
    seq(|catalogue|, i requires 0 <= i < |catalogue| => catalogue[i].key)
  }

  function RoleKeys(roles: seq<RoleDef>): seq<string> {
    seq(|roles|, i requires 0 <= i < |roles| => roles[i].key)
  }

  /** With distinct keys, none of the roles before one shares its key. */
  lemma DistinctSoFar(roles: seq<RoleDef>, i: nat)
    requires Distinct(RoleKeys(roles)) && i < |roles|
    ensures forall c :: c in roles[..i] ==> c.key != roles[i].key
    ensures RoleKeys(roles[..i + 1]) == RoleKeys(roles[..i]) + [roles[i].key]
    ensures roles[..i + 1] == roles[..i] + [roles[i]]
  {
    forall j | 0 <= j < i ensures roles[j].key != roles[i].key {
      assert RoleKeys(roles)[j] != RoleKeys(roles)[i];
    }
  }

  /** What the constants of the catalogue satisfy: each key once, and bundles of codes that are in it. */
  predicate Consistent(catalogue: seq<PermissionDef>, roles: seq<RoleDef>) {
    && Distinct(PermissionKeys(catalogue)) && Distinct(RoleKeys(roles))
    && (forall d, code :: d in roles && code in d.permissions ==> code in PermissionKeys(catalogue))
  }

  /** Random ids for the rows of one insert: new to the table and to each other. */
  ghost predicate NewIds(t: Tables, ids: seq<RoleId>, count: nat) {
    && |ids| == count && (forall i, j :: 0 <= i < j < |ids| ==> ids[i] != ids[j])
    && (forall i, k :: 0 <= i < |ids| && k in t.roles ==> t.roles[k].id != ids[i])
  }

  // ── What one seed does ──────────────────────────────────────────────────────

  ghost predicate CatalogueStands(t: Tables, u: Tables, catalogue: seq<PermissionDef>) {
    && (forall k :: k in u.permissions <==> k in t.permissions || k in PermissionKeys(catalogue))
    && (forall d :: d in catalogue ==> d.key in u.permissions && u.permissions[d.key] == d.description)
    && (forall k :: k in t.permissions && k !in PermissionKeys(catalogue) ==>
          k in u.permissions && u.permissions[k] == t.permissions[k])
  }

  ghost predicate RolesStand(t: Tables, u: Tables, roles: seq<RoleDef>) {
    && (forall k :: k in u.roles <==> k in t.roles || k in RoleKeys(roles))
    && (forall d :: d in roles ==> d.key in u.roles && u.roles[d.key].name == d.name && u.roles[d.key].system)
    && (forall k :: k in t.roles ==> k in u.roles && u.roles[k].id == t.roles[k].id)
    && (forall k :: k in t.roles && k !in RoleKeys(roles) ==> k in u.roles && u.roles[k] == t.roles[k])
  }

  /** `id` is the id of one of the seeded roles. */
  ghost predicate Seeds(u: Tables, roles: seq<RoleDef>, id: RoleId) {
    exists d :: d in roles && d.key in u.roles && u.roles[d.key].id == id
  }

  /** Each seeded role has exactly its bundle; the grants of every other role are as they were. */
  ghost predicate GrantsStand(t: Tables, u: Tables, roles: seq<RoleDef>) {
    && (forall d :: d in roles && d.key in u.roles ==> CodesOf(u.rolePermissions, u.roles[d.key].id) == Codes(d.permissions))
    && (forall id :: !Seeds(u, roles, id) ==> CodesOf(u.rolePermissions, id) == CodesOf(t.rolePermissions, id))
  }

  ghost predicate Seeded(t: Tables, u: Tables, catalogue: seq<PermissionDef>, roles: seq<RoleDef>) {
    CatalogueStands(t, u, catalogue) && RolesStand(t, u, roles) && GrantsStand(t, u, roles)
  }

  lemma OneRoleMore(t: Tables, u: Tables, w: Tables, roles: seq<RoleDef>, i: nat)
    requires Distinct(RoleKeys(roles)) && i < |roles| && IdsUnique(u) && GrantsStand(t, u, roles[..i])
    requires w.roles == u.roles && roles[i].key in u.roles
    requires var id := u.roles[roles[i].key].id;
             && CodesOf(w.rolePermissions, id) == Codes(roles[i].permissions)
             && forall other :: other != id ==> CodesOf(w.rolePermissions, other) == CodesOf(u.rolePermissions, other)
    ensures GrantsStand(t, w, roles[..i + 1])
  {
    DistinctSoFar(roles, i);
    var d := roles[i];
    forall c | c in roles[..i + 1] && c.key in w.roles
      ensures CodesOf(w.rolePermissions, w.roles[c.key].id) == Codes(c.permissions)
    {
      assert c == d || c in roles[..i];
    }
    forall id | !Seeds(w, roles[..i + 1], id) ensures CodesOf(w.rolePermissions, id) == CodesOf(t.rolePermissions, id) {
      assert d in roles[..i + 1];
      assert !Seeds(u, roles[..i], id);
    }
  }

  /** No grant is left without its role or its permission. */
  lemma SeededIsSound(t: Tables, u: Tables, catalogue: seq<PermissionDef>, roles: seq<RoleDef>)
    requires Sound(t) && Consistent(catalogue, roles) && Seeded(t, u, catalogue, roles) && IdsUnique(u)
    ensures Sound(u)
  {
    forall rp | rp in u.rolePermissions
      ensures rp.1 in u.permissions && exists k :: k in u.roles && u.roles[k].id == rp.0
    {
      CodesAre(u.rolePermissions, rp.0);
      CodesAre(t.rolePermissions, rp.0);
      assert (rp.0, rp.1) == rp;
      if Seeds(u, roles, rp.0) {
        var d :| d in roles && d.key in u.roles && u.roles[d.key].id == rp.0;
        assert rp.1 in Codes(d.permissions);
      } else {
        var k :| k in t.roles && t.roles[k].id == rp.0;
        assert u.roles[k].id == rp.0;
      }
    }
  }

  class SeedDb {
    var tables: Tables

    /** `INSERT … ON CONFLICT (key) DO UPDATE SET description`. */
    method UpsertPermissions(catalogue: seq<PermissionDef>)
      requires Distinct(PermissionKeys(catalogue))
      modifies this
      ensures CatalogueStands(old(tables), tables, catalogue)
      ensures tables.roles == old(tables).roles && tables.rolePermissions == old(tables).rolePermissions
    {
      for i := 0 to |catalogue|
        invariant CatalogueStands(old(tables), tables, catalogue[..i])
        invariant tables.roles == old(tables).roles && tables.rolePermissions == old(tables).rolePermissions
      {
        var d := catalogue[i];
        assert PermissionKeys(catalogue[..i + 1]) == PermissionKeys(catalogue[..i]) + [d.key];
        assert catalogue[..i + 1] == catalogue[..i] + [d];
        assert forall c :: c in catalogue[..i] ==> c.key != d.key by {
          forall j | 0 <= j < i ensures catalogue[j].key != d.key {
            assert PermissionKeys(catalogue)[j] != PermissionKeys(catalogue)[i];
          }
        }
        tables := tables.(permissions := tables.permissions[d.key := d.description]);
      }
      assert catalogue[..|catalogue|] == catalogue;
    }

    /** `INSERT … ON CONFLICT (key) DO UPDATE SET name, system`: a role that is there keeps its id. */
    method UpsertRoles(roles: seq<RoleDef>, ids: seq<RoleId>)
      requires Distinct(RoleKeys(roles)) && IdsUnique(tables) && NewIds(tables, ids, |roles|)
      modifies this
      ensures RolesStand(old(tables), tables, roles) && IdsUnique(tables)
      ensures tables.permissions == old(tables).permissions && tables.rolePermissions == old(tables).rolePermissions
    {
      for i := 0 to |roles|
        invariant RolesStand(old(tables), tables, roles[..i]) && IdsUnique(tables)
        invariant forall j, k :: i <= j < |ids| && k in tables.roles ==> tables.roles[k].id != ids[j]
        invariant tables.permissions == old(tables).permissions && tables.rolePermissions == old(tables).rolePermissions
      {
        var d := roles[i];
        DistinctSoFar(roles, i);
        var id := if d.key in tables.roles then tables.roles[d.key].id else ids[i];
        tables := tables.(roles := tables.roles[d.key := Role(id, d.name, true)]);
      }
      assert roles[..|roles|] == roles;
    }

    /** `DELETE … WHERE role_id`, then `INSERT … ON CONFLICT DO NOTHING`. */
    method RebuildRole(id: RoleId, bundle: seq<string>)
      modifies this
      ensures CodesOf(tables.rolePermissions, id) == Codes(bundle)
      ensures forall other :: other != id ==> CodesOf(tables.rolePermissions, other) == CodesOf(old(tables).rolePermissions, other)
      ensures tables.permissions == old(tables).permissions && tables.roles == old(tables).roles
    {
      ghost var before := tables;
      tables := tables.(rolePermissions := set rp | rp in tables.rolePermissions && rp.0 != id);
      if |bundle| > 0 {
        tables := tables.(rolePermissions := tables.rolePermissions + set code | code in bundle :: (id, code));
      }
      assert forall other, code :: (other, code) in tables.rolePermissions <==>
          if other == id then code in bundle else (other, code) in before.rolePermissions;
      forall role
        ensures CodesOf(tables.rolePermissions, role) == if role == id then Codes(bundle) else CodesOf(before.rolePermissions, role)
      {
        CodesAre(tables.rolePermissions, role);
        CodesAre(before.rolePermissions, role);
      }
    }

    method Seed(catalogue: seq<PermissionDef>, roles: seq<RoleDef>, ids: seq<RoleId>)
      requires Sound(tables) && Consistent(catalogue, roles) && NewIds(tables, ids, |roles|)
      modifies this
      ensures Seeded(old(tables), tables, catalogue, roles)
      ensures Sound(tables)
    {
      UpsertPermissions(catalogue);
      UpsertRoles(roles, ids);
      ghost var before := tables;
      var roleIdByKey := map k | k in tables.roles && k in RoleKeys(roles) :: tables.roles[k].id;
      for i := 0 to |roles|
        invariant tables.permissions == before.permissions && tables.roles == before.roles
        invariant GrantsStand(before, tables, roles[..i])
      {
        ghost var start := tables;
        var d := roles[i];
        assert d.key == RoleKeys(roles)[i] && d.key in roleIdByKey;
        if d.key in roleIdByKey {
          RebuildRole(roleIdByKey[d.key], d.permissions);
          OneRoleMore(before, start, tables, roles, i);
        }
      }
      assert roles[..|roles|] == roles;
      SeededIsSound(old(tables), tables, catalogue, roles);
    }
  }

  // ── What it comes to ────────────────────────────────────────────────────────

  /** A second seed changes nothing, whatever ids it would have given. */
  lemma SeedAgainChangesNothing(t: Tables, u: Tables, w: Tables, catalogue: seq<PermissionDef>, roles: seq<RoleDef>)
    requires Seeded(t, u, catalogue, roles) && Seeded(u, w, catalogue, roles)
    ensures w == u
  {
    forall k | k in PermissionKeys(catalogue)
      ensures k in u.permissions && k in w.permissions && w.permissions[k] == u.permissions[k]
    {
      var i :| 0 <= i < |catalogue| && PermissionKeys(catalogue)[i] == k;
      assert catalogue[i] in catalogue;
    }
    assert w.permissions == u.permissions;
    forall k | k in RoleKeys(roles) ensures k in u.roles && k in w.roles && w.roles[k] == u.roles[k] {
      var i :| 0 <= i < |roles| && RoleKeys(roles)[i] == k;
      assert roles[i] in roles;
    }
    assert w.roles == u.roles;
    forall rp: (RoleId, string) ensures rp in w.rolePermissions <==> rp in u.rolePermissions {
      CodesAre(w.rolePermissions, rp.0);
      CodesAre(u.rolePermissions, rp.0);
      assert (rp.0, rp.1) == rp;
      assert CodesOf(w.rolePermissions, rp.0) == CodesOf(u.rolePermissions, rp.0);
    }
    assert w.rolePermissions == u.rolePermissions;
  }

  /** Whichever way the stored codes of a seeded role are read back, they grant what its bundle grants. */
  lemma StoredCodesGrantTheBundle(t: Tables, u: Tables, catalogue: seq<PermissionDef>, roles: seq<RoleDef>, d: RoleDef,
                                  held: seq<string>, required: string)
    requires Seeded(t, u, catalogue, roles) && d in roles
    requires forall code :: code in held <==> d.key in u.roles && (u.roles[d.key].id, code) in u.rolePermissions
    ensures Grants(Some(held), required) <==> Grants(Some(d.permissions), required)
  {
    CodesAre(u.rolePermissions, u.roles[d.key].id);
    assert forall code :: code in held <==> code in Codes(d.permissions);
    OnlyTheSetMatters(held, d.permissions, required);
  }

  /** The role an assignment gives grants `required`: by its bundle if it is seeded, else by what it had before. */
  ghost predicate RoleGives(t: Tables, u: Tables, roles: seq<RoleDef>, role: RoleId, required: string) {
    if Seeds(u, roles, role)
    then exists d :: d in roles && d.key in u.roles && u.roles[d.key].id == role && Grants(Some(d.permissions), required)
    else exists code :: (role, code) in t.rolePermissions && Covers(code, required)
  }

  /**
   From tables to access: after a seed, a user passes the check if and only if a live assignment of theirs, in a
   scope that the request satisfies, is to a system role whose bundle grants the permission, or to another role
   that granted it before.
   */
  lemma AccessAfterASeed(t: Tables, u: Tables, catalogue: seq<PermissionDef>, roles: seq<RoleDef>,
                         db: Database, now: int, userId: UserId, rows: seq<Grant>, effective: EffectivePermissions,
                         permission: string, resource: Option<ResourceAttrs>, user: Option<UserId>)
    requires Seeded(t, u, catalogue, roles) && db.rolePermissions == u.rolePermissions
    requires RowsOf(db, now, userId, rows) && Groups(rows, effective)
    ensures Allows(effective, permission, resource, user) <==>
            exists a :: a in db.assignments && a.userId == userId && Live(a, now) && Satisfied(a.scope, resource, user) &&
              RoleGives(t, u, roles, a.roleId, permission)
  {
    CheckIsExact(db, now, userId, rows, effective, permission, resource, user);
    forall a | a in db.assignments
      ensures RoleGives(t, u, roles, a.roleId, permission) <==>
              exists code :: (a.roleId, code) in db.rolePermissions && Covers(code, permission)
    {
      RoleGivesWhatItStores(t, u, catalogue, roles, a.roleId, permission);
    }
    if Allows(effective, permission, resource, user) {
      var a, code :| Entitles(db, now, userId, a, code, permission, resource, user);
      assert RoleGives(t, u, roles, a.roleId, permission);
    }
    if a :| a in db.assignments && a.userId == userId && Live(a, now) && Satisfied(a.scope, resource, user) &&
            RoleGives(t, u, roles, a.roleId, permission) {
      var code :| (a.roleId, code) in db.rolePermissions && Covers(code, permission);
      assert Entitles(db, now, userId, a, code, permission, resource, user);
    }
  }

  lemma RoleGivesWhatItStores(t: Tables, u: Tables, catalogue: seq<PermissionDef>, roles: seq<RoleDef>,
                              role: RoleId, required: string)
    requires Seeded(t, u, catalogue, roles)
    ensures RoleGives(t, u, roles, role, required) <==>
            exists code :: (role, code) in u.rolePermissions && Covers(code, required)
  {
    CodesAre(u.rolePermissions, role);
    CodesAre(t.rolePermissions, role);
    if Seeds(u, roles, role) {
      forall d | d in roles && d.key in u.roles && u.roles[d.key].id == role
        ensures Grants(Some(d.permissions), required) <==>
                exists code :: (role, code) in u.rolePermissions && Covers(code, required)
      {
        GrantsCodeByCode(d.permissions, required);
        assert forall code :: code in d.permissions <==> code in Codes(d.permissions);
        assert forall code :: code in d.permissions <==> (role, code) in u.rolePermissions;
      }
    }
  }
}
