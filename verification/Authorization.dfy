/**
 Who may do what: permissions held through role assignments, each in a scope, and the check that a request
 must pass. `globalHoldersOf` answers the same question from the other side, without going through the check.
 */
module Authorization {
  import opened Permissions
  import opened Wrappers

  type UserId = string
  type RoleId = nat

  datatype ScopeType = Global | Self | Team | Dept | Region
  datatype Scope = Scope(kind: ScopeType, id: Option<string>)

  datatype Assignment = Assignment(userId: UserId, roleId: RoleId, scope: Scope, expiresAt: Option<int>)

  /** Role assignments, and the permission rows of the roles. */
  datatype Database = Database(assignments: set<Assignment>, rolePermissions: set<(RoleId, string)>)

  datatype ResourceAttrs = ResourceAttrs(
    ownerId: Option<string>, teamId: Option<string>, deptId: Option<string>, region: Option<string>)

  predicate Live(a: Assignment, now: int) {
    a.expiresAt.None? || a.expiresAt.value > now
  }

  /** An assignment counts until the moment it expires, and for good if it never does. */
  lemma LiveUntilItExpires(a: Assignment, now: int)
    ensures Live(a, now) <==> forall at :: a.expiresAt == Some(at) ==> now < at
  {
    if a.expiresAt.Some? {
      assert a.expiresAt == Some(a.expiresAt.value);
    }
  }

  /** A row of `user_role_assignments ⋈ role_permissions`. */
  datatype Grant = Grant(userId: UserId, code: string, scope: Scope)

  function GrantsNow(db: Database, now: int): set<Grant> {
    set a, rp | a in db.assignments && rp in db.rolePermissions && rp.0 == a.roleId && Live(a, now)
      :: Grant(a.userId, rp.1, a.scope)
  }

  // ── Resolution ──────────────────────────────────────────────────────────────

  type EffectivePermissions = map<string, seq<Scope>>

  /** The scopes the rows give for one code, in the order of the rows. */
  function ScopesOf(rows: seq<Grant>, code: string): seq<Scope> {
    if rows == [] then []
    else
      var last := rows[|rows| - 1];
      ScopesOf(rows[..|rows| - 1], code) + if last.code == code then [last.scope] else []
  }

  lemma {:induction false} ScopesAreOfRows(rows: seq<Grant>, code: string, scope: Scope)
    ensures scope in ScopesOf(rows, code) <==> exists row :: row in rows && row.code == code && row.scope == scope
  {
    if rows != [] {
      var last, init := rows[|rows| - 1], rows[..|rows| - 1];
      assert rows == init + [last];
      ScopesAreOfRows(init, code, scope);
    }
  }

  /** What resolution makes of the rows: every code with all its scopes. */
  ghost predicate Groups(rows: seq<Grant>, effective: EffectivePermissions) {
    && (forall code :: code in effective <==> ScopesOf(rows, code) != [])
    && (forall code :: code in effective ==> effective[code] == ScopesOf(rows, code))
  }

  /** The rows of one user, grouped by code; no rows at all when the query failed. */
  method Resolve(rows: Option<seq<Grant>>) returns (effective: EffectivePermissions)
    ensures rows.Some? ==> Groups(rows.value, effective)
    ensures rows.None? ==> effective == map[]
  {
    effective := map[];
    if rows.None? {
      return;
    }
    for i := 0 to |rows.value|
      invariant Groups(rows.value[..i], effective)
    {
      var row := rows.value[i];
      assert rows.value[..i + 1][..i] == rows.value[..i];
      var scopes := if row.code in effective then effective[row.code] else [];
      effective := effective[row.code := scopes + [row.scope]];
    }
    assert rows.value[..|rows.value|] == rows.value;
  }

  // ── The check ───────────────────────────────────────────────────────────────

  predicate Matches(scope: Scope, resource: ResourceAttrs, user: UserId) {
    match scope.kind
    case Global => true
    case Self => resource.ownerId == Some(user)
    case Team => scope.id.Some? && scope.id == resource.teamId
    case Dept => scope.id.Some? && scope.id == resource.deptId
    case Region => scope.id.Some? && scope.id == resource.region
  }

  /** The resource has `id` for what a scope of this kind is about. */
  predicate Has(resource: ResourceAttrs, kind: ScopeType, id: string) {
    || (kind.Team? && resource.teamId == Some(id)) || (kind.Dept? && resource.deptId == Some(id))
    || (kind.Region? && resource.region == Some(id))
  }

  /**
   A global scope takes in everything, a scope on oneself what the user owns, and a scope on a team, a department or a
   region what has the very id that the scope names; with no id named, nothing.
   */
  lemma WhatAScopeTakesIn(scope: Scope, resource: ResourceAttrs, user: UserId)
    ensures Matches(scope, resource, user) <==>
              || scope.kind.Global?
              || (scope.kind.Self? && resource.ownerId == Some(user))
              || exists id :: scope.id == Some(id) && Has(resource, scope.kind, id)
  {
    if scope.id.Some? && Matches(scope, resource, user) && !scope.kind.Global? && !scope.kind.Self? {
      assert scope.id == Some(scope.id.value) && Has(resource, scope.kind, scope.id.value);
    }
  }

  /** `resource` and `user` are missing where the route declares no scope. */
  method Check(effective: EffectivePermissions, permission: string,
               resource: Option<ResourceAttrs>, user: Option<UserId>)
    returns (allowed: bool)
    ensures allowed <==> Allows(effective, permission, resource, user)
  {
    var codes := set code | code in effective && Covers(code, permission);
    var scopes := set code, scope | code in codes && scope in effective[code] :: scope;
    assert Allows(effective, permission, resource, user) <==> exists scope :: scope in scopes && Satisfied(scope, resource, user);
    if scopes == {} {
      return false;
    }
    if exists scope :: scope in scopes && scope.kind.Global? {
      return true;
    }
    if resource.None? || user.None? {
      return false;
    }
    allowed := exists scope :: scope in scopes && Matches(scope, resource.value, user.value);
  }

  /** A global grant needs nothing; a constrained one needs a resource and a user, and must match them. */
  predicate Satisfied(scope: Scope, resource: Option<ResourceAttrs>, user: Option<UserId>) {
    scope.kind.Global? || (resource.Some? && user.Some? && Matches(scope, resource.value, user.value))
  }

  ghost predicate Allows(effective: EffectivePermissions, permission: string,
                         resource: Option<ResourceAttrs>, user: Option<UserId>)
  {
    exists code, scope ::
      code in effective && scope in effective[code] && Covers(code, permission) && Satisfied(scope, resource, user)
  }

  /** The rows a query returns, in whatever order and number: exactly what the join holds of the user. */
  ghost predicate RowsOf(db: Database, now: int, userId: UserId, rows: seq<Grant>) {
    forall row :: row in rows <==> row in GrantsNow(db, now) && row.userId == userId
  }

  /** The assignment is this user's and has not expired, and through it the code covers the permission here. */
  predicate Entitles(db: Database, now: int, userId: UserId, a: Assignment, code: string,
                     permission: string, resource: Option<ResourceAttrs>, user: Option<UserId>)
  {
    && a in db.assignments && a.userId == userId && Live(a, now)
    && (a.roleId, code) in db.rolePermissions && Covers(code, permission) && Satisfied(a.scope, resource, user)
  }

  /**
   Resolution and check together are exact: a user is let through if and only if some assignment of theirs that has
   not expired gives a role some code that covers the permission, in a scope that the request satisfies.
   */
  lemma CheckIsExact(db: Database, now: int, userId: UserId, rows: seq<Grant>, effective: EffectivePermissions,
                     permission: string, resource: Option<ResourceAttrs>, user: Option<UserId>)
    requires RowsOf(db, now, userId, rows) && Groups(rows, effective)
    ensures Allows(effective, permission, resource, user) <==>
            exists a, code :: Entitles(db, now, userId, a, code, permission, resource, user)
  {
    if Allows(effective, permission, resource, user) {
      var code, scope :| code in effective && scope in effective[code] && Covers(code, permission) &&
        Satisfied(scope, resource, user);
      ScopesAreOfRows(rows, code, scope);
      var row :| row in rows && row.code == code && row.scope == scope;
      assert row in GrantsNow(db, now);
      var a, rp :| a in db.assignments && rp in db.rolePermissions && rp.0 == a.roleId && Live(a, now) &&
        row == Grant(a.userId, rp.1, a.scope);
      assert (a.roleId, code) == rp;
      assert Entitles(db, now, userId, a, code, permission, resource, user);
    }
    if a, code :| Entitles(db, now, userId, a, code, permission, resource, user) {
      var row := Grant(a.userId, code, a.scope);
      assert (a.roleId, code).0 == a.roleId && (a.roleId, code).1 == code;
      assert row in GrantsNow(db, now);
      assert row in rows;
      ScopesAreOfRows(rows, code, a.scope);
    }
  }

  // ── The holders of a permission ─────────────────────────────────────────────

  /** The rows of the join that are global, for every user; no holders at all when the query failed. */
  method GlobalHoldersOf(permission: string, rows: Option<seq<Grant>>) returns (holders: set<UserId>)
    ensures rows.None? ==> holders == {}
    ensures rows.Some? ==>
              forall u :: u in holders <==> exists row :: row in rows.value && row.userId == u && Covers(row.code, permission)
  {
    holders := {};
    if rows.None? {
      return;
    }
    for i := 0 to |rows.value|
      invariant forall u :: u in holders <==>
                  exists row :: row in rows.value[..i] && row.userId == u && Covers(row.code, permission)
    {
      var row := rows.value[i];
      assert rows.value[..i + 1] == rows.value[..i] + [row];
      if Covers(row.code, permission) {
        holders := holders + {row.userId};
      }
    }
    assert rows.value[..|rows.value|] == rows.value;
  }

  ghost predicate GlobalRows(db: Database, now: int, rows: seq<Grant>) {
    forall row :: row in rows <==> row in GrantsNow(db, now) && row.scope.kind.Global?
  }

  /** The holders are exactly the users whom the check lets through when no resource is given. */
  lemma HoldersAreWhomTheCheckLetsThrough(
      db: Database, now: int, permission: string, rows: seq<Grant>, holders: set<UserId>,
      userId: UserId, own: seq<Grant>, effective: EffectivePermissions, user: Option<UserId>)
    requires GlobalRows(db, now, rows)
    requires forall u :: u in holders <==> exists row :: row in rows && row.userId == u && Covers(row.code, permission)
    requires RowsOf(db, now, userId, own) && Groups(own, effective)
    ensures userId in holders <==> Allows(effective, permission, None, user)
  {
    if userId in holders {
      var row :| row in rows && row.userId == userId && Covers(row.code, permission);
      assert row in own;
      ScopesAreOfRows(own, row.code, row.scope);
      assert Satisfied(row.scope, None, user);
    }
    if Allows(effective, permission, None, user) {
      var code, scope :| code in effective && scope in effective[code] && Covers(code, permission) &&
        Satisfied(scope, None, user);
      ScopesAreOfRows(own, code, scope);
      var row :| row in own && row.code == code && row.scope == scope;
      assert row in rows;
    }
  }

  /** Somebody whose assignments have all expired may do nothing, whatever the roles grant. */
  lemma ExpiredMeansDenied(db: Database, now: int, userId: UserId, rows: seq<Grant>, effective: EffectivePermissions,
                           permission: string, resource: Option<ResourceAttrs>, user: Option<UserId>)
    requires RowsOf(db, now, userId, rows) && Groups(rows, effective)
    requires forall a :: a in db.assignments && a.userId == userId ==> a.expiresAt.Some? && a.expiresAt.value <= now
    ensures !Allows(effective, permission, resource, user)
  {
    CheckIsExact(db, now, userId, rows, effective, permission, resource, user);
  }

  /** And somebody with a live assignment, in a scope that takes the resource in, to a role with the code, may do it. */
  lemma EntitledMeansAllowed(db: Database, now: int, userId: UserId, rows: seq<Grant>, effective: EffectivePermissions,
                             a: Assignment, code: string, permission: string, resource: Option<ResourceAttrs>, user: Option<UserId>)
    requires RowsOf(db, now, userId, rows) && Groups(rows, effective)
    requires a in db.assignments && a.userId == userId && (a.expiresAt.None? || now < a.expiresAt.value)
    requires (a.roleId, code) in db.rolePermissions && (code == permission || code == "*")
    requires a.scope.kind.Global? || (resource.Some? && user.Some? && Matches(a.scope, resource.value, user.value))
    ensures Allows(effective, permission, resource, user)
  {
    GrantsExactly(Some([code]), permission);
    assert [code][0] == code;
    assert Entitles(db, now, userId, a, code, permission, resource, user);
    CheckIsExact(db, now, userId, rows, effective, permission, resource, user);
  }
}
