// Effective permissions of a request and the membership test the permission
// decorator applies before an operation.
module Permission {
  import opened Strings
  import opened Common
  import opened RequestContext

  /** The three keys getFullPermissionListFromContext reads are all set. */
  predicate HasCaller(ctx: Context)
  {
    ctx.user.Some? && ctx.roles.Some? && ctx.permissions.Some?
  }

  function GetUser(ctx: Context): User
    requires ctx.user.Some?
  {
    ctx.user.value
  }

  function GetRoles(ctx: Context): seq<Role>
    requires ctx.roles.Some?
  {
    ctx.roles.value
  }

  function GetPermissions(ctx: Context): seq<Permission>
    requires ctx.permissions.Some?
  {
    ctx.permissions.value
  }

  /** The permissions of each role, in role order. */
  function RolePermissions(roles: seq<Role>): seq<Permission>
  {
    if roles == [] then [] else RolePermissions(roles[..|roles| - 1]) + roles[|roles| - 1].permissions
  }

  /**
   * The effective list: the context's permissions, those of each context
   * role, the user's own, then those of each of the user's roles.
   */
  function FullPermissionList(ctx: Context): seq<Permission>
    requires HasCaller(ctx)
  {
    var user := GetUser(ctx);
    GetPermissions(ctx) + RolePermissions(GetRoles(ctx)) + user.permissions + RolePermissions(user.roles)
  }

  /** Appends the permissions of every role to `acc`, one role at a time. */
  method AppendRolePermissions(acc: seq<Permission>, roles: seq<Role>) returns (r: seq<Permission>)
    ensures r == acc + RolePermissions(roles)
  {
    r := acc;
    for i := 0 to |roles|
      invariant r == acc + RolePermissions(roles[..i])
    {
      assert roles[..i + 1][..i] == roles[..i];
      r := r + roles[i].permissions;
    }
    assert roles[..|roles|] == roles;
  }

  /** getFullPermissionListFromContext. */
  method GetFullPermissionList(ctx: Context) returns (permissions: seq<Permission>)
    requires HasCaller(ctx)
    ensures permissions == FullPermissionList(ctx)
  {
    permissions := GetPermissions(ctx);
    permissions := AppendRolePermissions(permissions, GetRoles(ctx));
    var user := GetUser(ctx);
    permissions := permissions + user.permissions;
    permissions := AppendRolePermissions(permissions, user.roles);
  }

  /** Some permission in the list names both the entity and the operation. */
  predicate Grants(permissions: seq<Permission>, operation: Operation, entity: EntityName)
  {
    exists i :: 0 <= i < |permissions| && permissions[i].entity == entity && permissions[i].operation == operation
  }

  /** HasPermission: a linear search of the effective list with an early return. */
  method HasPermission(ctx: Context, operation: Operation, entity: EntityName) returns (b: bool)
    requires HasCaller(ctx)
    ensures b <==> Grants(FullPermissionList(ctx), operation, entity)
  {
    var permissions := GetFullPermissionList(ctx);
    for i := 0 to |permissions|
      invariant forall k :: 0 <= k < i ==> !(permissions[k].entity == entity && permissions[k].operation == operation)
    {
      if permissions[i].entity == entity && permissions[i].operation == operation {
        return true;
      }
    }
    return false;
  }

  /** The decision HasPermission computes, for use in specifications. */
  predicate Permitted(ctx: Context, operation: Operation, entity: EntityName)
    requires HasCaller(ctx)
  {
    Grants(FullPermissionList(ctx), operation, entity)
  }

  /**
   * PermissionDenied: "permission denied: <operation> <entity> for user
   * <id>", the identifier in its canonical text form.
   */
  function PermissionDenied(ctx: Context, operation: Operation, entity: EntityName): (e: Error)
    requires ctx.user.Some?
    ensures e.Failure?
    ensures var m := e.message; |m| >= 36 && ParseUuid(m[|m| - 36..]) == Some(GetUser(ctx).id)
    ensures var m := e.message; HasPrefix(m, "permission denied: " + operation + " " + entity + " for user ")
  {
    var id := UuidString(GetUser(ctx).id);
    var prefix := "permission denied: " + operation + " " + entity + " for user ";
    var m := prefix + id;
    UuidStringRoundTrip(GetUser(ctx).id);
    assert m[|m| - 36..] == id;
    assert m[..|prefix|] == prefix;
    Failure(m)
  }

  // ---- what the effective list contains -------------------------------------

  lemma {:induction false} RolePermissionsMembers(roles: seq<Role>, p: Permission)
    ensures p in RolePermissions(roles) <==> exists j :: 0 <= j < |roles| && p in roles[j].permissions
  {
    if roles != [] {
      var init := roles[..|roles| - 1];
      RolePermissionsMembers(init, p);
      if p in RolePermissions(init) {
        var j :| 0 <= j < |init| && p in init[j].permissions;
        assert roles[j] == init[j];
      }
      if exists j :: 0 <= j < |roles| && p in roles[j].permissions {
        var j :| 0 <= j < |roles| && p in roles[j].permissions;
        if j < |roles| - 1 {
          assert init[j] == roles[j];
        }
      }
    }
  }

  /**
   * A permission is effective iff one of the four sources holds it: the
   * context's list, a context role, the user's own list or one of the
   * user's roles.
   */
  lemma FullPermissionListMembers(ctx: Context, p: Permission)
    requires HasCaller(ctx)
    ensures p in FullPermissionList(ctx) <==>
      p in GetPermissions(ctx)
      || (exists j :: 0 <= j < |GetRoles(ctx)| && p in GetRoles(ctx)[j].permissions)
      || p in GetUser(ctx).permissions
      || (exists j :: 0 <= j < |GetUser(ctx).roles| && p in GetUser(ctx).roles[j].permissions)
  {
    RolePermissionsMembers(GetRoles(ctx), p);
    RolePermissionsMembers(GetUser(ctx).roles, p);
  }

  /** Grants looks at the list as a set: order and repetition do not matter. */
  lemma GrantsBySet(ps: seq<Permission>, qs: seq<Permission>, operation: Operation, entity: EntityName)
    requires forall p :: p in ps ==> p in qs
    ensures Grants(ps, operation, entity) ==> Grants(qs, operation, entity)
  {
    if Grants(ps, operation, entity) {
      var i :| 0 <= i < |ps| && ps[i].entity == entity && ps[i].operation == operation;
      assert ps[i] in qs;
      var k :| 0 <= k < |qs| && qs[k] == ps[i];
    }
  }

  /**
   * Every source of `small` is contained in the matching source of `large`:
   * lists as sets, and each role of `small` has a role in `large` holding
   * at least its permissions.
   */
  predicate SourcesWithin(small: Context, large: Context)
    requires HasCaller(small) && HasCaller(large)
  {
    (forall p :: p in GetPermissions(small) ==> p in GetPermissions(large))
    && RolesWithin(GetRoles(small), GetRoles(large))
    && (forall p :: p in GetUser(small).permissions ==> p in GetUser(large).permissions)
    && RolesWithin(GetUser(small).roles, GetUser(large).roles)
  }

  predicate RolesWithin(small: seq<Role>, large: seq<Role>)
  {
    forall j :: 0 <= j < |small| ==>
      exists k :: 0 <= k < |large| && forall p :: p in small[j].permissions ==> p in large[k].permissions
  }

  /**
   * Monotonicity: adding permissions or roles to any of the four sources,
   * in any order and with any repetition, never withdraws a permission.
   */
  lemma PermittedMonotone(small: Context, large: Context, operation: Operation, entity: EntityName)
    requires HasCaller(small) && HasCaller(large)
    requires SourcesWithin(small, large)
    ensures Permitted(small, operation, entity) ==> Permitted(large, operation, entity)
  {
    forall p | p in FullPermissionList(small) ensures p in FullPermissionList(large) {
      FullPermissionListMembers(small, p);
      FullPermissionListMembers(large, p);
      if exists j :: 0 <= j < |GetRoles(small)| && p in GetRoles(small)[j].permissions {
        var j :| 0 <= j < |GetRoles(small)| && p in GetRoles(small)[j].permissions;
        var k :| 0 <= k < |GetRoles(large)| && forall q :: q in GetRoles(small)[j].permissions ==> q in GetRoles(large)[k].permissions;
        assert p in GetRoles(large)[k].permissions;
      } else if exists j :: 0 <= j < |GetUser(small).roles| && p in GetUser(small).roles[j].permissions {
        var j :| 0 <= j < |GetUser(small).roles| && p in GetUser(small).roles[j].permissions;
        var k :| 0 <= k < |GetUser(large).roles| && forall q :: q in GetUser(small).roles[j].permissions ==> q in GetUser(large).roles[k].permissions;
        assert p in GetUser(large).roles[k].permissions;
      }
    }
    GrantsBySet(FullPermissionList(small), FullPermissionList(large), operation, entity);
  }

  /** A caller with no permissions anywhere is denied everything. */
  lemma NothingGrantedWithoutPermissions(ctx: Context, operation: Operation, entity: EntityName)
    requires HasCaller(ctx)
    requires GetPermissions(ctx) == [] && GetUser(ctx).permissions == []
    requires forall j :: 0 <= j < |GetRoles(ctx)| ==> GetRoles(ctx)[j].permissions == []
    requires forall j :: 0 <= j < |GetUser(ctx).roles| ==> GetUser(ctx).roles[j].permissions == []
    ensures !Permitted(ctx, operation, entity)
  {
    if Permitted(ctx, operation, entity) {
      var ps := FullPermissionList(ctx);
      var i :| 0 <= i < |ps| && ps[i].entity == entity && ps[i].operation == operation;
      FullPermissionListMembers(ctx, ps[i]);
    }
  }
}
