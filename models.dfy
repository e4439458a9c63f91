// The application's entity models: the embedded base with its identifier,
// and the audit, permission, role and user records built on it.
module Models {
  import opened Strings
  import opened Common
  import opened RequestContext

  /** BaseModel: the identifier every model embeds; timestamps are not modelled. */
  class BaseModel {
    var id: Uuid

    constructor ()
      ensures id == NilUuid
    {
      id := NilUuid;
    }

    /**
     * The create hook: a nil identifier is replaced by a fresh one (any
     * non-nil UUID); a set identifier is kept, so a second call keeps the
     * first one's choice. It never fails.
     */
    method BeforeCreate() returns (err: Option<Error>)
      modifies this
      ensures old(id) == NilUuid ==> id != NilUuid
      ensures old(id) != NilUuid ==> id == old(id)
      ensures err == None
    {
      if id == NilUuid {
        var some: Uuid := [1, 0, 0, 0, 0, 0, 0, 0, 0, 0, 0, 0, 0, 0, 0, 0];
        assert some != NilUuid;
        var generated: Uuid :| generated != NilUuid;
        id := generated;
      }
      return None;
    }

    function GetID(): Uuid
      reads this
    {
      id
    }

    method SetID(newId: Uuid)
      modifies this
      ensures GetID() == newId
    {
      id := newId;
    }

    function GetEntityName(): EntityName
    {
      "BaseModel"
    }
  }

  /** AuditEntity: one audit log row. */
  class AuditEntity {
    const base: BaseModel
    var action: AuditAction
    var result: AuditActionResult
    var message: string
    var userId: Uuid
    var entity: EntityName
    var entityId: Uuid
    var newValue: string
    var prevValue: string
    var location: string
    var ip: string
    var userAgent: string

    constructor ()
      ensures fresh(base)
      ensures Record() == AuditRecord(NilUuid, "", "", "", NilUuid, "", NilUuid, "", "", "", "", "")
    {
      base := new BaseModel();
      action, result, message := "", "", "";
      userId, entity, entityId := NilUuid, "", NilUuid;
      newValue, prevValue := "", "";
      location, ip, userAgent := "", "", "";
    }

    /** The row's fields as one value, the view the audit decorator works on. */
    function Record(): AuditRecord
      reads this, base
    {
      AuditRecord(base.id, action, result, message, userId, entity, entityId,
                  newValue, prevValue, location, ip, userAgent)
    }

    function GetEntityName(): EntityName
    {
      "Audit"
    }

    /** GetName: the identifier's text form, which reads back as the identifier. */
    function GetName(): (r: string)
      reads base
      ensures |r| == 36 && ParseUuid(r) == Some(base.id)
    {
      UuidStringRoundTrip(base.id);
      UuidString(base.id)
    }

    function GetAction(): AuditAction reads this { action }
    function GetActionResult(): AuditActionResult reads this { result }
    function GetMessage(): string reads this { message }
    function GetUserID(): Uuid reads this { userId }
    function GetEntity(): EntityName reads this { entity }
    function GetEntityID(): Uuid reads this { entityId }
    function GetNewValue(): string reads this { newValue }
    function GetPrevValue(): string reads this { prevValue }
    function GetLocation(): string reads this { location }
    function GetIP(): string reads this { ip }
    function GetUserAgent(): string reads this { userAgent }

    method SetAction(v: AuditAction)
      modifies this
      ensures GetAction() == v && Record() == old(Record()).(action := v)
    {
      action := v;
    }

    method SetActionResult(v: AuditActionResult)
      modifies this
      ensures GetActionResult() == v && Record() == old(Record()).(result := v)
    {
      result := v;
    }

    method SetMessage(v: string)
      modifies this
      ensures GetMessage() == v && Record() == old(Record()).(message := v)
    {
      message := v;
    }

    method SetUserID(v: Uuid)
      modifies this
      ensures GetUserID() == v && Record() == old(Record()).(userId := v)
    {
      userId := v;
    }

    method SetEntity(v: EntityName)
      modifies this
      ensures GetEntity() == v && Record() == old(Record()).(entity := v)
    {
      entity := v;
    }

    method SetEntityID(v: Uuid)
      modifies this
      ensures GetEntityID() == v && Record() == old(Record()).(entityId := v)
    {
      entityId := v;
    }

    method SetNewValue(v: string)
      modifies this
      ensures GetNewValue() == v && Record() == old(Record()).(newValue := v)
    {
      newValue := v;
    }

    method SetPrevValue(v: string)
      modifies this
      ensures GetPrevValue() == v && Record() == old(Record()).(prevValue := v)
    {
      prevValue := v;
    }

    method SetLocation(v: string)
      modifies this
      ensures GetLocation() == v && Record() == old(Record()).(location := v)
    {
      location := v;
    }

    method SetIP(v: string)
      modifies this
      ensures GetIP() == v && Record() == old(Record()).(ip := v)
    {
      ip := v;
    }

    method SetUserAgent(v: string)
      modifies this
      ensures GetUserAgent() == v && Record() == old(Record()).(userAgent := v)
    {
      userAgent := v;
    }
  }

  /** PermissionEntity: the right to perform one operation on one entity type. */
  class PermissionEntity {
    const base: BaseModel
    var entity: EntityName
    var operation: Operation

    constructor (entity: EntityName, operation: Operation)
      ensures fresh(base) && this.entity == entity && this.operation == operation
    {
      base := new BaseModel();
      this.entity := entity;
      this.operation := operation;
    }

    function GetEntityName(): EntityName
    {
      "Permission"
    }

    /**
     * ToString: "entity:operation". When the entity name holds no ':', the
     * first ':' separates the two parts again.
     */
    function ToString(): (r: string)
      reads this
      ensures |r| == |entity| + 1 + |operation|
      ensures ':' !in entity ==> IndexOf(r, ':') == |entity| && r[..|entity|] == entity && r[|entity| + 1..] == operation
    {
      var r := entity + ":" + operation;
      if ':' in entity then r
      else
        assert r == entity + [':'] + operation;
        IndexOfJoined(entity, ':', operation);
        r
    }

    /** GetName is the ToString text. */
    function GetName(): (r: string)
      reads this
      ensures r == ToString()
    {
      ToString()
    }

    function GetEntity(): EntityName reads this { entity }
    function GetOperation(): Operation reads this { operation }

    method SetEntity(v: EntityName)
      modifies this
      ensures GetEntity() == v && GetOperation() == old(GetOperation())
    {
      entity := v;
    }

    method SetOperation(v: Operation)
      modifies this
      ensures GetOperation() == v && GetEntity() == old(GetEntity())
    {
      operation := v;
    }

    /** The permission as the permission check reads it. */
    function AsPermission(): Permission
      reads this
    {
      Permission(entity, operation)
    }
  }

  /** RoleEntity: a named group of permissions. */
  class RoleEntity {
    const base: BaseModel
    var name: string
    var permissions: seq<PermissionEntity>

    constructor (name: string, permissions: seq<PermissionEntity>)
      ensures fresh(base) && this.name == name && this.permissions == permissions
    {
      base := new BaseModel();
      this.name := name;
      this.permissions := permissions;
    }

    function GetEntityName(): EntityName
    {
      "Role"
    }

    function GetName(): string
      reads this
    {
      name
    }
  }

  /** The permissions of each role, in role order. */
  function Flatten(roles: seq<RoleEntity>): seq<PermissionEntity>
    reads roles
  {
    if roles == [] then [] else Flatten(roles[..|roles| - 1]) + roles[|roles| - 1].permissions
  }

  /** A permission object is in the flattened list iff one of the roles holds it. */
  lemma {:induction false} FlattenMembers(roles: seq<RoleEntity>, p: PermissionEntity)
    ensures p in Flatten(roles) <==> exists j :: 0 <= j < |roles| && p in roles[j].permissions
  {
    if roles != [] {
      var init := roles[..|roles| - 1];
      FlattenMembers(init, p);
      if p in Flatten(init) {
        var j :| 0 <= j < |init| && p in init[j].permissions;
        assert roles[j] == init[j];
      }
      if exists j :: 0 <= j < |roles| && p in roles[j].permissions {
        var j :| 0 <= j < |roles| && p in roles[j].permissions;
        if j < |roles| - 1 {
          assert init[j] == roles[j];
        }
      }
    }
  }

  /** The flattened list is as long as all the roles' lists together, and empty without roles. */
  lemma {:induction false} FlattenLength(roles: seq<RoleEntity>)
    ensures |Flatten(roles)| == TotalPermissions(roles)
    ensures roles == [] ==> Flatten(roles) == []
  {
    if roles != [] {
      FlattenLength(roles[..|roles| - 1]);
    }
  }

  function TotalPermissions(roles: seq<RoleEntity>): nat
    reads roles
  {
    if roles == [] then 0 else TotalPermissions(roles[..|roles| - 1]) + |roles[|roles| - 1].permissions|
  }

  /** UserEntity: an account and its roles. Its permissions are only those of its roles. */
  class UserEntity {
    const base: BaseModel
    var username: string
    var email: string
    var roles: seq<RoleEntity>

    constructor (username: string, email: string, roles: seq<RoleEntity>)
      ensures fresh(base) && this.username == username && this.email == email && this.roles == roles
    {
      base := new BaseModel();
      this.username := username;
      this.email := email;
      this.roles := roles;
    }

    function GetEntityName(): EntityName
    {
      "User"
    }

    function GetName(): string
      reads this
    {
      username
    }

    function GetRoles(): seq<RoleEntity>
      reads this
    {
      roles
    }

    method SetRoles(newRoles: seq<RoleEntity>)
      modifies this
      ensures GetRoles() == newRoles
      ensures username == old(username) && email == old(email)
    {
      roles := newRoles;
    }

    /** GetPermissions: append each role's permissions, in role order. */
    method GetPermissions() returns (permissions: seq<PermissionEntity>)
      ensures permissions == Flatten(roles)
    {
      permissions := [];
      for i := 0 to |roles|
        invariant permissions == Flatten(roles[..i])
      {
        assert roles[..i + 1][..i] == roles[..i];
        permissions := permissions + roles[i].permissions;
      }
      assert roles[..|roles|] == roles;
    }

    /** SetPermissions does nothing: a user's permissions come from its roles. */
    method SetPermissions(permissions: seq<PermissionEntity>)
      ensures unchanged(this)
    {
    }
  }
}
