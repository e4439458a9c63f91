// The values a request's context.Context carries from the HTTP layer down to
// the service decorators: who is calling (user, roles, permissions) and the
// audit record being filled in for this request.
module RequestContext {
  import opened Common

  // ---- permissions ----------------------------------------------------------

  /** permission.Operation: a free string; twelve values are named. */
  type Operation = string

  const OperationCreate: Operation := "CREATE"
  const OperationRead: Operation := "READ"
  const OperationUpdate: Operation := "UPDATE"
  const OperationDelete: Operation := "DELETE"
  const OperationEnable: Operation := "ENABLE"
  const OperationDisable: Operation := "DISABLE"
  const OperationAssociate: Operation := "ASSOCIATE"
  const OperationDissociate: Operation := "DISSOCIATE"
  const OperationLogin: Operation := "LOGIN"
  const OperationLogout: Operation := "LOGOUT"
  const OperationApprove: Operation := "APPROVE"
  const OperationReject: Operation := "REJECT"

  /** A permission as permission.Permission exposes it: GetEntity and GetOperation. */
  datatype Permission = Permission(entity: EntityName, operation: Operation)

  /** A role as permission.Role exposes it: GetPermissions. */
  datatype Role = Role(permissions: seq<Permission>)

  /** A user as permission.User exposes it: GetID, GetRoles and GetPermissions. */
  datatype User = User(id: Uuid, roles: seq<Role>, permissions: seq<Permission>)

  // ---- audit records --------------------------------------------------------

  /** audit.AuditAction: thirteen named values, NONE included. */
  type AuditAction = string

  const AuditActionNone: AuditAction := "NONE"
  const AuditActionCreate: AuditAction := "CREATE"
  const AuditActionRead: AuditAction := "READ"
  const AuditActionUpdate: AuditAction := "UPDATE"
  const AuditActionDelete: AuditAction := "DELETE"
  const AuditActionEnable: AuditAction := "ENABLE"
  const AuditActionDisable: AuditAction := "DISABLE"
  const AuditActionAssociate: AuditAction := "ASSOCIATE"
  const AuditActionDissociate: AuditAction := "DISSOCIATE"
  const AuditActionLogin: AuditAction := "LOGIN"
  const AuditActionLogout: AuditAction := "LOGOUT"
  const AuditActionApprove: AuditAction := "APPROVE"
  const AuditActionReject: AuditAction := "REJECT"

  /** audit.AuditActionResult. */
  type AuditActionResult = string

  const AuditActionResultNone: AuditActionResult := "NONE"
  const AuditActionResultSuccess: AuditActionResult := "SUCCESS"
  const AuditActionResultFailure: AuditActionResult := "FAILURE"

  /** The fields of an audit record, as audit.Audit reads and writes them. */
  datatype AuditRecord = AuditRecord(
    id: Uuid,
    action: AuditAction,
    result: AuditActionResult,
    message: string,
    userId: Uuid,
    entity: EntityName,
    entityId: Uuid,
    newValue: string,
    prevValue: string,
    location: string,
    ip: string,
    userAgent: string)

  // ---- the context ----------------------------------------------------------

  /**
   * The four context keys the generic layers read. `None` is a key that was
   * never set: ctx.Value returns nil for it.
   */
  datatype Context = Context(
    user: Option<User>,
    roles: Option<seq<Role>>,
    permissions: Option<seq<Permission>>,
    audit: Option<AuditRecord>)

  /** The panic of a type assertion on a key that was never set. */
  const MissingValuePanic: Error := Panic("interface conversion: interface {} is nil")

  /** The panic of a method call through a nil audit pointer. */
  const NilAuditPanic: Error := Panic("invalid memory address or nil pointer dereference")

  // ---- the audit store ------------------------------------------------------

  /**
   * The audit repository as the audit decorator uses it: the records it
   * holds and the error its Create would return, if it is failing.
   */
  datatype AuditStore = AuditStore(records: seq<AuditRecord>, failure: Option<Error>)

  /**
   * What a request can change: its context (the audit record in it is a
   * shared object every layer updates), the audit store, and the data
   * behind the wrapped repository.
   */
  datatype World<D> = World(ctx: Context, store: AuditStore, data: D)
}
