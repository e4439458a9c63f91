// The audit object a request carries in its context, and the helpers that
// update one field of it in place and hand back a context holding it.
module AuditContext {
  import opened Common
  import opened RequestContext
  import Models

  /**
   * A request context whose audit key holds a pointer to an audit object,
   * as ctx.Value hands back the Audit interface value. Contexts derived
   * from one another share that object.
   */
  datatype AuditingContext = AuditingContext(
    user: Option<User>,
    roles: Option<seq<Role>>,
    permissions: Option<seq<Permission>>,
    audit: Option<Models.AuditEntity>)

  /** WithAudit: a context whose audit key holds `a`; the other keys are kept. */
  function WithAudit(ctx: AuditingContext, a: Models.AuditEntity): (r: AuditingContext)
    ensures GetAudit(r) == Some(a)
    ensures r.user == ctx.user && r.roles == ctx.roles && r.permissions == ctx.permissions
  {
    ctx.(audit := Some(a))
  }

  /** GetAudit: the stored audit, or the zero value of the pointer type (nil) when none is set. */
  function GetAudit(ctx: AuditingContext): Option<Models.AuditEntity>
  {
    ctx.audit
  }

  /** The objects a Set* helper may write: the audit object, when there is one. */
  function AuditObject(ctx: AuditingContext): set<object>
  {
    if ctx.audit.Some? then {ctx.audit.value} else {}
  }

  // Each Set* helper fetches the audit, updates one field through its setter
  // and stores the same object again. The change is made to the object, so
  // the context the helper was given sees it as well. With no audit set, the
  // setter is called through a nil pointer and panics.

  method SetAction(ctx: AuditingContext, action: AuditAction) returns (r: Result<AuditingContext>)
    modifies AuditObject(ctx)
    ensures r.Ok? <==> GetAudit(ctx).Some?
    ensures r.Err? ==> r.error == NilAuditPanic
    ensures r.Ok? ==> r.value == WithAudit(ctx, GetAudit(ctx).value) && GetAudit(r.value) == GetAudit(ctx)
    ensures GetAudit(ctx).Some? ==>
      GetAudit(ctx).value.Record() == old(GetAudit(ctx).value.Record()).(action := action)
  {
    var audit := GetAudit(ctx);
    if audit.None? {
      return Err(NilAuditPanic);
    }
    audit.value.SetAction(action);
    r := Ok(WithAudit(ctx, audit.value));
  }

  method SetUserID(ctx: AuditingContext, userId: Uuid) returns (r: Result<AuditingContext>)
    modifies AuditObject(ctx)
    ensures r.Ok? <==> GetAudit(ctx).Some?
    ensures r.Err? ==> r.error == NilAuditPanic
    ensures r.Ok? ==> r.value == WithAudit(ctx, GetAudit(ctx).value) && GetAudit(r.value) == GetAudit(ctx)
    ensures GetAudit(ctx).Some? ==>
      GetAudit(ctx).value.Record() == old(GetAudit(ctx).value.Record()).(userId := userId)
  {
    var audit := GetAudit(ctx);
    if audit.None? {
      return Err(NilAuditPanic);
    }
    audit.value.SetUserID(userId);
    r := Ok(WithAudit(ctx, audit.value));
  }

  method SetEntity(ctx: AuditingContext, entity: EntityName) returns (r: Result<AuditingContext>)
    modifies AuditObject(ctx)
    ensures r.Ok? <==> GetAudit(ctx).Some?
    ensures r.Err? ==> r.error == NilAuditPanic
    ensures r.Ok? ==> r.value == WithAudit(ctx, GetAudit(ctx).value) && GetAudit(r.value) == GetAudit(ctx)
    ensures GetAudit(ctx).Some? ==>
      GetAudit(ctx).value.Record() == old(GetAudit(ctx).value.Record()).(entity := entity)
  {
    var audit := GetAudit(ctx);
    if audit.None? {
      return Err(NilAuditPanic);
    }
    audit.value.SetEntity(entity);
    r := Ok(WithAudit(ctx, audit.value));
  }

  method SetEntityID(ctx: AuditingContext, entityId: Uuid) returns (r: Result<AuditingContext>)
    modifies AuditObject(ctx)
    ensures r.Ok? <==> GetAudit(ctx).Some?
    ensures r.Err? ==> r.error == NilAuditPanic
    ensures r.Ok? ==> r.value == WithAudit(ctx, GetAudit(ctx).value) && GetAudit(r.value) == GetAudit(ctx)
    ensures GetAudit(ctx).Some? ==>
      GetAudit(ctx).value.Record() == old(GetAudit(ctx).value.Record()).(entityId := entityId)
  {
    var audit := GetAudit(ctx);
    if audit.None? {
      return Err(NilAuditPanic);
    }
    audit.value.SetEntityID(entityId);
    r := Ok(WithAudit(ctx, audit.value));
  }

  method SetNewValue(ctx: AuditingContext, newValue: string) returns (r: Result<AuditingContext>)
    modifies AuditObject(ctx)
    ensures r.Ok? <==> GetAudit(ctx).Some?
    ensures r.Err? ==> r.error == NilAuditPanic
    ensures r.Ok? ==> r.value == WithAudit(ctx, GetAudit(ctx).value) && GetAudit(r.value) == GetAudit(ctx)
    ensures GetAudit(ctx).Some? ==>
      GetAudit(ctx).value.Record() == old(GetAudit(ctx).value.Record()).(newValue := newValue)
  {
    var audit := GetAudit(ctx);
    if audit.None? {
      return Err(NilAuditPanic);
    }
    audit.value.SetNewValue(newValue);
    r := Ok(WithAudit(ctx, audit.value));
  }

  method SetLocation(ctx: AuditingContext, location: string) returns (r: Result<AuditingContext>)
    modifies AuditObject(ctx)
    ensures r.Ok? <==> GetAudit(ctx).Some?
    ensures r.Err? ==> r.error == NilAuditPanic
    ensures r.Ok? ==> r.value == WithAudit(ctx, GetAudit(ctx).value) && GetAudit(r.value) == GetAudit(ctx)
    ensures GetAudit(ctx).Some? ==>
      GetAudit(ctx).value.Record() == old(GetAudit(ctx).value.Record()).(location := location)
  {
    var audit := GetAudit(ctx);
    if audit.None? {
      return Err(NilAuditPanic);
    }
    audit.value.SetLocation(location);
    r := Ok(WithAudit(ctx, audit.value));
  }

  method SetIP(ctx: AuditingContext, ip: string) returns (r: Result<AuditingContext>)
    modifies AuditObject(ctx)
    ensures r.Ok? <==> GetAudit(ctx).Some?
    ensures r.Err? ==> r.error == NilAuditPanic
    ensures r.Ok? ==> r.value == WithAudit(ctx, GetAudit(ctx).value) && GetAudit(r.value) == GetAudit(ctx)
    ensures GetAudit(ctx).Some? ==>
      GetAudit(ctx).value.Record() == old(GetAudit(ctx).value.Record()).(ip := ip)
  {
    var audit := GetAudit(ctx);
    if audit.None? {
      return Err(NilAuditPanic);
    }
    audit.value.SetIP(ip);
    r := Ok(WithAudit(ctx, audit.value));
  }

  method SetUserAgent(ctx: AuditingContext, userAgent: string) returns (r: Result<AuditingContext>)
    modifies AuditObject(ctx)
    ensures r.Ok? <==> GetAudit(ctx).Some?
    ensures r.Err? ==> r.error == NilAuditPanic
    ensures r.Ok? ==> r.value == WithAudit(ctx, GetAudit(ctx).value) && GetAudit(r.value) == GetAudit(ctx)
    ensures GetAudit(ctx).Some? ==>
      GetAudit(ctx).value.Record() == old(GetAudit(ctx).value.Record()).(userAgent := userAgent)
  {
    var audit := GetAudit(ctx);
    if audit.None? {
      return Err(NilAuditPanic);
    }
    audit.value.SetUserAgent(userAgent);
    r := Ok(WithAudit(ctx, audit.value));
  }

  method SetPrevValue(ctx: AuditingContext, prevValue: string) returns (r: Result<AuditingContext>)
    modifies AuditObject(ctx)
    ensures r.Ok? <==> GetAudit(ctx).Some?
    ensures r.Err? ==> r.error == NilAuditPanic
    ensures r.Ok? ==> r.value == WithAudit(ctx, GetAudit(ctx).value) && GetAudit(r.value) == GetAudit(ctx)
    ensures GetAudit(ctx).Some? ==>
      GetAudit(ctx).value.Record() == old(GetAudit(ctx).value.Record()).(prevValue := prevValue)
  {
    var audit := GetAudit(ctx);
    if audit.None? {
      return Err(NilAuditPanic);
    }
    audit.value.SetPrevValue(prevValue);
    r := Ok(WithAudit(ctx, audit.value));
  }
}
