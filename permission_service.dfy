// The permission decorator: a service with hooks whose Before hooks refuse
// an operation the caller holds no permission for.
module PermissionService {
  import opened Common
  import opened RequestContext
  import opened Permission
  import opened Service

  /**
   * One permission check: HasPermission, then PermissionDenied when it is
   * false. Both read the caller from the context and panic when a key was
   * never set.
   */
  function Check(ctx: Context, operation: Operation, entity: EntityName): (r: Option<Error>)
    ensures !HasCaller(ctx) ==> r == Some(MissingValuePanic)
    ensures HasCaller(ctx) ==> (r.None? <==> Permitted(ctx, operation, entity))
    ensures HasCaller(ctx) && r.Some? ==> r.value == PermissionDenied(ctx, operation, entity)
  {
    if !HasCaller(ctx) then Some(MissingValuePanic)
    else if Permitted(ctx, operation, entity) then None
    else Some(PermissionDenied(ctx, operation, entity))
  }

  /** A hook checking `operation` on the type of the first entity it is given. */
  function FirstEntityCheck<D>(operation: Operation): Hook<World<D>>
  {
    (w: World<D>, call: HookCall) =>
      if |call.entities| == 0 then (w, Some(IndexPanic))
      else (w, Check(w.ctx, operation, call.entities[0].entityName))
  }

  /** A hook checking `operation` on the entity name of a zero E. */
  function ZeroEntityCheck<D>(operation: Operation, entityName: EntityName): Hook<World<D>>
  {
    (w: World<D>, call: HookCall) => (w, Check(w.ctx, operation, entityName))
  }

  /** The six hooks NewPermissionService installs; no After or OnFail hook. */
  function PermissionHooks<D>(entityName: EntityName): Hooks<World<D>>
  {
    map[
      HookName(CreateHooks, Before) := FirstEntityCheck(OperationCreate),
      HookName(FindHooks, Before) := FirstEntityCheck(OperationRead),
      HookName(UpdateHooks, Before) := FirstEntityCheck(OperationUpdate),
      HookName(DeleteHooks, Before) := FirstEntityCheck(OperationDelete),
      HookName(AssocHooks, Before) := ZeroEntityCheck(OperationAssociate, entityName),
      HookName(DissocHooks, Before) := ZeroEntityCheck(OperationDissociate, entityName)]
  }

  /** NewPermissionService: a service over `repo` with the six checks installed. */
  method NewPermissionService<D>(repo: Repo<World<D>>, entityName: EntityName) returns (svc: CrudServiceWithHooks<World<D>>)
    ensures fresh(svc)
    ensures svc.hooks == PermissionHooks(entityName) && svc.repo == repo && svc.entityName == entityName
  {
    svc := new CrudServiceWithHooks(repo, entityName);
    svc.SetHook(HookName(CreateHooks, Before), FirstEntityCheck(OperationCreate));
    svc.SetHook(HookName(FindHooks, Before), FirstEntityCheck(OperationRead));
    svc.SetHook(HookName(UpdateHooks, Before), FirstEntityCheck(OperationUpdate));
    svc.SetHook(HookName(DeleteHooks, Before), FirstEntityCheck(OperationDelete));
    svc.SetHook(HookName(AssocHooks, Before), ZeroEntityCheck(OperationAssociate, entityName));
    svc.SetHook(HookName(DissocHooks, Before), ZeroEntityCheck(OperationDissociate, entityName));
  }

  /** The operation a request is checked for, if it is checked at all. */
  function RequiredOperation(req: Request): Option<Operation>
  {
    match req
    case Create(_) => Some(OperationCreate)
    case Update(_) => Some(OperationUpdate)
    case UpdateField(_, _, _) => Some(OperationUpdate)
    case Delete(_) => Some(OperationDelete)
    case FindOne(_, _) => Some(OperationRead)
    case FindAll(_, _, _, _) => Some(OperationRead)
    case Associate(_, _, _) => Some(OperationAssociate)
    case Dissociate(_, _, _) => Some(OperationDissociate)
    case _ => None
  }

  /** The entity name the check is made on: the payload's, or a zero E's. */
  function CheckedName(req: Request, entityName: EntityName): EntityName
  {
    match req
    case Create(p) => p.entityName
    case Update(p) => p.entityName
    case UpdateField(p, _, _) => p.entityName
    case Delete(p) => p.entityName
    case _ => entityName
  }

  /**
   * Every checked operation other than FindAll: without the permission the
   * call is refused with PermissionDenied and its veto value, the state is
   * untouched and the wrapped service is never reached; with it, the
   * outcome is exactly the wrapped service's.
   */
  lemma CheckedOperation<D>(entityName: EntityName, repo: Repo<World<D>>, w: World<D>, req: Request)
    requires HasCaller(w.ctx)
    requires RequiredOperation(req).Some? && !req.FindAll?
    ensures var op := RequiredOperation(req).value;
      var name := CheckedName(req, entityName);
      RunOp(PermissionHooks(entityName), repo, entityName, w, req) ==
        if Permitted(w.ctx, op, name) then repo(w, req)
        else Outcome(w, VetoReply(req, ZeroEntity(entityName)), Some(PermissionDenied(w.ctx, op, name)))
  {
    var hooks: Hooks<World<D>> := PermissionHooks(entityName);
    var g := GroupOf(req);
    assert HookName(g, OnFail) !in hooks && HookName(g, After) !in hooks;
  }

  /** Count, Exists, Random, First and ComboBox are not checked: they pass straight through. */
  lemma UncheckedOperation<D>(entityName: EntityName, repo: Repo<World<D>>, w: World<D>, req: Request)
    requires RequiredOperation(req).None?
    ensures RunOp(PermissionHooks(entityName), repo, entityName, w, req) == repo(w, req)
  {
    var hooks: Hooks<World<D>> := PermissionHooks(entityName);
    var g := GroupOf(req);
    assert HookName(g, Before) !in hooks && HookName(g, OnFail) !in hooks && HookName(g, After) !in hooks;
  }

  /**
   * FindAll hands BeforeFind no entities, and the check indexes the first
   * one: every FindAll through the permission decorator panics, whoever
   * calls it.
   */
  lemma FindAllPanics<D>(entityName: EntityName, repo: Repo<World<D>>, w: World<D>,
                         p: Pageable, f: Option<Filter.Filter>, rs: seq<Relation.Relation>, os: seq<Order.OrderBy>)
    ensures RunOp(PermissionHooks(entityName), repo, entityName, w, FindAll(p, f, rs, os)) ==
      Outcome(w, PageReply(EmptyPage()), Some(IndexPanic))
  {
  }

  // ---- corrected: BeforeFind checks the service's own entity type -----------

  /**
   * A find check that falls back to the entity name of a zero E when it is
   * given no entities, as Associate's check does.
   */
  function FindCheck<D>(entityName: EntityName): Hook<World<D>>
  {
    (w: World<D>, call: HookCall) =>
      var name := if |call.entities| == 0 then entityName else call.entities[0].entityName;
      (w, Check(w.ctx, OperationRead, name))
  }

  function CheckedPermissionHooks<D>(entityName: EntityName): Hooks<World<D>>
  {
    PermissionHooks(entityName)[HookName(FindHooks, Before) := FindCheck(entityName)]
  }

  /**
   * With the corrected find check, FindAll is refused iff the caller may
   * not READ the service's entity type, and otherwise passes through; it
   * never panics for a caller whose context is set.
   */
  lemma CheckedFindAll<D>(entityName: EntityName, repo: Repo<World<D>>, w: World<D>,
                          p: Pageable, f: Option<Filter.Filter>, rs: seq<Relation.Relation>, os: seq<Order.OrderBy>)
    requires HasCaller(w.ctx)
    ensures RunOp(CheckedPermissionHooks(entityName), repo, entityName, w, FindAll(p, f, rs, os)) ==
      if Permitted(w.ctx, OperationRead, entityName) then repo(w, FindAll(p, f, rs, os))
      else Outcome(w, PageReply(EmptyPage()), Some(PermissionDenied(w.ctx, OperationRead, entityName)))
  {
    var hooks: Hooks<World<D>> := CheckedPermissionHooks(entityName);
    var req := FindAll(p, f, rs, os);
    assert HookName(FindHooks, OnFail) !in hooks && HookName(FindHooks, After) !in hooks;
    BeforeOnly(hooks, repo, entityName, w, req);
    assert BeforeEntities(req, ZeroEntity(entityName)) == [];
    assert RunHook(hooks, HookName(FindHooks, Before), w, HookCall(None, [])) ==
      (w, Check(w.ctx, OperationRead, entityName));
  }

  /** The corrected hooks agree with the installed ones on every other operation. */
  lemma CheckedAgreesElsewhere<D>(entityName: EntityName, repo: Repo<World<D>>, w: World<D>, req: Request)
    requires !req.FindAll?
    ensures RunOp(CheckedPermissionHooks(entityName), repo, entityName, w, req) ==
      RunOp(PermissionHooks(entityName), repo, entityName, w, req)
  {
    var hooks: Hooks<World<D>> := CheckedPermissionHooks(entityName);
    var installed: Hooks<World<D>> := PermissionHooks(entityName);
    var g := GroupOf(req);
    var zero := ZeroEntity(entityName);
    var call := HookCall(None, BeforeEntities(req, zero));
    if req.FindOne? {
      assert call.entities == [zero];
    }
    assert RunHook(hooks, HookName(g, Before), w, call) == RunHook(installed, HookName(g, Before), w, call);
    assert HookName(g, OnFail) !in hooks && HookName(g, After) !in hooks;
    assert HookName(g, OnFail) !in installed && HookName(g, After) !in installed;
    var s1 := RunHook(installed, HookName(g, Before), w, call).0;
    assert AfterCall(hooks, req, repo(s1, req)) == AfterCall(installed, req, repo(s1, req));
  }
}
