// The user service: the permission decorator over the audit decorator over
// the user repository.
module Composition {
  import opened Common
  import opened RequestContext
  import opened Permission
  import opened Service
  import opened PermissionService
  import opened AuditService
  import GormRepository

  const UserEntityName: EntityName := "User"

  /** The user service's operations: permission, then audit, then the repository. */
  function UserService<D>(repository: Repo<World<D>>): Repo<World<D>>
  {
    AsRepo(CheckedPermissionHooks(UserEntityName), AsRepo(AuditHooks(), repository, UserEntityName), UserEntityName)
  }

  /** The same stack with the permission hooks as NewPermissionService installs them. */
  function UserServiceAsWritten<D>(repository: Repo<World<D>>): Repo<World<D>>
  {
    AsRepo(PermissionHooks(UserEntityName), AsRepo(AuditHooks(), repository, UserEntityName), UserEntityName)
  }

  /**
   * A call the caller has no permission for is refused before the audit
   * layer runs: the world, audit store included, is left exactly as it
   * was, so no audit record is written.
   */
  lemma DeniedCallWritesNoAudit<D>(repository: Repo<World<D>>, w: World<D>, req: Request)
    requires HasCaller(w.ctx)
    requires RequiredOperation(req).Some? && !req.FindAll?
    requires !Permitted(w.ctx, RequiredOperation(req).value, CheckedName(req, UserEntityName))
    ensures var r := UserService(repository)(w, req);
      r.state == w && r.err == Some(PermissionDenied(w.ctx, RequiredOperation(req).value, CheckedName(req, UserEntityName)))
  {
    var audited := AsRepo(AuditHooks(), repository, UserEntityName);
    CheckedAgreesElsewhere(UserEntityName, audited, w, req);
    CheckedOperation(UserEntityName, audited, w, req);
  }

  /**
   * A permitted create that the repository rejects ends, through both
   * layers, with the repository's error and two audit records, when the
   * audit store accepts a second insert of the same audit object.
   */
  lemma PermittedFailedCreate<D>(repository: Repo<World<D>>, w: World<D>, p: Entity, out: Outcome<World<D>>, m: string)
    requires HasCaller(w.ctx) && Permitted(w.ctx, OperationCreate, p.entityName)
    requires w.ctx.audit.Some? && w.store.failure.None?
    requires var w1 := BeforeWrite(w, HookCall(None, [p]), AuditActionCreate, true).0;
      repository(w1, Create(p)) == out && Confined(w1, out) && out.err == Some(Failure(m))
    ensures var r := UserService(repository)(w, Create(p));
      var failed := Opened(w.ctx.audit.value, AuditActionCreate, p).(result := AuditActionResultFailure, message := m);
      r.err == Some(Failure(m)) &&
      r.state.store.records == w.store.records + [failed, failed.(result := AuditActionResultSuccess)]
  {
    var audited := AsRepo(AuditHooks(), repository, UserEntityName);
    CheckedAgreesElsewhere(UserEntityName, audited, w, Create(p));
    CheckedOperation(UserEntityName, audited, w, Create(p));
    FailedCreateStoresTwoRecords(repository, UserEntityName, w, p, out, m);
  }

  /**
   * As written, every FindAll of the user service panics in the permission
   * layer, so no user can list users and nothing is audited.
   */
  lemma UserFindAllPanics<D>(repository: Repo<World<D>>, w: World<D>,
                             pg: Pageable, f: Option<Filter.Filter>, rs: seq<Relation.Relation>, os: seq<Order.OrderBy>)
    ensures UserServiceAsWritten(repository)(w, FindAll(pg, f, rs, os)) == Outcome(w, PageReply(EmptyPage()), Some(IndexPanic))
  {
    FindAllPanics(UserEntityName, AsRepo(AuditHooks(), repository, UserEntityName), w, pg, f, rs, os);
  }

  /**
   * With the corrected find check, a caller who may READ users gets exactly
   * what the audit layer returns for the FindAll; any other caller is
   * refused, with nothing audited.
   */
  lemma UserFindAllChecked<D>(repository: Repo<World<D>>, w: World<D>,
                              pg: Pageable, f: Option<Filter.Filter>, rs: seq<Relation.Relation>, os: seq<Order.OrderBy>)
    requires HasCaller(w.ctx)
    ensures var r := UserService(repository)(w, FindAll(pg, f, rs, os));
      if Permitted(w.ctx, OperationRead, UserEntityName)
      then r == AsRepo(AuditHooks(), repository, UserEntityName)(w, FindAll(pg, f, rs, os))
      else r.state == w && r.err == Some(PermissionDenied(w.ctx, OperationRead, UserEntityName))
  {
    CheckedFindAll(UserEntityName, AsRepo(AuditHooks(), repository, UserEntityName), w, pg, f, rs, os);
  }

  /**
   * Over the GORM entity repository, and an audit store that accepts a
   * second insert of the same audit object: a permitted create whose insert
   * fails returns the insert's error and leaves two audit records behind.
   */
  lemma GormFailedCreate<D>(db: GormRepository.Database, w: World<D>, p: Entity, m: string)
    requires HasCaller(w.ctx) && Permitted(w.ctx, OperationCreate, p.entityName)
    requires w.ctx.audit.Some? && w.store.failure.None?
    requires db.write(GormRepository.Insert, p).1 == Some(Failure(m))
    ensures var r := UserService(GormRepository.GormRepo<D>(db, UserEntityName))(w, Create(p));
      var failed := Opened(w.ctx.audit.value, AuditActionCreate, p).(result := AuditActionResultFailure, message := m);
      r.err == Some(Failure(m)) &&
      r.state.store.records == w.store.records + [failed, failed.(result := AuditActionResultSuccess)]
  {
    var repository := GormRepository.GormRepo<D>(db, UserEntityName);
    var w1 := BeforeWrite(w, HookCall(None, [p]), AuditActionCreate, true).0;
    GormRepository.GormRepoConfined(db, UserEntityName, w1, Create(p));
    PermittedFailedCreate(repository, w, p, repository(w1, Create(p)), m);
  }
}
