// The audit decorator: a service with hooks that fill in the request's audit
// record as an operation runs and store it in the audit repository when the
// operation succeeds or fails.
module AuditService {
  import opened Common
  import opened RequestContext
  import opened Service

  /** serializeEntity: the entity's JSON text (json.Marshal is not modelled). */
  function Serialize(e: Entity): string
  {
    e.json
  }

  /** err.Error(). OnFail hooks are always handed an error. */
  function ErrorText(err: Option<Error>): string
  {
    match err
    case Some(Failure(m)) => m
    case Some(Panic(r)) => r
    case None => ""
  }

  /** The world after a setter call on the shared audit record. */
  function WithRecord<D>(w: World<D>, a: AuditRecord): World<D>
  {
    w.(ctx := w.ctx.(audit := Some(a)))
  }

  /**
   * auditRepository.Create(ctx, a): a failing store returns its error and
   * keeps nothing; otherwise a copy of the record as it is now is appended.
   */
  function Persist<D>(w: World<D>, a: AuditRecord): (World<D>, Option<Error>)
  {
    match w.store.failure
    case Some(e) => (w, Some(e))
    case None => (w.(store := w.store.(records := w.store.records + [a])), None)
  }

  // ---- the hooks ------------------------------------------------------------

  /**
   * BeforeCreate, BeforeUpdate and BeforeDelete: the action, the payload's
   * entity name and id, and for create and update the payload's JSON as the
   * new value. They never veto; a missing audit is a nil pointer.
   */
  function BeforeWrite<D>(w: World<D>, call: HookCall, action: AuditAction, withNewValue: bool): (World<D>, Option<Error>)
  {
    match w.ctx.audit
    case None => (w, Some(NilAuditPanic))
    case Some(a) =>
      if |call.entities| == 0 then (w, Some(IndexPanic))
      else
        var p := call.entities[0];
        var b := a.(action := action, entity := p.entityName, entityId := p.id);
        (WithRecord(w, if withNewValue then b.(newValue := Serialize(p)) else b), None)
  }

  /** AfterCreate, AfterDelete and AfterAssoc: SUCCESS, then store the record. */
  function AfterSuccess<D>(w: World<D>): (World<D>, Option<Error>)
  {
    match w.ctx.audit
    case None => (w, Some(NilAuditPanic))
    case Some(a) =>
      var b := a.(result := AuditActionResultSuccess);
      Persist(WithRecord(w, b), b)
  }

  /** AfterUpdate: SUCCESS, the updated entity's JSON as the previous value, then store. */
  function AfterUpdate<D>(w: World<D>, call: HookCall): (World<D>, Option<Error>)
  {
    match w.ctx.audit
    case None => (w, Some(NilAuditPanic))
    case Some(a) =>
      if |call.entities| == 0 then (WithRecord(w, a.(result := AuditActionResultSuccess)), Some(IndexPanic))
      else
        var b := a.(result := AuditActionResultSuccess, prevValue := Serialize(call.entities[0]));
        Persist(WithRecord(w, b), b)
  }

  /** Every OnFail hook: FAILURE, the error text as the message, then store. */
  function OnFailure<D>(w: World<D>, call: HookCall): (World<D>, Option<Error>)
  {
    match w.ctx.audit
    case None => (w, Some(NilAuditPanic))
    case Some(a) =>
      var b := a.(result := AuditActionResultFailure, message := ErrorText(call.err));
      Persist(WithRecord(w, b), b)
  }

  /** BeforeFind: nothing when given no entities; otherwise READ and the entity name. */
  function BeforeFind<D>(w: World<D>, call: HookCall): (World<D>, Option<Error>)
  {
    if |call.entities| == 0 then (w, None)
    else match w.ctx.audit
      case None => (w, Some(NilAuditPanic))
      case Some(a) => (WithRecord(w, a.(action := AuditActionRead, entity := call.entities[0].entityName)), None)
  }

  /** AfterFind: nothing when given no entities; otherwise SUCCESS, and nothing is stored. */
  function AfterFind<D>(w: World<D>, call: HookCall): (World<D>, Option<Error>)
  {
    if |call.entities| == 0 then (w, None)
    else match w.ctx.audit
      case None => (w, Some(NilAuditPanic))
      case Some(a) => (WithRecord(w, a.(result := AuditActionResultSuccess)), None)
  }

  /** BeforeAssoc: the action only. */
  function BeforeAssoc<D>(w: World<D>): (World<D>, Option<Error>)
  {
    match w.ctx.audit
    case None => (w, Some(NilAuditPanic))
    case Some(a) => (WithRecord(w, a.(action := AuditActionAssociate)), None)
  }

  /** The groups NewAuditService installs hooks for, all three phases each. */
  predicate Audited(g: HookGroup)
  {
    g == CreateHooks || g == UpdateHooks || g == DeleteHooks || g == FindHooks || g == AssocHooks
  }

  /** The body of the hook NewAuditService installs in a slot of an audited group. */
  function AuditHook<D>(h: HookName, w: World<D>, call: HookCall): (World<D>, Option<Error>)
  {
    match h.phase
    case Before =>
      if h.group == CreateHooks then BeforeWrite(w, call, AuditActionCreate, true)
      else if h.group == UpdateHooks then BeforeWrite(w, call, AuditActionUpdate, true)
      else if h.group == DeleteHooks then BeforeWrite(w, call, AuditActionDelete, false)
      else if h.group == FindHooks then BeforeFind(w, call)
      else BeforeAssoc(w)
    case After =>
      if h.group == UpdateHooks then AfterUpdate(w, call)
      else if h.group == FindHooks then AfterFind(w, call)
      else AfterSuccess(w)
    case OnFail => OnFailure(w, call)
  }

  function Installed<D>(h: HookName): Hook<World<D>>
  {
    (w: World<D>, call: HookCall) => AuditHook(h, w, call)
  }

  /** The fifteen hooks of NewAuditService. */
  function AuditHooks<D>(): Hooks<World<D>>
  {
    map[
      HookName(CreateHooks, Before) := Installed(HookName(CreateHooks, Before)),
      HookName(CreateHooks, After) := Installed(HookName(CreateHooks, After)),
      HookName(CreateHooks, OnFail) := Installed(HookName(CreateHooks, OnFail)),
      HookName(UpdateHooks, Before) := Installed(HookName(UpdateHooks, Before)),
      HookName(UpdateHooks, After) := Installed(HookName(UpdateHooks, After)),
      HookName(UpdateHooks, OnFail) := Installed(HookName(UpdateHooks, OnFail)),
      HookName(DeleteHooks, Before) := Installed(HookName(DeleteHooks, Before)),
      HookName(DeleteHooks, After) := Installed(HookName(DeleteHooks, After)),
      HookName(DeleteHooks, OnFail) := Installed(HookName(DeleteHooks, OnFail)),
      HookName(FindHooks, Before) := Installed(HookName(FindHooks, Before)),
      HookName(FindHooks, After) := Installed(HookName(FindHooks, After)),
      HookName(FindHooks, OnFail) := Installed(HookName(FindHooks, OnFail)),
      HookName(AssocHooks, Before) := Installed(HookName(AssocHooks, Before)),
      HookName(AssocHooks, After) := Installed(HookName(AssocHooks, After)),
      HookName(AssocHooks, OnFail) := Installed(HookName(AssocHooks, OnFail))]
  }

  /** NewAuditService: a service over `repo` with the fifteen hooks installed. */
  method NewAuditService<D>(repo: Repo<World<D>>, entityName: EntityName) returns (svc: CrudServiceWithHooks<World<D>>)
    ensures fresh(svc)
    ensures svc.hooks == AuditHooks() && svc.repo == repo && svc.entityName == entityName
  {
    svc := new CrudServiceWithHooks(repo, entityName);
    svc.SetHook(HookName(CreateHooks, Before), Installed(HookName(CreateHooks, Before)));
    svc.SetHook(HookName(CreateHooks, After), Installed(HookName(CreateHooks, After)));
    svc.SetHook(HookName(CreateHooks, OnFail), Installed(HookName(CreateHooks, OnFail)));
    svc.SetHook(HookName(UpdateHooks, Before), Installed(HookName(UpdateHooks, Before)));
    svc.SetHook(HookName(UpdateHooks, After), Installed(HookName(UpdateHooks, After)));
    svc.SetHook(HookName(UpdateHooks, OnFail), Installed(HookName(UpdateHooks, OnFail)));
    svc.SetHook(HookName(DeleteHooks, Before), Installed(HookName(DeleteHooks, Before)));
    svc.SetHook(HookName(DeleteHooks, After), Installed(HookName(DeleteHooks, After)));
    svc.SetHook(HookName(DeleteHooks, OnFail), Installed(HookName(DeleteHooks, OnFail)));
    svc.SetHook(HookName(FindHooks, Before), Installed(HookName(FindHooks, Before)));
    svc.SetHook(HookName(FindHooks, After), Installed(HookName(FindHooks, After)));
    svc.SetHook(HookName(FindHooks, OnFail), Installed(HookName(FindHooks, OnFail)));
    svc.SetHook(HookName(AssocHooks, Before), Installed(HookName(AssocHooks, Before)));
    svc.SetHook(HookName(AssocHooks, After), Installed(HookName(AssocHooks, After)));
    svc.SetHook(HookName(AssocHooks, OnFail), Installed(HookName(AssocHooks, OnFail)));
  }

  /** Each slot of an audited group runs its hook; every other slot is unset. */
  lemma RunAuditHook<D>(h: HookName, w: World<D>, call: HookCall)
    ensures h in AuditHooks<D>() <==> Audited(h.group)
    ensures RunHook(AuditHooks(), h, w, call) == if Audited(h.group) then AuditHook(h, w, call) else (w, None)
  {
    var hooks: Hooks<World<D>> := AuditHooks();
    match h.phase {
      case Before => assert h == HookName(h.group, Before);
      case After => assert h == HookName(h.group, After);
      case OnFail => assert h == HookName(h.group, OnFail);
    }
    if Audited(h.group) {
      assert hooks[h] == Installed(h);
    }
  }

  // ---- what an audited operation stores --------------------------------------

  /** The wrapped service writes neither the request's context nor the audit store. */
  predicate Confined<D>(w1: World<D>, out: Outcome<World<D>>)
  {
    out.state.ctx == w1.ctx && out.state.store == w1.store
  }

  /** The record as BeforeCreate or BeforeUpdate leaves it. */
  function Opened(a: AuditRecord, action: AuditAction, p: Entity): AuditRecord
  {
    a.(action := action, entity := p.entityName, entityId := p.id, newValue := Serialize(p))
  }

  /**
   * A create that succeeds stores one record: CREATE, the payload's entity
   * name, id and JSON, and SUCCESS.
   */
  lemma SuccessfulCreate<D>(repo: Repo<World<D>>, entityName: EntityName, w: World<D>, p: Entity, out: Outcome<World<D>>)
    requires w.ctx.audit.Some? && w.store.failure.None?
    requires var w1 := BeforeWrite(w, HookCall(None, [p]), AuditActionCreate, true).0;
      repo(w1, Create(p)) == out && Confined(w1, out) && out.err.None?
    ensures var r := RunOp(AuditHooks(), repo, entityName, w, Create(p));
      var a := Opened(w.ctx.audit.value, AuditActionCreate, p);
      r.err == None && r.reply == out.reply &&
      r.state.store.records == w.store.records + [a.(result := AuditActionResultSuccess)]
  {
    var call := HookCall(None, [p]);
    RunAuditHook(HookName(CreateHooks, Before), w, call);
    RunAuditHook(HookName(CreateHooks, After), out.state, HookCall(None, ResultEntities(Create(p), out.reply)));
  }

  /**
   * A create that fails issues two inserts: OnCreateFail stores the record
   * with FAILURE and the error text, then AfterCreate, which still runs,
   * sets SUCCESS on the same record and stores it again. An audit store that
   * accepts both keeps two records, and the repository's error is returned.
   */
  lemma FailedCreateStoresTwoRecords<D>(repo: Repo<World<D>>, entityName: EntityName, w: World<D>, p: Entity,
                                        out: Outcome<World<D>>, m: string)
    requires w.ctx.audit.Some? && w.store.failure.None?
    requires var w1 := BeforeWrite(w, HookCall(None, [p]), AuditActionCreate, true).0;
      repo(w1, Create(p)) == out && Confined(w1, out) && out.err == Some(Failure(m))
    ensures var r := RunOp(AuditHooks(), repo, entityName, w, Create(p));
      var failed := Opened(w.ctx.audit.value, AuditActionCreate, p).(result := AuditActionResultFailure, message := m);
      r.err == Some(Failure(m)) && r.reply == out.reply &&
      r.state.store.records == w.store.records + [failed, failed.(result := AuditActionResultSuccess)]
  {
    var entities := ResultEntities(Create(p), out.reply);
    RunAuditHook(HookName(CreateHooks, Before), w, HookCall(None, [p]));
    RunAuditHook(HookName(CreateHooks, OnFail), out.state, HookCall(out.err, entities));
    var s2 := OnFailure(out.state, HookCall(out.err, entities)).0;
    RunAuditHook(HookName(CreateHooks, After), s2, HookCall(None, entities));
  }

  /**
   * When the audit store fails, a failed create returns the store's error
   * instead of the repository's, stores nothing, and AfterCreate does not run.
   */
  lemma FailingStoreReplacesError<D>(repo: Repo<World<D>>, entityName: EntityName, w: World<D>, p: Entity,
                                     out: Outcome<World<D>>, m: string, storeError: Error)
    requires w.ctx.audit.Some? && w.store.failure == Some(storeError)
    requires var w1 := BeforeWrite(w, HookCall(None, [p]), AuditActionCreate, true).0;
      repo(w1, Create(p)) == out && Confined(w1, out) && out.err == Some(Failure(m))
    ensures var r := RunOp(AuditHooks(), repo, entityName, w, Create(p));
      r.err == Some(storeError) && r.reply == out.reply && r.state.store == w.store
  {
    var entities := ResultEntities(Create(p), out.reply);
    RunAuditHook(HookName(CreateHooks, Before), w, HookCall(None, [p]));
    RunAuditHook(HookName(CreateHooks, OnFail), out.state, HookCall(out.err, entities));
  }

  /**
   * An update that succeeds stores one record whose new value is the
   * payload's JSON and whose previous value is the JSON of the entity the
   * update returned: the state after the update, not before it.
   */
  lemma SuccessfulUpdate<D>(repo: Repo<World<D>>, entityName: EntityName, w: World<D>, p: Entity,
                            out: Outcome<World<D>>, updated: Entity)
    requires w.ctx.audit.Some? && w.store.failure.None?
    requires var w1 := BeforeWrite(w, HookCall(None, [p]), AuditActionUpdate, true).0;
      repo(w1, Update(p)) == out && Confined(w1, out) && out.err.None? && out.reply == EntityReply(updated)
    ensures var r := RunOp(AuditHooks(), repo, entityName, w, Update(p));
      var a := Opened(w.ctx.audit.value, AuditActionUpdate, p);
      r.err == None && r.reply == EntityReply(updated) &&
      r.state.store.records == w.store.records + [a.(result := AuditActionResultSuccess, prevValue := Serialize(updated))]
  {
    RunAuditHook(HookName(UpdateHooks, Before), w, HookCall(None, [p]));
    RunAuditHook(HookName(UpdateHooks, After), out.state, HookCall(None, [updated]));
  }

  /**
   * A delete that succeeds stores one record: DELETE, the payload's entity
   * name and id, SUCCESS, and whatever new value the record already held.
   */
  lemma SuccessfulDelete<D>(repo: Repo<World<D>>, entityName: EntityName, w: World<D>, p: Entity, out: Outcome<World<D>>)
    requires w.ctx.audit.Some? && w.store.failure.None?
    requires var w1 := BeforeWrite(w, HookCall(None, [p]), AuditActionDelete, false).0;
      repo(w1, Delete(p)) == out && Confined(w1, out) && out.err.None?
    ensures var r := RunOp(AuditHooks(), repo, entityName, w, Delete(p));
      var a := w.ctx.audit.value;
      r.err == None &&
      r.state.store.records == w.store.records +
        [a.(action := AuditActionDelete, entity := p.entityName, entityId := p.id, result := AuditActionResultSuccess)]
  {
    RunAuditHook(HookName(DeleteHooks, Before), w, HookCall(None, [p]));
    RunAuditHook(HookName(DeleteHooks, After), out.state, HookCall(None, [p]));
  }

  /** A find that succeeds stores nothing, whatever it found and whether or not an audit is set. */
  lemma SuccessfulFindStoresNothing<D>(repo: Repo<World<D>>, entityName: EntityName, w: World<D>, req: Request)
    requires req.FindOne? || req.FindAll?
    requires var w1 := RunHook(AuditHooks(), HookName(FindHooks, Before), w, HookCall(None, BeforeEntities(req, ZeroEntity(entityName)))).0;
      Confined(w1, repo(w1, req)) && repo(w1, req).err.None?
    ensures RunOp(AuditHooks(), repo, entityName, w, req).state.store == w.store
  {
    var call := HookCall(None, BeforeEntities(req, ZeroEntity(entityName)));
    RunAuditHook(HookName(FindHooks, Before), w, call);
    var w1 := RunHook(AuditHooks(), HookName(FindHooks, Before), w, call).0;
    var out := repo(w1, req);
    RunAuditHook(HookName(FindHooks, After), out.state, HookCall(None, ResultEntities(req, out.reply)));
  }

  /**
   * A FindAll that fails stores one FAILURE record. BeforeFind was handed
   * no entities, so the record's action and entity are those it had before.
   */
  lemma FailedFindAll<D>(repo: Repo<World<D>>, entityName: EntityName, w: World<D>,
                         pg: Pageable, f: Option<Filter.Filter>, rs: seq<Relation.Relation>, os: seq<Order.OrderBy>, m: string)
    requires w.ctx.audit.Some? && w.store.failure.None?
    requires Confined(w, repo(w, FindAll(pg, f, rs, os))) && repo(w, FindAll(pg, f, rs, os)).err == Some(Failure(m))
    ensures var r := RunOp(AuditHooks(), repo, entityName, w, FindAll(pg, f, rs, os));
      r.err == Some(Failure(m)) &&
      r.state.store.records == w.store.records + [w.ctx.audit.value.(result := AuditActionResultFailure, message := m)]
  {
    var req := FindAll(pg, f, rs, os);
    var out := repo(w, req);
    var entities := ResultEntities(req, out.reply);
    RunAuditHook(HookName(FindHooks, Before), w, HookCall(None, []));
    RunAuditHook(HookName(FindHooks, OnFail), out.state, HookCall(out.err, entities));
    var s2 := OnFailure(out.state, HookCall(out.err, entities)).0;
    RunAuditHook(HookName(FindHooks, After), s2, HookCall(None, entities));
  }

  /** An association that succeeds stores one record: ASSOCIATE and SUCCESS, nothing else set. */
  lemma SuccessfulAssociate<D>(repo: Repo<World<D>>, entityName: EntityName, w: World<D>,
                               id: Uuid, association: string, target: Uuid, out: Outcome<World<D>>)
    requires w.ctx.audit.Some? && w.store.failure.None?
    requires var w1 := BeforeAssoc(w).0;
      repo(w1, Associate(id, association, target)) == out && Confined(w1, out) && out.err.None?
    ensures var r := RunOp(AuditHooks(), repo, entityName, w, Associate(id, association, target));
      r.err == None &&
      r.state.store.records == w.store.records +
        [w.ctx.audit.value.(action := AuditActionAssociate, result := AuditActionResultSuccess)]
  {
    var req := Associate(id, association, target);
    RunAuditHook(HookName(AssocHooks, Before), w, HookCall(None, []));
    RunAuditHook(HookName(AssocHooks, After), out.state, HookCall(None, ResultEntities(req, out.reply)));
  }

  /** Dissociate, Count, Exists, Random, First and ComboBox are not audited: they pass straight through. */
  lemma UnauditedPassThrough<D>(repo: Repo<World<D>>, entityName: EntityName, w: World<D>, req: Request)
    requires !Audited(GroupOf(req))
    ensures RunOp(AuditHooks(), repo, entityName, w, req) == repo(w, req)
  {
    var g := GroupOf(req);
    var zero := ZeroEntity(entityName);
    RunAuditHook(HookName(g, Before), w, HookCall(None, BeforeEntities(req, zero)));
    var out := repo(w, req);
    var entities := ResultEntities(req, out.reply);
    RunAuditHook(HookName(g, OnFail), out.state, HookCall(out.err, entities));
    RunAuditHook(HookName(g, After), out.state, HookCall(None, entities));
  }

  /**
   * Without an audit in the context, every audited operation that hands
   * its Before hook something to record panics there, before the wrapped
   * service is reached.
   */
  lemma MissingAuditPanics<D>(repo: Repo<World<D>>, entityName: EntityName, w: World<D>, req: Request)
    requires w.ctx.audit.None?
    requires req.Create? || req.Update? || req.UpdateField? || req.Delete? || req.FindOne? || req.Associate?
    ensures RunOp(AuditHooks(), repo, entityName, w, req) ==
      Outcome(w, VetoReply(req, ZeroEntity(entityName)), Some(NilAuditPanic))
  {
    RunAuditHook(HookName(GroupOf(req), Before), w, HookCall(None, BeforeEntities(req, ZeroEntity(entityName))));
  }
}
