// CrudServiceWithHooks: a CRUD service wrapping another one (ultimately a
// repository) with 33 optional hooks, three per operation group. Each
// operation runs Before, then the wrapped call, then OnFail (on error) and
// After.
module Service {
  import opened Common
  import Filter
  import Order
  import Relation

  // ---- hook names -----------------------------------------------------------

  /** The eleven groups of hook slots; Update and UpdateField share one, FindOne and FindAll another. */
  datatype HookGroup =
    | CreateHooks | UpdateHooks | DeleteHooks | FindHooks | CountHooks | AssocHooks
    | DissocHooks | ExistsHooks | RandomHooks | FirstHooks | ComboHooks

  datatype Phase = Before | After | OnFail

  /** One of the 33 ServiceHook slots. */
  datatype HookName = HookName(group: HookGroup, phase: Phase)

  function GroupText(g: HookGroup): string
  {
    match g
    case CreateHooks => "Create"
    case UpdateHooks => "Update"
    case DeleteHooks => "Delete"
    case FindHooks => "Find"
    case CountHooks => "Count"
    case AssocHooks => "Assoc"
    case DissocHooks => "Dissoc"
    case ExistsHooks => "Exists"
    case RandomHooks => "Random"
    case FirstHooks => "First"
    case ComboHooks => "Combo"
  }

  function GroupByText(t: string): (r: Option<HookGroup>)
    ensures r.Some? ==> GroupText(r.value) == t
  {
    if t == "Create" then Some(CreateHooks)
    else if t == "Update" then Some(UpdateHooks)
    else if t == "Delete" then Some(DeleteHooks)
    else if t == "Find" then Some(FindHooks)
    else if t == "Count" then Some(CountHooks)
    else if t == "Assoc" then Some(AssocHooks)
    else if t == "Dissoc" then Some(DissocHooks)
    else if t == "Exists" then Some(ExistsHooks)
    else if t == "Random" then Some(RandomHooks)
    else if t == "First" then Some(FirstHooks)
    else if t == "Combo" then Some(ComboHooks)
    else None
  }

  lemma GroupTextRoundTrip(g: HookGroup)
    ensures GroupByText(GroupText(g)) == Some(g)
  {
  }

  /** The ServiceHook string: "BeforeCreate", "AfterCreate", "OnCreateFail", ... */
  function HookText(h: HookName): string
  {
    match h.phase
    case Before => "Before" + GroupText(h.group)
    case After => "After" + GroupText(h.group)
    case OnFail => "On" + GroupText(h.group) + "Fail"
  }

  /** The slot a ServiceHook string names, if any; the switch statements' case labels. */
  function HookByText(t: string): (r: Option<HookName>)
    ensures r.Some? ==> HookText(r.value) == t
  {
    if |t| >= 6 && t[..6] == "Before" then
      match GroupByText(t[6..])
      case Some(g) => assert t == "Before" + t[6..]; Some(HookName(g, Before))
      case None => None
    else if |t| >= 5 && t[..5] == "After" then
      match GroupByText(t[5..])
      case Some(g) => assert t == "After" + t[5..]; Some(HookName(g, After))
      case None => None
    else if |t| >= 6 && t[..2] == "On" && t[|t| - 4..] == "Fail" then
      match GroupByText(t[2..|t| - 4])
      case Some(g) => assert t == "On" + t[2..|t| - 4] + "Fail"; Some(HookName(g, OnFail))
      case None => None
    else None
  }

  /** Every slot is reachable by its own name, so the 33 names are distinct. */
  lemma HookTextRoundTrip(h: HookName)
    ensures HookByText(HookText(h)) == Some(h)
  {
    var t := HookText(h);
    var g := GroupText(h.group);
    GroupTextRoundTrip(h.group);
    match h.phase
    case Before =>
      assert t[..6] == "Before" && t[6..] == g;
    case After =>
      assert t[..5] == "After" && t[5..] == g;
      assert t[..6] != "Before" by { assert t[0] == 'A'; }
    case OnFail =>
      assert t[..2] == "On" && t[2..|t| - 4] == g && t[|t| - 4..] == "Fail";
      assert |t| < 6 || t[..6] != "Before" by { assert t[0] == 'O'; }
      assert |t| < 5 || t[..5] != "After" by { assert t[0] == 'O'; }
  }

  // ---- requests, replies and hooks ------------------------------------------

  /** The thirteen operations of CrudService with their arguments. */
  datatype Request =
    | Create(payload: Entity)
    | Update(payload: Entity)
    | UpdateField(payload: Entity, field: string, value: Value)
    | Delete(payload: Entity)
    | FindOne(id: Uuid, relations: seq<Relation.Relation>)
    | FindAll(pageable: Pageable, filter: Option<Filter.Filter>, relations: seq<Relation.Relation>, orderBys: seq<Order.OrderBy>)
    | Count(filter: Option<Filter.Filter>)
    | Associate(id: Uuid, association: string, targetId: Uuid)
    | Dissociate(id: Uuid, association: string, targetId: Uuid)
    | Exists(id: Uuid)
    | Random
    | First(filter: Option<Filter.Filter>)
    | ComboBox(pageable: Pageable, filter: Option<Filter.Filter>, relations: seq<Relation.Relation>, orderBys: seq<Order.OrderBy>)

  /** The value an operation returns beside its error; Delete returns none. */
  datatype Reply =
    | EntityReply(entity: Entity)
    | PageReply(page: Page<Entity>)
    | ComboReply(options: Page<ComboOption>)
    | CountReply(count: int)
    | ExistsReply(found: bool)
    | DeleteReply

  /** What an operation ends with: the state it leaves, its value and its error. */
  datatype Outcome<S> = Outcome(state: S, reply: Reply, err: Option<Error>)

  /** The arguments a hook receives after the context: an error (OnFail only) and entities. */
  datatype HookCall = HookCall(err: Option<Error>, entities: seq<Entity>)

  /** A hook: it may change the state and returns nil or an error. */
  type Hook<!S> = (S, HookCall) -> (S, Option<Error>)

  /** A wrapped service: a repository, or another service with hooks. */
  type Repo<!S> = (S, Request) -> Outcome<S>

  type Hooks<!S> = map<HookName, Hook<S>>

  function GroupOf(req: Request): HookGroup
  {
    match req
    case Create(_) => CreateHooks
    case Update(_) => UpdateHooks
    case UpdateField(_, _, _) => UpdateHooks
    case Delete(_) => DeleteHooks
    case FindOne(_, _) => FindHooks
    case FindAll(_, _, _, _) => FindHooks
    case Count(_) => CountHooks
    case Associate(_, _, _) => AssocHooks
    case Dissociate(_, _, _) => DissocHooks
    case Exists(_) => ExistsHooks
    case Random => RandomHooks
    case First(_) => FirstHooks
    case ComboBox(_, _, _, _) => ComboHooks
  }

  /** What the Before hook is given: the payload, one zero entity (FindOne), or nothing. */
  function BeforeEntities(req: Request, zero: Entity): seq<Entity>
  {
    match req
    case Create(p) => [p]
    case Update(p) => [p]
    case UpdateField(p, _, _) => [p]
    case Delete(p) => [p]
    case FindOne(_, _) => [zero]
    case _ => []
  }

  /** The value returned with a Before hook's error. */
  function VetoReply(req: Request, zero: Entity): Reply
  {
    match req
    case Create(p) => EntityReply(p)
    case Update(p) => EntityReply(p)
    case UpdateField(p, _, _) => EntityReply(p)
    case Delete(_) => DeleteReply
    case FindAll(_, _, _, _) => PageReply(EmptyPage())
    case ComboBox(_, _, _, _) => ComboReply(EmptyPage())
    case Count(_) => CountReply(0)
    case Exists(_) => ExistsReply(false)
    case _ => EntityReply(zero)
  }

  /**
   * What OnFail and After are given: Delete's payload, the page content of
   * FindAll, nothing for Count, Exists and ComboBox, otherwise the entity
   * the wrapped call returned.
   */
  function ResultEntities(req: Request, reply: Reply): seq<Entity>
  {
    match req
    case Delete(p) => [p]
    case Count(_) => []
    case Exists(_) => []
    case ComboBox(_, _, _, _) => []
    case FindAll(_, _, _, _) => if reply.PageReply? then reply.page.content else []
    case _ => if reply.EntityReply? then [reply.entity] else []
  }

  /** The value returned with an OnFail hook's error: Count gives 0, Exists false. */
  function OnFailReply(req: Request, reply: Reply): Reply
  {
    match req
    case Count(_) => CountReply(0)
    case Exists(_) => ExistsReply(false)
    case _ => reply
  }

  /** The panic of indexing the first of no entities. */
  const IndexPanic: Error := Panic("runtime error: index out of range [0] with length 0")

  /** Runs a hook slot if it is set; an unset slot changes nothing and returns nil. */
  function RunHook<S>(hooks: Hooks<S>, name: HookName, s: S, call: HookCall): (S, Option<Error>)
  {
    if name in hooks then hooks[name](s, call) else (s, None)
  }

  /**
   * One operation of CrudServiceWithHooks. A Before error is returned at
   * once with the operation's veto value. A panic of the wrapped call
   * unwinds past every hook. Otherwise, on error OnFail runs and its error
   * replaces the call's; After then runs, even after a failure, and its
   * error is returned with the call's value; with neither, the call's value
   * and error are returned.
   */
  function RunOp<S>(hooks: Hooks<S>, repo: Repo<S>, entityName: EntityName, s: S, req: Request): Outcome<S>
  {
    var g := GroupOf(req);
    var zero := ZeroEntity(entityName);
    var (s1, veto) := RunHook(hooks, HookName(g, Before), s, HookCall(None, BeforeEntities(req, zero)));
    if veto.Some? then Outcome(s1, VetoReply(req, zero), veto)
    else
      var out := repo(s1, req);
      if IsPanic(out.err) then out
      else AfterCall(hooks, req, out)
  }

  /** The part of RunOp after the wrapped call returned without panicking. */
  function AfterCall<S>(hooks: Hooks<S>, req: Request, out: Outcome<S>): Outcome<S>
  {
    var g := GroupOf(req);
    var entities := ResultEntities(req, out.reply);
    var (s2, failErr) :=
      if out.err.Some? then RunHook(hooks, HookName(g, OnFail), out.state, HookCall(out.err, entities))
      else (out.state, None);
    if failErr.Some? then Outcome(s2, OnFailReply(req, out.reply), failErr)
    else
      var (s3, afterErr) := RunHook(hooks, HookName(g, After), s2, HookCall(None, entities));
      if afterErr.Some? then Outcome(s3, out.reply, afterErr)
      else Outcome(s3, out.reply, out.err)
  }

  /** A service with hooks is itself a wrapped service: layers stack. */
  function AsRepo<S>(hooks: Hooks<S>, repo: Repo<S>, entityName: EntityName): Repo<S>
  {
    (s: S, req: Request) => RunOp(hooks, repo, entityName, s, req)
  }

  // ---- the service object ---------------------------------------------------

  class CrudServiceWithHooks<S> {
    var hooks: Hooks<S>
    var repo: Repo<S>
    /** The entity name of a zero E, which FindOne hands to BeforeFind. */
    const entityName: EntityName

    /** NewCrudServiceWithHooks: no hook set. */
    constructor (repo: Repo<S>, entityName: EntityName)
      ensures hooks == map[] && this.repo == repo && this.entityName == entityName
    {
      hooks := map[];
      this.repo := repo;
      this.entityName := entityName;
    }

    /**
     * GetHook: the slot's hook and whether it is set; an unknown name gives
     * (nil, false).
     */
    function GetHook(hook: string): (r: (Option<Hook<S>>, bool))
      reads this
      ensures r.1 <==> HookByText(hook).Some? && HookByText(hook).value in hooks
      ensures r.1 ==> r.0 == Some(hooks[HookByText(hook).value])
      ensures !r.1 ==> r.0 == None
    {
      match HookByText(hook)
      case None => (None, false)
      case Some(h) => if h in hooks then (Some(hooks[h]), true) else (None, false)
    }

    /** AddHook: sets the named slot; an unknown name changes nothing. */
    method AddHook(hook: string, f: Hook<S>)
      modifies this
      ensures HookByText(hook).Some? ==> hooks == old(hooks)[HookByText(hook).value := f]
      ensures HookByText(hook).Some? ==> GetHook(hook) == (Some(f), true)
      ensures HookByText(hook).None? ==> hooks == old(hooks)
      ensures repo == old(repo)
    {
      var h := HookByText(hook);
      if h.Some? {
        hooks := hooks[h.value := f];
      }
    }

    /** RemoveHook: clears the named slot; an unknown name changes nothing. */
    method RemoveHook(hook: string)
      modifies this
      ensures HookByText(hook).Some? ==> hooks == old(hooks) - {HookByText(hook).value}
      ensures HookByText(hook).Some? ==> GetHook(hook) == (None, false)
      ensures HookByText(hook).None? ==> hooks == old(hooks)
      ensures repo == old(repo)
    {
      var h := HookByText(hook);
      if h.Some? {
        hooks := hooks - {h.value};
      }
    }

    /** The typed setters AddBeforeCreateHook ... AddOnComboFailHook: each sets its own slot. */
    method SetHook(name: HookName, f: Hook<S>)
      modifies this
      ensures hooks == old(hooks)[name := f] && repo == old(repo)
    {
      hooks := hooks[name := f];
    }

    function GetRepo(): Repo<S>
      reads this
    {
      repo
    }

    method SetRepo(r: Repo<S>)
      modifies this
      ensures GetRepo() == r && hooks == old(hooks)
    {
      repo := r;
    }

    /** Any of the thirteen operations, as straight-line code over the slots. */
    method Invoke(s: S, req: Request) returns (out: Outcome<S>)
      ensures out == RunOp(hooks, repo, entityName, s, req)
    {
      var g := GroupOf(req);
      var zero := ZeroEntity(entityName);
      var state := s;
      if HookName(g, Before) in hooks {
        var (s1, err) := hooks[HookName(g, Before)](state, HookCall(None, BeforeEntities(req, zero)));
        state := s1;
        if err.Some? {
          return Outcome(state, VetoReply(req, zero), err);
        }
      }
      var called := repo(state, req);
      if IsPanic(called.err) {
        return called;
      }
      state := called.state;
      var entities := ResultEntities(req, called.reply);
      if called.err.Some? && HookName(g, OnFail) in hooks {
        var (s2, err) := hooks[HookName(g, OnFail)](state, HookCall(called.err, entities));
        state := s2;
        if err.Some? {
          return Outcome(state, OnFailReply(req, called.reply), err);
        }
      }
      if HookName(g, After) in hooks {
        var (s3, err) := hooks[HookName(g, After)](state, HookCall(None, entities));
        state := s3;
        if err.Some? {
          return Outcome(state, called.reply, err);
        }
      }
      return Outcome(state, called.reply, called.err);
    }
  }

  // ---- properties of the control flow ---------------------------------------

  /**
   * A Before error stops the operation: the wrapped service is never
   * called (any other one gives the same outcome) and the error comes back
   * with the operation's veto value.
   */
  lemma BeforeErrorVetoes<S>(hooks: Hooks<S>, repo: Repo<S>, other: Repo<S>, entityName: EntityName, s: S, req: Request)
    requires HookName(GroupOf(req), Before) in hooks
    requires hooks[HookName(GroupOf(req), Before)](s, HookCall(None, BeforeEntities(req, ZeroEntity(entityName)))).1.Some?
    ensures var (s1, e) := hooks[HookName(GroupOf(req), Before)](s, HookCall(None, BeforeEntities(req, ZeroEntity(entityName))));
      RunOp(hooks, repo, entityName, s, req) == Outcome(s1, VetoReply(req, ZeroEntity(entityName)), e)
    ensures RunOp(hooks, repo, entityName, s, req) == RunOp(hooks, other, entityName, s, req)
  {
  }

  /** A Before error comes with: the payload, a zero entity, an empty page, 0 or false. */
  lemma VetoValues(req: Request, zero: Entity)
    ensures (req.Create? || req.Update? || req.UpdateField?) ==> VetoReply(req, zero) == EntityReply(req.payload)
    ensures (req.FindOne? || req.Associate? || req.Dissociate? || req.Random? || req.First?) ==> VetoReply(req, zero) == EntityReply(zero)
    ensures req.FindAll? ==> VetoReply(req, zero) == PageReply(Page([], 0, 0, 0, 0))
    ensures req.ComboBox? ==> VetoReply(req, zero) == ComboReply(Page([], 0, 0, 0, 0))
    ensures req.Count? ==> VetoReply(req, zero) == CountReply(0)
    ensures req.Exists? ==> VetoReply(req, zero) == ExistsReply(false)
  {
  }

  /** The wrapped call runs in the state Before left, when Before let it through. */
  ghost predicate Passes<S>(hooks: Hooks<S>, entityName: EntityName, s: S, req: Request, s1: S)
  {
    RunHook(hooks, HookName(GroupOf(req), Before), s, HookCall(None, BeforeEntities(req, ZeroEntity(entityName)))) == (s1, None)
  }

  /**
   * A failed call whose OnFail hook returns an error: that error replaces
   * the call's, and After does not run.
   */
  lemma OnFailErrorReplaces<S>(hooks: Hooks<S>, repo: Repo<S>, entityName: EntityName, s: S, s1: S, req: Request)
    requires Passes(hooks, entityName, s, req, s1)
    requires repo(s1, req).err.Some? && !IsPanic(repo(s1, req).err)
    requires HookName(GroupOf(req), OnFail) in hooks
    requires var out := repo(s1, req);
      hooks[HookName(GroupOf(req), OnFail)](out.state, HookCall(out.err, ResultEntities(req, out.reply))).1.Some?
    ensures var out := repo(s1, req);
      var (s2, e) := hooks[HookName(GroupOf(req), OnFail)](out.state, HookCall(out.err, ResultEntities(req, out.reply)));
      RunOp(hooks, repo, entityName, s, req) == Outcome(s2, OnFailReply(req, out.reply), e)
  {
  }

  /**
   * A failed call whose OnFail hook is unset or returns nil still runs
   * After, which sees the call's entities; if After returns nil the call's
   * own error is returned, otherwise After's.
   */
  lemma AfterRunsAfterFailure<S>(hooks: Hooks<S>, repo: Repo<S>, entityName: EntityName, s: S, s1: S, req: Request)
    requires Passes(hooks, entityName, s, req, s1)
    requires repo(s1, req).err.Some? && !IsPanic(repo(s1, req).err)
    requires var out := repo(s1, req);
      RunHook(hooks, HookName(GroupOf(req), OnFail), out.state, HookCall(out.err, ResultEntities(req, out.reply))).1.None?
    requires HookName(GroupOf(req), After) in hooks
    ensures var out := repo(s1, req);
      var (s2, _) := RunHook(hooks, HookName(GroupOf(req), OnFail), out.state, HookCall(out.err, ResultEntities(req, out.reply)));
      var (s3, e) := hooks[HookName(GroupOf(req), After)](s2, HookCall(None, ResultEntities(req, out.reply)));
      RunOp(hooks, repo, entityName, s, req) == Outcome(s3, out.reply, if e.Some? then e else out.err)
  {
  }

  /** A successful call whose After hook fails returns After's error with the call's value. */
  lemma AfterErrorOnSuccess<S>(hooks: Hooks<S>, repo: Repo<S>, entityName: EntityName, s: S, s1: S, req: Request)
    requires Passes(hooks, entityName, s, req, s1)
    requires repo(s1, req).err.None?
    requires HookName(GroupOf(req), After) in hooks
    requires var out := repo(s1, req);
      hooks[HookName(GroupOf(req), After)](out.state, HookCall(None, ResultEntities(req, out.reply))).1.Some?
    ensures var out := repo(s1, req);
      var (s3, e) := hooks[HookName(GroupOf(req), After)](out.state, HookCall(None, ResultEntities(req, out.reply)));
      RunOp(hooks, repo, entityName, s, req) == Outcome(s3, out.reply, e)
  {
  }

  /** With no hook set, every operation is exactly the wrapped call. */
  lemma NoHooksPassThrough<S>(repo: Repo<S>, entityName: EntityName, s: S, req: Request)
    ensures RunOp(map[], repo, entityName, s, req) == repo(s, req)
  {
  }

  /** Hooks that change nothing and never fail leave the wrapped call's outcome as it was. */
  lemma SilentHooksPassThrough<S>(hooks: Hooks<S>, repo: Repo<S>, entityName: EntityName, s: S, req: Request)
    requires forall h, t: S, c :: h in hooks ==> hooks[h](t, c) == (t, None)
    ensures RunOp(hooks, repo, entityName, s, req) == repo(s, req)
  {
    var g := GroupOf(req);
    assert RunHook(hooks, HookName(g, Before), s, HookCall(None, BeforeEntities(req, ZeroEntity(entityName)))) == (s, None);
    var out := repo(s, req);
    if !IsPanic(out.err) {
      var entities := ResultEntities(req, out.reply);
      assert RunHook(hooks, HookName(g, OnFail), out.state, HookCall(out.err, entities)) == (out.state, None);
      assert RunHook(hooks, HookName(g, After), out.state, HookCall(None, entities)) == (out.state, None);
    }
  }

  /**
   * A service whose only hook for the operation is Before: the Before
   * error vetoes, and otherwise the outcome is the wrapped call's, whatever
   * it is.
   */
  lemma BeforeOnly<S>(hooks: Hooks<S>, repo: Repo<S>, entityName: EntityName, s: S, req: Request)
    requires HookName(GroupOf(req), OnFail) !in hooks && HookName(GroupOf(req), After) !in hooks
    ensures var zero := ZeroEntity(entityName);
      var (s1, veto) := RunHook(hooks, HookName(GroupOf(req), Before), s, HookCall(None, BeforeEntities(req, zero)));
      RunOp(hooks, repo, entityName, s, req) == if veto.Some? then Outcome(s1, VetoReply(req, zero), veto) else repo(s1, req)
  {
    var zero := ZeroEntity(entityName);
    var (s1, veto) := RunHook(hooks, HookName(GroupOf(req), Before), s, HookCall(None, BeforeEntities(req, zero)));
    if veto.None? {
      var out := repo(s1, req);
      var entities := ResultEntities(req, out.reply);
      assert RunHook(hooks, HookName(GroupOf(req), After), out.state, HookCall(None, entities)) == (out.state, None);
      assert AfterCall(hooks, req, out) == out;
    }
  }

  /**
   * UpdateField goes through the same BeforeUpdate, OnUpdateFail and
   * AfterUpdate slots as Update: when the wrapped service answers both
   * alike in the state BeforeUpdate leaves, so does the service.
   */
  lemma UpdateFieldSharesUpdateHooks<S>(hooks: Hooks<S>, repo: Repo<S>, entityName: EntityName, s: S,
                                        payload: Entity, field: string, value: Value)
    requires var s1 := RunHook(hooks, HookName(UpdateHooks, Before), s, HookCall(None, [payload])).0;
      repo(s1, UpdateField(payload, field, value)) == repo(s1, Update(payload))
    ensures RunOp(hooks, repo, entityName, s, UpdateField(payload, field, value)) == RunOp(hooks, repo, entityName, s, Update(payload))
  {
    var byField := UpdateField(payload, field, value);
    var whole := Update(payload);
    var s1 := RunHook(hooks, HookName(UpdateHooks, Before), s, HookCall(None, [payload])).0;
    assert forall r :: ResultEntities(byField, r) == ResultEntities(whole, r) && OnFailReply(byField, r) == OnFailReply(whole, r);
    assert AfterCall(hooks, byField, repo(s1, whole)) == AfterCall(hooks, whole, repo(s1, whole));
  }

  /**
   * Delete's OnFail and After hooks are given the payload whatever the
   * wrapped call returned; FindAll's are given the page's content.
   */
  lemma HookArguments(payload: Entity, reply: Reply, zero: Entity, p: Pageable, f: Option<Filter.Filter>,
                      rs: seq<Relation.Relation>, os: seq<Order.OrderBy>, page: Page<Entity>)
    ensures ResultEntities(Delete(payload), reply) == [payload]
    ensures ResultEntities(FindAll(p, f, rs, os), PageReply(page)) == page.content
    ensures BeforeEntities(FindAll(p, f, rs, os), zero) == []
    ensures forall id, rels :: BeforeEntities(FindOne(id, rels), zero) == [zero]
  {
  }

  /** A panic of the wrapped call reaches the caller untouched: no OnFail or After runs. */
  lemma PanicSkipsHooks<S>(hooks: Hooks<S>, repo: Repo<S>, entityName: EntityName, s: S, s1: S, req: Request)
    requires Passes(hooks, entityName, s, req, s1)
    requires IsPanic(repo(s1, req).err)
    ensures RunOp(hooks, repo, entityName, s, req) == repo(s1, req)
  {
  }
}
