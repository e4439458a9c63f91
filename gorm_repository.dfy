// The GORM repository: each operation builds its statement from the scopes
// and hands it to the database. The database itself is a parameter: the
// answers it gives to each statement.
module GormRepository {
  import opened Common
  import opened RequestContext
  import opened Service
  import opened GormScopes
  import Filter
  import Order
  import Relation

  /** The four single-row writes. */
  datatype Write = Insert | Save | SetField(field: string, value: Value) | Remove

  /** What the database answers: rows found, a count, a first row and the rows affected, a write. */
  datatype Database = Database(
    find: seq<Clause> -> (seq<Entity>, Option<Error>),
    count: seq<Clause> -> (int, Option<Error>),
    first: (seq<Clause>, Option<Uuid>) -> (Entity, int, Option<Error>),
    write: (Write, Entity) -> (Entity, Option<Error>))

  /** The composite Total is counted under: an "and" with no children. */
  function Everything(): Filter.Filter
  {
    Filter.Composite(Filter.LogicalAnd, [])
  }

  /** Everything adds no condition. */
  lemma EverythingUnfiltered()
    ensures ScopeFilter(Some(Everything())) == Ok([])
  {
    assert ComposeFrom(Everything(), WhereAnd, 0) == Ok([]);
  }

  /** Count: the rows under the filter's conditions; a panicking scope panics. */
  function Count(db: Database, f: Option<Filter.Filter>): (int, Option<Error>)
  {
    match ScopeFilter(f)
    case Err(e) => (0, Some(e))
    case Ok(q) => db.count(q)
  }

  /** The list statement: page, preloads, orderings and the filter's conditions. */
  function ListQuery(p: Pageable, f: Option<Filter.Filter>, relations: seq<Relation.Relation>,
                     orderBys: seq<Order.OrderBy>): Result<seq<Clause>>
  {
    match ScopeFilter(f)
    case Err(e) => Err(e)
    case Ok(conditions) => Ok(ScopePage(p) + PreloadClauses(relations) + OrderClauses(orderBys) + conditions)
  }

  /**
   * The envelope FindAll and ComboBox share: the rows of the list
   * statement, the filtered count and the total count, stopping at the
   * first error.
   */
  function Fetch(db: Database, p: Pageable, f: Option<Filter.Filter>, relations: seq<Relation.Relation>,
                 orderBys: seq<Order.OrderBy>): Result<(seq<Entity>, int, int)>
  {
    match ListQuery(p, f, relations, orderBys)
    case Err(e) => Err(e)
    case Ok(q) =>
      var (rows, findErr) := db.find(q);
      if findErr.Some? then Err(findErr.value)
      else
        var (filtered, filteredErr) := Count(db, f);
        if filteredErr.Some? then Err(filteredErr.value)
        else
          var (total, totalErr) := Count(db, Some(Everything()));
          if totalErr.Some? then Err(totalErr.value)
          else Ok((rows, total, filtered))
  }

  /** FindAll: the page of rows, with the request's page and size as given; a zero page on error. */
  function FindAll(db: Database, p: Pageable, f: Option<Filter.Filter>, relations: seq<Relation.Relation>,
                   orderBys: seq<Order.OrderBy>): (Page<Entity>, Option<Error>)
  {
    match Fetch(db, p, f, relations, orderBys)
    case Err(e) => (EmptyPage(), Some(e))
    case Ok((rows, total, filtered)) => (NewPage(rows, p.page, p.size, total, filtered), None)
  }

  /** The combo options of a list of rows: identifier and name, in order. */
  function Options(rows: seq<Entity>): (r: seq<ComboOption>)
    ensures |r| == |rows|
    ensures forall i :: 0 <= i < |rows| ==> r[i] == ComboOption(rows[i].id, rows[i].name)
  {
    seq(|rows|, i requires 0 <= i < |rows| => ComboOption(rows[i].id, rows[i].name))
  }

  /** ComboBox's loop appending one option per row. */
  method ComboOptions(rows: seq<Entity>) returns (options: seq<ComboOption>)
    ensures options == Options(rows)
  {
    options := [];
    for i := 0 to |rows|
      invariant options == Options(rows[..i])
    {
      options := options + [ComboOption(rows[i].id, rows[i].name)];
    }
    assert rows[..|rows|] == rows;
  }

  /** ComboBox: the envelope of FindAll with options for content. */
  function ComboBox(db: Database, p: Pageable, f: Option<Filter.Filter>, relations: seq<Relation.Relation>,
                    orderBys: seq<Order.OrderBy>): (Page<ComboOption>, Option<Error>)
  {
    match Fetch(db, p, f, relations, orderBys)
    case Err(e) => (EmptyPage(), Some(e))
    case Ok((rows, total, filtered)) => (NewPage(Options(rows), p.page, p.size, total, filtered), None)
  }

  /** Every operation of the repository, as a reply and an error. */
  function Handle(db: Database, entityName: EntityName, req: Request): (Reply, Option<Error>)
  {
    var zero := ZeroEntity(entityName);
    match req
    case Create(p) => var (e, err) := db.write(Insert, p); (EntityReply(e), err)
    case Update(p) => var (e, err) := db.write(Save, p); (EntityReply(e), err)
    case UpdateField(p, field, value) => var (e, err) := db.write(SetField(field, value), p); (EntityReply(e), err)
    case Delete(p) => (DeleteReply, db.write(Remove, p).1)
    case FindOne(id, relations) => var (e, _, err) := db.first(PreloadClauses(relations), Some(id)); (EntityReply(e), err)
    case FindAll(p, f, relations, orderBys) => var (page, err) := FindAll(db, p, f, relations, orderBys); (PageReply(page), err)
    case Count(f) => var (n, err) := Count(db, f); (CountReply(n), err)
    case Associate(_, _, _) => (EntityReply(zero), None)
    case Dissociate(_, _, _) => (EntityReply(zero), None)
    case Exists(id) => var (_, rows, err) := db.first([], Some(id)); (ExistsReply(rows > 0), err)
    case Random => var (e, _, err) := db.first([OrderClause("RANDOM()")], None); (EntityReply(e), err)
    case First(f) =>
      (match ScopeFilter(f)
       case Err(e) => (EntityReply(zero), Some(e))
       case Ok(q) => var (e, _, err) := db.first(q, None); (EntityReply(e), err))
    case ComboBox(p, f, relations, orderBys) => var (page, err) := ComboBox(db, p, f, relations, orderBys); (ComboReply(page), err)
  }

  /** The repository as the bottom of a service stack; it keeps its rows outside the world. */
  function GormRepo<D>(db: Database, entityName: EntityName): Repo<World<D>>
  {
    (w: World<D>, req: Request) => var (reply, err) := Handle(db, entityName, req); Outcome(w, reply, err)
  }

  // ---- properties -------------------------------------------------------------

  /**
   * FindAll's envelope: it succeeds iff the list statement, the filtered
   * count and the total count all do; then the content is the rows found,
   * page and size are the request's own (not the clamped ones the query
   * used), Total is the count with no condition and Filtered the count
   * under the filter. Any error gives a zero page.
   */
  lemma FindAllEnvelope(db: Database, p: Pageable, f: Option<Filter.Filter>, relations: seq<Relation.Relation>,
                        orderBys: seq<Order.OrderBy>)
    ensures var (page, err) := FindAll(db, p, f, relations, orderBys);
      (err.None? <==>
        ScopeFilter(f).Ok?
        && db.find(ScopePage(p) + PreloadClauses(relations) + OrderClauses(orderBys) + ScopeFilter(f).value).1.None?
        && db.count(ScopeFilter(f).value).1.None?
        && db.count([]).1.None?)
      && (err.Some? ==> page == EmptyPage())
      && (err.None? ==>
        page.content == db.find(ScopePage(p) + PreloadClauses(relations) + OrderClauses(orderBys) + ScopeFilter(f).value).0
        && page.page == p.page && page.size == p.size
        && page.total == db.count([]).0
        && page.filtered == db.count(ScopeFilter(f).value).0)
  {
    EverythingUnfiltered();
  }

  /** ComboBox has the same envelope, with one (id, name) option per row found, in order. */
  lemma ComboBoxEnvelope(db: Database, p: Pageable, f: Option<Filter.Filter>, relations: seq<Relation.Relation>,
                         orderBys: seq<Order.OrderBy>)
    ensures var (page, err) := ComboBox(db, p, f, relations, orderBys);
      (err.None? <==> FindAll(db, p, f, relations, orderBys).1.None?)
      && (err.Some? ==> page == EmptyPage() && err == FindAll(db, p, f, relations, orderBys).1)
      && (err.None? ==>
        var found := FindAll(db, p, f, relations, orderBys).0;
        page.content == Options(found.content)
        && page.page == found.page && page.size == found.size
        && page.total == found.total && page.filtered == found.filtered)
  {
  }

  /** A page number below 1 is queried as page 1 but reported as given. */
  lemma PageReportedUnclamped(db: Database, p: Pageable, f: Option<Filter.Filter>, relations: seq<Relation.Relation>,
                              orderBys: seq<Order.OrderBy>)
    requires p.page < 1 && FindAll(db, p, f, relations, orderBys).1.None?
    ensures ScopePage(p)[1].offset == 0
    ensures FindAll(db, p, f, relations, orderBys).0.page == p.page
  {
  }

  /** Exists is true iff the lookup by identifier affected a row. */
  lemma ExistsIffRows(db: Database, entityName: EntityName, id: Uuid)
    ensures Handle(db, entityName, Exists(id)).0 == ExistsReply(db.first([], Some(id)).1 > 0)
    ensures Handle(db, entityName, Exists(id)).1 == db.first([], Some(id)).2
  {
  }

  /** Associate and Dissociate ignore the database: a zero entity and no error, always. */
  lemma AssociationIgnoresStorage(db: Database, other: Database, entityName: EntityName, id: Uuid, association: string, target: Uuid)
    ensures Handle(db, entityName, Associate(id, association, target)) == (EntityReply(ZeroEntity(entityName)), None)
    ensures Handle(db, entityName, Dissociate(id, association, target)) == (EntityReply(ZeroEntity(entityName)), None)
    ensures Handle(db, entityName, Associate(id, association, target)) == Handle(other, entityName, Associate(id, association, target))
  {
  }

  /** Create, Update and UpdateField return the row as written and the write's error, unchanged. */
  lemma WritesPassThrough(db: Database, entityName: EntityName, p: Entity, field: string, value: Value)
    ensures Handle(db, entityName, Create(p)) == (EntityReply(db.write(Insert, p).0), db.write(Insert, p).1)
    ensures Handle(db, entityName, Update(p)) == (EntityReply(db.write(Save, p).0), db.write(Save, p).1)
    ensures Handle(db, entityName, UpdateField(p, field, value)) ==
      (EntityReply(db.write(SetField(field, value), p).0), db.write(SetField(field, value), p).1)
  {
  }

  /** The repository writes neither the request's context nor the audit store. */
  lemma GormRepoConfined<D>(db: Database, entityName: EntityName, w: World<D>, req: Request)
    ensures GormRepo<D>(db, entityName)(w, req).state == w
  {
  }
}
