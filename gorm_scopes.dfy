// The query scopes of the GORM repository: paging, preloading, ordering and
// the translation of a filter tree into WHERE conditions. A query is the
// list of clauses the scopes add to the statement; the SQL GORM builds from
// them is not modelled.
module GormScopes {
  import opened Strings
  import opened Common
  import Filter
  import Order
  import Relation

  /** A condition: SQL text with '?' placeholders and the values bound to them. */
  datatype Condition = Condition(sql: string, args: seq<Value>)

  /** How a condition joins the ones before it: db.Where, db.Or or db.Not. */
  datatype Connective = WhereAnd | WhereOr | WhereNot

  datatype Clause =
    | Limit(limit: int)
    | Offset(offset: int)
    | Preload(relation: Relation.Relation)
    | OrderClause(column: string)
    | Where(connective: Connective, condition: Condition)
    | Group(connective: Connective, clauses: seq<Clause>)

  /** Calling a nil function value, or a method through a nil interface. */
  const NilCallPanic: Error := Panic("invalid memory address or nil pointer dereference")

  // ---- paging ---------------------------------------------------------------

  /** The clamping of scopePage: values below 1 become 1. */
  function AtLeastOne(x: int): (r: int)
    ensures r >= 1 && (x >= 1 ==> r == x) && (x < 1 ==> r == 1)
  {
    if x < 1 then 1 else x
  }

  /**
   * scopePage: page and size below 1 become 1; the limit is the size and
   * the offset skips the whole pages before this one.
   */
  function ScopePage(p: Pageable): (r: seq<Clause>)
    ensures |r| == 2 && r[0].Limit? && r[1].Offset?
    ensures r[0].limit == AtLeastOne(p.size) && r[0].limit >= 1
    ensures r[1].offset == r[0].limit * (AtLeastOne(p.page) - 1) && r[1].offset >= 0
  {
    var page := AtLeastOne(p.page);
    var size := AtLeastOne(p.size);
    [Limit(size), Offset(size * (page - 1))]
  }

  // ---- preloading and ordering ----------------------------------------------

  /** The clauses scopePreload adds: one preload per relation, in list order. */
  function PreloadClauses(relations: seq<Relation.Relation>): (r: seq<Clause>)
    ensures |r| == |relations|
    ensures forall i :: 0 <= i < |r| ==> r[i] == Preload(relations[i])
  {
    seq(|relations|, i requires 0 <= i < |relations| => Preload(relations[i]))
  }

  /** scopePreload: the loop reassigning the statement once per relation. */
  method ScopePreload(query: seq<Clause>, relations: seq<Relation.Relation>) returns (r: seq<Clause>)
    ensures r == query + PreloadClauses(relations)
  {
    r := query;
    for i := 0 to |relations|
      invariant r == query + PreloadClauses(relations[..i])
    {
      r := r + [Preload(relations[i])];
    }
    assert relations[..|relations|] == relations;
  }

  /** The ORDER BY column of one OrderBy: exactly "asc" is ascending, anything else descending. */
  function OrderColumn(o: Order.OrderBy): (column: string)
    ensures o.direction == Order.Asc ==> column == o.field
    ensures o.direction != Order.Asc ==> column == o.field + " DESC"
  {
    if o.direction == Order.Asc then o.field else o.field + " DESC"
  }

  function OrderClauses(orderBys: seq<Order.OrderBy>): (r: seq<Clause>)
    ensures |r| == |orderBys|
    ensures forall i :: 0 <= i < |r| ==> r[i] == OrderClause(OrderColumn(orderBys[i]))
  {
    seq(|orderBys|, i requires 0 <= i < |orderBys| => OrderClause(OrderColumn(orderBys[i])))
  }

  /** scopeOrder: one ordering per OrderBy, in list order. */
  method ScopeOrder(query: seq<Clause>, orderBys: seq<Order.OrderBy>) returns (r: seq<Clause>)
    ensures r == query + OrderClauses(orderBys)
  {
    r := query;
    for i := 0 to |orderBys|
      invariant r == query + OrderClauses(orderBys[..i])
    {
      if orderBys[i].direction == Order.Asc {
        r := r + [OrderClause(orderBys[i].field)];
      } else {
        r := r + [OrderClause(orderBys[i].field + " DESC")];
      }
    }
    assert orderBys[..|orderBys|] == orderBys;
  }

  // ---- comparisons ----------------------------------------------------------

  /** The SQL fragment after the field name for each comparator; unknown ones compare for equality. */
  function ComparatorSql(comparator: string): string
  {
    if comparator == Filter.ComparatorEqual then " = ?"
    else if comparator == Filter.ComparatorNotEqual then " != ?"
    else if comparator == Filter.ComparatorGreaterThan then " > ?"
    else if comparator == Filter.ComparatorGreaterThanOrEqual then " >= ?"
    else if comparator == Filter.ComparatorLessThan then " < ?"
    else if comparator == Filter.ComparatorLessThanOrEqual then " <= ?"
    else if comparator == Filter.ComparatorLike then " LIKE ?"
    else if comparator == Filter.ComparatorNotLike then " NOT LIKE ?"
    else if comparator == Filter.ComparatorIn then " IN (?)"
    else if comparator == Filter.ComparatorNotIn then " NOT IN (?)"
    else if comparator == Filter.ComparatorIsNull then " IS NULL"
    else if comparator == Filter.ComparatorIsNotNull then " IS NOT NULL"
    else " = ?"
  }

  predicate KnownComparator(c: string)
  {
    c in {Filter.ComparatorEqual, Filter.ComparatorNotEqual, Filter.ComparatorGreaterThan,
          Filter.ComparatorGreaterThanOrEqual, Filter.ComparatorLessThan, Filter.ComparatorLessThanOrEqual,
          Filter.ComparatorLike, Filter.ComparatorNotLike, Filter.ComparatorIn, Filter.ComparatorNotIn,
          Filter.ComparatorIsNull, Filter.ComparatorIsNotNull}
  }

  /** The null tests take no value; every other comparator takes one. */
  predicate TakesValue(c: string)
  {
    c != Filter.ComparatorIsNull && c != Filter.ComparatorIsNotNull
  }

  /**
   * The comparison table: an unknown comparator compares like "eq", and a
   * fragment holds a placeholder exactly when its comparator takes a value.
   */
  lemma ComparatorTable(c: string)
    ensures !KnownComparator(c) ==> ComparatorSql(c) == ComparatorSql(Filter.ComparatorEqual)
    ensures '?' in ComparatorSql(c) <==> TakesValue(c)
  {
  }

  /**
   * compare as written: nothing for a null value, otherwise the field and
   * the fragment, with no value bound to the placeholder.
   */
  function CompareAsWritten(leaf: Filter.Filter): Option<Condition>
    requires leaf.Leaf?
  {
    if leaf.value.Null? then None
    else Some(Condition(leaf.field + ComparatorSql(leaf.comparator), []))
  }

  /** compare with the leaf's value bound to the placeholder, when there is one. */
  function Compare(leaf: Filter.Filter): (r: Option<Condition>)
    requires leaf.Leaf?
    ensures r.None? <==> leaf.value.Null?
    ensures r.Some? ==> r.value.sql == leaf.field + ComparatorSql(leaf.comparator)
    ensures r.Some? ==> (r.value.args == [leaf.value] <==> '?' in ComparatorSql(leaf.comparator))
    ensures r.Some? ==> (r.value.args == [] <==> '?' !in ComparatorSql(leaf.comparator))
  {
    ComparatorTable(leaf.comparator);
    if leaf.value.Null? then None
    else Some(Condition(leaf.field + ComparatorSql(leaf.comparator), if TakesValue(leaf.comparator) then [leaf.value] else []))
  }

  /**
   * As written, a comparison that takes a value leaves its placeholder
   * unbound: the condition's SQL holds a '?' and no argument goes with it.
   */
  lemma PlaceholderUnbound(leaf: Filter.Filter)
    requires leaf.Leaf? && !leaf.value.Null? && TakesValue(leaf.comparator)
    ensures var c := CompareAsWritten(leaf).value;
      c.args == [] && '?' in c.sql
  {
    ComparatorTable(leaf.comparator);
    var c := CompareAsWritten(leaf).value;
    var i :| 0 <= i < |ComparatorSql(leaf.comparator)| && ComparatorSql(leaf.comparator)[i] == '?';
    assert c.sql[|leaf.field| + i] == '?';
  }

  // ---- filters --------------------------------------------------------------

  function ConnectiveOf(operator: string): Option<Connective>
  {
    if operator == Filter.LogicalAnd then Some(WhereAnd)
    else if operator == Filter.LogicalOr then Some(WhereOr)
    else if operator == Filter.LogicalNot then Some(WhereNot)
    else None
  }

  /**
   * filterComposite applied to the statement: and, or and not compose the
   * children with Where, Or and Not; any other operator yields a nil
   * scope, and calling it panics.
   */
  function CompositeClauses(f: Filter.Filter): Result<seq<Clause>>
    requires f.Composite?
    decreases f, 1
  {
    match ConnectiveOf(f.operator)
    case None => Err(NilCallPanic)
    case Some(k) => ComposeFrom(f, k, 0)
  }

  /** The clauses of one child: a group for a composite, a condition for a non-null leaf. */
  function ChildClauses(parent: Filter.Filter, k: Connective, child: Filter.Filter): Result<seq<Clause>>
    requires child < parent
    decreases parent, 0, 0
  {
    if child.Composite? then
      match CompositeClauses(child)
      case Err(e) => Err(e)
      case Ok(cs) => Ok([Group(k, cs)])
    else
      match Compare(child)
      case None => Ok([])
      case Some(c) => Ok([Where(k, c)])
  }

  /** The and/or/not composers from child i on: the children in order, stopping at a panic. */
  function ComposeFrom(f: Filter.Filter, k: Connective, i: nat): Result<seq<Clause>>
    requires f.Composite? && i <= |f.filters|
    decreases f, 0, 1, |f.filters| - i
  {
    if i == |f.filters| then Ok([])
    else
      match ChildClauses(f, k, f.filters[i])
      case Err(e) => Err(e)
      case Ok(head) =>
        match ComposeFrom(f, k, i + 1)
        case Err(e) => Err(e)
        case Ok(tail) => Ok(head + tail)
  }

  /** `clauses` followed by the outcome of the rest, or the rest's panic. */
  function Prefixed(clauses: seq<Clause>, rest: Result<seq<Clause>>): Result<seq<Clause>>
  {
    match rest
    case Err(e) => Err(e)
    case Ok(t) => Ok(clauses + t)
  }

  /** The composer's loop: visit the children in order, recursing into composites. */
  method Compose(f: Filter.Filter, k: Connective) returns (r: Result<seq<Clause>>)
    requires f.Composite?
    ensures r == ComposeFrom(f, k, 0)
  {
    var clauses: seq<Clause> := [];
    assert Prefixed(clauses, ComposeFrom(f, k, 0)) == ComposeFrom(f, k, 0) by {
      if ComposeFrom(f, k, 0).Ok? {
        assert clauses + ComposeFrom(f, k, 0).value == ComposeFrom(f, k, 0).value;
      }
    }
    for i := 0 to |f.filters|
      invariant ComposeFrom(f, k, 0) == Prefixed(clauses, ComposeFrom(f, k, i))
    {
      var child := ChildClauses(f, k, f.filters[i]);
      if child.Err? {
        return Err(child.error);
      }
      if ComposeFrom(f, k, i + 1).Ok? {
        assert clauses + (child.value + ComposeFrom(f, k, i + 1).value) == (clauses + child.value) + ComposeFrom(f, k, i + 1).value;
      }
      clauses := clauses + child.value;
    }
    assert ComposeFrom(f, k, |f.filters|) == Ok([]);
    assert clauses + [] == clauses;
    return Ok(clauses);
  }

  /**
   * scopeFilter as written: a nil filter panics, a leaf adds nothing, a
   * composite is composed. Its leaf comparisons are the corrected Compare;
   * CompareAsWritten is the one that leaves the placeholder unbound.
   */
  function ScopeFilterAsWritten(f: Option<Filter.Filter>): Result<seq<Clause>>
  {
    match f
    case None => Err(NilCallPanic)
    case Some(Leaf(_, _, _)) => Ok([])
    case Some(c) => CompositeClauses(c)
  }

  /** scopeFilter treating a missing filter as no condition. */
  function ScopeFilter(f: Option<Filter.Filter>): (r: Result<seq<Clause>>)
    ensures f.None? ==> r == Ok([])
    ensures f.Some? ==> r == ScopeFilterAsWritten(f)
  {
    match f
    case None => Ok([])
    case Some(_) => ScopeFilterAsWritten(f)
  }

  /** A missing filter reaches scopeFilter whenever no filter was given: it panics. */
  lemma MissingFilterPanics()
    ensures ScopeFilterAsWritten(None) == Err(NilCallPanic)
    ensures ScopeFilter(None) == Ok([])
  {
  }

  // ---- which filters can be applied ------------------------------------------

  /** Every composite in the tree has one of the three operators. */
  predicate KnownOperators(f: Filter.Filter)
  {
    match f
    case Leaf(_, _, _) => true
    case Composite(op, fs) => Filter.IsOperator(op) && forall i :: 0 <= i < |fs| ==> KnownOperators(fs[i])
  }

  /** Composing succeeds exactly when every operator in the tree is known. */
  lemma {:induction false} CompositeClausesOk(f: Filter.Filter)
    requires f.Composite?
    ensures CompositeClauses(f).Ok? <==> KnownOperators(f)
    decreases f, 1
  {
    if ConnectiveOf(f.operator).Some? {
      ComposeFromOk(f, ConnectiveOf(f.operator).value, 0);
    }
  }

  lemma {:induction false} ComposeFromOk(f: Filter.Filter, k: Connective, i: nat)
    requires f.Composite? && i <= |f.filters|
    ensures ComposeFrom(f, k, i).Ok? <==> forall j :: i <= j < |f.filters| ==> KnownOperators(f.filters[j])
    decreases f, 0, |f.filters| - i
  {
    if i < |f.filters| {
      var child := f.filters[i];
      if child.Composite? {
        CompositeClausesOk(child);
      }
      ComposeFromOk(f, k, i + 1);
    }
  }

  /** Every filter the parser accepts has only known operators. */
  lemma {:induction false} ParsedKnown(s: string)
    ensures Filter.Parse(s).Ok? ==> KnownOperators(Filter.Parse(s).value)
    decreases |s|, 2
  {
    if Filter.HasOperatorPrefix(s) {
      ParsedCompositeKnown(s);
    }
  }

  lemma {:induction false} ParsedCompositeKnown(s: string)
    ensures Filter.ParseComposite(s).Ok? ==> KnownOperators(Filter.ParseComposite(s).value)
    decreases |s|, 1
  {
    var op := Filter.OperatorOf(s);
    if Filter.IsOperator(op) && |s| >= |op| + 2 {
      var inner := s[|op| + 1..|s| - 1];
      assert Filter.ParseFilterList(inner) == Filter.ParseEach(Split(inner, ','), |inner|);
      ParsedEachKnown(Split(inner, ','), |inner|);
    }
  }

  lemma {:induction false} ParsedEachKnown(parts: seq<string>, bound: nat)
    requires forall k :: 0 <= k < |parts| ==> |parts[k]| <= bound
    ensures var r := Filter.ParseEach(parts, bound);
      r.Ok? ==> forall i :: 0 <= i < |r.value| ==> KnownOperators(r.value[i])
    decreases bound, 3, |parts|
  {
    Filter.ParseEachSpec(parts, bound);
    forall k | 0 <= k < |parts|
      ensures Filter.Parse(parts[k]).Ok? ==> KnownOperators(Filter.Parse(parts[k]).value)
    {
      ParsedKnown(parts[k]);
    }
  }

  /** A filter with only known operators, as the parser produces, never makes scopeFilter panic. */
  lemma KnownFilterApplies(f: Filter.Filter)
    requires KnownOperators(f)
    ensures ScopeFilterAsWritten(Some(f)).Ok? && ScopeFilter(Some(f)).Ok?
  {
    if f.Composite? {
      CompositeClausesOk(f);
    }
  }

  /** So a filter read from the query string never makes scopeFilter panic. */
  lemma ParsedFilterApplies(s: string)
    requires Filter.Parse(s).Ok?
    ensures ScopeFilterAsWritten(Some(Filter.Parse(s).value)).Ok?
  {
    ParsedKnown(s);
    KnownFilterApplies(Filter.Parse(s).value);
  }

  /** Every filter the corrected parser accepts has only known operators. */
  lemma {:induction false} ParsedNestedKnown(s: string)
    ensures Filter.ParseNested(s).Ok? ==> KnownOperators(Filter.ParseNested(s).value)
    decreases |s|, 2
  {
    if Filter.HasOperatorPrefix(s) {
      ParsedCompositeNestedKnown(s);
    }
  }

  lemma {:induction false} ParsedCompositeNestedKnown(s: string)
    ensures Filter.ParseCompositeNested(s).Ok? ==> KnownOperators(Filter.ParseCompositeNested(s).value)
    decreases |s|, 1
  {
    var op := Filter.OperatorOf(s);
    if Filter.IsOperator(op) && |s| >= |op| + 2 && s[|s| - 1] == ')' {
      var inner := s[|op| + 1..|s| - 1];
      assert Filter.ParseFilterListNested(inner) == Filter.ParseEachNested(Filter.SplitTopLevel(inner), |inner|);
      ParsedEachNestedKnown(Filter.SplitTopLevel(inner), |inner|);
    }
  }

  lemma {:induction false} ParsedEachNestedKnown(parts: seq<string>, bound: nat)
    requires forall k :: 0 <= k < |parts| ==> |parts[k]| <= bound
    ensures var r := Filter.ParseEachNested(parts, bound);
      r.Ok? ==> forall i :: 0 <= i < |r.value| ==> KnownOperators(r.value[i])
    decreases bound, 3, |parts|
  {
    if parts != [] {
      ParsedNestedKnown(parts[0]);
      ParsedEachNestedKnown(parts[1..], bound);
    }
  }

  /** A filter read by the corrected parser never makes the scope fail. */
  lemma NestedFilterApplies(s: string)
    requires Filter.ParseNested(s).Ok?
    ensures ScopeFilter(Some(Filter.ParseNested(s).value)).Ok?
  {
    ParsedNestedKnown(s);
    KnownFilterApplies(Filter.ParseNested(s).value);
  }

  /** A top-level leaf adds no condition at all. */
  lemma LeafAddsNothing(field: string, comparator: string, value: Value)
    ensures ScopeFilter(Some(Filter.Leaf(field, comparator, value))) == Ok([])
  {
  }

  /** One condition per child from i on, each joined with `k`. */
  function LeafConditions(f: Filter.Filter, k: Connective, i: nat): (r: seq<Clause>)
    requires f.Composite? && i <= |f.filters|
    requires forall j :: 0 <= j < |f.filters| ==> f.filters[j].Leaf? && !f.filters[j].value.Null?
  {
    seq(|f.filters| - i, j requires 0 <= j < |f.filters| - i => Where(k, Compare(f.filters[i + j]).value))
  }

  /**
   * A composite of non-null leaves becomes one condition per leaf, in
   * order, each joined with the composite's connective.
   */
  lemma {:induction false} FlatComposite(f: Filter.Filter, k: Connective, i: nat)
    requires f.Composite? && i <= |f.filters|
    requires forall j :: 0 <= j < |f.filters| ==> f.filters[j].Leaf? && !f.filters[j].value.Null?
    ensures ComposeFrom(f, k, i) == Ok(LeafConditions(f, k, i))
    decreases |f.filters| - i
  {
    if i < |f.filters| {
      FlatComposite(f, k, i + 1);
      LeafConditionsCons(f, k, i);
      assert ChildClauses(f, k, f.filters[i]) == Ok([Where(k, Compare(f.filters[i]).value)]);
    } else {
      assert LeafConditions(f, k, i) == [];
    }
  }

  lemma LeafConditionsCons(f: Filter.Filter, k: Connective, i: nat)
    requires f.Composite? && i < |f.filters|
    requires forall j :: 0 <= j < |f.filters| ==> f.filters[j].Leaf? && !f.filters[j].value.Null?
    ensures LeafConditions(f, k, i) == [Where(k, Compare(f.filters[i]).value)] + LeafConditions(f, k, i + 1)
  {
    var head := [Where(k, Compare(f.filters[i]).value)];
    var rest := LeafConditions(f, k, i + 1);
    assert |LeafConditions(f, k, i)| == |head + rest|;
    forall j | 0 <= j < |head + rest| ensures LeafConditions(f, k, i)[j] == (head + rest)[j] {
      if j > 0 {
        assert rest[j - 1] == Where(k, Compare(f.filters[i + 1 + (j - 1)]).value);
      }
    }
  }
}
