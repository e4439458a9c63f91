// The query-parameter readers of the generic controller. A parameter that
// is absent reads as the empty string, as url.Values.Get returns it.
module Controller {
  import opened Strings
  import opened Common
  import Filter
  import Order
  import Relation
  import GormScopes
  import GormRepository

  // ---- strconv.Atoi -------------------------------------------------------------

  /** The range of Go's int on a 64-bit platform. */
  const MinInt: int := -0x8000_0000_0000_0000
  const MaxInt: int := 0x7FFF_FFFF_FFFF_FFFF

  predicate AllDigits(s: string)
  {
    forall k :: 0 <= k < |s| ==> IsDigit(s[k])
  }

  function AtoiSyntaxError(s: string): Error
  {
    Failure("strconv.Atoi: parsing \"" + s + "\": invalid syntax")
  }

  function AtoiRangeError(s: string): Error
  {
    Failure("strconv.Atoi: parsing \"" + s + "\": value out of range")
  }

  /**
   * strconv.Atoi in base 10: an optional '+' or '-', then at least one
   * decimal digit and nothing else; a value outside int's range is an error.
   */
  function Atoi(s: string): (r: Result<int>)
    ensures r.Ok? ==> MinInt <= r.value <= MaxInt
    ensures s == [] ==> r.Err?
  {
    var negative := |s| > 0 && s[0] == '-';
    var digits := if |s| > 0 && (s[0] == '+' || s[0] == '-') then s[1..] else s;
    if digits == [] || !AllDigits(digits) then Err(AtoiSyntaxError(s))
    else
      var n: int := if negative then -(DecimalValue(digits) as int) else DecimalValue(digits);
      if n < MinInt || n > MaxInt then Err(AtoiRangeError(s))
      else Ok(n)
  }

  /** Every int, printed in decimal, reads back as itself. */
  lemma AtoiRoundTrip(i: int)
    requires MinInt <= i <= MaxInt
    ensures Atoi(IntToDecimal(i)) == Ok(i)
  {
    var s := IntToDecimal(i);
    if i < 0 {
      DecimalRoundTrip(-i);
      assert s[1..] == NatToDecimal(-i);
    } else {
      DecimalRoundTrip(i);
      assert IsDigit(s[0]);
    }
  }

  /** A character other than a digit after the optional sign makes Atoi fail. */
  lemma AtoiRejectsNonDigit(s: string, k: nat)
    requires 0 < k < |s| && !IsDigit(s[k])
    ensures Atoi(s).Err?
  {
    if s[0] == '+' || s[0] == '-' {
      assert s[1..][k - 1] == s[k];
    }
  }

  // ---- the four extractors --------------------------------------------------------

  /**
   * extractPageableFromRequest: each of page and size is its Atoi value
   * when that succeeds, and 1 or 10 otherwise.
   */
  function ExtractPageable(page: string, size: string): (r: Pageable)
    ensures Atoi(page).Ok? ==> r.page == Atoi(page).value
    ensures Atoi(page).Err? ==> r.page == 1
    ensures Atoi(size).Ok? ==> r.size == Atoi(size).value
    ensures Atoi(size).Err? ==> r.size == 10
  {
    var intPage := match Atoi(page) case Ok(n) => n case Err(_) => 1;
    var intSize := match Atoi(size) case Ok(n) => n case Err(_) => 10;
    Pageable(intPage, intSize)
  }

  /** Missing parameters give page 1 of size 10. */
  lemma PageableDefaults()
    ensures ExtractPageable("", "") == Pageable(1, 10)
  {
  }

  /** Any int, zero and negatives included, passes through unclamped. */
  lemma PageablePassesIntegers(page: int, size: int)
    requires MinInt <= page <= MaxInt && MinInt <= size <= MaxInt
    ensures ExtractPageable(IntToDecimal(page), IntToDecimal(size)) == Pageable(page, size)
  {
    AtoiRoundTrip(page);
    AtoiRoundTrip(size);
  }

  /**
   * extractFilterFromRequest, over the parser that splits lists at
   * top-level commas only: no filter for an empty parameter or one that
   * fails to parse (the error is dropped), otherwise the parsed filter.
   */
  function ExtractFilter(s: string): (r: Option<Filter.Filter>)
    ensures r.Some? <==> s != "" && Filter.ParseNested(s).Ok?
    ensures r.Some? ==> r.value == Filter.ParseNested(s).value
  {
    if s == "" then None
    else
      match Filter.ParseNested(s)
      case Ok(f) => Some(f)
      case Err(_) => None
  }

  /** Every well-formed filter, nested ones included, printed, is read back as itself. */
  lemma FilterParameterRoundTrip(x: Filter.Filter)
    requires Filter.WellFormed(x)
    ensures ExtractFilter(Filter.ToString(x)) == Some(x)
  {
    Filter.NestedRoundTrip(x);
    assert Filter.ParseNested("").Err?;
  }

  /**
   * extractFilterFromRequest as written, over filter.Parse: no filter for an
   * empty parameter or a parse error, the parsed filter otherwise; a panic
   * inside the parser is not an error value and ends the request.
   */
  function ExtractFilterAsWritten(s: string): (r: Result<Option<Filter.Filter>>)
    ensures s == "" ==> r == Ok(None)
    ensures r.Err? <==> s != "" && Filter.Parse(s).Err? && Filter.Parse(s).error.Panic?
    ensures r.Err? ==> r.error == Filter.Parse(s).error
    ensures r.Ok? && r.value.Some? <==> s != "" && Filter.Parse(s).Ok?
    ensures r.Ok? && r.value.Some? ==> r.value.value == Filter.Parse(s).value
  {
    if s == "" then Ok(None)
    else
      match Filter.Parse(s)
      case Ok(f) => Ok(Some(f))
      case Err(e) => if e.Panic? then Err(e) else Ok(None)
  }

  /** As written, the parameter `filter=and(` panics inside the extractor. */
  lemma OpenFilterParameterPanics()
    ensures ExtractFilterAsWritten("and(") == Err(Filter.SliceBoundsPanic)
  {
    Filter.OpenCompositePanics();
  }

  /**
   * On a one-level composite of leaves the as-written extractor and the
   * one over the corrected parser read the same filter back.
   */
  lemma FlatFilterParameterAgrees(op: string, fs: seq<Filter.Filter>)
    requires Filter.IsOperator(op) && |fs| >= 1
    requires forall i :: 0 <= i < |fs| ==> Filter.ListableLeaf(fs[i])
    ensures ExtractFilterAsWritten(Filter.ToString(Filter.Composite(op, fs))) == Ok(Some(Filter.Composite(op, fs)))
  {
    Filter.FlatCompositeRoundTrip(op, fs);
    Filter.CompositeString(op, fs);
  }

  /**
   * Whatever filter the parameter yields through the corrected parser, the
   * corrected scope applies it without failing.
   */
  lemma ExtractedFilterApplies(s: string)
    ensures GormScopes.ScopeFilter(ExtractFilter(s)).Ok?
  {
    if ExtractFilter(s).Some? {
      GormScopes.NestedFilterApplies(s);
    }
  }

  /**
   * extractOrderBysFromRequest: no orderings for an empty or malformed
   * parameter, otherwise exactly what the order parser returns.
   */
  function ExtractOrderBys(s: string): (r: seq<Order.OrderBy>)
    ensures s != "" && Order.ParseOrders(s).Ok? ==> r == Order.ParseOrders(s).value
    ensures s == "" || Order.ParseOrders(s).Err? ==> r == []
  {
    if s == "" then []
    else
      match Order.ParseOrders(s)
      case Ok(os) => os
      case Err(_) => []
  }

  /** A non-empty list of orderings free of ':' and ',' is read back as itself. */
  lemma OrderParameterRoundTrip(os: seq<Order.OrderBy>)
    requires |os| >= 1
    requires forall i :: 0 <= i < |os| ==>
      ':' !in os[i].field && ':' !in os[i].direction && ',' !in os[i].field && ',' !in os[i].direction
    ensures ExtractOrderBys(Order.FormatAll(os)) == os
  {
    Order.RoundTrip(os);
    Order.EmptySegmentRejected("", 0);
  }

  /**
   * extractRelationsFromRequest: no relations for an empty parameter,
   * otherwise the comma-separated segments, which the relation parser
   * never refuses.
   */
  function ExtractRelations(s: string): (r: seq<Relation.Relation>)
    ensures s == "" ==> r == []
    ensures s != "" ==> |r| == Count(s, ',') + 1 && Join(r, ',') == s
  {
    if s == "" then [] else
      SplitLength(s, ',');
      JoinSplit(s, ',');
      Split(s, ',')
  }

  /** A list of comma-free relations that does not print as "" is read back as itself. */
  lemma RelationParameterRoundTrip(rs: seq<Relation.Relation>)
    requires |rs| >= 1 && Join(rs, ',') != ""
    requires forall k :: 0 <= k < |rs| ==> ',' !in rs[k]
    ensures ExtractRelations(Join(rs, ',')) == rs
  {
    SplitJoin(rs, ',');
  }

  /** The relation extractor agrees with the relation parser on every non-empty parameter. */
  method ExtractRelationsByParse(s: string) returns (r: seq<Relation.Relation>)
    ensures r == ExtractRelations(s)
  {
    if s == "" {
      return [];
    }
    var parsed := Relation.Parse(s);
    if parsed.Err? {
      return [];
    }
    r := parsed.value;
  }

  // ---- the list request ------------------------------------------------------------

  /**
   * A request without a filter parameter gives no filter; the scope as
   * written dereferences it and panics, the corrected scope adds no
   * condition.
   */
  lemma MissingFilterReachesScope()
    ensures ExtractFilter("") == None
    ensures GormScopes.ScopeFilterAsWritten(ExtractFilter("")) == Err(GormScopes.NilCallPanic)
    ensures GormScopes.ScopeFilter(ExtractFilter("")) == Ok([])
  {
    GormScopes.MissingFilterPanics();
  }

  /** A malformed filter parameter is dropped, and so reaches the scope as a missing one. */
  lemma MalformedFilterDropped(field: string, comparator: string)
    requires ':' !in field && ':' !in comparator
    requires !Filter.HasOperatorPrefix(field + ":" + comparator)
    ensures ExtractFilter(field + ":" + comparator) == None
  {
    CountFree(field, ':');
    CountFree(comparator, ':');
    CountAppend(field, ":", ':');
    CountAppend(field + ":", comparator, ':');
  }

  /**
   * With the corrected parser and scope, any query string gives a list
   * request whose statement can be built: whatever the page, filter,
   * relations and order parameters hold.
   */
  lemma ListQueryAlwaysBuilt(page: string, size: string, filter: string, relations: string, order: string)
    ensures GormRepository.ListQuery(ExtractPageable(page, size), ExtractFilter(filter),
                                     ExtractRelations(relations), ExtractOrderBys(order)).Ok?
  {
    ExtractedFilterApplies(filter);
  }
}
