// Query filters: leaves `field:comparator:value` and composites
// `op(child,child,...)`, their text form and the parser the HTTP layer uses.
module Filter {
  import opened Strings
  import opened Common

  const ComparatorEqual := "eq"
  const ComparatorNotEqual := "ne"
  const ComparatorGreaterThan := "gt"
  const ComparatorGreaterThanOrEqual := "ge"
  const ComparatorLessThan := "lt"
  const ComparatorLessThanOrEqual := "le"
  const ComparatorLike := "like"
  const ComparatorNotLike := "not_like"
  const ComparatorIn := "in"
  const ComparatorNotIn := "not_in"
  const ComparatorIsNull := "is_null"
  const ComparatorIsNotNull := "is_not_null"

  const LogicalAnd := "and"
  const LogicalOr := "or"
  const LogicalNot := "not"

  /**
   * A filter. The comparator and the operator are free strings, as in the
   * source: constructors and the parser can produce values outside the
   * named constants.
   */
  datatype Filter =
    | Leaf(field: string, comparator: string, value: Value)
    | Composite(operator: string, filters: seq<Filter>)

  function IsComposite(f: Filter): bool
  {
    f.Composite?
  }

  // ---- constructors ---------------------------------------------------------

  function And(filters: seq<Filter>): Filter { Composite(LogicalAnd, filters) }
  function Or(filters: seq<Filter>): Filter { Composite(LogicalOr, filters) }
  function Not(filter: Filter): Filter { Composite(LogicalNot, [filter]) }
  function Equal(field: string, value: Value): Filter { Leaf(field, ComparatorEqual, value) }
  function NotEqual(field: string, value: Value): Filter { Leaf(field, ComparatorNotEqual, value) }
  function GreaterThan(field: string, value: Value): Filter { Leaf(field, ComparatorGreaterThan, value) }
  function GreaterThanOrEqual(field: string, value: Value): Filter { Leaf(field, ComparatorGreaterThanOrEqual, value) }
  function LessThan(field: string, value: Value): Filter { Leaf(field, ComparatorLessThan, value) }
  function LessThanOrEqual(field: string, value: Value): Filter { Leaf(field, ComparatorLessThanOrEqual, value) }
  function Like(field: string, value: Value): Filter { Leaf(field, ComparatorLike, value) }
  function NotLike(field: string, value: Value): Filter { Leaf(field, ComparatorNotLike, value) }
  function In(field: string, value: Value): Filter { Leaf(field, ComparatorIn, value) }
  function NotIn(field: string, value: Value): Filter { Leaf(field, ComparatorNotIn, value) }
  function IsNull(field: string): Filter { Leaf(field, ComparatorIsNull, Null) }
  function IsNotNull(field: string): Filter { Leaf(field, ComparatorIsNotNull, Null) }
  function NewComposite(operator: string, filters: seq<Filter>): Filter { Composite(operator, filters) }
  function NewLeaf(field: string, comparator: string, value: Value): Filter { Leaf(field, comparator, value) }

  // ---- text form ------------------------------------------------------------

  /** ToString: `field:comparator:%v` for a leaf, `op(c1,c2,...)` for a composite. */
  function ToString(f: Filter): string
    decreases f
  {
    match f
    case Leaf(field, comparator, value) => field + ":" + comparator + ":" + ValueText(value)
    case Composite(op, fs) =>
      op + "(" + Join(seq(|fs|, i requires 0 <= i < |fs| => ToString(fs[i])), ',') + ")"
  }

  function ToStrings(fs: seq<Filter>): (r: seq<string>)
    ensures |r| == |fs|
  {
    seq(|fs|, i requires 0 <= i < |fs| => ToString(fs[i]))
  }

  /** Composite.ToString collects the children's strings in a loop. */
  method Render(f: Filter) returns (r: string)
    ensures r == ToString(f)
    decreases f
  {
    match f
    case Leaf(field, comparator, value) =>
      r := field + ":" + comparator + ":" + ValueText(value);
    case Composite(op, fs) =>
      var parts: seq<string> := [];
      var i := 0;
      while i < |fs|
        invariant 0 <= i <= |fs|
        invariant |parts| == i
        invariant forall k :: 0 <= k < i ==> parts[k] == ToString(fs[k])
      {
        var p := Render(fs[i]);
        parts := parts + [p];
        i := i + 1;
      }
      assert parts == ToStrings(fs);
      r := op + "(" + Join(parts, ',') + ")";
  }

  /** The comparator each leaf constructor stores; the null tests carry no value. */
  lemma LeafConstructorComparators(field: string, v: Value)
    ensures Equal(field, v).comparator == "eq" && NotEqual(field, v).comparator == "ne"
    ensures GreaterThan(field, v).comparator == "gt" && GreaterThanOrEqual(field, v).comparator == "ge"
    ensures LessThan(field, v).comparator == "lt" && LessThanOrEqual(field, v).comparator == "le"
    ensures Like(field, v).comparator == "like" && NotLike(field, v).comparator == "not_like"
    ensures In(field, v).comparator == "in" && NotIn(field, v).comparator == "not_in"
    ensures IsNull(field) == Leaf(field, "is_null", Null)
    ensures IsNotNull(field) == Leaf(field, "is_not_null", Null)
  {
  }

  /** Not wraps exactly one child; And and Or keep their children in order. */
  lemma CompositeConstructorsRender(f: Filter, fs: seq<Filter>)
    ensures ToString(Not(f)) == "not(" + ToString(f) + ")"
    ensures ToString(And(fs)) == "and(" + Join(ToStrings(fs), ',') + ")"
    ensures ToString(Or(fs)) == "or(" + Join(ToStrings(fs), ',') + ")"
  {
    assert ToStrings([f]) == [ToString(f)];
    CompositeString(LogicalNot, [f]);
    CompositeString(LogicalAnd, fs);
    CompositeString(LogicalOr, fs);
  }

  // ---- parsing (as written) -------------------------------------------------

  function LeafFormatError(s: string): Error
  {
    Failure("invalid leaf filter format: " + s)
  }

  function OperatorError(op: string): Error
  {
    Failure("invalid composite filter operator: " + op)
  }

  const SliceBoundsPanic := Panic("slice bounds out of range")

  predicate IsOperator(op: string)
  {
    op == LogicalAnd || op == LogicalOr || op == LogicalNot
  }

  /** The test Parse uses to pick the composite branch. */
  predicate HasOperatorPrefix(s: string)
  {
    HasPrefix(s, "and(") || HasPrefix(s, "or(") || HasPrefix(s, "not(")
  }

  /** The operator ParseComposite reads: everything before the first '('. */
  function OperatorOf(s: string): (op: string)
    ensures op == Split(s, '(')[0]
    ensures |op| <= |s| && op == s[..|op|] && '(' !in op
    ensures |op| < |s| ==> s[|op|] == '('
  {
    var i := IndexOf(s, '(');
    assert forall k :: 0 <= k < i ==> s[..i][k] == s[k];
    s[..i]
  }

  /**
   * ParseLeaf: exactly two ':' make a leaf whose value is the third piece as
   * text; printing that leaf gives the input back.
   */
  function ParseLeaf(s: string): (r: Result<Filter>)
    ensures r.Ok? <==> Count(s, ':') == 2
    ensures r.Err? ==> r.error == LeafFormatError(s)
    ensures r.Ok? ==> r.value.Leaf? && r.value.value.Text? && ToString(r.value) == s
    ensures r.Ok? ==> ':' !in r.value.field && ':' !in r.value.comparator && ':' !in r.value.value.text
  {
    var parts := Split(s, ':');
    SplitLength(s, ':');
    SplitPiecesFree(s, ':');
    JoinSplit(s, ':');
    if |parts| != 3 then Err(LeafFormatError(s))
    else
      Join3(parts[0], parts[1], parts[2], ':');
      assert [parts[0], parts[1], parts[2]] == parts;
      Ok(Leaf(parts[0], parts[1], Text(parts[2])))
  }

  lemma Join3(a: string, b: string, c: string, sep: char)
    ensures Join([a, b, c], sep) == a + [sep] + b + [sep] + c
  {
    assert [a, b, c][1..] == [b, c];
    assert [b, c][1..] == [c];
    assert Join([b, c], sep) == b + [sep] + c;
    assert Join([a, b, c], sep) == a + [sep] + Join([b, c], sep);
  }

  /** Parse: composite when the input starts with "and(", "or(" or "not(". */
  function Parse(s: string): Result<Filter>
    decreases |s|, 2
  {
    if HasOperatorPrefix(s) then ParseComposite(s) else ParseLeaf(s)
  }

  /**
   * ParseComposite: checks the operator, then drops it, its '(' and the last
   * character (whatever it is) and parses the rest as a list. An input too
   * short for that slice makes the Go code panic. Go slices by bytes, so the
   * two agree when that last character is ASCII.
   */
  function ParseComposite(s: string): Result<Filter>
    decreases |s|, 1
  {
    var op := OperatorOf(s);
    if !IsOperator(op) then Err(OperatorError(op))
    else if |s| < |op| + 2 then Err(SliceBoundsPanic)
    else
      match ParseFilterList(s[|op| + 1..|s| - 1])
      case Err(e) => Err(e)
      case Ok(fs) => Ok(Composite(op, fs))
  }

  /** ParseFilterList: strings.Split at EVERY comma, then the loop over the pieces. */
  function ParseFilterList(s: string): Result<seq<Filter>>
    decreases |s|, 4
  {
    ParseEach(Split(s, ','), |s|)
  }

  /**
   * The loop of ParseFilterList: parse the pieces in order, stop at the
   * first failure. `bound` bounds the pieces' lengths for termination.
   */
  function ParseEach(parts: seq<string>, ghost bound: nat): Result<seq<Filter>>
    requires forall k :: 0 <= k < |parts| ==> |parts[k]| <= bound
    decreases bound, 3, |parts|
  {
    if parts == [] then Ok([])
    else
      match Parse(parts[0])
      case Err(e) => Err(e)
      case Ok(f) =>
        match ParseEach(parts[1..], bound)
        case Err(e) => Err(e)
        case Ok(fs) => Ok([f] + fs)
  }

  /** A failing list loop returns the error of its first failing piece. */
  lemma {:induction false} ParseEachFirstError(parts: seq<string>, bound: nat)
    requires forall k :: 0 <= k < |parts| ==> |parts[k]| <= bound
    ensures ParseEach(parts, bound).Err? ==>
      exists k :: 0 <= k < |parts| && Parse(parts[k]) == Err(ParseEach(parts, bound).error)
        && forall j :: 0 <= j < k ==> Parse(parts[j]).Ok?
    decreases |parts|
  {
    if parts != [] && Parse(parts[0]).Ok? {
      var tail := parts[1..];
      ParseEachFirstError(tail, bound);
      var rest := ParseEach(tail, bound);
      if rest.Err? {
        assert ParseEach(parts, bound) == Err(rest.error);
        var k :| 0 <= k < |tail| && Parse(tail[k]) == Err(rest.error)
          && forall j :: 0 <= j < k ==> Parse(tail[j]).Ok?;
        assert parts[k + 1] == tail[k];
        forall j | 0 <= j < k + 1 ensures Parse(parts[j]).Ok? {
          if j > 0 {
            assert parts[j] == tail[j - 1];
          }
        }
      }
    }
  }

  /**
   * The list loop succeeds iff every piece parses, yields one filter per
   * piece in order, and otherwise returns the error of the first piece that
   * fails.
   */
  lemma {:induction false} ParseEachSpec(parts: seq<string>, bound: nat)
    requires forall k :: 0 <= k < |parts| ==> |parts[k]| <= bound
    ensures ParseEach(parts, bound).Ok? <==> forall k :: 0 <= k < |parts| ==> Parse(parts[k]).Ok?
    ensures ParseEach(parts, bound).Ok? ==>
      |ParseEach(parts, bound).value| == |parts|
      && forall k :: 0 <= k < |parts| ==> Parse(parts[k]) == Ok(ParseEach(parts, bound).value[k])
    ensures ParseEach(parts, bound).Err? ==>
      exists k :: 0 <= k < |parts| && Parse(parts[k]) == Err(ParseEach(parts, bound).error)
        && forall j :: 0 <= j < k ==> Parse(parts[j]).Ok?
    decreases |parts|
  {
    if parts != [] {
      var tail := parts[1..];
      ParseEachSpec(tail, bound);
      var head := Parse(parts[0]);
      var rest := ParseEach(tail, bound);
      var r := ParseEach(parts, bound);
      if head.Err? {
        assert r == Err(head.error);
      } else if rest.Err? {
        assert r == Err(rest.error);
        ParseEachFirstError(parts, bound);
      } else {
        assert r == Ok([head.value] + rest.value);
        forall k | 0 <= k < |parts| ensures Parse(parts[k]) == Ok(r.value[k]) {
          if k > 0 {
            assert parts[k] == tail[k - 1];
            assert r.value[k] == rest.value[k - 1];
          }
        }
      }
    }
  }

  /** A parsed list has one filter per comma-separated piece. */
  lemma ParseFilterListLength(s: string)
    ensures ParseFilterList(s).Ok? ==> |ParseFilterList(s).value| == Count(s, ',') + 1
  {
    SplitLength(s, ',');
    ParseEachSpec(Split(s, ','), |s|);
  }

  /**
   * ParseComposite called directly: an operator other than and/or/not is
   * reported; a valid operator without room for `(` and a last character
   * is the slice panic; otherwise the text between the `(` and the last
   * character is parsed as the list of children, whose error is passed on.
   */
  lemma ParseCompositeSpec(s: string)
    ensures !IsOperator(OperatorOf(s)) ==> ParseComposite(s) == Err(OperatorError(OperatorOf(s)))
    ensures IsOperator(OperatorOf(s)) && |s| < |OperatorOf(s)| + 2 ==> ParseComposite(s) == Err(SliceBoundsPanic)
    ensures IsOperator(OperatorOf(s)) && |s| >= |OperatorOf(s)| + 2 ==>
      var inner := s[|OperatorOf(s)| + 1..|s| - 1];
      (ParseComposite(s).Ok? <==> ParseFilterList(inner).Ok?) &&
      (ParseComposite(s).Ok? ==> ParseComposite(s).value == Composite(OperatorOf(s), ParseFilterList(inner).value)) &&
      (ParseComposite(s).Err? ==> ParseComposite(s).error == ParseFilterList(inner).error)
  {
  }

  /**
   * Text before the first `(` other than and/or/not is refused, whatever
   * follows it; `invalid(operator)` is one such input.
   */
  lemma InvalidOperatorRejected(op: string, rest: string)
    requires '(' !in op && !IsOperator(op)
    ensures ParseComposite(op + "(" + rest) == Err(OperatorError(op))
  {
    var s := op + "(" + rest;
    assert s[..|op| + 1] == op + "(";
    OperatorOfPrefixed(s, op);
  }

  /** The test input `invalid(operator)` is refused with the operator error. */
  lemma InvalidOperatorExample()
    ensures ParseComposite("invalid(operator)") == Err(OperatorError("invalid"))
  {
    assert "invalid(operator)" == "invalid" + "(" + "operator)";
    InvalidOperatorRejected("invalid", "operator)");
  }

  /** Behind the prefix `op(`, the operator ParseComposite reads is `op`. */
  lemma OperatorOfPrefixed(s: string, op: string)
    requires '(' !in op && HasPrefix(s, op + "(")
    ensures OperatorOf(s) == op
  {
    assert s == op + ['('] + s[|op| + 1..];
    IndexOfJoined(op, '(', s[|op| + 1..]);
  }

  /**
   * What Parse returns: a composite exactly for the operator-prefixed
   * inputs, always with a valid operator and at least one child. The
   * prefix test admits valid operators only, so through Parse the operator
   * check never fires; a valid operator without room for `(` and a last
   * character is the slice panic.
   */
  lemma ParseShape(s: string)
    ensures Parse(s).Ok? ==> (Parse(s).value.Composite? <==> HasOperatorPrefix(s))
    ensures Parse(s).Ok? && Parse(s).value.Composite? ==>
      IsOperator(Parse(s).value.operator) && |Parse(s).value.filters| >= 1
    ensures HasOperatorPrefix(s) ==> IsOperator(OperatorOf(s))
    ensures HasOperatorPrefix(s) && |s| < |OperatorOf(s)| + 2 ==> Parse(s) == Err(SliceBoundsPanic)
  {
    if HasOperatorPrefix(s) {
      if HasPrefix(s, "and(") {
        OperatorOfPrefixed(s, "and");
      } else if HasPrefix(s, "or(") {
        OperatorOfPrefixed(s, "or");
      } else {
        OperatorOfPrefixed(s, "not");
      }
      var op := OperatorOf(s);
      if IsOperator(op) && |s| >= |op| + 2 {
        var inner := s[|op| + 1..|s| - 1];
        assert ParseFilterList(inner) == ParseEach(Split(inner, ','), |inner|);
        ParseEachSpec(Split(inner, ','), |inner|);
      }
    }
  }

  lemma NotPrefixAt(s: string, p: string, k: nat)
    requires k < |p| && k < |s| && s[k] != p[k]
    ensures !HasPrefix(s, p)
  {
    assert |p| <= |s| ==> s[..|p|][k] == s[k];
  }

  /** Behind a field free of ':', a ':'-free prefix is the field's own. */
  lemma PrefixThroughColon(field: string, rest: string, p: string)
    requires ':' !in field && ':' !in p
    ensures HasPrefix(field + ":" + rest, p) <==> HasPrefix(field, p)
  {
    var s := field + ":" + rest;
    if |field| < |p| {
      assert s[|field|] == ':';
      assert p[|field|] in p;
      NotPrefixAt(s, p, |field|);
    } else {
      assert s[..|p|] == field[..|p|];
    }
  }

  /** A printed leaf takes the composite branch of Parse exactly when its field does. */
  lemma LeafStringOperatorPrefixed(field: string, rest: string)
    requires ':' !in field
    ensures HasOperatorPrefix(field + ":" + rest) <==> HasOperatorPrefix(field)
  {
    PrefixThroughColon(field, rest, "and(");
    PrefixThroughColon(field, rest, "or(");
    PrefixThroughColon(field, rest, "not(");
  }

  // ---- well-formed filters --------------------------------------------------

  /** Text free of the four characters the filter syntax reserves. */
  predicate PlainText(t: string)
  {
    forall k :: 0 <= k < |t| ==> t[k] != ':' && t[k] != ',' && t[k] != '(' && t[k] != ')'
  }

  /**
   * The filters whose text form the syntax can carry: text leaves with plain
   * parts, and non-empty composites under and/or/not.
   */
  predicate WellFormed(f: Filter)
    decreases f
  {
    match f
    case Leaf(field, comparator, value) =>
      value.Text? && PlainText(field) && PlainText(comparator) && PlainText(value.text)
    case Composite(op, fs) =>
      IsOperator(op) && |fs| >= 1 && forall i :: 0 <= i < |fs| ==> WellFormed(fs[i])
  }

  lemma PlainTextFree(t: string)
    requires PlainText(t)
    ensures ':' !in t && ',' !in t && '(' !in t && ')' !in t
  {
    forall c | c in t ensures c != ':' && c != ',' && c != '(' && c != ')' {
      var k :| 0 <= k < |t| && t[k] == c;
    }
  }

  /**
   * A text leaf that Parse reads back: no ':' in its three parts, and a
   * field that does not start like a composite.
   */
  predicate ParsableLeaf(f: Filter)
  {
    f.Leaf? && f.value.Text? && ':' !in f.field && ':' !in f.comparator && ':' !in f.value.text
    && !HasOperatorPrefix(f.field)
  }

  /** A parsable leaf that can also stand in a comma-separated list. */
  predicate ListableLeaf(f: Filter)
  {
    ParsableLeaf(f) && ',' !in f.field && ',' !in f.comparator && ',' !in f.value.text
  }

  /** A well-formed leaf is parsable. */
  lemma WellFormedLeafParsable(x: Filter)
    requires x.Leaf? && WellFormed(x)
    ensures ListableLeaf(x)
  {
    PlainTextFree(x.field);
    PlainTextFree(x.comparator);
    PlainTextFree(x.value.text);
    PrefixCharIn(x.field, "and(", 3);
    PrefixCharIn(x.field, "or(", 2);
    PrefixCharIn(x.field, "not(", 3);
  }

  lemma PrefixCharIn(t: string, p: string, k: nat)
    ensures HasPrefix(t, p) && k < |p| ==> p[k] in t
  {
    if HasPrefix(t, p) && k < |p| {
      assert t[..|p|][k] == t[k];
    }
  }

  /** A parsable leaf survives printing and parsing. */
  lemma LeafRoundTrip(x: Filter)
    requires ParsableLeaf(x)
    ensures Parse(ToString(x)) == Ok(x)
  {
    var s := ToString(x);
    LeafStringOperatorPrefixed(x.field, x.comparator + ":" + x.value.text);
    assert s == x.field + ":" + (x.comparator + ":" + x.value.text);
    var parts := [x.field, x.comparator, x.value.text];
    Join3(x.field, x.comparator, x.value.text, ':');
    assert Join(parts, ':') == s;
    SplitJoin(parts, ':');
  }

  /**
   * Of the text leaves, the parsable ones are exactly those that survive
   * printing and parsing: a ':' in a part or a composite-like field loses
   * the leaf.
   */
  lemma LeafRoundTripExact(x: Filter)
    requires x.Leaf? && x.value.Text?
    ensures Parse(ToString(x)) == Ok(x) <==> ParsableLeaf(x)
  {
    if ParsableLeaf(x) {
      LeafRoundTrip(x);
    } else {
      var s := ToString(x);
      assert s == x.field + ":" + (x.comparator + ":" + x.value.text);
      if HasOperatorPrefix(s) {
        ParseCompositeSpec(s);
      } else if ':' in x.field || ':' in x.comparator || ':' in x.value.text {
        CountAppend(x.field + ":" + x.comparator + ":", x.value.text, ':');
        CountAppend(x.field + ":" + x.comparator, ":", ':');
        CountAppend(x.field + ":", x.comparator, ':');
        CountAppend(x.field, ":", ':');
        if ':' in x.field {
          CountPresent(x.field, ':');
        } else if ':' in x.comparator {
          CountPresent(x.comparator, ':');
        } else {
          CountPresent(x.value.text, ':');
        }
        assert Count(s, ':') > 2;
      } else {
        LeafStringOperatorPrefixed(x.field, x.comparator + ":" + x.value.text);
      }
    }
  }

  /** The text form of a composite, unfolded. */
  lemma CompositeString(op: string, fs: seq<Filter>)
    ensures ToString(Composite(op, fs)) == op + "(" + Join(ToStrings(fs), ',') + ")"
  {
  }

  /**
   * The as-written parser handles one level: a non-empty and/or/not of
   * leaves that can stand in a list round-trips.
   */
  lemma FlatCompositeRoundTrip(op: string, fs: seq<Filter>)
    requires IsOperator(op) && |fs| >= 1
    requires forall i :: 0 <= i < |fs| ==> ListableLeaf(fs[i])
    ensures Parse(ToString(Composite(op, fs))) == Ok(Composite(op, fs))
  {
    var joined := Join(ToStrings(fs), ',');
    FlatListRoundTrip(fs);
    CompositeParsesList(op, joined);
  }

  /** The list of a flat composite's leaves, printed, is parsed back piece by piece. */
  lemma FlatListRoundTrip(fs: seq<Filter>)
    requires |fs| >= 1
    requires forall i :: 0 <= i < |fs| ==> ListableLeaf(fs[i])
    ensures ParseFilterList(Join(ToStrings(fs), ',')) == Ok(fs)
  {
    var parts := ToStrings(fs);
    var joined := Join(parts, ',');
    forall i | 0 <= i < |fs| ensures ',' !in parts[i] {
      assert parts[i] == fs[i].field + ":" + fs[i].comparator + ":" + fs[i].value.text;
    }
    forall i | 0 <= i < |fs| ensures Parse(parts[i]) == Ok(fs[i]) {
      LeafRoundTrip(fs[i]);
    }
    SplitJoin(parts, ',');
    assert Split(joined, ',') == parts;
    ParseEachSpec(parts, |joined|);
    var r := ParseEach(parts, |joined|);
    assert r.Ok?;
    assert r.value == fs;
  }

  /** A valid operator's `op(` + inner + `)` is parsed as the list `inner`. */
  lemma CompositeParsesList(op: string, inner: string)
    requires IsOperator(op)
    ensures ParseFilterList(inner).Ok? ==>
      Parse(op + "(" + inner + ")") == Ok(Composite(op, ParseFilterList(inner).value))
  {
    CompositeStructure(op, inner);
  }

  /** How Parse takes apart `op(` + inner + `)` for a valid operator. */
  lemma CompositeStructure(op: string, inner: string)
    requires IsOperator(op)
    ensures var s := op + "(" + inner + ")";
      && HasOperatorPrefix(s)
      && OperatorOf(s) == op
      && s[|op| + 1..|s| - 1] == inner
  {
    var s := op + "(" + inner + ")";
    assert s == op + ['('] + (inner + ")");
    IndexOfJoined(op, '(', inner + ")");
    assert s[..|op| + 1] == op + "(";
  }

  // ---- what the as-written parser gets wrong ------------------------------

  /** Joining with commas adds one comma per gap to the commas of the pieces. */
  lemma {:induction false} CountJoinAtLeast(ts: seq<string>, k: nat)
    requires k < |ts|
    ensures Count(Join(ts, ','), ',') >= |ts| - 1 + Count(ts[k], ',')
  {
    if |ts| > 1 {
      var rest := Join(ts[1..], ',');
      assert Join(ts, ',') == ts[0] + [','] + rest;
      CountAppend(ts[0] + [','], rest, ',');
      CountAppend(ts[0], [','], ',');
      if k == 0 {
        CountJoinAtLeast(ts[1..], 0);
      } else {
        CountJoinAtLeast(ts[1..], k - 1);
      }
    }
  }

  /** The text of a composite with two or more children holds a comma. */
  lemma CompositeHasComma(c: Filter)
    requires c.Composite? && |c.filters| >= 2
    ensures Count(ToString(c), ',') >= 1
  {
    var ts := ToStrings(c.filters);
    CountJoinAtLeast(ts, 0);
    CountAppend(c.operator + "(", Join(ts, ',') + ")", ',');
    CountAppend(Join(ts, ','), ")", ',');
    assert ToString(c) == c.operator + "(" + (Join(ts, ',') + ")");
  }

  /**
   * Finding: a composite with a child that is itself a composite of two or
   * more filters never comes back from Parse: the child's commas split it.
   */
  lemma NestedCompositeMisparsed(op: string, fs: seq<Filter>, k: nat)
    requires IsOperator(op) && k < |fs| && fs[k].Composite? && |fs[k].filters| >= 2
    ensures Parse(ToString(Composite(op, fs))) != Ok(Composite(op, fs))
  {
    var ts := ToStrings(fs);
    var inner := Join(ts, ',');
    CompositeString(op, fs);
    CompositeStructure(op, inner);
    CompositeHasComma(fs[k]);
    CountJoinAtLeast(ts, k);
    ParseFilterListLength(inner);
  }

  /** Finding: "and(" passes the prefix test but is too short for the slice. */
  lemma OpenCompositePanics()
    ensures Parse("and(") == Err(SliceBoundsPanic)
  {
    assert "and(" == "and" + ['('] + "";
    IndexOfJoined("and", '(', "");
    ParseShape("and(");
  }

  /** Whatever ends the input stands in for the closing ')'. */
  lemma LastCharacterIgnored(op: string, inner: string, last: char)
    requires IsOperator(op)
    ensures Parse(op + "(" + inner + [last]) == Parse(op + "(" + inner + ")")
  {
    var s := op + "(" + inner + [last];
    var t := op + "(" + inner + ")";
    CompositeStructure(op, inner);
    assert s[..|op| + 1] == op + "(" && s[..|op| + 1] == t[..|op| + 1];
    OperatorOfPrefixed(s, op);
    assert s[|op| + 1..|s| - 1] == inner;
    assert Parse(s) == ParseComposite(s);
    assert Parse(t) == ParseComposite(t);
  }

  /** The corrected parser reports an unclosed composite as an error. */
  lemma NestedRejectsUnclosed(s: string)
    requires HasOperatorPrefix(s) && IsOperator(OperatorOf(s))
    requires |s| < |OperatorOf(s)| + 2 || s[|s| - 1] != ')'
    ensures ParseNested(s) == Err(InvalidCompositeError)
  {
  }

  // ---- parsing with nesting (corrected) -------------------------------------

  function Delta(c: char): int
  {
    if c == '(' then 1 else if c == ')' then -1 else 0
  }

  /** Parenthesis depth at the end of `s`. */
  function Depth(s: string): int
  {
    if s == [] then 0 else Depth(s[..|s| - 1]) + Delta(s[|s| - 1])
  }

  function TopCommaFrom(s: string, i: nat, depth: int): (j: nat)
    requires i <= |s|
    ensures i <= j <= |s|
    decreases |s| - i
  {
    if i == |s| then |s|
    else if s[i] == ',' && depth == 0 then i
    else TopCommaFrom(s, i + 1, depth + Delta(s[i]))
  }

  /** Index of the first comma outside all parentheses, or |s|. */
  function TopComma(s: string): (j: nat)
    ensures j <= |s|
  {
    TopCommaFrom(s, 0, 0)
  }

  lemma DepthSnoc(s: string, k: nat)
    requires k < |s|
    ensures Depth(s[..k + 1]) == Depth(s[..k]) + Delta(s[k])
  {
    assert s[..k + 1][..k] == s[..k];
  }

  lemma {:induction false} TopCommaFromSpec(s: string, i: nat, depth: int)
    requires i <= |s| && depth == Depth(s[..i])
    ensures var j := TopCommaFrom(s, i, depth);
      && (j < |s| ==> s[j] == ',' && Depth(s[..j]) == 0)
      && forall k :: i <= k < j ==> !(s[k] == ',' && Depth(s[..k]) == 0)
    decreases |s| - i
  {
    if i < |s| && !(s[i] == ',' && depth == 0) {
      DepthSnoc(s, i);
      TopCommaFromSpec(s, i + 1, depth + Delta(s[i]));
    }
  }

  /** TopComma finds the first comma at depth zero. */
  lemma TopCommaSpec(s: string)
    ensures var j := TopComma(s);
      && (j < |s| ==> s[j] == ',' && Depth(s[..j]) == 0)
      && forall k :: 0 <= k < j ==> !(s[k] == ',' && Depth(s[..k]) == 0)
  {
    assert s[..0] == [];
    TopCommaFromSpec(s, 0, 0);
  }

  /** strings.Split at commas outside parentheses only. */
  function SplitTopLevel(s: string): (parts: seq<string>)
    ensures |parts| >= 1
    ensures forall k :: 0 <= k < |parts| ==> |parts[k]| <= |s|
    decreases |s|
  {
    var i := TopComma(s);
    if i == |s| then [s] else [s[..i]] + SplitTopLevel(s[i + 1..])
  }

  const InvalidCompositeError := Failure("invalid composite filter format")

  /** Parse, with lists split only at top-level commas. */
  function ParseNested(s: string): Result<Filter>
    decreases |s|, 2
  {
    if HasOperatorPrefix(s) then ParseCompositeNested(s) else ParseLeaf(s)
  }

  /**
   * ParseComposite, rejecting with an error (instead of slicing past the
   * end or dropping an arbitrary character) an input that does not close
   * with ')' after the '('.
   */
  function ParseCompositeNested(s: string): Result<Filter>
    decreases |s|, 1
  {
    var op := OperatorOf(s);
    if !IsOperator(op) then Err(OperatorError(op))
    else if |s| < |op| + 2 || s[|s| - 1] != ')' then Err(InvalidCompositeError)
    else
      match ParseFilterListNested(s[|op| + 1..|s| - 1])
      case Err(e) => Err(e)
      case Ok(fs) => Ok(Composite(op, fs))
  }

  function ParseFilterListNested(s: string): Result<seq<Filter>>
    decreases |s|, 4
  {
    ParseEachNested(SplitTopLevel(s), |s|)
  }

  function ParseEachNested(parts: seq<string>, ghost bound: nat): Result<seq<Filter>>
    requires forall k :: 0 <= k < |parts| ==> |parts[k]| <= bound
    decreases bound, 3, |parts|
  {
    if parts == [] then Ok([])
    else
      match ParseNested(parts[0])
      case Err(e) => Err(e)
      case Ok(f) =>
        match ParseEachNested(parts[1..], bound)
        case Err(e) => Err(e)
        case Ok(fs) => Ok([f] + fs)
  }

  /** The corrected parser never panics, whatever the input. */
  lemma {:induction false} ParseNestedNeverPanics(s: string)
    ensures !ParseNested(s).Err? || !ParseNested(s).error.Panic?
    decreases |s|, 2
  {
    if HasOperatorPrefix(s) {
      var op := OperatorOf(s);
      if IsOperator(op) && |s| >= |op| + 2 && s[|s| - 1] == ')' {
        var inner := s[|op| + 1..|s| - 1];
        assert ParseFilterListNested(inner) == ParseEachNested(SplitTopLevel(inner), |inner|);
        EachNestedNeverPanics(SplitTopLevel(inner), |inner|);
      }
    }
  }

  lemma {:induction false} EachNestedNeverPanics(parts: seq<string>, bound: nat)
    requires forall k :: 0 <= k < |parts| ==> |parts[k]| <= bound
    ensures !ParseEachNested(parts, bound).Err? || !ParseEachNested(parts, bound).error.Panic?
    decreases bound, 3, |parts|
  {
    if parts != [] {
      ParseNestedNeverPanics(parts[0]);
      EachNestedNeverPanics(parts[1..], bound);
    }
  }

  /** Balanced: depth never below zero and back to zero at the end. */
  predicate Balanced(t: string)
  {
    Depth(t) == 0 && forall k :: 0 <= k <= |t| ==> Depth(t[..k]) >= 0
  }

  /** Every comma of `t` sits inside parentheses. */
  predicate NoTopComma(t: string)
  {
    forall k :: 0 <= k < |t| && t[k] == ',' ==> Depth(t[..k]) > 0
  }

  lemma {:induction false} DepthAppend(a: string, b: string)
    ensures Depth(a + b) == Depth(a) + Depth(b)
    decreases |b|
  {
    if b == [] {
      assert a + b == a;
    } else {
      var b' := b[..|b| - 1];
      assert (a + b)[..|a + b| - 1] == a + b';
      DepthAppend(a, b');
    }
  }

  lemma {:induction false} DepthWithoutParens(t: string)
    requires '(' !in t && ')' !in t
    ensures Depth(t) == 0
    decreases |t|
  {
    if t != [] {
      assert t[|t| - 1] in t;
      var t' := t[..|t| - 1];
      assert forall c :: c in t' ==> c in t;
      DepthWithoutParens(t');
    }
  }

  /** Text with no parenthesis and no comma. */
  predicate Bare(t: string)
  {
    forall k :: 0 <= k < |t| ==> t[k] != ',' && t[k] != '(' && t[k] != ')'
  }

  lemma BareBalanced(t: string)
    requires Bare(t)
    ensures Balanced(t) && NoTopComma(t)
    ensures forall k :: 0 <= k <= |t| ==> Depth(t[..k]) == 0
  {
    forall k | 0 <= k <= |t| ensures Depth(t[..k]) == 0 {
      forall c | c in t[..k] ensures c != '(' && c != ')' {
        var j :| 0 <= j < k && t[..k][j] == c;
        assert t[j] == c;
      }
      DepthWithoutParens(t[..k]);
    }
    assert t[..|t|] == t;
  }

  lemma CommaBalanced()
    ensures Balanced(",")
  {
    assert ","[..0] == "";
    assert ","[..1] == ",";
    assert ","[..0] == ","[..|","| - 1];
  }

  lemma BalancedConcat(a: string, b: string)
    requires Balanced(a) && Balanced(b)
    ensures Balanced(a + b)
  {
    DepthAppend(a, b);
    forall k | 0 <= k <= |a + b| ensures Depth((a + b)[..k]) >= 0 {
      if k <= |a| {
        assert (a + b)[..k] == a[..k];
      } else {
        assert (a + b)[..k] == a + b[..k - |a|];
        DepthAppend(a, b[..k - |a|]);
        assert a[..|a|] == a;
      }
    }
  }

  lemma {:induction false} BalancedJoin(ts: seq<string>)
    requires forall i :: 0 <= i < |ts| ==> Balanced(ts[i])
    ensures Balanced(Join(ts, ','))
    decreases |ts|
  {
    if |ts| == 0 {
      assert Depth("") == 0;
    } else if |ts| > 1 {
      BalancedJoin(ts[1..]);
      CommaBalanced();
      BalancedConcat(ts[0], ",");
      BalancedConcat(ts[0] + ",", Join(ts[1..], ','));
    }
  }

  /** The text form of a well-formed filter is balanced with no top-level comma. */
  lemma {:induction false} ToStringShape(x: Filter)
    requires WellFormed(x)
    ensures Balanced(ToString(x)) && NoTopComma(ToString(x))
    decreases x
  {
    match x
    case Leaf(field, comparator, value) =>
      var t := ToString(x);
      assert t == field + ":" + comparator + ":" + value.text;
      assert Bare(t) by {
        forall k | 0 <= k < |t| ensures t[k] != ',' && t[k] != '(' && t[k] != ')' {
          if k < |field| {
            assert t[k] == field[k];
          } else if k == |field| {
          } else if k < |field| + 1 + |comparator| {
            assert t[k] == comparator[k - |field| - 1];
          } else if k == |field| + 1 + |comparator| {
          } else {
            assert t[k] == value.text[k - |field| - 2 - |comparator|];
          }
        }
      }
      BareBalanced(t);
    case Composite(op, fs) =>
      forall i | 0 <= i < |fs| ensures Balanced(ToStrings(fs)[i]) {
        ToStringShape(fs[i]);
      }
      var inner := Join(ToStrings(fs), ',');
      BalancedJoin(ToStrings(fs));
      WrappedShape(op, inner);
  }

  /** Inside `op(inner)`, the depth is one more than inside `inner`. */
  lemma WrappedPrefixDepth(op: string, inner: string, j: nat)
    requires Depth(op) == 0 && j <= |inner|
    ensures Depth((op + "(" + inner + ")")[..|op| + 1 + j]) == 1 + Depth(inner[..j])
  {
    var t := op + "(" + inner + ")";
    var a := op + "(";
    var pre := t[..|op| + 1 + j];
    assert pre == a + inner[..j] by {
      assert t == a + (inner + ")");
      PrefixOfConcat(a, inner + ")", j);
      assert (inner + ")")[..j] == inner[..j];
    }
    DepthAppend(a, inner[..j]);
    DepthAppend(op, "(");
    assert Depth("(") == 1;
  }

  lemma PrefixOfConcat(a: string, b: string, j: nat)
    requires j <= |b|
    ensures (a + b)[..|a| + j] == a + b[..j]
  {
  }

  /** `op(inner)` closes every parenthesis it opens. */
  lemma WrappedDepth(op: string, inner: string)
    requires Depth(op) == 0 && Depth(inner) == 0
    ensures Depth(op + "(" + inner + ")") == 0
  {
    assert op + "(" + inner + ")" == (op + "(") + (inner + ")");
    DepthAppend(op + "(", inner + ")");
    DepthAppend(op, "(");
    DepthAppend(inner, ")");
    assert Depth("(") == 1 && Depth(")") == -1;
  }

  /** `op(` + balanced + `)` is balanced and keeps all its commas inside. */
  lemma WrappedShape(op: string, inner: string)
    requires PlainText(op) && Balanced(inner)
    ensures Balanced(op + "(" + inner + ")") && NoTopComma(op + "(" + inner + ")")
  {
    var t := op + "(" + inner + ")";
    var n := |op|;
    BareBalanced(op);
    PlainTextFree(op);
    assert Depth(op[..n]) == 0 by { assert op[..n] == op; }
    WrappedDepth(op, inner);
    forall k | 0 <= k <= |t| ensures Depth(t[..k]) >= 0 && (k < |t| && t[k] == ',' ==> Depth(t[..k]) > 0) {
      if k <= n {
        assert t[..k] == op[..k];
        if k < n {
          assert t[k] == op[k] && op[k] in op;
        }
      } else if k < |t| {
        WrappedPrefixDepth(op, inner, k - n - 1);
      } else {
        assert t[..k] == t;
      }
    }
  }

  lemma TopCommaOfChunk(t: string, rest: string)
    requires Balanced(t) && NoTopComma(t)
    ensures TopComma(t + "," + rest) == |t|
    ensures TopComma(t) == |t|
  {
    var s := t + "," + rest;
    TopCommaSpec(s);
    TopCommaSpec(t);
    assert s[..|t|] == t;
    assert forall k :: 0 <= k < |t| ==> s[..k] == t[..k] && s[k] == t[k];
    assert t[..|t|] == t;
  }

  /** Splitting a join of balanced, comma-protected chunks gives the chunks back. */
  lemma {:induction false} SplitTopLevelJoin(ts: seq<string>)
    requires |ts| >= 1
    requires forall i :: 0 <= i < |ts| ==> Balanced(ts[i]) && NoTopComma(ts[i])
    ensures SplitTopLevel(Join(ts, ',')) == ts
    decreases |ts|
  {
    if |ts| == 1 {
      TopCommaOfChunk(ts[0], "");
      assert ts[0][..|ts[0]|] == ts[0];
    } else {
      var rest := Join(ts[1..], ',');
      var s := ts[0] + "," + rest;
      assert Join(ts, ',') == s;
      TopCommaOfChunk(ts[0], rest);
      assert s[..|ts[0]|] == ts[0];
      assert s[|ts[0]| + 1..] == rest;
      SplitTopLevelJoin(ts[1..]);
      assert [ts[0]] + ts[1..] == ts;
    }
  }

  lemma {:induction false} EachNestedRoundTrip(fs: seq<Filter>, bound: nat)
    requires forall i :: 0 <= i < |fs| ==> |ToString(fs[i])| <= bound
    requires forall i :: 0 <= i < |fs| ==> ParseNested(ToString(fs[i])) == Ok(fs[i])
    ensures ParseEachNested(ToStrings(fs), bound) == Ok(fs)
    decreases |fs|
  {
    if fs != [] {
      assert ToStrings(fs)[1..] == ToStrings(fs[1..]);
      EachNestedRoundTrip(fs[1..], bound);
      assert [fs[0]] + fs[1..] == fs;
    }
  }

  /** One composite level of the nested round trip, given its children's. */
  lemma CompositeNestedRoundTrip(op: string, fs: seq<Filter>)
    requires IsOperator(op) && |fs| >= 1
    requires forall i :: 0 <= i < |fs| ==> ParseNested(ToString(fs[i])) == Ok(fs[i])
    requires forall i :: 0 <= i < |fs| ==> Balanced(ToString(fs[i])) && NoTopComma(ToString(fs[i]))
    ensures ParseNested(ToString(Composite(op, fs))) == Ok(Composite(op, fs))
  {
    var parts := ToStrings(fs);
    var inner := Join(parts, ',');
    var s := ToString(Composite(op, fs));
    CompositeString(op, fs);
    assert s == op + "(" + inner + ")";
    CompositeStructure(op, inner);
    assert s[|s| - 1] == ')';
    SplitTopLevelJoin(parts);
    assert SplitTopLevel(inner) == parts;
    forall i | 0 <= i < |fs| ensures |ToString(fs[i])| <= |inner| {
      assert ToString(fs[i]) == parts[i];
    }
    EachNestedRoundTrip(fs, |inner|);
    assert ParseEachNested(parts, |inner|) == Ok(fs);
    assert ParseFilterListNested(inner) == Ok(fs);
    assert ParseNested(s) == ParseCompositeNested(s);
  }

  /** Every well-formed filter, at any nesting depth, survives printing and parsing. */
  lemma {:induction false} NestedRoundTrip(x: Filter)
    requires WellFormed(x)
    ensures ParseNested(ToString(x)) == Ok(x)
    decreases x
  {
    match x
    case Leaf(_, _, _) =>
      WellFormedLeafParsable(x);
      LeafRoundTrip(x);
    case Composite(op, fs) =>
      forall i | 0 <= i < |fs|
        ensures ParseNested(ToString(fs[i])) == Ok(fs[i])
        ensures Balanced(ToString(fs[i])) && NoTopComma(ToString(fs[i]))
      {
        NestedRoundTrip(fs[i]);
        ToStringShape(fs[i]);
      }
      CompositeNestedRoundTrip(op, fs);
  }
}
