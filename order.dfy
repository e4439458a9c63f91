// The sort specification of a list query: "field:direction,field:direction".
module Order {
  import opened Strings
  import opened Common

  /** Any string; only "asc" and "desc" are named, nothing else is rejected. */
  type OrderDirection = string

  const Asc: OrderDirection := "asc"
  const Desc: OrderDirection := "desc"

  datatype OrderBy = OrderBy(field: string, direction: OrderDirection)

  function AscOrderBy(field: string): (o: OrderBy)
    ensures o.field == field && o.direction == "asc"
  {
    OrderBy(field, Asc)
  }

  function DescOrderBy(field: string): (o: OrderBy)
    ensures o.field == field && o.direction == "desc"
  {
    OrderBy(field, Desc)
  }

  function NewOrderBy(field: string, direction: OrderDirection): (o: OrderBy)
    ensures o.field == field && o.direction == direction
  {
    OrderBy(field, direction)
  }

  /** The text one OrderBy is read from. */
  function Format(o: OrderBy): string
  {
    o.field + ":" + o.direction
  }

  /** The text a whole list is read from. */
  function FormatAll(os: seq<OrderBy>): string
  {
    Join(seq(|os|, i requires 0 <= i < |os| => Format(os[i])), ',')
  }

  function FormatError(s: string): Error
  {
    Failure("invalid order by format: " + s)
  }

  /**
   * parseOrerBy: exactly one ':' splits the segment into field and
   * direction; the direction is kept verbatim.
   */
  function ParseOrderBy(s: string): (r: Result<OrderBy>)
    ensures r.Ok? <==> Count(s, ':') == 1
    ensures r.Err? ==> r.error == FormatError(s)
    ensures r.Ok? ==> Format(r.value) == s && ':' !in r.value.field && ':' !in r.value.direction
  {
    var parts := Split(s, ':');
    SplitLength(s, ':');
    SplitPiecesFree(s, ':');
    JoinSplit(s, ':');
    if |parts| != 2 then Err(FormatError(s))
    else
      assert parts[1..] == [parts[1]];
      Ok(OrderBy(parts[0], parts[1]))
  }

  /** The loop of Parse over the segments: stop at the first bad one. */
  function ParseSegments(segments: seq<string>): Result<seq<OrderBy>>
  {
    if segments == [] then Ok([])
    else
      match ParseOrderBy(segments[0])
      case Err(e) => Err(e)
      case Ok(o) =>
        match ParseSegments(segments[1..])
        case Err(e) => Err(e)
        case Ok(os) => Ok([o] + os)
  }

  /** What Parse computes: the segments between commas, each read as an OrderBy. */
  function ParseOrders(s: string): Result<seq<OrderBy>>
  {
    ParseSegments(Split(s, ','))
  }

  /** Parse fills a slice with one OrderBy per segment and returns early on a bad one. */
  method Parse(s: string) returns (r: Result<seq<OrderBy>>)
    ensures r == ParseOrders(s)
  {
    var segments := Split(s, ',');
    var orders := new OrderBy[|segments|](_ => OrderBy("", ""));
    var i := 0;
    while i < |segments|
      invariant 0 <= i <= |segments|
      invariant forall k :: 0 <= k < i ==> ParseOrderBy(segments[k]) == Ok(orders[k])
    {
      var parsed := ParseOrderBy(segments[i]);
      if parsed.Err? {
        SegmentsFirstError(segments, i);
        return Err(parsed.error);
      }
      orders[i] := parsed.value;
      i := i + 1;
    }
    SegmentsAllOk(segments, orders[..]);
    return Ok(orders[..]);
  }

  lemma {:induction false} SegmentsFirstError(segments: seq<string>, i: nat)
    requires i < |segments| && ParseOrderBy(segments[i]).Err?
    requires forall k :: 0 <= k < i ==> ParseOrderBy(segments[k]).Ok?
    ensures ParseSegments(segments) == Err(ParseOrderBy(segments[i]).error)
  {
    if i > 0 {
      assert forall k :: 0 <= k < i - 1 ==> segments[1..][k] == segments[k + 1];
      SegmentsFirstError(segments[1..], i - 1);
    }
  }

  lemma {:induction false} SegmentsAllOk(segments: seq<string>, os: seq<OrderBy>)
    requires |os| == |segments|
    requires forall k :: 0 <= k < |segments| ==> ParseOrderBy(segments[k]) == Ok(os[k])
    ensures ParseSegments(segments) == Ok(os)
  {
    if segments != [] {
      assert forall k :: 0 <= k < |segments| - 1 ==> segments[1..][k] == segments[k + 1] && os[1..][k] == os[k + 1];
      SegmentsAllOk(segments[1..], os[1..]);
      assert os == [os[0]] + os[1..];
    }
  }

  /**
   * The list parse succeeds iff every segment holds exactly one ':'; then
   * it has one OrderBy per segment, in order, each printing back to its
   * segment; otherwise the error names a segment that failed.
   */
  lemma {:induction false} SegmentsSpec(segments: seq<string>)
    ensures ParseSegments(segments).Ok? <==> forall k :: 0 <= k < |segments| ==> Count(segments[k], ':') == 1
    ensures ParseSegments(segments).Ok? ==>
      |ParseSegments(segments).value| == |segments|
      && forall k :: 0 <= k < |segments| ==> Format(ParseSegments(segments).value[k]) == segments[k]
    ensures ParseSegments(segments).Err? ==>
      exists k :: 0 <= k < |segments| && ParseSegments(segments).error == FormatError(segments[k])
  {
    if segments != [] {
      var tail := segments[1..];
      SegmentsSpec(tail);
      var head := ParseOrderBy(segments[0]);
      var rest := ParseSegments(tail);
      var r := ParseSegments(segments);
      if head.Err? {
        assert r == Err(FormatError(segments[0]));
      } else if rest.Err? {
        assert r == Err(rest.error);
        var k :| 0 <= k < |tail| && rest.error == FormatError(tail[k]);
        assert segments[k + 1] == tail[k];
        var j :| 0 <= j < |tail| && Count(tail[j], ':') != 1;
        assert segments[j + 1] == tail[j];
      } else {
        assert r == Ok([head.value] + rest.value);
        forall k | 0 <= k < |segments|
          ensures Count(segments[k], ':') == 1 && Format(r.value[k]) == segments[k]
        {
          if k > 0 {
            assert segments[k] == tail[k - 1];
            assert r.value[k] == rest.value[k - 1];
          }
        }
      }
    }
  }

  /**
   * Parse as a whole: one OrderBy per comma-separated segment, in order,
   * printing back to the input; any segment without exactly one ':' (the
   * empty input and a trailing comma included) fails the whole parse.
   */
  lemma ParseOrdersSpec(s: string)
    ensures ParseOrders(s).Ok? <==> forall k :: 0 <= k < |Split(s, ',')| ==> Count(Split(s, ',')[k], ':') == 1
    ensures ParseOrders(s).Ok? ==> |ParseOrders(s).value| == Count(s, ',') + 1 && FormatAll(ParseOrders(s).value) == s
    ensures ParseOrders(s).Err? ==> exists k :: 0 <= k < |Split(s, ',')| && ParseOrders(s).error == FormatError(Split(s, ',')[k])
  {
    var segments := Split(s, ',');
    SegmentsSpec(segments);
    SplitLength(s, ',');
    JoinSplit(s, ',');
    if ParseOrders(s).Ok? {
      var os := ParseOrders(s).value;
      assert seq(|os|, i requires 0 <= i < |os| => Format(os[i])) == segments;
    }
  }

  /** An empty segment never parses: "" and "name:asc," are errors. */
  lemma EmptySegmentRejected(s: string, k: nat)
    requires k < |Split(s, ',')| && Split(s, ',')[k] == ""
    ensures ParseOrders(s).Err?
  {
    ParseOrdersSpec(s);
  }

  /** Fields and directions free of ':' and ',' survive printing and parsing. */
  lemma RoundTrip(os: seq<OrderBy>)
    requires |os| >= 1
    requires forall i :: 0 <= i < |os| ==>
      ':' !in os[i].field && ':' !in os[i].direction && ',' !in os[i].field && ',' !in os[i].direction
    ensures ParseOrders(FormatAll(os)) == Ok(os)
  {
    var segments := seq(|os|, i requires 0 <= i < |os| => Format(os[i]));
    forall i | 0 <= i < |os| ensures ',' !in segments[i] && ParseOrderBy(segments[i]) == Ok(os[i]) {
      var o := os[i];
      assert segments[i] == o.field + [':'] + o.direction;
      assert [o.field, o.direction][1..] == [o.direction];
      assert Join([o.field, o.direction], ':') == segments[i];
      SplitJoin([o.field, o.direction], ':');
      forall c | c in segments[i] ensures c != ',' {
        var k :| 0 <= k < |segments[i]| && segments[i][k] == c;
        if k < |o.field| {
          assert c == o.field[k];
        } else if k > |o.field| {
          assert c == o.direction[k - |o.field| - 1];
        }
      }
    }
    SplitJoin(segments, ',');
    SegmentsAllOk(segments, os);
  }
}
