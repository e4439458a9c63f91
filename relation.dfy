// The list of associations a query asks to preload: "roles,permissions".
module Relation {
  import opened Strings
  import opened Common

  type Relation = string

  /**
   * Parse never fails: it keeps every comma-separated segment verbatim, in
   * order, empty segments included, so joining the result gives the input
   * back.
   */
  method Parse(s: string) returns (r: Result<seq<Relation>>)
    ensures r == Ok(Split(s, ','))
    ensures |r.value| == Count(s, ',') + 1
    ensures Join(r.value, ',') == s
    ensures forall k :: 0 <= k < |r.value| ==> ',' !in r.value[k]
  {
    var segments := Split(s, ',');
    var relations := new Relation[|segments|](_ => "");
    for i := 0 to |segments|
      invariant forall k :: 0 <= k < i ==> relations[k] == segments[k]
    {
      relations[i] := segments[i];
    }
    assert relations[..] == segments;
    SplitLength(s, ',');
    JoinSplit(s, ',');
    SplitPiecesFree(s, ',');
    return Ok(relations[..]);
  }
}
