// Values shared by every layer: identifiers, errors, the dynamically typed
// filter/field value, entities and pages.
module Common {
  import opened Strings

  datatype Option<T> = None | Some(value: T)

  /**
   * An error as the Go code sees it. `Failure` is an ordinary `error` value
   * carrying its Error() text; `Panic` stands for a run-time panic (a failed
   * type assertion, an index or slice out of range, a nil dereference), which
   * the model propagates as a terminal outcome.
   */
  datatype Error = Failure(message: string) | Panic(reason: string)

  datatype Result<T> = Ok(value: T) | Err(error: Error)

  predicate IsPanic(e: Option<Error>)
  {
    e.Some? && e.value.Panic?
  }

  // ---- identifiers ----------------------------------------------------------

  newtype byte = x: int | 0 <= x < 256

  /** A 16-byte UUID (github.com/google/uuid). */
  type Uuid = b: seq<byte> | |b| == 16 witness [0, 0, 0, 0, 0, 0, 0, 0, 0, 0, 0, 0, 0, 0, 0, 0]

  const NilUuid: Uuid := [0, 0, 0, 0, 0, 0, 0, 0, 0, 0, 0, 0, 0, 0, 0, 0]

  function HexDigit(d: nat): char
    requires d < 16
  {
    if d < 10 then ('0' as int + d) as char else ('a' as int + d - 10) as char
  }

  lemma HexDigitRoundTrip(d: nat)
    requires d < 16
    ensures HexDigitValue(HexDigit(d)) == Some(d)
  {
  }

  function HexDigitValue(c: char): Option<nat>
  {
    if '0' <= c <= '9' then Some(c as int - '0' as int)
    else if 'a' <= c <= 'f' then Some(c as int - 'a' as int + 10)
    else None
  }

  function Hex(bytes: seq<byte>): (r: string)
    ensures |r| == 2 * |bytes|
  {
    if bytes == [] then []
    else [HexDigit(bytes[0] as nat / 16), HexDigit(bytes[0] as nat % 16)] + Hex(bytes[1..])
  }

  function Unhex(s: string): Option<seq<byte>>
    decreases |s|
  {
    if |s| == 0 then Some([])
    else if |s| == 1 then None
    else match (HexDigitValue(s[0]), HexDigitValue(s[1]), Unhex(s[2..]))
      case (Some(h), Some(l), Some(rest)) =>
        if h < 16 && l < 16 then Some([(16 * h + l) as byte] + rest) else None
      case _ => None
  }

  lemma {:induction false} UnhexHex(bytes: seq<byte>)
    ensures Unhex(Hex(bytes)) == Some(bytes)
  {
    if bytes != [] {
      var s := Hex(bytes);
      var b := bytes[0] as nat;
      assert s[2..] == Hex(bytes[1..]);
      UnhexHex(bytes[1..]);
      HexDigitRoundTrip(b / 16);
      HexDigitRoundTrip(b % 16);
      assert (16 * (b / 16) + b % 16) as byte == bytes[0];
      assert [bytes[0]] + bytes[1..] == bytes;
    }
  }

  /** uuid.UUID.String(): 32 lower-case hex digits grouped 8-4-4-4-12. */
  function UuidString(u: Uuid): (r: string)
    ensures |r| == 36
    ensures r[8] == '-' && r[13] == '-' && r[18] == '-' && r[23] == '-'
  {
    Hex(u[..4]) + "-" + Hex(u[4..6]) + "-" + Hex(u[6..8]) + "-" + Hex(u[8..10]) + "-" + Hex(u[10..])
  }

  /** Reads the canonical text form back into the 16 bytes. */
  function ParseUuid(s: string): Option<Uuid>
  {
    if |s| != 36 || s[8] != '-' || s[13] != '-' || s[18] != '-' || s[23] != '-' then None
    else match Unhex(s[..8] + s[9..13] + s[14..18] + s[19..23] + s[24..])
      case Some(b) => if |b| == 16 then var u: Uuid := b; Some(u) else None
      case None => None
  }

  /** Distinct identifiers print differently: the text form round-trips. */
  lemma UuidStringRoundTrip(u: Uuid)
    ensures ParseUuid(UuidString(u)) == Some(u)
  {
    var s := UuidString(u);
    HexAppend(u[..4], u[4..6]);
    HexAppend(u[..6], u[6..8]);
    HexAppend(u[..8], u[8..10]);
    HexAppend(u[..10], u[10..]);
    assert u[..4] + u[4..6] == u[..6];
    assert u[..6] + u[6..8] == u[..8];
    assert u[..8] + u[8..10] == u[..10];
    assert u[..10] + u[10..] == u;
    assert s[..8] == Hex(u[..4]);
    assert s[9..13] == Hex(u[4..6]);
    assert s[14..18] == Hex(u[6..8]);
    assert s[19..23] == Hex(u[8..10]);
    assert s[24..] == Hex(u[10..]);
    assert s[..8] + s[9..13] + s[14..18] + s[19..23] + s[24..] == Hex(u);
    UnhexHex(u);
  }

  lemma {:induction false} HexAppend(a: seq<byte>, b: seq<byte>)
    ensures Hex(a + b) == Hex(a) + Hex(b)
  {
    if a != [] {
      assert (a + b)[1..] == a[1..] + b;
      HexAppend(a[1..], b);
    } else {
      assert a + b == b;
    }
  }

  // ---- dynamically typed values ---------------------------------------------

  /** An `interface{}` value as it reaches a filter leaf or a field update. */
  datatype Value = Null | Text(text: string) | Number(number: int)

  /** fmt's %v rendering of a Value. */
  function ValueText(v: Value): string
  {
    match v
    case Null => "<nil>"
    case Text(t) => t
    case Number(n) => IntToDecimal(n)
  }

  // ---- entities and pages ---------------------------------------------------

  type EntityName = string

  /**
   * An entity as the generic layers see it: the name of its type
   * (GetEntityName), its identifier (GetID), its display name (GetName) and
   * its JSON encoding, which stands for json.Marshal of the value.
   */
  datatype Entity = Entity(entityName: EntityName, id: Uuid, name: string, json: string)

  /**
   * The zero value of the entity type parameter: a nil pointer. Its
   * GetEntityName still answers, since that method never dereferences the
   * receiver; json.Marshal of it is "null".
   */
  function ZeroEntity(entityName: EntityName): Entity
  {
    Entity(entityName, NilUuid, "", "null")
  }

  datatype ComboOption = ComboOption(id: Uuid, name: string)

  datatype Page<T> = Page(content: seq<T>, page: int, size: int, total: int, filtered: int)

  datatype Pageable = Pageable(page: int, size: int)

  function NewPage<T>(content: seq<T>, page: int, size: int, total: int, filtered: int): (r: Page<T>)
    ensures r.content == content && r.page == page && r.size == size
    ensures r.total == total && r.filtered == filtered
  {
    Page(content, page, size, total, filtered)
  }

  /** The empty page every service returns when a hook vetoes a listing. */
  function EmptyPage<T>(): (r: Page<T>)
    ensures r.content == [] && r.page == 0 && r.size == 0 && r.total == 0 && r.filtered == 0
  {
    NewPage([], 0, 0, 0, 0)
  }
}
