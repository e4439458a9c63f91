// The field mapper: copies fields by name from one record shape to another,
// after validating include/exclude lists against both shapes at construction.
// A shape is the list of a struct's visible fields (name and type tag); a
// record is a map from field name to value.
module Mapper {
  import opened Common

  datatype FieldDesc = FieldDesc(name: string, typ: string)

  type Shape = seq<FieldDesc>

  /** Go struct field names are unique. */
  predicate UniqueNames(shape: Shape)
  {
    forall i, j :: 0 <= i < j < |shape| ==> shape[i].name != shape[j].name
  }

  function Names(shape: Shape): seq<string>
  {
    seq(|shape|, i requires 0 <= i < |shape| => shape[i].name)
  }

  /** getFieldNames: the names of the fields, in declaration order. */
  method GetFieldNames(fields: Shape) returns (names: seq<string>)
    ensures |names| == |fields|
    ensures forall i :: 0 <= i < |fields| ==> names[i] == fields[i].name
  {
    var a := new string[|fields|](_ => "");
    for i := 0 to |fields|
      invariant forall k :: 0 <= k < i ==> a[k] == fields[k].name
    {
      a[i] := fields[i].name;
    }
    names := a[..];
  }

  /** The mapper keeps the two lists it was built with; nil and empty behave alike. */
  datatype GenericMapper = GenericMapper(excludedFields: seq<string>, includedFields: seq<string>)

  /** Every field called `name` has the same type in both shapes. */
  predicate AgreeOn(input: Shape, output: Shape, name: string)
  {
    forall i, j :: 0 <= i < |input| && 0 <= j < |output| && input[i].name == name && output[j].name == name ==>
      input[i].typ == output[j].typ
  }

  /** Every listed name is a field of both shapes. */
  predicate AllPresent(listed: seq<string>, input: Shape, output: Shape)
  {
    forall k :: 0 <= k < |listed| ==> listed[k] in Names(input) && listed[k] in Names(output)
  }

  /** What NewGenericMapperExcluding accepts. */
  predicate ExcludingValid(excludedFields: seq<string>, input: Shape, output: Shape)
  {
    AllPresent(excludedFields, input, output)
    && forall i :: 0 <= i < |input| && input[i].name !in excludedFields ==> AgreeOn(input, output, input[i].name)
  }

  /** What NewGenericMapperIncluding accepts. */
  predicate IncludingValid(includedFields: seq<string>, input: Shape, output: Shape)
  {
    AllPresent(includedFields, input, output)
    && forall k :: 0 <= k < |includedFields| ==> AgreeOn(input, output, includedFields[k])
  }

  /** What NewGenericMapperDefault accepts. */
  predicate DefaultValid(input: Shape, output: Shape)
  {
    forall i :: 0 <= i < |input| ==> AgreeOn(input, output, input[i].name)
  }

  function MissingFieldPanic(kind: string, name: string, side: string): Error
  {
    Panic(kind + " field " + name + " is not a property of the " + side + " type")
  }

  function TypeMismatchPanic(name: string): Error
  {
    Panic("Field " + name + " is not of the same type in the input and output types")
  }

  /** NewGenericMapper: no validation at all. */
  function NewGenericMapper(excludedFields: seq<string>, includedFields: seq<string>): (m: GenericMapper)
    ensures m.excludedFields == excludedFields && m.includedFields == includedFields
  {
    GenericMapper(excludedFields, includedFields)
  }

  /**
   * Checks that each listed name is a field of both shapes; on the first
   * one missing, the panic names it and the side it is missing from.
   */
  method CheckListed(kind: string, listed: seq<string>, input: Shape, output: Shape) returns (err: Option<Error>)
    ensures err.None? <==> AllPresent(listed, input, output)
    ensures err.Some? ==>
      exists k :: 0 <= k < |listed| &&
        ((listed[k] !in Names(input) && err.value == MissingFieldPanic(kind, listed[k], "input"))
        || (listed[k] !in Names(output) && err.value == MissingFieldPanic(kind, listed[k], "output")))
  {
    var inputNames := GetFieldNames(input);
    var outputNames := GetFieldNames(output);
    assert inputNames == Names(input) && outputNames == Names(output);
    for k := 0 to |listed|
      invariant forall k' :: 0 <= k' < k ==> listed[k'] in Names(input) && listed[k'] in Names(output)
    {
      if listed[k] !in inputNames {
        return Some(MissingFieldPanic(kind, listed[k], "input"));
      }
      if listed[k] !in outputNames {
        return Some(MissingFieldPanic(kind, listed[k], "output"));
      }
    }
    return None;
  }

  /**
   * The inner loop shared by the three type checks: the first field of
   * `output` that shares `name` with `input[i]` under a different type.
   */
  method CheckAgainstOutput(input: Shape, i: nat, output: Shape) returns (ok: bool)
    requires i < |input|
    ensures ok <==> forall j :: 0 <= j < |output| && output[j].name == input[i].name ==> output[j].typ == input[i].typ
  {
    for j := 0 to |output|
      invariant forall j' :: 0 <= j' < j && output[j'].name == input[i].name ==> output[j'].typ == input[i].typ
    {
      if input[i].name == output[j].name && input[i].typ != output[j].typ {
        return false;
      }
    }
    return true;
  }

  /**
   * NewGenericMapperExcluding: every excluded name must be a field of both
   * shapes, and every shared field that is not excluded must have the same
   * type on both sides; the first violation panics.
   */
  method NewGenericMapperExcluding(excludedFields: seq<string>, input: Shape, output: Shape)
    returns (r: Result<GenericMapper>)
    ensures r.Ok? <==> ExcludingValid(excludedFields, input, output)
    ensures r.Ok? ==> r.value == GenericMapper(excludedFields, [])
    ensures r.Err? ==> r.error.Panic?
  {
    var err := CheckListed("Excluded", excludedFields, input, output);
    if err.Some? {
      return Err(err.value);
    }
    for i := 0 to |input|
      invariant forall i' :: 0 <= i' < i && input[i'].name !in excludedFields ==>
        forall j :: 0 <= j < |output| && output[j].name == input[i'].name ==> output[j].typ == input[i'].typ
    {
      if input[i].name !in excludedFields {
        var ok := CheckAgainstOutput(input, i, output);
        if !ok {
          AgreeFromFields(input, output, input[i].name);
          return Err(TypeMismatchPanic(input[i].name));
        }
      }
    }
    AgreeFromFields(input, output, "");
    return Ok(GenericMapper(excludedFields, []));
  }

  /** AgreeOn a name is the same as agreeing field by field of `input` with that name. */
  lemma AgreeFromFields(input: Shape, output: Shape, name: string)
    ensures AgreeOn(input, output, name) <==>
      forall i :: 0 <= i < |input| && input[i].name == name ==>
        forall j :: 0 <= j < |output| && output[j].name == name ==> output[j].typ == input[i].typ
  {
  }

  /**
   * NewGenericMapperIncluding: every included name must be a field of both
   * shapes, and only the included fields are type-checked.
   */
  method NewGenericMapperIncluding(includedFields: seq<string>, input: Shape, output: Shape)
    returns (r: Result<GenericMapper>)
    ensures r.Ok? <==> IncludingValid(includedFields, input, output)
    ensures r.Ok? ==> r.value == GenericMapper([], includedFields)
    ensures r.Err? ==> r.error.Panic?
  {
    var err := CheckListed("Included", includedFields, input, output);
    if err.Some? {
      return Err(err.value);
    }
    for k := 0 to |includedFields|
      invariant forall k' :: 0 <= k' < k ==> AgreeOn(input, output, includedFields[k'])
    {
      for i := 0 to |input|
        invariant forall i' :: 0 <= i' < i && input[i'].name == includedFields[k] ==>
          forall j :: 0 <= j < |output| && output[j].name == includedFields[k] ==> output[j].typ == input[i'].typ
      {
        if includedFields[k] == input[i].name {
          var ok := CheckAgainstOutput(input, i, output);
          if !ok {
            return Err(TypeMismatchPanic(includedFields[k]));
          }
        }
      }
    }
    return Ok(GenericMapper([], includedFields));
  }

  /** NewGenericMapperDefault: every field the shapes share must have one type. */
  method NewGenericMapperDefault(input: Shape, output: Shape) returns (r: Result<GenericMapper>)
    ensures r.Ok? <==> DefaultValid(input, output)
    ensures r.Ok? ==> r.value == GenericMapper([], [])
    ensures r.Err? ==> exists i :: 0 <= i < |input| && r.error == TypeMismatchPanic(input[i].name)
  {
    for i := 0 to |input|
      invariant forall i' :: 0 <= i' < i ==>
        forall j :: 0 <= j < |output| && output[j].name == input[i'].name ==> output[j].typ == input[i'].typ
    {
      var ok := CheckAgainstOutput(input, i, output);
      if !ok {
        AgreeFromFields(input, output, input[i].name);
        return Err(TypeMismatchPanic(input[i].name));
      }
    }
    return Ok(GenericMapper([], []));
  }

  // ---- mapping --------------------------------------------------------------

  /** Whether Map copies the input field `name`: the three skip tests of its loop. */
  predicate Copies(m: GenericMapper, name: string, output: Shape)
  {
    !(|m.excludedFields| > 0 && name in m.excludedFields)
    && !(|m.includedFields| > 0 && name !in m.includedFields)
    && name in Names(output)
  }

  /** The type of the first field called `name`. */
  function TypeIn(shape: Shape, name: string): Option<string>
  {
    if shape == [] then None
    else if shape[0].name == name then Some(shape[0].typ)
    else TypeIn(shape[1..], name)
  }

  /** reflect.Value.Set of a value whose type the target cannot hold. */
  function AssignPanic(from: string, to: string): Error
  {
    Panic("reflect.Set: value of type " + from + " is not assignable to type " + to)
  }

  /** `var output O`: every output field at its type's zero value. */
  function ZeroRecord<T>(output: Shape, zero: string -> T): map<string, T>
    requires UniqueNames(output)
  {
    map j | 0 <= j < |output| :: output[j].name := zero(output[j].typ)
  }

  /** The loop of Map from the given input fields onwards, with the output built so far. */
  function MapFrom<T>(m: GenericMapper, fields: Shape, output: Shape, record: map<string, T>, acc: map<string, T>)
    : Result<map<string, T>>
    requires forall i :: 0 <= i < |fields| ==> fields[i].name in record
  {
    if fields == [] then Ok(acc)
    else
      var f := fields[0];
      if !Copies(m, f.name, output) then MapFrom(m, fields[1..], output, record, acc)
      else if TypeIn(output, f.name) != Some(f.typ) then
        Err(AssignPanic(f.typ, if TypeIn(output, f.name).Some? then TypeIn(output, f.name).value else ""))
      else MapFrom(m, fields[1..], output, record, acc[f.name := record[f.name]])
  }

  /** What Map computes for a record holding every input field. */
  function MapSpec<T>(m: GenericMapper, input: Shape, output: Shape, record: map<string, T>, zero: string -> T)
    : Result<map<string, T>>
    requires UniqueNames(output)
    requires forall i :: 0 <= i < |input| ==> input[i].name in record
  {
    MapFrom(m, input, output, record, ZeroRecord(output, zero))
  }

  /**
   * Map: start from the zero output and, for each input field in order,
   * skip it or copy it into the output field of the same name.
   */
  method Map<T>(m: GenericMapper, input: Shape, output: Shape, record: map<string, T>, zero: string -> T)
    returns (r: Result<map<string, T>>)
    requires UniqueNames(output)
    requires forall i :: 0 <= i < |input| ==> input[i].name in record
    ensures r == MapSpec(m, input, output, record, zero)
  {
    var out := ZeroRecord(output, zero);
    var outputNames := GetFieldNames(output);
    assert outputNames == Names(output);
    var i := 0;
    while i < |input|
      invariant 0 <= i <= |input|
      invariant MapFrom(m, input[i..], output, record, out) == MapSpec(m, input, output, record, zero)
    {
      var f := input[i];
      assert input[i..][1..] == input[i + 1..];
      if |m.excludedFields| > 0 && f.name in m.excludedFields {
        i := i + 1;
        continue;
      }
      if |m.includedFields| > 0 && f.name !in m.includedFields {
        i := i + 1;
        continue;
      }
      if f.name !in outputNames {
        i := i + 1;
        continue;
      }
      var target := TypeIn(output, f.name);
      if target != Some(f.typ) {
        return Err(AssignPanic(f.typ, if target.Some? then target.value else ""));
      }
      out := out[f.name := record[f.name]];
      i := i + 1;
    }
    return Ok(out);
  }

  // ---- what Map does --------------------------------------------------------

  /** TypeIn finds a field exactly when the shape has one by that name. */
  lemma {:induction false} TypeInSpec(shape: Shape, name: string)
    ensures TypeIn(shape, name).None? <==> name !in Names(shape)
    ensures TypeIn(shape, name).Some? ==>
      exists j :: 0 <= j < |shape| && shape[j].name == name && TypeIn(shape, name) == Some(shape[j].typ)
  {
    if shape != [] {
      TypeInSpec(shape[1..], name);
      assert Names(shape) == [shape[0].name] + Names(shape[1..]);
      if shape[0].name != name && TypeIn(shape, name).Some? {
        var j :| 0 <= j < |shape[1..]| && shape[1..][j].name == name && TypeIn(shape[1..], name) == Some(shape[1..][j].typ);
        assert shape[j + 1].name == name;
      }
    }
  }

  /** Map panics on a copied field whose output field has another type. */
  predicate Clash(m: GenericMapper, f: FieldDesc, output: Shape)
  {
    Copies(m, f.name, output) && TypeIn(output, f.name) != Some(f.typ)
  }

  /**
   * The loop from any point: it panics iff a remaining field clashes;
   * otherwise it sets exactly the remaining copied fields to their input
   * values and leaves every other entry as it was.
   */
  lemma {:induction false} MapFromSpec<T>(m: GenericMapper, fields: Shape, output: Shape,
                                          record: map<string, T>, acc: map<string, T>)
    requires UniqueNames(fields)
    requires forall i :: 0 <= i < |fields| ==> fields[i].name in record
    requires forall j :: 0 <= j < |output| ==> output[j].name in acc
    ensures MapFrom(m, fields, output, record, acc).Err? <==>
      exists i :: 0 <= i < |fields| && Clash(m, fields[i], output)
    ensures MapFrom(m, fields, output, record, acc).Ok? ==>
      var r := MapFrom(m, fields, output, record, acc).value;
      r.Keys == acc.Keys
      && forall n :: n in acc ==> r[n] == if n in Names(fields) && Copies(m, n, output) then record[n] else acc[n]
  {
    if fields != [] {
      var f := fields[0];
      var rest := fields[1..];
      assert Names(fields) == [f.name] + Names(rest);
      assert forall i :: 0 <= i < |rest| ==> rest[i] == fields[i + 1];
      assert f.name !in Names(rest) by {
        forall i | 0 <= i < |rest| ensures Names(rest)[i] != f.name {
          assert fields[i + 1].name != fields[0].name;
        }
      }
      if !Copies(m, f.name, output) {
        MapFromSpec(m, rest, output, record, acc);
      } else if TypeIn(output, f.name) != Some(f.typ) {
      } else {
        TypeInSpec(output, f.name);
        var acc' := acc[f.name := record[f.name]];
        MapFromSpec(m, rest, output, record, acc');
      }
    }
  }

  /**
   * Map on a well-formed record: it panics iff some copied field has a
   * different type in the output; otherwise the output has exactly the
   * output shape's fields, each holding the input's value when Map copies
   * it and its type's zero value when not.
   */
  lemma MapSpecResult<T>(m: GenericMapper, input: Shape, output: Shape, record: map<string, T>, zero: string -> T)
    requires UniqueNames(input) && UniqueNames(output)
    requires forall i :: 0 <= i < |input| ==> input[i].name in record
    ensures MapSpec(m, input, output, record, zero).Err? <==>
      exists i :: 0 <= i < |input| && Clash(m, input[i], output)
    ensures MapSpec(m, input, output, record, zero).Ok? ==>
      var r := MapSpec(m, input, output, record, zero).value;
      (forall n :: n in r ==> n in Names(output))
      && forall j :: 0 <= j < |output| ==>
        output[j].name in r
        && r[output[j].name] == if output[j].name in Names(input) && Copies(m, output[j].name, output)
                             then record[output[j].name] else zero(output[j].typ)
  {
    var acc := ZeroRecord(output, zero);
    assert forall j :: 0 <= j < |output| ==> output[j].name in acc && acc[output[j].name] == zero(output[j].typ);
    forall n | n in acc ensures n in Names(output) {
      var j :| 0 <= j < |output| && output[j].name == n;
      assert Names(output)[j] == n;
    }
    MapFromSpec(m, input, output, record, acc);
  }

  /** No field of `input` clashes, so Map never panics. */
  predicate NoClash(m: GenericMapper, input: Shape, output: Shape)
  {
    forall i :: 0 <= i < |input| ==> !Clash(m, input[i], output)
  }

  /** A copied field's type agrees whenever its name's types agree. */
  lemma AgreeingNoClash(m: GenericMapper, input: Shape, i: nat, output: Shape)
    requires i < |input| && AgreeOn(input, output, input[i].name)
    ensures !Clash(m, input[i], output)
  {
    TypeInSpec(output, input[i].name);
    if Copies(m, input[i].name, output) {
      var j :| 0 <= j < |output| && output[j].name == input[i].name && TypeIn(output, input[i].name) == Some(output[j].typ);
    }
  }

  /** A mapper NewGenericMapperDefault accepted never panics in Map. */
  lemma DefaultNeverClashes(input: Shape, output: Shape)
    requires DefaultValid(input, output)
    ensures NoClash(GenericMapper([], []), input, output)
  {
    forall i | 0 <= i < |input| ensures !Clash(GenericMapper([], []), input[i], output) {
      AgreeingNoClash(GenericMapper([], []), input, i, output);
    }
  }

  /** A mapper NewGenericMapperExcluding accepted never panics in Map. */
  lemma ExcludingNeverClashes(excludedFields: seq<string>, input: Shape, output: Shape)
    requires ExcludingValid(excludedFields, input, output)
    ensures NoClash(GenericMapper(excludedFields, []), input, output)
  {
    var m := GenericMapper(excludedFields, []);
    forall i | 0 <= i < |input| ensures !Clash(m, input[i], output) {
      if input[i].name !in excludedFields {
        AgreeingNoClash(m, input, i, output);
      }
    }
  }

  /** A mapper NewGenericMapperIncluding accepted with a non-empty list never panics in Map. */
  lemma IncludingNeverClashes(includedFields: seq<string>, input: Shape, output: Shape)
    requires |includedFields| > 0 && IncludingValid(includedFields, input, output)
    ensures NoClash(GenericMapper([], includedFields), input, output)
  {
    var m := GenericMapper([], includedFields);
    forall i | 0 <= i < |input| ensures !Clash(m, input[i], output) {
      if input[i].name in includedFields {
        var k :| 0 <= k < |includedFields| && includedFields[k] == input[i].name;
        AgreeingNoClash(m, input, i, output);
      }
    }
  }

  /**
   * Finding: with an empty list NewGenericMapperIncluding checks nothing,
   * yet Map then copies every shared field, so a shared field of another
   * type makes Map panic.
   */
  lemma EmptyIncludingPanics()
    ensures var input := [FieldDesc("Age", "int")];
      var output := [FieldDesc("Age", "string")];
      IncludingValid([], input, output)
      && MapSpec(GenericMapper([], []), input, output, map["Age" := 30], (t: string) => 0)
         == Err(AssignPanic("int", "string"))
  {
    var output := [FieldDesc("Age", "string")];
    assert Names(output) == ["Age"];
    assert TypeIn(output, "Age") == Some("string");
  }

  /** What the corrected NewGenericMapperIncluding accepts: an empty list is checked like the default mapper. */
  predicate IncludingCheckedValid(includedFields: seq<string>, input: Shape, output: Shape)
  {
    IncludingValid(includedFields, input, output)
    && (|includedFields| == 0 ==> DefaultValid(input, output))
  }

  /** NewGenericMapperIncluding, type-checking every shared field when the list is empty. */
  method NewGenericMapperIncludingChecked(includedFields: seq<string>, input: Shape, output: Shape)
    returns (r: Result<GenericMapper>)
    ensures r.Ok? <==> IncludingCheckedValid(includedFields, input, output)
    ensures r.Ok? ==> r.value == GenericMapper([], includedFields)
    ensures r.Err? ==> r.error.Panic?
  {
    if |includedFields| == 0 {
      r := NewGenericMapperDefault(input, output);
    } else {
      r := NewGenericMapperIncluding(includedFields, input, output);
    }
  }

  /** Every mapper the corrected constructor accepts maps without panicking. */
  lemma IncludingCheckedNeverClashes(includedFields: seq<string>, input: Shape, output: Shape)
    requires IncludingCheckedValid(includedFields, input, output)
    ensures NoClash(GenericMapper([], includedFields), input, output)
  {
    if |includedFields| == 0 {
      DefaultNeverClashes(input, output);
    } else {
      IncludingNeverClashes(includedFields, input, output);
    }
  }
}
