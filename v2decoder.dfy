/**
 * The Hessian 2.0 decoder, reading without type information. Besides the
 * cursor and the objects met so far (which a reference indexes) it keeps
 * the types and the class definitions read so far: a type or a class is
 * written out once and named by its index afterwards.
 *
 * As for the 1.0 decoder, each reader is specified by a function of the
 * input and the position it starts at; the readers of values that hold
 * values also take and give the decoder's lists.
 */
module V2Decoder {
  import opened Bytes
  import opened Wrappers
  import opened Utf8
  import opened JsValues
  import opened ByteView
  import V1Decoder

  const UNEXPECTED_CODE: string := V1Decoder.UNEXPECTED_CODE
  /** What reading a property of an undefined class definition throws. */
  const NO_CLASS_ERROR: string := "Cannot read properties of undefined (reading 'name')"

  /** The error `throwError` raises for a code the reader does not accept. */
  function CodeError(reader: string): string
  {
    "hessian " + reader + " error, unexpect code"
  }

  // ---------------------------------------------------------------------
  // Scalars
  // ---------------------------------------------------------------------

  /** `_readUTF8String(len)`: `len` code units from their UTF-8 bytes; none at all when `len` is 0. */
  function Units(data: seq<byte>, at: nat, len: nat): (r: Result<(Text, nat)>)
    ensures r.Ok? ==> |r.value.0| == len && at + len <= r.value.1
    ensures r.Ok? && len > 0 ==> r.value.1 <= |data|
  {
    if len == 0 then Ok(([], at))
    else
      var d :- DecodeUnits(data, at, len);
      Ok((d.0, at + d.1))
  }

  /**
   * `readInt`: one byte for -16..47, two for -2048..2047, three for
   * -262144..262143, or 'I' and a signed 32-bit word; any other code is
   * an error.
   */
  function IntAt(data: seq<byte>, p: nat): (r: Result<(int, nat)>)
    ensures r.Ok? ==> p < |data| && p < r.value.1 <= p + 5 && InSigned(r.value.0, 4)
  {
    if p >= |data| then Err(CodeError("readInt"))
    else
      var code := data[p];
      if 0x80 <= code <= 0xbf then Ok((code as int - 0x90, p + 1))
      else if 0xc0 <= code <= 0xcf then
        var b0 :- ByteAt(data, p + 1);
        Ok(((code as int - 0xc8) * 0x100 + b0 as int, p + 2))
      else if 0xd0 <= code <= 0xd7 then
        var b1 :- ByteAt(data, p + 1);
        var b0 :- ByteAt(data, p + 2);
        Ok(((code as int - 0xd4) * 0x1_0000 + b1 as int * 0x100 + b0 as int, p + 3))
      else if code == 0x49 then
        var v :- Int32At(data, p + 1);
        Ok((v, p + 5))
      else Err(CodeError("readInt"))
  }

  /**
   * `readLong`: one byte for -8..15, two for -2048..2047, three for
   * -262144..262143, 'Y' and a 32-bit word, or 'L' and a 64-bit word
   * through `handleLong`; any other code is an error.
   */
  function LongAt(data: seq<byte>, p: nat): (r: Result<(DValue, nat)>)
    ensures r.Ok? ==> p < |data| && p < r.value.1 <= p + 9 && r.value.0.DLong?
  {
    if p >= |data| then Err(CodeError("readLong"))
    else
      var code := data[p];
      if 0xd8 <= code <= 0xef then Ok((DLong(Utils.AsNumber(code as int - 0xe0)), p + 1))
      else if 0xf0 <= code then
        var b0 :- ByteAt(data, p + 1);
        Ok((DLong(Utils.AsNumber((code as int - 0xf8) * 0x100 + b0 as int)), p + 2))
      else if 0x38 <= code <= 0x3f then
        var b1 :- ByteAt(data, p + 1);
        var b0 :- ByteAt(data, p + 2);
        Ok((DLong(Utils.AsNumber((code as int - 0x3c) * 0x1_0000 + b1 as int * 0x100 + b0 as int)), p + 3))
      else if code == 0x59 then
        var v :- Int32At(data, p + 1);
        Ok((DLong(Utils.AsNumber(v)), p + 5))
      else if code == 0x4c then
        var v :- Int64At(data, p + 1);
        Ok((DLong(Utils.HandleLong(v)), p + 9))
      else Err(CodeError("readLong"))
  }

  /** How many bytes follow each code of `readDouble`; 0 for a code it does not accept. */
  function DoubleWidth(code: byte): (w: nat)
  {
    if code == 0x44 then 8
    else if code == 0x5d then 1
    else if code == 0x5e then 2
    else if code == 0x5f then 4
    else 0
  }

  /** `readDouble`: the code and the bytes after it (the value itself is not modelled). */
  function DoubleAt(data: seq<byte>, p: nat): (r: Result<(DValue, nat)>)
    ensures r.Ok? ==> p < |data| && r.value.1 == p + 1 + DoubleWidth(data[p]) && r.value.0.DDouble?
  {
    if p < |data| && (data[p] == 0x44 || 0x5b <= data[p] <= 0x5f) then
      var raw :- V1Decoder.BytesAt(data, p + 1, DoubleWidth(data[p]));
      Ok((DDouble([data[p]] + raw), p + 1 + DoubleWidth(data[p])))
    else Err(CodeError("readDouble"))
  }

  /** `readDate`: 'J' and 64-bit milliseconds through `handleLong`, or 'K' and 32-bit minutes. */
  function DateAt(data: seq<byte>, p: nat): (r: Result<(DValue, nat)>)
    ensures r.Ok? ==> p < |data| && p < r.value.1 <= p + 9 && r.value.0.DDate?
  {
    if p < |data| && data[p] == 0x4a then
      var v :- Int64At(data, p + 1);
      Ok((DDate(Utils.HandleLong(v)), p + 9))
    else if p < |data| && data[p] == 0x4b then
      var v :- Int32At(data, p + 1);
      Ok((DDate(Utils.AsNumber(v * 60000)), p + 5))
    else Err(CodeError("readDate"))
  }

  /**
   * The chunk of `readBytes` that ends the value, its code at `q`: 'B' and
   * a 16-bit length, a short length 0x20..0x2f, or a medium length
   * 0x34..0x37 and one more byte; any other code is an error.
   */
  function LastChunk(data: seq<byte>, q: nat): (r: Result<(seq<byte>, nat)>)
    ensures r.Ok? ==> q < |data| && q < r.value.1 <= |data|
  {
    if q >= |data| then Err(CodeError("readBytes"))
    else
      var code := data[q];
      if code == 0x42 then
        var len :- UInt16At(data, q + 1);
        var chunk :- V1Decoder.BytesAt(data, q + 3, len);
        Ok((chunk, q + 3 + len))
      else if 0x20 <= code <= 0x2f then
        var chunk :- V1Decoder.BytesAt(data, q + 1, code as int - 0x20);
        Ok((chunk, q + 1 + (code as int - 0x20)))
      else if 0x34 <= code <= 0x37 then
        var b0 :- ByteAt(data, q + 1);
        var len := (code as int - 0x34) * 0x100 + b0 as int;
        var chunk :- V1Decoder.BytesAt(data, q + 2, len);
        Ok((chunk, q + 2 + len))
      else Err(CodeError("readBytes"))
  }

  /** The chunks of `readBytes` from a code at `q` on, appended to `acc`: 'A' chunks go on, then the last chunk. */
  function BytesFrom(data: seq<byte>, q: nat, acc: seq<byte>): (r: Result<(seq<byte>, nat)>)
    ensures r.Ok? ==> q < |data| && q < r.value.1 <= |data|
    decreases |data| - q
  {
    if q < |data| && data[q] == 0x41 then
      var len :- UInt16At(data, q + 1);
      var chunk :- V1Decoder.BytesAt(data, q + 3, len);
      BytesFrom(data, q + 3 + len, acc + chunk)
    else
      var last :- LastChunk(data, q);
      Ok((acc + last.0, last.1))
  }

  /** `readBytes`. */
  function BytesAt(data: seq<byte>, p: nat): (r: Result<(DValue, nat)>)
    ensures r.Ok? ==> p < |data| && p < r.value.1 <= |data| && r.value.0.DBytes?
  {
    var b :- BytesFrom(data, p, []);
    Ok((DBytes(b.0), b.1))
  }

  /** The codes that begin a string: short 0x00..0x1f, medium 0x30..0x33, 'R' and 'S'. */
  predicate IsStringCode(code: byte)
  {
    code <= 0x1f || 0x30 <= code <= 0x33 || code == 0x52 || code == 0x53
  }

  /**
   * One chunk of `readString`, its code at `q`: a short length 0x00..0x1f,
   * a medium length 0x30..0x33 and one more byte, or 'R' or 'S' and a
   * 16-bit length, then that many characters; any other code is an error.
   */
  function StringChunk(data: seq<byte>, q: nat): (r: Result<(Text, nat)>)
    ensures r.Ok? ==> q < |data| && IsStringCode(data[q]) && q < r.value.1
    ensures r.Ok? && data[q] == 0x52 ==> r.value.1 <= |data|
  {
    if q >= |data| || !IsStringCode(data[q]) then Err(CodeError("readString"))
    else
      var code := data[q];
      if code <= 0x1f then Units(data, q + 1, code as nat)
      else if code <= 0x33 then
        var b0 :- ByteAt(data, q + 1);
        Units(data, q + 2, (code as nat - 0x30) * 0x100 + b0 as nat)
      else
        var len :- UInt16At(data, q + 1);
        Units(data, q + 3, len)
  }

  /**
   * The chunks of `readString` from a code at `q` on, appended to `acc`:
   * after an 'R' chunk a nested `readString` reads on; any other chunk
   * ends the value.
   */
  function StringFrom(data: seq<byte>, q: nat, acc: Text): (r: Result<(Text, nat)>)
    ensures r.Ok? ==> q < |data| && IsStringCode(data[q]) && q < r.value.1
    decreases |data| - q
  {
    var u :- StringChunk(data, q);
    if data[q] == 0x52 then StringFrom(data, u.1, acc + u.0)
    else Ok((acc + u.0, u.1))
  }

  /** `readString`. */
  function StringAt(data: seq<byte>, p: nat): (r: Result<(DValue, nat)>)
    ensures r.Ok? ==> p < |data| && p < r.value.1 && r.value.0.DStr?
  {
    var s :- StringFrom(data, p, []);
    Ok((DStr(s.0), s.1))
  }

  /**
   * `readType`: a string is a new type, appended to `types`; anything else
   * is an int indexing `types` (an index out of range gives no type, as
   * the empty name does).
   */
  function TypeAt(data: seq<byte>, p: nat, types: seq<Text>): (r: Result<(Text, nat, seq<Text>)>)
    ensures r.Ok? ==> p < |data| && p < r.value.1
    ensures r.Ok? && IsStringCode(data[p]) ==> r.value.2 == types + [r.value.0]
    ensures r.Ok? && !IsStringCode(data[p]) ==> r.value.2 == types
  {
    if p < |data| && IsStringCode(data[p]) then
      var s :- StringFrom(data, p, []);
      Ok((s.0, s.1, types + [s.0]))
    else
      var i :- IntAt(data, p);
      Ok((if 0 <= i.0 < |types| then types[i.0] else [], i.1, types))
  }

  /** `readRefId`: 'Q' and an int. */
  function RefIdAt(data: seq<byte>, p: nat): (r: Result<(int, nat)>)
    ensures r.Ok? ==> p < |data| && data[p] == 0x51 && p + 1 < r.value.1
  {
    if p < |data| && data[p] == 0x51 then IntAt(data, p + 1) else Err(CodeError("readRef"))
  }

  // ---------------------------------------------------------------------
  // Class definitions
  // ---------------------------------------------------------------------

  /** A class definition: the class name and its field names in order. */
  datatype ClassDef = ClassDef(name: Text, fields: seq<Text>)

  /** `count` field names, each a string, appended to `acc`. */
  function FieldNames(data: seq<byte>, q: nat, count: int, acc: seq<Text>): (r: Result<(seq<Text>, nat)>)
    ensures r.Ok? ==> q <= r.value.1 && |r.value.0| == |acc| + (if count > 0 then count else 0)
    ensures r.Ok? ==> r.value.0[..|acc|] == acc
    decreases if count > 0 then count else 0
  {
    if count <= 0 then Ok((acc, q))
    else
      var s :- StringFrom(data, q, []);
      FieldNames(data, s.1, count - 1, acc + [s.0])
  }

  /** `_readObjectDefinition` after 'C': the class name, the field count and the field names. */
  function DefinitionAt(data: seq<byte>, q: nat): (r: Result<(ClassDef, nat)>)
    ensures r.Ok? ==> q < r.value.1
  {
    var name :- StringFrom(data, q, []);
    var n :- IntAt(data, name.1);
    var fields :- FieldNames(data, n.1, n.0, []);
    Ok((ClassDef(name.0, fields.0), fields.1))
  }

  /** The class an instance names: 'O' and an int, or a code 0x60..0x6f naming 0..15. */
  function ClassRefAt(data: seq<byte>, p: nat): (r: Result<(int, nat)>)
    ensures r.Ok? ==> p < |data| && p < r.value.1
  {
    if p < |data| && data[p] == 0x4f then IntAt(data, p + 1)
    else if p < |data| && 0x60 <= data[p] <= 0x6f then Ok((data[p] as int - 0x60, p + 1))
    else Err(CodeError("readObject"))
  }

  // ---------------------------------------------------------------------
  // The dispatch table
  // ---------------------------------------------------------------------

  /** The readers `read` dispatches to. */
  datatype Reader =
    | OnNull | OnBool | OnInt | OnLong | OnDouble | OnDate | OnBytes | OnString
    | OnObject | OnRef | OnArray | OnHashMap | OnMap

  /** `BYTE_CODES` of the 2.0 decoder, as its `addByteCodes` calls fill it, in their order. */
  function Registered(): map<int, Reader>
  {
    var m0 := Utils.Register(map[], BOOL_CODES, OnBool);
    var m1 := Utils.Register(m0, NULL_CODES, OnNull);
    var m2 := Utils.Register(m1, INT_CODES, OnInt);
    var m3 := Utils.Register(m2, LONG_CODES, OnLong);
    var m4 := Utils.Register(m3, DOUBLE_CODES, OnDouble);
    var m5 := Utils.Register(m4, DATE_CODES, OnDate);
    var m6 := Utils.Register(m5, BYTES_CODES, OnBytes);
    var m7 := Utils.Register(m6, STRING_CODES, OnString);
    var m8 := Utils.Register(m7, OBJECT_CODES, OnObject);
    var m9 := Utils.Register(m8, REF_CODES, OnRef);
    var m10 := Utils.Register(m9, ARRAY_CODES, OnArray);
    var m11 := Utils.Register(m10, HASH_MAP_CODES, OnHashMap);
    Utils.Register(m11, MAP_CODES, OnMap)
  }

  const BOOL_CODES: seq<Utils.CodeSpec> := [Utils.Single(0x46), Utils.Single(0x54)]
  const NULL_CODES: seq<Utils.CodeSpec> := [Utils.Single(0x4e)]
  const INT_CODES: seq<Utils.CodeSpec> := [Utils.Span(0x80, 0xbf), Utils.Span(0xc0, 0xcf), Utils.Span(0xd0, 0xd7), Utils.Single(0x49)]
  const LONG_CODES: seq<Utils.CodeSpec> :=
    [Utils.Span(0xd8, 0xef), Utils.Span(0xf0, 0xff), Utils.Span(0x38, 0x3f), Utils.Single(0x59), Utils.Single(0x4c)]
  const DOUBLE_CODES: seq<Utils.CodeSpec> :=
    [Utils.Single(0x44), Utils.Single(0x5b), Utils.Single(0x5c), Utils.Single(0x5d), Utils.Single(0x5e), Utils.Single(0x5f)]
  const DATE_CODES: seq<Utils.CodeSpec> := [Utils.Single(0x4a), Utils.Single(0x4b)]
  const BYTES_CODES: seq<Utils.CodeSpec> := [Utils.Single(0x41), Utils.Single(0x42), Utils.Span(0x34, 0x37), Utils.Span(0x20, 0x2f)]
  const STRING_CODES: seq<Utils.CodeSpec> := [Utils.Single(0x52), Utils.Single(0x53), Utils.Span(0x00, 0x1f), Utils.Span(0x30, 0x33)]
  const OBJECT_CODES: seq<Utils.CodeSpec> := [Utils.Single(0x43), Utils.Single(0x4f), Utils.Span(0x60, 0x6f)]
  const REF_CODES: seq<Utils.CodeSpec> := [Utils.Single(0x51)]
  const ARRAY_CODES: seq<Utils.CodeSpec> := [Utils.Single(0x56), Utils.Single(0x58), Utils.Span(0x70, 0x77), Utils.Span(0x78, 0x7f)]
  const HASH_MAP_CODES: seq<Utils.CodeSpec> := [Utils.Single(0x48)]
  const MAP_CODES: seq<Utils.CodeSpec> := [Utils.Single(0x4d)]

  /** The table by ranges: the reader of each code of Hessian 2.0, or none. */
  function ReaderOf(code: int): (r: Option<Reader>)
  {
    if code == 0x46 || code == 0x54 then Some(OnBool)
    else if code == 0x4e then Some(OnNull)
    else if 0x80 <= code <= 0xd7 || code == 0x49 then Some(OnInt)
    else if 0xd8 <= code <= 0xff || 0x38 <= code <= 0x3f || code == 0x59 || code == 0x4c then Some(OnLong)
    else if code == 0x44 || 0x5b <= code <= 0x5f then Some(OnDouble)
    else if code == 0x4a || code == 0x4b then Some(OnDate)
    else if code == 0x41 || code == 0x42 || 0x34 <= code <= 0x37 || 0x20 <= code <= 0x2f then Some(OnBytes)
    else if 0 <= code <= 0x1f || 0x30 <= code <= 0x33 || code == 0x52 || code == 0x53 then Some(OnString)
    else if code == 0x43 || code == 0x4f || 0x60 <= code <= 0x6f then Some(OnObject)
    else if code == 0x51 then Some(OnRef)
    else if code == 0x56 || code == 0x58 || 0x70 <= code <= 0x7f then Some(OnArray)
    else if code == 0x48 then Some(OnHashMap)
    else if code == 0x4d then Some(OnMap)
    else None
  }

  // ---------------------------------------------------------------------
  // Values that hold values
  // ---------------------------------------------------------------------

  /**
   * The decoder's lists: `refMap` (as a list, its keys being 0 up to
   * `refId`), `types` and `classes`; `bare` holds the reference numbers
   * under which the object itself was registered (a hash map, or a map
   * without a type) rather than a `{$class, $}` wrapper, whose `$` the
   * slot holds.
   */
  datatype Lists = Lists(refs: seq<DValue>, types: seq<Text>, classes: seq<ClassDef>, bare: set<nat>)

  /** The property name `$`. */
  const DOLLAR: DValue := DStr(['$' as unit16])

  /** `hasOwnProperty(obj, '$')`: an object with a `$` property. */
  predicate OwnsDollar(v: DValue)
  {
    v.DMap? && Lookup(v.entries, DOLLAR).Some?
  }

  /**
   * `readRef` without type information: `refMap[rid]`, and its `$`
   * property instead when it owns one. A wrapper's `$` is what the slot
   * holds already, so only a bare object is looked into.
   */
  function RefTarget(lists: Lists, rid: int): (r: DValue)
    ensures !(0 <= rid < |lists.refs|) ==> r == DUndefined
    ensures 0 <= rid < |lists.refs| && rid !in lists.bare ==> r == lists.refs[rid]
    ensures 0 <= rid < |lists.refs| && rid in lists.bare && OwnsDollar(lists.refs[rid]) ==>
              r == Lookup(lists.refs[rid].entries, DOLLAR).value
    ensures 0 <= rid < |lists.refs| && rid in lists.bare && !OwnsDollar(lists.refs[rid]) ==>
              r == lists.refs[rid]
  {
    var obj := V1Decoder.RefValue(lists.refs, rid);
    if rid in lists.bare && OwnsDollar(obj) then Lookup(obj.entries, DOLLAR).value else obj
  }

  /** A value read, the position after it and the lists after it. */
  datatype Decoded = Decoded(value: DValue, next: nat, lists: Lists)

  /**
   * The first `id` references are kept and the types and classes only
   * grow: what a reader that fills slot `id` at its end leaves behind.
   */
  predicate Keeps(before: Lists, after: Lists, id: nat)
  {
    id <= |before.refs| <= |after.refs| && after.refs[..id] == before.refs[..id] &&
    |before.types| <= |after.types| && after.types[..|before.types|] == before.types &&
    |before.classes| <= |after.classes| && after.classes[..|before.classes|] == before.classes
  }

  /** Entries are only ever added: what each list held before it still holds. */
  predicate Grows(before: Lists, after: Lists)
  {
    Keeps(before, after, |before.refs|)
  }

  /** Growth followed by keeping the first `id` references keeps them. */
  lemma GrowsThenKeeps(a: Lists, b: Lists, c: Lists, id: nat)
    requires Grows(a, b) && Keeps(b, c, id) && id <= |a.refs|
    ensures Keeps(a, c, id)
  {
    assert a.refs[..id] == b.refs[..|a.refs|][..id];
    assert c.types[..|a.types|] == c.types[..|b.types|][..|a.types|];
    assert c.classes[..|a.classes|] == c.classes[..|b.classes|][..|a.classes|];
  }

  /** A scalar reader's result, with the lists unchanged. */
  function Leaf(d: Result<(DValue, nat)>, lists: Lists): (r: Result<Decoded>)
    ensures r.Ok? <==> d.Ok?
    ensures r.Ok? ==> r.value == Decoded(d.value.0, d.value.1, lists)
  {
    var v :- d;
    Ok(Decoded(v.0, v.1, lists))
  }

  /** What remains of the input after `p`: the measure every reader decreases. */
  function Left(data: seq<byte>, p: nat): nat
  {
    if p <= |data| then |data| - p else 0
  }

  /** `read`: the reader `BYTE_CODES` names for the byte at `p`; a code it does not name is an error. */
  function DecodeAt(data: seq<byte>, p: nat, lists: Lists): (r: Result<Decoded>)
    ensures r.Ok? ==> p < |data| && p < r.value.next && Grows(lists, r.value.lists)
    decreases Left(data, p), 3
  {
    if p >= |data| || ReaderOf(data[p] as int).None? then Err(UNEXPECTED_CODE)
    else
      match ReaderOf(data[p] as int).value
      case OnNull => Leaf(V1Decoder.ReadNullAt(data, p), lists)
      case OnBool => Leaf(V1Decoder.ReadBoolAt(data, p), lists)
      case OnInt =>
        var v :- IntAt(data, p);
        Ok(Decoded(DInt(v.0), v.1, lists))
      case OnLong => Leaf(LongAt(data, p), lists)
      case OnDouble => Leaf(DoubleAt(data, p), lists)
      case OnDate => Leaf(DateAt(data, p), lists)
      case OnBytes => Leaf(BytesAt(data, p), lists)
      case OnString => Leaf(StringAt(data, p), lists)
      case OnObject => ObjectAt(data, p, lists)
      case OnRef =>
        var rid :- RefIdAt(data, p);
        Ok(Decoded(RefTarget(lists, rid.0), rid.1, lists))
      case OnArray => ArrayAt(data, p, lists)
      case OnHashMap => HashMapAt(data, p, lists)
      case OnMap => MapAt(data, p, lists)
  }

  /** A reader of a value that holds values leaves it registered, in the first new slot. */
  predicate Registers(lists: Lists, r: Result<Decoded>)
  {
    r.Ok? ==>
      Grows(lists, r.value.lists) && |lists.refs| < |r.value.lists.refs| &&
      r.value.lists.refs[|lists.refs|] == r.value.value
  }

  /**
   * `readObject`: 'C' appends a class definition and reads on; an instance
   * names a definition, is registered as a reference, then reads one value
   * per field of the definition, in the definition's order.
   */
  function ObjectAt(data: seq<byte>, p: nat, lists: Lists): (r: Result<Decoded>)
    ensures r.Ok? ==> p < |data| && p < r.value.next && r.value.value.DMap?
    ensures Registers(lists, r)
    decreases Left(data, p), 2
  {
    if p < |data| && data[p] == 0x43 then
      var d :- DefinitionAt(data, p + 1);
      var after := lists.(classes := lists.classes + [d.0]);
      var r := ObjectAt(data, d.1, after);
      if r.Ok? then
        GrowsThenKeeps(lists, after, r.value.lists, |lists.refs|);
        r
      else r
    else
      var ref :- ClassRefAt(data, p);
      if !(0 <= ref.0 < |lists.classes|) then Err(NO_CLASS_ERROR)
      else
        var id := |lists.refs|;
        var start := lists.(refs := lists.refs + [DMap([])]);
        var r := FieldValues(data, ref.1, start, id, lists.classes[ref.0].fields, []);
        if r.Ok? then
          assert start.refs[..id] == lists.refs;
          r
        else r
  }

  /**
   * One value for each of `names`, from `q` on, put into `acc` under its
   * name; a name "this$<digits>" is read and dropped. Then slot `id` takes
   * the object.
   */
  function FieldValues(data: seq<byte>, q: nat, lists: Lists, id: nat, names: seq<Text>, acc: seq<Entry>): (r: Result<Decoded>)
    requires id < |lists.refs|
    ensures r.Ok? ==> q <= r.value.next && Keeps(lists, r.value.lists, id)
    ensures r.Ok? ==> r.value.lists.refs[id] == r.value.value && r.value.value.DMap?
    decreases Left(data, q), 4 + |names|
  {
    if names == [] then
      Ok(Decoded(DMap(acc), q, lists.(refs := lists.refs[id := DMap(acc)])))
    else
      var value :- DecodeAt(data, q, lists);
      var key := DStr(names[0]);
      var r := FieldValues(data, value.next, value.lists, id, names[1..],
        if V1Decoder.IsOuterRef(key) then acc else Put(acc, key, value.value));
      if r.Ok? then
        GrowsThenKeeps(lists, value.lists, r.value.lists, id);
        r
      else r
  }

  /** How `readArray` begins: the length (none for a code it does not know) and where the items start. */
  function ArrayHead(data: seq<byte>, p: nat, types: seq<Text>): (r: Result<(int, nat, seq<Text>)>)
    requires p < |data|
    ensures r.Ok? ==> p < r.value.1 && |types| <= |r.value.2| && r.value.2[..|types|] == types
  {
    var code := data[p];
    if code == 0x56 then
      var t :- TypeAt(data, p + 1, types);
      var n :- IntAt(data, t.1);
      Ok((n.0, n.1, t.2))
    else if code == 0x58 then
      var n :- IntAt(data, p + 1);
      Ok((n.0, n.1, types))
    else if 0x78 <= code <= 0x7f then Ok((code as int - 0x78, p + 1, types))
    else if 0x70 <= code <= 0x77 then
      var t :- TypeAt(data, p + 1, types);
      Ok((code as int - 0x70, t.1, t.2))
    else Ok((0, p + 1, types))
  }

  /** `readArray`: the head, the list registered as a reference, then exactly as many values as the length says. */
  function ArrayAt(data: seq<byte>, p: nat, lists: Lists): (r: Result<Decoded>)
    ensures r.Ok? ==> p < |data| && p < r.value.next && r.value.value.DList?
    ensures Registers(lists, r)
    decreases Left(data, p), 2
  {
    if p >= |data| then Err(CodeError("readArray"))
    else
      var h :- ArrayHead(data, p, lists.types);
      var id := |lists.refs|;
      var start := Lists(lists.refs + [DList([])], h.2, lists.classes, lists.bare);
      var r := ArrayItems(data, h.1, start, id, h.0, []);
      if r.Ok? then
        assert start.refs[..id] == lists.refs;
        r
      else r
  }

  /** `_readFixedLengthItems`: `n` values from `q` on (none when `n` is not positive); slot `id` takes the list. */
  function ArrayItems(data: seq<byte>, q: nat, lists: Lists, id: nat, n: int, acc: seq<DValue>): (r: Result<Decoded>)
    requires id < |lists.refs|
    ensures r.Ok? ==> q <= r.value.next && Keeps(lists, r.value.lists, id)
    ensures r.Ok? ==> r.value.lists.refs[id] == r.value.value && r.value.value.DList?
    ensures r.Ok? ==> |r.value.value.items| == |acc| + (if n > 0 then n else 0)
    decreases Left(data, q), 4
  {
    if n <= 0 then Ok(Decoded(DList(acc), q, lists.(refs := lists.refs[id := DList(acc)])))
    else
      var item :- DecodeAt(data, q, lists);
      var r := ArrayItems(data, item.next, item.lists, id, n - 1, acc + [item.value]);
      if r.Ok? then
        GrowsThenKeeps(lists, item.lists, r.value.lists, id);
        r
      else r
  }

  /** `_readMap`: key and value pairs from `q` on, put into `acc`, until 'Z'; slot `id` takes the object. */
  function MapEntries(data: seq<byte>, q: nat, lists: Lists, id: nat, acc: seq<Entry>): (r: Result<Decoded>)
    requires id < |lists.refs|
    ensures r.Ok? ==> q < r.value.next && Keeps(lists, r.value.lists, id)
    ensures r.Ok? ==> r.value.lists.refs[id] == r.value.value && r.value.value.DMap?
    decreases Left(data, q), 4
  {
    if q < |data| && data[q] == 0x5a then
      Ok(Decoded(DMap(acc), q + 1, lists.(refs := lists.refs[id := DMap(acc)])))
    else
      var key :- DecodeAt(data, q, lists);
      var value :- DecodeAt(data, key.next, key.lists);
      GrowsThenKeeps(lists, key.lists, value.lists, |lists.refs|);
      var r := MapEntries(data, value.next, value.lists, id, Put(acc, key.value, value.value));
      if r.Ok? then
        GrowsThenKeeps(lists, value.lists, r.value.lists, id);
        r
      else r
  }

  /** `readHashMap`: 'H', the object registered as a reference, then its pairs. */
  function HashMapAt(data: seq<byte>, p: nat, lists: Lists): (r: Result<Decoded>)
    ensures r.Ok? ==> p < |data| && p < r.value.next && r.value.value.DMap?
    ensures Registers(lists, r)
    decreases Left(data, p), 2
  {
    if p < |data| && data[p] == 0x48 then
      var id := |lists.refs|;
      var start := lists.(refs := lists.refs + [DMap([])], bare := lists.bare + {id});
      var r := MapEntries(data, p + 1, start, id, []);
      if r.Ok? then
        assert start.refs[..id] == lists.refs;
        r
      else r
    else Err(CodeError("readHashMap"))
  }

  /** `readMap` registers the map itself when its type is empty, and a `{$class, $}` wrapper otherwise. */
  function BareIf(bare: set<nat>, id: nat, typeName: Text): set<nat>
  {
    if typeName == [] then bare + {id} else bare
  }

  /** `readMap`: 'M', a type, the object registered as a reference, then its pairs. */
  function MapAt(data: seq<byte>, p: nat, lists: Lists): (r: Result<Decoded>)
    ensures r.Ok? ==> p < |data| && p < r.value.next && r.value.value.DMap?
    ensures Registers(lists, r)
    decreases Left(data, p), 2
  {
    if p < |data| && data[p] == 0x4d then
      var t :- TypeAt(data, p + 1, lists.types);
      var id := |lists.refs|;
      var start := Lists(lists.refs + [DMap([])], t.2, lists.classes, BareIf(lists.bare, id, t.0));
      var r := MapEntries(data, t.1, start, id, []);
      if r.Ok? then
        assert start.refs[..id] == lists.refs;
        r
      else r
    else Err(CodeError("readMap"))
  }

  /** The list `[{$: 1}, 1]`, its second item a reference back to the hash map that is its first. */
  const SAMPLE_REF_TO_MAP: seq<byte> := [0x58, 0x92, 0x48, 0x01, 0x24, 0x91, 0x5a, 0x51, 0x91]

  /** The key of the sample's map: the one-character string `$`. */
  lemma SampleKey()
    ensures StringFrom(SAMPLE_REF_TO_MAP, 3, []) == Ok(([0x24], 5))
  {
    var data := SAMPLE_REF_TO_MAP;
    assert DecodeUnits(data, 5, 0) == Ok(([], 0));
    assert UnitOf(data, 4, 1) == 0x24;
    DecodeStep(data, 4, 1);
    assert [0x24 as unit16] + [] == [0x24];
    assert DecodeUnits(data, 4, 1) == Ok(([0x24], 1));
    assert StringChunk(data, 3) == Ok(([0x24], 5));
    assert [] + [0x24 as unit16] == [0x24];
  }

  /** The sample's key and value, from 3 to the 'Z' at 6, fill slot 1. */
  lemma SampleEntries()
    ensures var e := [Entry(DOLLAR, DInt(1))];
      MapEntries(SAMPLE_REF_TO_MAP, 3, Lists([DList([]), DMap([])], [], [], {1}), 1, []) ==
      Ok(Decoded(DMap(e), 7, Lists([DList([]), DMap(e)], [], [], {1})))
  {
    var data := SAMPLE_REF_TO_MAP;
    var l1 := Lists([DList([]), DMap([])], [], [], {1});
    SampleKey();
    assert DecodeAt(data, 3, l1) == Ok(Decoded(DOLLAR, 5, l1));
    assert DecodeAt(data, 5, l1) == Ok(Decoded(DInt(1), 6, l1));
    var e := [Entry(DOLLAR, DInt(1))];
    assert Put([], DOLLAR, DInt(1)) == e;
    var l2 := Lists([DList([]), DMap(e)], [], [], {1});
    assert l1.(refs := l1.refs[1 := DMap(e)]) == l2;
    assert MapEntries(data, 6, l1, 1, e) == Ok(Decoded(DMap(e), 7, l2));
  }

  /** The sample's map `{$: 1}` is read at 2 and registered bare, as reference 1. */
  lemma SampleMap()
    ensures var e := [Entry(DOLLAR, DInt(1))];
      DecodeAt(SAMPLE_REF_TO_MAP, 2, Lists([DList([])], [], [], {})) ==
      Ok(Decoded(DMap(e), 7, Lists([DList([]), DMap(e)], [], [], {1})))
  {
    hide MapEntries, ObjectAt, ArrayAt, MapAt;
    var l0 := Lists([DList([])], [], [], {});
    SampleEntries();
    assert l0.(refs := l0.refs + [DMap([])], bare := l0.bare + {1}) == Lists([DList([]), DMap([])], [], [], {1});
    assert ReaderOf(0x48) == Some(OnHashMap);
  }

  /** The sample's second item, reference 1, reads the `$` of the bare map registered there. */
  lemma SampleRef()
    ensures var l2 := Lists([DList([]), DMap([Entry(DOLLAR, DInt(1))])], [], [], {1});
      DecodeAt(SAMPLE_REF_TO_MAP, 7, l2) == Ok(Decoded(DInt(1), 9, l2))
  {
    var l2 := Lists([DList([]), DMap([Entry(DOLLAR, DInt(1))])], [], [], {1});
    assert RefIdAt(SAMPLE_REF_TO_MAP, 7) == Ok((1, 9));
    assert RefTarget(l2, 1) == DInt(1);
  }

  /** The sample's two items, after its head, fill slot 0. */
  lemma SampleItems()
    ensures var e := [Entry(DOLLAR, DInt(1))];
      ArrayItems(SAMPLE_REF_TO_MAP, 2, Lists([DList([])], [], [], {}), 0, 2, []) ==
      Ok(Decoded(DList([DMap(e), DInt(1)]), 9, Lists([DList([DMap(e), DInt(1)]), DMap(e)], [], [], {1})))
  {
    var data := SAMPLE_REF_TO_MAP;
    var e := [Entry(DOLLAR, DInt(1))];
    var l2 := Lists([DList([]), DMap(e)], [], [], {1});
    var l3 := Lists([DList([DMap(e), DInt(1)]), DMap(e)], [], [], {1});
    SampleMap();
    SampleRef();
    assert [] + [DMap(e)] == [DMap(e)];
    assert [DMap(e)] + [DInt(1)] == [DMap(e), DInt(1)];
    assert l2.(refs := l2.refs[0 := DList([DMap(e), DInt(1)])]) == l3;
    assert ArrayItems(data, 9, l2, 0, 0, [DMap(e), DInt(1)]) == Ok(Decoded(DList([DMap(e), DInt(1)]), 9, l3));
    assert ArrayItems(data, 7, l2, 0, 1, [DMap(e)]) == Ok(Decoded(DList([DMap(e), DInt(1)]), 9, l3));
  }

  /**
   * A reference back to a hash map reads the map's `$` property: the
   * sample list reads as `[{$: 1}, 1]`, not as the map twice.
   */
  lemma RefToHashMapReadsDollar()
    ensures var r := DecodeAt(SAMPLE_REF_TO_MAP, 0, Lists([], [], [], {}));
      r.Ok? && r.value.value == DList([DMap([Entry(DOLLAR, DInt(1))]), DInt(1)]) && r.value.next == 9
  {
    assert ArrayHead(SAMPLE_REF_TO_MAP, 0, []) == Ok((2, 2, []));
    assert Lists([] + [DList([])], [], [], {}) == Lists([DList([])], [], [], {});
    SampleItems();
  }

  // ---------------------------------------------------------------------
  // Properties of the readers
  // ---------------------------------------------------------------------

  /** `acc` followed by what a read from `q` gives, or its error. */
  function Prefixed(acc: Text, r: Result<(Text, nat)>): Result<(Text, nat)>
  {
    match r
    case Ok(v) => Ok((acc + v.0, v.1))
    case Err(e) => Err(e)
  }

  /**
   * What the chunks read so far hold only goes in front: reading on from
   * `q` after `acc` is reading from `q` alone with `acc` before it. This is
   * why the nested `readString` of a non-final chunk may start afresh.
   */
  lemma {:induction false} StringFromAcc(data: seq<byte>, q: nat, acc: Text)
    ensures StringFrom(data, q, acc) == Prefixed(acc, StringFrom(data, q, []))
    decreases |data| - q
  {
    var head := StringChunk(data, q);
    if head.Ok? {
      var u := head.value;
      assert [] + u.0 == u.0;
      if data[q] == 0x52 {
        StringFromAcc(data, u.1, acc + u.0);
        StringFromAcc(data, u.1, u.0);
        var rest := StringFrom(data, u.1, []);
        if rest.Ok? {
          assert (acc + u.0) + rest.value.0 == acc + (u.0 + rest.value.0);
        }
      }
    }
  }

  /** The value of each compact int form lies in the range that form is for. */
  lemma IntRanges(data: seq<byte>, p: nat)
    requires IntAt(data, p).Ok?
    ensures var v := IntAt(data, p).value.0;
      (0x80 <= data[p] <= 0xbf ==> -16 <= v <= 47) &&
      (0xc0 <= data[p] <= 0xcf ==> -2048 <= v <= 2047) &&
      (0xd0 <= data[p] <= 0xd7 ==> -262144 <= v <= 262143) &&
      (data[p] == 0x49 ==> IntAt(data, p).value.1 == p + 5)
  {
  }

  /** A field named "this$<digits>" never becomes a property: such keys keep whatever `acc` gave them. */
  lemma {:induction false} FieldValuesDropOuter(data: seq<byte>, q: nat, lists: Lists, id: nat, names: seq<Text>, acc: seq<Entry>, k: DValue)
    requires id < |lists.refs| && FieldValues(data, q, lists, id, names, acc).Ok? && V1Decoder.IsOuterRef(k)
    ensures Lookup(FieldValues(data, q, lists, id, names, acc).value.value.entries, k) == Lookup(acc, k)
    decreases names
  {
    if names != [] {
      var value := DecodeAt(data, q, lists).value;
      var key := DStr(names[0]);
      var acc' := if V1Decoder.IsOuterRef(key) then acc else Put(acc, key, value.value);
      FieldValuesDropOuter(data, value.next, value.lists, id, names[1..], acc', k);
    }
  }

  /** An object read holds no "this$<digits>" property. */
  lemma ObjectHasNoOuterRef(data: seq<byte>, p: nat, lists: Lists, k: DValue)
    requires ObjectAt(data, p, lists).Ok? && V1Decoder.IsOuterRef(k) && !(p < |data| && data[p] == 0x43)
    ensures Lookup(ObjectAt(data, p, lists).value.value.entries, k).None?
  {
    var ref := ClassRefAt(data, p).value;
    FieldValuesDropOuter(data, ref.1, lists.(refs := lists.refs + [DMap([])]), |lists.refs|, lists.classes[ref.0].fields, [], k);
  }

  /** An array holds exactly as many values as its head says (none for a length that is not positive). */
  lemma ArrayLength(data: seq<byte>, p: nat, lists: Lists)
    requires ArrayAt(data, p, lists).Ok?
    ensures var n := ArrayHead(data, p, lists.types).value.0;
      |ArrayAt(data, p, lists).value.value.items| == if n > 0 then n else 0
  {
  }

  // ---------------------------------------------------------------------
  // The table as the calls fill it
  // ---------------------------------------------------------------------

  lemma Covered1(a: Utils.CodeSpec)
    ensures Utils.Covered([a]) == Utils.SpecCodes(a)
  {
    assert [a][..0] == [];
  }

  lemma Covered2(a: Utils.CodeSpec, b: Utils.CodeSpec)
    ensures Utils.Covered([a, b]) == Utils.SpecCodes(a) + Utils.SpecCodes(b)
  {
    assert [a, b][..1] == [a];
    Covered1(a);
  }

  lemma Covered3(a: Utils.CodeSpec, b: Utils.CodeSpec, c: Utils.CodeSpec)
    ensures Utils.Covered([a, b, c]) == Utils.SpecCodes(a) + Utils.SpecCodes(b) + Utils.SpecCodes(c)
  {
    assert [a, b, c][..2] == [a, b];
    Covered2(a, b);
  }

  lemma Covered4(a: Utils.CodeSpec, b: Utils.CodeSpec, c: Utils.CodeSpec, d: Utils.CodeSpec)
    ensures Utils.Covered([a, b, c, d]) == Utils.SpecCodes(a) + Utils.SpecCodes(b) + Utils.SpecCodes(c) + Utils.SpecCodes(d)
  {
    assert [a, b, c, d][..3] == [a, b, c];
    Covered3(a, b, c);
  }

  lemma Covered5(a: Utils.CodeSpec, b: Utils.CodeSpec, c: Utils.CodeSpec, d: Utils.CodeSpec, e: Utils.CodeSpec)
    ensures Utils.Covered([a, b, c, d, e]) ==
      Utils.SpecCodes(a) + Utils.SpecCodes(b) + Utils.SpecCodes(c) + Utils.SpecCodes(d) + Utils.SpecCodes(e)
  {
    assert [a, b, c, d, e][..4] == [a, b, c, d];
    Covered4(a, b, c, d);
  }

  lemma Covered6(a: Utils.CodeSpec, b: Utils.CodeSpec, c: Utils.CodeSpec, d: Utils.CodeSpec, e: Utils.CodeSpec, f: Utils.CodeSpec)
    ensures Utils.Covered([a, b, c, d, e, f]) ==
      Utils.SpecCodes(a) + Utils.SpecCodes(b) + Utils.SpecCodes(c) + Utils.SpecCodes(d) + Utils.SpecCodes(e) + Utils.SpecCodes(f)
  {
    assert [a, b, c, d, e, f][..5] == [a, b, c, d, e];
    Covered5(a, b, c, d, e);
  }

  lemma SingleHas(c: int, x: int)
    ensures x in Utils.SpecCodes(Utils.Single(c)) <==> x == c
  {
  }

  lemma SpanHas(lo: int, hi: int, x: int)
    ensures x in Utils.SpecCodes(Utils.Span(lo, hi)) <==> lo <= x <= hi
  {
    assert Utils.InSpan(lo, hi, x) <==> lo <= x <= hi;
  }

  /** The codes each `addByteCodes` call names, as ranges. */
  lemma ScalarCallsCover(x: int)
    ensures x in Utils.Covered(BOOL_CODES) <==> x == 0x46 || x == 0x54
    ensures x in Utils.Covered(NULL_CODES) <==> x == 0x4e
    ensures x in Utils.Covered(INT_CODES) <==> 0x80 <= x <= 0xd7 || x == 0x49
    ensures x in Utils.Covered(LONG_CODES) <==> 0xd8 <= x <= 0xff || 0x38 <= x <= 0x3f || x == 0x59 || x == 0x4c
    ensures x in Utils.Covered(DOUBLE_CODES) <==> x == 0x44 || 0x5b <= x <= 0x5f
    ensures x in Utils.Covered(DATE_CODES) <==> x == 0x4a || x == 0x4b
  {
    hide Utils.SpecCodes;
    Covered2(Utils.Single(0x46), Utils.Single(0x54));
    SingleHas(0x46, x); SingleHas(0x54, x);
    Covered1(Utils.Single(0x4e));
    SingleHas(0x4e, x);
    Covered4(Utils.Span(0x80, 0xbf), Utils.Span(0xc0, 0xcf), Utils.Span(0xd0, 0xd7), Utils.Single(0x49));
    SpanHas(0x80, 0xbf, x); SpanHas(0xc0, 0xcf, x); SpanHas(0xd0, 0xd7, x); SingleHas(0x49, x);
    Covered5(Utils.Span(0xd8, 0xef), Utils.Span(0xf0, 0xff), Utils.Span(0x38, 0x3f), Utils.Single(0x59), Utils.Single(0x4c));
    SpanHas(0xd8, 0xef, x); SpanHas(0xf0, 0xff, x); SpanHas(0x38, 0x3f, x); SingleHas(0x59, x); SingleHas(0x4c, x);
    Covered6(Utils.Single(0x44), Utils.Single(0x5b), Utils.Single(0x5c), Utils.Single(0x5d), Utils.Single(0x5e), Utils.Single(0x5f));
    SingleHas(0x44, x); SingleHas(0x5b, x); SingleHas(0x5c, x); SingleHas(0x5d, x); SingleHas(0x5e, x); SingleHas(0x5f, x);
    Covered2(Utils.Single(0x4a), Utils.Single(0x4b));
    SingleHas(0x4a, x); SingleHas(0x4b, x);
  }

  /** The codes each `addByteCodes` call names, as ranges. */
  lemma NodeCallsCover(x: int)
    ensures x in Utils.Covered(BYTES_CODES) <==> x == 0x41 || x == 0x42 || 0x34 <= x <= 0x37 || 0x20 <= x <= 0x2f
    ensures x in Utils.Covered(STRING_CODES) <==> 0 <= x <= 0x1f || 0x30 <= x <= 0x33 || x == 0x52 || x == 0x53
    ensures x in Utils.Covered(OBJECT_CODES) <==> x == 0x43 || x == 0x4f || 0x60 <= x <= 0x6f
    ensures x in Utils.Covered(REF_CODES) <==> x == 0x51
    ensures x in Utils.Covered(ARRAY_CODES) <==> x == 0x56 || x == 0x58 || 0x70 <= x <= 0x7f
    ensures x in Utils.Covered(HASH_MAP_CODES) <==> x == 0x48
    ensures x in Utils.Covered(MAP_CODES) <==> x == 0x4d
  {
    hide Utils.SpecCodes;
    Covered4(Utils.Single(0x41), Utils.Single(0x42), Utils.Span(0x34, 0x37), Utils.Span(0x20, 0x2f));
    SingleHas(0x41, x); SingleHas(0x42, x); SpanHas(0x34, 0x37, x); SpanHas(0x20, 0x2f, x);
    Covered4(Utils.Single(0x52), Utils.Single(0x53), Utils.Span(0x00, 0x1f), Utils.Span(0x30, 0x33));
    SingleHas(0x52, x); SingleHas(0x53, x); SpanHas(0x00, 0x1f, x); SpanHas(0x30, 0x33, x);
    Covered3(Utils.Single(0x43), Utils.Single(0x4f), Utils.Span(0x60, 0x6f));
    SingleHas(0x43, x); SingleHas(0x4f, x); SpanHas(0x60, 0x6f, x);
    Covered1(Utils.Single(0x51));
    SingleHas(0x51, x);
    Covered4(Utils.Single(0x56), Utils.Single(0x58), Utils.Span(0x70, 0x77), Utils.Span(0x78, 0x7f));
    SingleHas(0x56, x); SingleHas(0x58, x); SpanHas(0x70, 0x77, x); SpanHas(0x78, 0x7f, x);
    Covered1(Utils.Single(0x48));
    SingleHas(0x48, x);
    Covered1(Utils.Single(0x4d));
    SingleHas(0x4d, x);
  }

  /**
   * The thirteen `addByteCodes` calls give the table by ranges: a code has
   * a reader exactly when the ranges name one, and it is that reader.
   */
  lemma RegisteredIsTable(x: int)
    ensures x in Registered() <==> ReaderOf(x).Some?
    ensures x in Registered() ==> Registered()[x] == ReaderOf(x).value
  {
    ScalarCallsCover(x);
    NodeCallsCover(x);
    hide Utils.Register, Utils.Covered;
    var m0 := Utils.Register(map[], BOOL_CODES, OnBool);
    Utils.RegisterAt(map[], BOOL_CODES, OnBool, x);
    var m1 := Utils.Register(m0, NULL_CODES, OnNull);
    Utils.RegisterAt(m0, NULL_CODES, OnNull, x);
    var m2 := Utils.Register(m1, INT_CODES, OnInt);
    Utils.RegisterAt(m1, INT_CODES, OnInt, x);
    var m3 := Utils.Register(m2, LONG_CODES, OnLong);
    Utils.RegisterAt(m2, LONG_CODES, OnLong, x);
    var m4 := Utils.Register(m3, DOUBLE_CODES, OnDouble);
    Utils.RegisterAt(m3, DOUBLE_CODES, OnDouble, x);
    var m5 := Utils.Register(m4, DATE_CODES, OnDate);
    Utils.RegisterAt(m4, DATE_CODES, OnDate, x);
    var m6 := Utils.Register(m5, BYTES_CODES, OnBytes);
    Utils.RegisterAt(m5, BYTES_CODES, OnBytes, x);
    var m7 := Utils.Register(m6, STRING_CODES, OnString);
    Utils.RegisterAt(m6, STRING_CODES, OnString, x);
    var m8 := Utils.Register(m7, OBJECT_CODES, OnObject);
    Utils.RegisterAt(m7, OBJECT_CODES, OnObject, x);
    var m9 := Utils.Register(m8, REF_CODES, OnRef);
    Utils.RegisterAt(m8, REF_CODES, OnRef, x);
    var m10 := Utils.Register(m9, ARRAY_CODES, OnArray);
    Utils.RegisterAt(m9, ARRAY_CODES, OnArray, x);
    var m11 := Utils.Register(m10, HASH_MAP_CODES, OnHashMap);
    Utils.RegisterAt(m10, HASH_MAP_CODES, OnHashMap, x);
    Utils.RegisterAt(m11, MAP_CODES, OnMap, x);
  }

  /** The table `addByteCodes` fills in place, call by call. */
  method BuildByteCodes() returns (codes: Utils.ByteCodes<Reader>)
    ensures fresh(codes)
    ensures codes.table == Registered()
    ensures forall x :: x in codes.table ==> ReaderOf(x) == Some(codes.table[x])
  {
    codes := new Utils.ByteCodes();
    codes.AddByteCodes(BOOL_CODES, OnBool);
    codes.AddByteCodes(NULL_CODES, OnNull);
    codes.AddByteCodes(INT_CODES, OnInt);
    codes.AddByteCodes(LONG_CODES, OnLong);
    codes.AddByteCodes(DOUBLE_CODES, OnDouble);
    codes.AddByteCodes(DATE_CODES, OnDate);
    codes.AddByteCodes(BYTES_CODES, OnBytes);
    codes.AddByteCodes(STRING_CODES, OnString);
    codes.AddByteCodes(OBJECT_CODES, OnObject);
    codes.AddByteCodes(REF_CODES, OnRef);
    codes.AddByteCodes(ARRAY_CODES, OnArray);
    codes.AddByteCodes(HASH_MAP_CODES, OnHashMap);
    codes.AddByteCodes(MAP_CODES, OnMap);
    forall x | x in codes.table
      ensures ReaderOf(x) == Some(codes.table[x])
    {
      RegisteredIsTable(x);
    }
  }

  // ---------------------------------------------------------------------
  // One step of each reader's loop
  // ---------------------------------------------------------------------

  /** The state of `readBytes`'s loop: just past a chunk code, with the rest completing the value. */
  predicate BytesLoop(data: seq<byte>, start: nat, pos: nat, code: byte, bufs: seq<byte>)
  {
    0 < pos <= |data| && code == data[pos - 1] && BytesFrom(data, start, []) == BytesFrom(data, pos - 1, bufs)
  }

  /** The code just read begins the loop. */
  lemma BytesLoopStart(data: seq<byte>, start: nat)
    ensures start < |data| ==> BytesLoop(data, start, start + 1, data[start], [])
  {
  }

  /** After an 'A' code: a chunk that cannot be read, or nothing after it, fails the value. */
  lemma BytesLoopFails(data: seq<byte>, start: nat, pos: nat, bufs: seq<byte>)
    requires BytesLoop(data, start, pos, 0x41, bufs)
    ensures var len := UInt16At(data, pos);
      (len.Err? || pos + 2 + len.value >= |data|) ==> BytesFrom(data, start, []).Err?
  {
  }

  /** After an 'A' code: the chunk and the next code continue the loop. */
  lemma BytesLoopStep(data: seq<byte>, start: nat, pos: nat, bufs: seq<byte>, pos': nat, code': byte, bufs': seq<byte>)
    requires BytesLoop(data, start, pos, 0x41, bufs)
    requires UInt16At(data, pos).Ok? && pos' == pos + 3 + UInt16At(data, pos).value
    requires pos' <= |data| && code' == data[pos' - 1] && bufs' == bufs + data[pos + 2..pos' - 1]
    ensures BytesLoop(data, start, pos', code', bufs')
  {
  }

  /** The code that ends the loop begins the last chunk. */
  lemma BytesLoopLast(data: seq<byte>, start: nat, pos: nat, code: byte, bufs: seq<byte>)
    requires BytesLoop(data, start, pos, code, bufs) && code != 0x41
    ensures 0 < pos <= |data| && data[pos - 1] == code
    ensures var last := LastChunk(data, pos - 1);
      (last.Err? ==> BytesFrom(data, start, []).Err?) &&
      (last.Ok? ==> BytesFrom(data, start, []) == Ok((bufs + last.value.0, last.value.1)))
  {
  }

  /** How `readString` goes on from its first chunk: for 'R' the chunks after it, read afresh. */
  lemma StringStep(data: seq<byte>, q: nat)
    ensures StringChunk(data, q).Err? ==> StringFrom(data, q, []).Err?
    ensures StringChunk(data, q).Ok? && data[q] != 0x52 ==> StringFrom(data, q, []) == StringChunk(data, q)
    ensures StringChunk(data, q).Ok? && data[q] == 0x52 ==>
      StringFrom(data, q, []) == Prefixed(StringChunk(data, q).value.0, StringFrom(data, StringChunk(data, q).value.1, []))
  {
    var head := StringChunk(data, q);
    if head.Ok? {
      assert [] + head.value.0 == head.value.0;
      if data[q] == 0x52 {
        StringFromAcc(data, head.value.1, head.value.0);
      }
    }
  }

  lemma FieldNamesStep(data: seq<byte>, q: nat, count: int, acc: seq<Text>)
    ensures count <= 0 ==> FieldNames(data, q, count, acc) == Ok((acc, q))
    ensures count > 0 && StringFrom(data, q, []).Err? ==> FieldNames(data, q, count, acc).Err?
    ensures count > 0 && StringFrom(data, q, []).Ok? ==> var s := StringFrom(data, q, []).value;
      FieldNames(data, q, count, acc) == FieldNames(data, s.1, count - 1, acc + [s.0])
  {
  }

  /** How `readObject` begins: a definition and a fresh start, or the class named and the first state of the loop. */
  lemma ObjectStart(data: seq<byte>, p: nat, lists: Lists)
    ensures p < |data| && data[p] == 0x43 ==> var d := DefinitionAt(data, p + 1);
      (d.Err? ==> ObjectAt(data, p, lists).Err?) &&
      (d.Ok? ==> ObjectAt(data, p, lists) == ObjectAt(data, d.value.1, lists.(classes := lists.classes + [d.value.0])))
    ensures !(p < |data| && data[p] == 0x43) ==> var ref := ClassRefAt(data, p);
      (ref.Err? ==> ObjectAt(data, p, lists).Err?) &&
      (ref.Ok? && !(0 <= ref.value.0 < |lists.classes|) ==> ObjectAt(data, p, lists) == Err(NO_CLASS_ERROR)) &&
      (ref.Ok? && 0 <= ref.value.0 < |lists.classes| ==>
        ObjectAt(data, p, lists) ==
        FieldValues(data, ref.value.1, lists.(refs := lists.refs + [DMap([])]), |lists.refs|, lists.classes[ref.value.0].fields, []))
  {
    hide DecodeAt, FieldValues, DefinitionAt, ClassRefAt;
  }

  lemma FieldValuesStep(data: seq<byte>, q: nat, lists: Lists, id: nat, names: seq<Text>, acc: seq<Entry>)
    requires id < |lists.refs|
    ensures names == [] ==>
      FieldValues(data, q, lists, id, names, acc) == Ok(Decoded(DMap(acc), q, lists.(refs := lists.refs[id := DMap(acc)])))
    ensures names != [] && DecodeAt(data, q, lists).Err? ==> FieldValues(data, q, lists, id, names, acc).Err?
    ensures names != [] && DecodeAt(data, q, lists).Ok? ==> var value := DecodeAt(data, q, lists).value;
      id < |value.lists.refs| &&
      FieldValues(data, q, lists, id, names, acc) == FieldValues(data, value.next, value.lists, id, names[1..],
        if V1Decoder.IsOuterRef(DStr(names[0])) then acc else Put(acc, DStr(names[0]), value.value))
  {
    hide DecodeAt, V1Decoder.IsOuterRef, Put;
  }

  /** How `readArray` begins: the head, then the list registered and the first state of the loop. */
  lemma ArrayStart(data: seq<byte>, p: nat, lists: Lists)
    ensures p >= |data| ==> ArrayAt(data, p, lists).Err?
    ensures p < |data| ==> var h := ArrayHead(data, p, lists.types);
      (h.Err? ==> ArrayAt(data, p, lists).Err?) &&
      (h.Ok? ==>
        ArrayAt(data, p, lists) == ArrayItems(data, h.value.1, Lists(lists.refs + [DList([])], h.value.2, lists.classes, lists.bare), |lists.refs|, h.value.0, []))
  {
    hide DecodeAt, ArrayItems, ArrayHead;
  }

  lemma ArrayItemsStep(data: seq<byte>, q: nat, lists: Lists, id: nat, n: int, acc: seq<DValue>)
    requires id < |lists.refs|
    ensures n <= 0 ==> ArrayItems(data, q, lists, id, n, acc) == Ok(Decoded(DList(acc), q, lists.(refs := lists.refs[id := DList(acc)])))
    ensures n > 0 && DecodeAt(data, q, lists).Err? ==> ArrayItems(data, q, lists, id, n, acc).Err?
    ensures n > 0 && DecodeAt(data, q, lists).Ok? ==> var item := DecodeAt(data, q, lists).value;
      id < |item.lists.refs| &&
      ArrayItems(data, q, lists, id, n, acc) == ArrayItems(data, item.next, item.lists, id, n - 1, acc + [item.value])
  {
    hide DecodeAt;
  }

  lemma MapEntriesStep(data: seq<byte>, q: nat, lists: Lists, id: nat, acc: seq<Entry>)
    requires id < |lists.refs|
    ensures q < |data| && data[q] == 0x5a ==>
      MapEntries(data, q, lists, id, acc) == Ok(Decoded(DMap(acc), q + 1, lists.(refs := lists.refs[id := DMap(acc)])))
    ensures !(q < |data| && data[q] == 0x5a) && DecodeAt(data, q, lists).Err? ==> MapEntries(data, q, lists, id, acc).Err?
    ensures !(q < |data| && data[q] == 0x5a) && DecodeAt(data, q, lists).Ok? ==> var key := DecodeAt(data, q, lists).value;
      (DecodeAt(data, key.next, key.lists).Err? ==> MapEntries(data, q, lists, id, acc).Err?) &&
      (DecodeAt(data, key.next, key.lists).Ok? ==> var value := DecodeAt(data, key.next, key.lists).value;
        id < |value.lists.refs| &&
        MapEntries(data, q, lists, id, acc) == MapEntries(data, value.next, value.lists, id, Put(acc, key.value, value.value)))
  {
    hide Put;
    var key := DecodeAt(data, q, lists);
    if key.Ok? {
      var value := DecodeAt(data, key.value.next, key.value.lists);
      if value.Ok? {
        GrowsThenKeeps(lists, key.value.lists, value.value.lists, |lists.refs|);
      }
    }
    hide DecodeAt;
  }

  /** How `readHashMap` and `readMap` begin: the code, the type of a map, then the object registered and the loop. */
  lemma MapStart(data: seq<byte>, p: nat, lists: Lists)
    ensures !(p < |data| && data[p] == 0x48) ==> HashMapAt(data, p, lists).Err?
    ensures p < |data| && data[p] == 0x48 ==>
      HashMapAt(data, p, lists) == MapEntries(data, p + 1, lists.(refs := lists.refs + [DMap([])], bare := lists.bare + {|lists.refs|}), |lists.refs|, [])
    ensures !(p < |data| && data[p] == 0x4d) ==> MapAt(data, p, lists).Err?
    ensures p < |data| && data[p] == 0x4d ==> var t := TypeAt(data, p + 1, lists.types);
      (t.Err? ==> MapAt(data, p, lists).Err?) &&
      (t.Ok? ==>
        MapAt(data, p, lists) == MapEntries(data, t.value.1, Lists(lists.refs + [DMap([])], t.value.2, lists.classes, BareIf(lists.bare, |lists.refs|, t.value.0)), |lists.refs|, []))
  {
    hide DecodeAt, MapEntries, TypeAt;
  }

  // ---------------------------------------------------------------------
  // The decoder
  // ---------------------------------------------------------------------

  /** A method's result and new position are what the reader's function gives. */
  predicate Gives<T(==)>(r: Result<T>, pos: nat, d: Result<(T, nat)>)
  {
    (r.Ok? <==> d.Ok?) && (d.Ok? ==> r.value == d.value.0 && pos == d.value.1)
  }

  /** A method's value, new position and new lists are what the reader's function gives. */
  predicate Yields(r: Result<DValue>, pos: nat, lists: Lists, d: Result<Decoded>)
  {
    (r.Ok? <==> d.Ok?) && (d.Ok? ==> r.value == d.value.value && pos == d.value.next && lists == d.value.lists)
  }

  /**
   * The decoder: the input and the cursor into it, `refMap` (its keys
   * always 0 up to `refId`, so a list), the types and the class
   * definitions met so far, and whether the last string chunk read was a
   * final one.
   */
  class Decoder {
    var data: seq<byte>
    var pos: nat
    var refs: seq<DValue>
    var types: seq<Text>
    var classes: seq<ClassDef>
    var bare: set<nat>
    var isLastChunk: bool

    /** The three lists together. */
    function State(): Lists
      reads this
    {
      Lists(refs, types, classes, bare)
    }

    constructor (buf: seq<byte>)
      ensures data == buf && pos == 0 && State() == Lists([], [], [], {}) && !isLastChunk
    {
      data := buf;
      pos := 0;
      refs := [];
      types := [];
      classes := [];
      bare := {};
      isLastChunk := false;
    }

    /** `clean`: an empty buffer, no references, no types and no classes. */
    method Clean()
      modifies this
      ensures data == [] && pos == 0 && State() == Lists([], [], [], {}) && isLastChunk == old(isLastChunk)
    {
      data := [];
      pos := 0;
      refs := [];
      types := [];
      classes := [];
      bare := {};
    }

    /** `_addRef`: the object takes the next reference number. */
    method AddRef(v: DValue)
      modifies this
      ensures refs == old(refs) + [v] && refs[|old(refs)|] == v
      ensures data == old(data) && pos == old(pos) && types == old(types) && classes == old(classes) && bare == old(bare)
    {
      refs := refs + [v];
    }

    /** The byte at `at` without moving, as `get(index)` reads it; none past the end. */
    function PeekAt(at: nat): (r: Option<byte>)
      reads this
      ensures r.Some? <==> at < |data|
      ensures r.Some? ==> r.value == data[at]
    {
      if at < |data| then Some(data[at]) else None
    }

    /** `get()` for a code: the next byte, if any; the cursor moves on even past the end. */
    method GetByte() returns (r: Option<byte>)
      modifies this
      ensures r == PeekAt(old(pos)) && pos == old(pos) + 1
      ensures data == old(data) && State() == old(State()) && isLastChunk == old(isLastChunk)
    {
      r := PeekAt(pos);
      pos := pos + 1;
    }

    /** `get()` for a value byte: reading past the end is an error. */
    method NextByte() returns (r: Result<byte>)
      modifies this
      ensures r == ByteAt(data, old(pos)) && (r.Ok? ==> pos == old(pos) + 1)
      ensures data == old(data) && State() == old(State()) && isLastChunk == old(isLastChunk)
    {
      r := ByteAt(data, pos);
      pos := pos + 1;
    }

    /** `getUInt16`. */
    method ReadUInt16() returns (r: Result<nat>)
      modifies this
      ensures r == UInt16At(data, old(pos)) && (r.Ok? ==> pos == old(pos) + 2)
      ensures data == old(data) && State() == old(State()) && isLastChunk == old(isLastChunk)
    {
      r := UInt16At(data, pos);
      pos := pos + 2;
    }

    /** `read(len)`: the next `len` bytes. */
    method ReadRaw(len: nat) returns (r: Result<seq<byte>>)
      modifies this
      ensures r == V1Decoder.BytesAt(data, old(pos), len) && (r.Ok? ==> pos == old(pos) + len)
      ensures data == old(data) && State() == old(State()) && isLastChunk == old(isLastChunk)
    {
      r := V1Decoder.BytesAt(data, pos, len);
      pos := pos + len;
    }

    method ReadInt() returns (r: Result<int>)
      modifies this
      ensures Gives(r, pos, IntAt(data, old(pos)))
      ensures data == old(data) && State() == old(State())
    {
      var code := GetByte();
      if code.None? {
        return Err(CodeError("readInt"));
      }
      var c := code.value;
      if 0x80 <= c <= 0xbf {
        return Ok(c as int - 0x90);
      }
      if 0xc0 <= c <= 0xcf {
        var b0 :- NextByte();
        return Ok((c as int - 0xc8) * 0x100 + b0 as int);
      }
      if 0xd0 <= c <= 0xd7 {
        var b1 :- NextByte();
        var b0 :- NextByte();
        return Ok((c as int - 0xd4) * 0x1_0000 + b1 as int * 0x100 + b0 as int);
      }
      if c == 0x49 {
        var v :- Int32At(data, pos);
        pos := pos + 4;
        return Ok(v);
      }
      r := Err(CodeError("readInt"));
    }

    method ReadLong() returns (r: Result<DValue>)
      modifies this
      ensures Gives(r, pos, LongAt(data, old(pos)))
      ensures data == old(data) && State() == old(State())
    {
      hide Utils.HandleLong, Int64At, Int32At, Bytes.InSigned;
      var code := GetByte();
      if code.None? {
        return Err(CodeError("readLong"));
      }
      var c := code.value;
      if 0xd8 <= c <= 0xef {
        return Ok(DLong(Utils.AsNumber(c as int - 0xe0)));
      }
      if 0xf0 <= c {
        var b0 :- NextByte();
        return Ok(DLong(Utils.AsNumber((c as int - 0xf8) * 0x100 + b0 as int)));
      }
      if 0x38 <= c <= 0x3f {
        var b1 :- NextByte();
        var b0 :- NextByte();
        return Ok(DLong(Utils.AsNumber((c as int - 0x3c) * 0x1_0000 + b1 as int * 0x100 + b0 as int)));
      }
      if c == 0x59 {
        var v :- Int32At(data, pos);
        pos := pos + 4;
        return Ok(DLong(Utils.AsNumber(v)));
      }
      if c == 0x4c {
        var v :- Int64At(data, pos);
        pos := pos + 8;
        return Ok(DLong(Utils.HandleLong(v)));
      }
      r := Err(CodeError("readLong"));
    }

    method ReadDouble() returns (r: Result<DValue>)
      modifies this
      ensures Gives(r, pos, DoubleAt(data, old(pos)))
      ensures data == old(data) && State() == old(State())
    {
      var code := GetByte();
      if code.None? || !(code.value == 0x44 || 0x5b <= code.value <= 0x5f) {
        return Err(CodeError("readDouble"));
      }
      var raw :- ReadRaw(DoubleWidth(code.value));
      r := Ok(DDouble([code.value] + raw));
    }

    method ReadDate() returns (r: Result<DValue>)
      modifies this
      ensures Gives(r, pos, DateAt(data, old(pos)))
      ensures data == old(data) && State() == old(State())
    {
      hide Utils.HandleLong, Int64At, Int32At, Bytes.InSigned;
      var code := GetByte();
      if code == Some(0x4a) {
        assert old(pos) < |data| && data[old(pos)] == 0x4a && pos == old(pos) + 1;
        var v :- Int64At(data, pos);
        pos := pos + 8;
        r := Ok(DDate(Utils.HandleLong(v)));
      } else if code == Some(0x4b) {
        assert old(pos) < |data| && data[old(pos)] == 0x4b && pos == old(pos) + 1;
        var v :- Int32At(data, pos);
        var ms := v * 60000;
        pos := pos + 4;
        r := Ok(DDate(Utils.AsNumber(ms)));
      } else {
        assert DateAt(data, old(pos)).Err?;
        r := Err(CodeError("readDate"));
      }
    }

    /** The last chunk of `readBytes`, its code `code` just read. */
    method ReadLastChunk(code: byte) returns (r: Result<seq<byte>>)
      requires 0 < pos <= |data| && data[pos - 1] == code
      modifies this
      ensures Gives(r, pos, LastChunk(data, old(pos) - 1))
      ensures data == old(data) && State() == old(State())
    {
      if code == 0x42 {
        var len :- ReadUInt16();
        r := ReadRaw(len);
      } else if 0x20 <= code <= 0x2f {
        r := ReadRaw(code as nat - 0x20);
      } else if 0x34 <= code <= 0x37 {
        var b0 :- NextByte();
        r := ReadRaw((code as nat - 0x34) * 0x100 + b0 as nat);
      } else {
        r := Err(CodeError("readBytes"));
      }
    }

    /** `readBytes`: a short value at once, or 'A' chunks in a loop and then the last chunk, concatenated. */
    method ReadBytes() returns (r: Result<seq<byte>>)
      modifies this
      ensures Gives(r, pos, BytesFrom(data, old(pos), []))
      ensures data == old(data) && State() == old(State())
    {
      hide BytesFrom, BytesLoop, LastChunk, UInt16At;
      var code := GetByte();
      if code.None? {
        return Err(CodeError("readBytes"));
      }
      var c := code.value;
      var bufs: seq<byte> := [];
      BytesLoopStart(data, old(pos));
      if 0x20 <= c <= 0x2f {
        BytesLoopLast(data, old(pos), pos, c, bufs);
        r := ReadLastChunk(c);
        assert r.Ok? ==> bufs + r.value == r.value;
        return;
      }
      while c == 0x41
        invariant data == old(data) && State() == old(State())
        invariant BytesLoop(data, old(pos), pos, c, bufs)
        decreases |data| - pos
      {
        BytesLoopFails(data, old(pos), pos, bufs);
        ghost var before, acc := pos, bufs;
        var len :- ReadUInt16();
        var chunk :- ReadRaw(len);
        bufs := bufs + chunk;
        var next := GetByte();
        if next.None? {
          return Err(CodeError("readBytes"));
        }
        c := next.value;
        BytesLoopStep(data, old(pos), before, acc, pos, c, bufs);
      }
      BytesLoopLast(data, old(pos), pos, c, bufs);
      var last :- ReadLastChunk(c);
      r := Ok(bufs + last);
    }

    /** `_readUTF8String(len)`: `len` characters, none at all when `len` is 0. */
    method ReadUtf8String(len: nat) returns (r: Result<Text>)
      modifies this
      ensures Gives(r, pos, Units(data, old(pos), len))
      ensures data == old(data) && State() == old(State()) && isLastChunk == old(isLastChunk)
    {
      if len == 0 {
        return Ok([]);
      }
      var d :- DecodeUnits(data, pos, len);
      pos := pos + d.1;
      r := Ok(d.0);
    }

    /**
     * `readString`: a final chunk, or an 'R' chunk after which nested
     * `readString` calls go on while the last chunk read was not final.
     */
    method ReadString() returns (r: Result<Text>)
      modifies this
      ensures Gives(r, pos, StringFrom(data, old(pos), []))
      ensures r.Ok? ==> isLastChunk
      ensures data == old(data) && State() == old(State())
      decreases Left(data, pos)
    {
      hide StringFrom, Units;
      var code := GetByte();
      if code.None? || !IsStringCode(code.value) {
        return Err(CodeError("readString"));
      }
      var c := code.value;
      ghost var head := StringChunk(data, old(pos));
      StringStep(data, old(pos));
      var len: nat;
      if c <= 0x1f {
        len := c as nat;
      } else if c <= 0x33 {
        var b0 :- NextByte();
        len := (c as nat - 0x30) * 0x100 + b0 as nat;
      } else {
        len :- ReadUInt16();
      }
      assert head == Units(data, pos, len);
      isLastChunk := c != 0x52;
      var str :- ReadUtf8String(len);
      while !isLastChunk
        invariant data == old(data) && State() == old(State()) && old(pos) < pos && old(pos) < |data|
        invariant isLastChunk ==> StringFrom(data, old(pos), []) == Ok((str, pos))
        invariant !isLastChunk ==> c == 0x52 && pos == head.value.1 && str == head.value.0
        decreases if isLastChunk then 0 else 1
      {
        var more :- ReadString();
        str := str + more;
      }
      r := Ok(str);
    }
  
    /** `readType`: a string is a new type, appended to the types; an int names one read before. */
    method ReadType() returns (r: Result<Text>)
      modifies this
      ensures var d := TypeAt(data, old(pos), old(types));
        (r.Ok? <==> d.Ok?) && (d.Ok? ==> r.value == d.value.0 && pos == d.value.1 && types == d.value.2)
      ensures data == old(data) && refs == old(refs) && classes == old(classes) && bare == old(bare)
    {
      hide StringFrom, IntAt;
      var code := PeekAt(pos);
      if code.Some? && IsStringCode(code.value) {
        var t :- ReadString();
        types := types + [t];
        return Ok(t);
      }
      var ref :- ReadInt();
      r := Ok(if 0 <= ref < |types| then types[ref] else []);
    }

    /** `_readObjectDefinition` after 'C': the class name, the field count and the field names; the class is appended. */
    method ReadObjectDefinition() returns (r: Result<ClassDef>)
      modifies this
      ensures var d := DefinitionAt(data, old(pos));
        (r.Ok? <==> d.Ok?) && (d.Ok? ==> r.value == d.value.0 && pos == d.value.1 && classes == old(classes) + [d.value.0])
      ensures data == old(data) && refs == old(refs) && types == old(types) && bare == old(bare)
    {
      hide StringFrom, IntAt, FieldNames;
      var name :- ReadString();
      var count :- ReadInt();
      ghost var start := pos;
      var fields: seq<Text> := [];
      var i := 0;
      while i < count
        invariant data == old(data) && State() == old(State())
        invariant 0 <= i && (count > 0 ==> i <= count)
        invariant FieldNames(data, start, count, []) == FieldNames(data, pos, count - i, fields)
      {
        FieldNamesStep(data, pos, count - i, fields);
        var f :- ReadString();
        fields := fields + [f];
        i := i + 1;
      }
      FieldNamesStep(data, pos, count - i, fields);
      classes := classes + [ClassDef(name, fields)];
      r := Ok(ClassDef(name, fields));
    }

    /** `readRefId`: 'Q' and an int. */
    method ReadRefId() returns (r: Result<int>)
      modifies this
      ensures Gives(r, pos, RefIdAt(data, old(pos)))
      ensures data == old(data) && State() == old(State())
    {
      hide IntAt;
      var code := GetByte();
      if code != Some(0x51) {
        return Err(CodeError("readRef"));
      }
      r := ReadInt();
    }

    /** `readRef`: the object registered under the id read. */
    method ReadRef() returns (r: Result<DValue>)
      modifies this
      ensures var d := RefIdAt(data, old(pos));
        (r.Ok? <==> d.Ok?) && (d.Ok? ==> r.value == RefTarget(State(), d.value.0) && pos == d.value.1)
      ensures data == old(data) && State() == old(State())
    {
      var rid :- ReadRefId();
      r := Ok(RefTarget(State(), rid));
    }

    /** `read`: the reader `BYTE_CODES` names for the byte at the cursor, or an error. */
    method Read() returns (r: Result<DValue>)
      modifies this
      ensures data == old(data)
      ensures Yields(r, pos, State(), DecodeAt(data, old(pos), old(State())))
      decreases Left(data, pos), 3
    {
      hide ObjectAt, ArrayAt, HashMapAt, MapAt, IntAt, LongAt, DoubleAt, DateAt, RefIdAt,
        V1Decoder.ReadNullAt, V1Decoder.ReadBoolAt, BytesFrom, StringFrom;
      var code := PeekAt(pos);
      if code.None? || ReaderOf(code.value as int).None? {
        return Err(UNEXPECTED_CODE);
      }
      match ReaderOf(code.value as int).value {
        case OnNull =>
          var v :- ReadNull();
          r := Ok(v);
        case OnBool =>
          var v :- ReadBool();
          r := Ok(v);
        case OnInt =>
          var v :- ReadInt();
          r := Ok(DInt(v));
        case OnLong => r := ReadLong();
        case OnDouble => r := ReadDouble();
        case OnDate => r := ReadDate();
        case OnBytes =>
          var b :- ReadBytes();
          r := Ok(DBytes(b));
        case OnString =>
          var s :- ReadString();
          r := Ok(DStr(s));
        case OnObject => r := ReadObject();
        case OnRef => r := ReadRef();
        case OnArray => r := ReadArray();
        case OnHashMap => r := ReadHashMap();
        case OnMap => r := ReadMap();
      }
    }

    method ReadNull() returns (r: Result<DValue>)
      modifies this
      ensures Gives(r, pos, V1Decoder.ReadNullAt(data, old(pos)))
      ensures data == old(data) && State() == old(State())
    {
      var code := GetByte();
      if code != Some(0x4e) {
        return Err(V1Decoder.LabelError("readNull"));
      }
      r := Ok(DNull);
    }

    method ReadBool() returns (r: Result<DValue>)
      modifies this
      ensures Gives(r, pos, V1Decoder.ReadBoolAt(data, old(pos)))
      ensures data == old(data) && State() == old(State())
    {
      var code := GetByte();
      if code != Some(0x54) && code != Some(0x46) {
        return Err(V1Decoder.LabelError("readBool"));
      }
      r := Ok(DBool(code == Some(0x54)));
    }

    /**
     * `readObject`: a definition and a fresh start after 'C'; otherwise the
     * class named, the object registered, then one value per field.
     */
    method ReadObject() returns (r: Result<DValue>)
      modifies this
      ensures data == old(data)
      ensures Yields(r, pos, State(), ObjectAt(data, old(pos), old(State())))
      decreases Left(data, pos), 2
    {
      hide DecodeAt, ObjectAt, FieldValues, ArrayAt, ArrayItems, MapEntries, HashMapAt, MapAt, DefinitionAt, IntAt;
      ObjectStart(data, pos, State());
      var code := GetByte();
      if code == Some(0x43) {
        var d :- ReadObjectDefinition();
        r := ReadObject();
        return;
      }
      var ref: int;
      if code == Some(0x4f) {
        ref :- ReadInt();
      } else if code.Some? && 0x60 <= code.value <= 0x6f {
        ref := code.value as int - 0x60;
      } else {
        return Err(CodeError("readObject"));
      }
      assert ClassRefAt(data, old(pos)) == Ok((ref, pos));
      if !(0 <= ref < |classes|) {
        return Err(NO_CLASS_ERROR);
      }
      var cls := classes[ref];
      AddRef(DMap([]));
      r := ReadFields(|refs| - 1, cls.fields);
    }

    /** The loop of `readObject`: one value per field name, kept unless the name is "this$<digits>"; slot `id` then takes the object. */
    method ReadFields(id: nat, names: seq<Text>) returns (r: Result<DValue>)
      requires id < |refs|
      modifies this
      ensures data == old(data)
      ensures Yields(r, pos, State(), FieldValues(data, old(pos), old(State()), id, names, []))
      decreases Left(data, pos), 4 + |names|
    {
      hide DecodeAt, ObjectAt, FieldValues, ArrayAt, ArrayItems, MapEntries, HashMapAt, MapAt, Put, V1Decoder.IsOuterRef;
      var entries: seq<Entry> := [];
      var i := 0;
      while i < |names|
        invariant data == old(data) && old(pos) <= pos && id < |refs| && i <= |names|
        invariant FieldValues(data, old(pos), old(State()), id, names, []) == FieldValues(data, pos, State(), id, names[i..], entries)
      {
        FieldValuesStep(data, pos, State(), id, names[i..], entries);
        var value :- Read();
        var key := DStr(names[i]);
        if !V1Decoder.IsOuterRef(key) {
          entries := Put(entries, key, value);
        }
        assert names[i..][1..] == names[i + 1..];
        i := i + 1;
      }
      FieldValuesStep(data, pos, State(), id, names[i..], entries);
      refs := refs[id := DMap(entries)];
      r := Ok(DMap(entries));
    }

    /** The head of `readArray`, its code just read: the length, and the type read when the code carries one. */
    method ReadArrayHead(code: byte) returns (r: Result<int>)
      requires 0 < pos <= |data| && data[pos - 1] == code
      modifies this
      ensures data == old(data) && refs == old(refs) && classes == old(classes) && bare == old(bare)
      ensures var h := ArrayHead(data, old(pos) - 1, old(types));
        (r.Ok? <==> h.Ok?) && (h.Ok? ==> r.value == h.value.0 && pos == h.value.1 && types == h.value.2)
    {
      hide TypeAt, IntAt;
      if code == 0x56 {
        var t :- ReadType();
        r := ReadInt();
      } else if code == 0x58 {
        r := ReadInt();
      } else if 0x78 <= code <= 0x7f {
        r := Ok(code as int - 0x78);
      } else if 0x70 <= code <= 0x77 {
        var t :- ReadType();
        r := Ok(code as int - 0x70);
      } else {
        r := Ok(0);
      }
    }

    /** `readArray`: the head, the list registered as a reference, then exactly as many values as the length says. */
    method ReadArray() returns (r: Result<DValue>)
      modifies this
      ensures data == old(data)
      ensures Yields(r, pos, State(), ArrayAt(data, old(pos), old(State())))
      decreases Left(data, pos), 2
    {
      hide DecodeAt, ObjectAt, FieldValues, ArrayAt, ArrayItems, MapEntries, HashMapAt, MapAt, ArrayHead;
      ArrayStart(data, pos, State());
      var code := GetByte();
      if code.None? {
        return Err(CodeError("readArray"));
      }
      var length :- ReadArrayHead(code.value);
      AddRef(DList([]));
      r := ReadItems(|refs| - 1, length);
    }

    /** `_readFixedLengthItems`: `n` values; slot `id` then takes the list. */
    method ReadItems(id: nat, n: int) returns (r: Result<DValue>)
      requires id < |refs|
      modifies this
      ensures data == old(data)
      ensures Yields(r, pos, State(), ArrayItems(data, old(pos), old(State()), id, n, []))
      decreases Left(data, pos), 4
    {
      hide DecodeAt, ObjectAt, FieldValues, ArrayAt, ArrayItems, MapEntries, HashMapAt, MapAt;
      var items: seq<DValue> := [];
      var i := 0;
      while i < n
        invariant data == old(data) && old(pos) <= pos && id < |refs| && 0 <= i && (n > 0 ==> i <= n)
        invariant ArrayItems(data, old(pos), old(State()), id, n, []) == ArrayItems(data, pos, State(), id, n - i, items)
      {
        ArrayItemsStep(data, pos, State(), id, n - i, items);
        var item :- Read();
        items := items + [item];
        i := i + 1;
      }
      ArrayItemsStep(data, pos, State(), id, n - i, items);
      refs := refs[id := DList(items)];
      r := Ok(DList(items));
    }

    /** `_readMap`: pairs until 'Z', each key taking its value; slot `id` then takes the object. */
    method ReadMapBody(id: nat) returns (r: Result<DValue>)
      requires id < |refs|
      modifies this
      ensures data == old(data)
      ensures Yields(r, pos, State(), MapEntries(data, old(pos), old(State()), id, []))
      decreases Left(data, pos), 4
    {
      hide DecodeAt, ObjectAt, FieldValues, ArrayAt, ArrayItems, MapEntries, HashMapAt, MapAt, Put;
      var entries: seq<Entry> := [];
      while PeekAt(pos) != Some(0x5a)
        invariant data == old(data) && old(pos) <= pos && id < |refs|
        invariant MapEntries(data, old(pos), old(State()), id, []) == MapEntries(data, pos, State(), id, entries)
        decreases Left(data, pos)
      {
        MapEntriesStep(data, pos, State(), id, entries);
        var k :- Read();
        var v :- Read();
        entries := Put(entries, k, v);
      }
      MapEntriesStep(data, pos, State(), id, entries);
      pos := pos + 1;
      refs := refs[id := DMap(entries)];
      r := Ok(DMap(entries));
    }

    /** `readHashMap`: 'H', the object registered, then its pairs. */
    method ReadHashMap() returns (r: Result<DValue>)
      modifies this
      ensures data == old(data)
      ensures Yields(r, pos, State(), HashMapAt(data, old(pos), old(State())))
      decreases Left(data, pos), 2
    {
      hide DecodeAt, ObjectAt, FieldValues, ArrayAt, ArrayItems, MapEntries, HashMapAt, MapAt, TypeAt;
      MapStart(data, pos, State());
      var code := GetByte();
      if code != Some(0x48) {
        return Err(CodeError("readHashMap"));
      }
      AddRef(DMap([]));
      bare := bare + {|refs| - 1};
      r := ReadMapBody(|refs| - 1);
    }

    /** `readMap`: 'M', a type, the object registered, then its pairs. */
    method ReadMap() returns (r: Result<DValue>)
      modifies this
      ensures data == old(data)
      ensures Yields(r, pos, State(), MapAt(data, old(pos), old(State())))
      decreases Left(data, pos), 2
    {
      hide DecodeAt, ObjectAt, FieldValues, ArrayAt, ArrayItems, MapEntries, HashMapAt, MapAt, TypeAt;
      MapStart(data, pos, State());
      var code := GetByte();
      if code != Some(0x4d) {
        return Err(CodeError("readMap"));
      }
      var t :- ReadType();
      AddRef(DMap([]));
      bare := BareIf(bare, |refs| - 1, t);
      r := ReadMapBody(|refs| - 1);
    }
  }
}
