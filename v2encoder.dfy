/**
 * The Hessian 2.0 encoder. It keeps the Hessian 1.0 encoder's buffer,
 * `objects` list, `write` dispatch, `writeObject` and `writeArray`, and
 * replaces the writers they call: compact ints and longs, short strings
 * and byte arrays, compact references, type references, class
 * definitions and the list head. `typeRefs` lists the types written,
 * `classRefs` the classes defined, and `classFields` the field order
 * recorded for each class on its first instance.
 */
module V2Encoder {
  import opened Bytes
  import opened Utf8
  import opened JsValues
  import V1Encoder
  import Utils

  const MAX_BYTE_TRUNK_SIZE: nat := Utils.MAX_BYTE_TRUNK_SIZE

  // ---------------------------------------------------------------------
  // The bytes of each form
  // ---------------------------------------------------------------------

  /**
   * `writeInt`: -16..47 in one byte around 0x90, -2048..2047 in two bytes
   * around 0xc8, -262144..262143 in three bytes around 0xd4, anything else
   * as 'I' and four big-endian bytes (`>>` is a floor division and `&` a
   * non-negative remainder).
   */
  function IntForm(v: int): (r: seq<byte>)
  {
    if -0x10 <= v <= 0x2f then [v + 0x90]
    else if -0x800 <= v <= 0x7ff then [v / 0x100 + 0xc8, v % 0x100]
    else if -0x4_0000 <= v <= 0x3_ffff then [v / 0x1_0000 + 0xd4] + BE(v % 0x1_0000, 2)
    else [0x49] + BE(v, 4)
  }

  /**
   * `writeLong` on a number: -8..15 in one byte around 0xe0, -2048..2047 in
   * two bytes around 0xf8, -262144..262143 in three bytes around 0x3c, a
   * 32-bit value as 0x77 and four bytes, anything else as 'L' and eight.
   */
  function LongForm(v: int): (r: seq<byte>)
  {
    if -8 <= v <= 15 then [v + 0xe0]
    else if -0x800 <= v <= 0x7ff then [v / 0x100 + 0xf8, v % 0x100]
    else if -0x4_0000 <= v <= 0x3_ffff then [v / 0x1_0000 + 0x3c] + BE(v % 0x1_0000, 2)
    else if -0x8000_0000 <= v <= 0x7fff_ffff then [0x77] + BE(v, 4)
    else [0x4c] + BE(v, 8)
  }

  /** The chunk that ends a byte array: 0x20 + length for up to 15 bytes, else 'B' and a 16-bit length. */
  function FinalBytes(b: seq<byte>): (r: seq<byte>)
  {
    if |b| <= 15 then [|b| + 0x20] + b else [0x42] + BE(|b|, 2) + b
  }

  /**
   * `writeBytes`: 'b' chunks of 0x8000 bytes while more than that remain,
   * then the final chunk. An array of up to 15 bytes, written at once by
   * the early return, is its own final chunk.
   */
  function BytesForm(b: seq<byte>): (r: seq<byte>)
    decreases |b|
  {
    if |b| > MAX_BYTE_TRUNK_SIZE then
      [0x62] + BE(MAX_BYTE_TRUNK_SIZE, 2) + b[..MAX_BYTE_TRUNK_SIZE] + BytesForm(b[MAX_BYTE_TRUNK_SIZE..])
    else FinalBytes(b)
  }

  /** The chunk that ends a string: its length in one byte for up to 31 code units, else 'S' and a 16-bit length. */
  function FinalString(s: Text): (r: seq<byte>)
  {
    if |s| <= 31 then [|s|] + RawString(s) else [0x53] + BE(|s|, 2) + RawString(s)
  }

  /**
   * `writeString`: 's' chunks while more than 0x8000 code units remain,
   * each one unit short when it would end on a high surrogate, then the
   * final chunk; a string of up to 31 units is its own final chunk.
   */
  function StringForm(s: Text): (r: seq<byte>)
    decreases |s|
  {
    if |s| > Utils.MAX_CHAR_TRUNK_SIZE then
      var n := ChunkLen(s);
      [0x73] + BE(n, 2) + RawString(s[..n]) + StringForm(s[n..])
    else FinalString(s)
  }

  /** `writeRef`: 'J' and one byte below 0x100, 'K' and two below 0x10000, else 'R' and four. */
  function RefForm(id: nat): (r: seq<byte>)
  {
    if id < 0x100 then [0x4a, id]
    else if id < 0x1_0000 then [0x4b] + BE(id, 2)
    else [0x52] + BE(id, 4)
  }

  /** A new type: 't', its length in code units and its raw bytes. */
  function TypeBytes(t: Text): (r: seq<byte>)
  {
    [0x74] + BE(|t|, 2) + RawString(t)
  }

  /**
   * `writeType` with `types` written before: nothing for the empty type,
   * the index alone (an int) for a type written before, else the type in
   * full, recorded as the next type.
   */
  function TypeOut(t: Text, types: seq<Text>): (r: (seq<byte>, seq<Text>))
    ensures [] !in types ==> [] !in r.1
  {
    if t == [] then ([], types)
    else
      var ref := IndexOf(types, t);
      if ref >= 0 then (IntForm(ref), types)
      else (TypeBytes(t), types + [t])
  }

  /** The length of a variable list: 'n' and one byte below 0x100, else 'l' and four bytes. */
  function LengthForm(n: nat): (r: seq<byte>)
  {
    if n < 0x100 then [0x6e, n] else [0x6c] + BE(n, 4)
  }

  /**
   * `_writeListBegin`: a type written before gives 'v', its index and the
   * length, with no 'z' after the items; any other type gives 'V', the
   * type, the length, and a 'z' after the items. The flag says whether the
   * 'z' follows.
   */
  function ListHead(length: nat, t: Text, types: seq<Text>): (r: (seq<byte>, bool, seq<Text>))
    ensures [] !in types ==> [] !in r.2
  {
    var ref := IndexOf(types, t);
    if ref >= 0 then ([0x76] + IntForm(ref) + IntForm(length), false, types)
    else
      var ty := TypeOut(t, types);
      ([0x56] + ty.0 + LengthForm(length), true, ty.1)
  }

  // ---------------------------------------------------------------------
  // The tables the encoder keeps
  // ---------------------------------------------------------------------

  /** `objects`, `_typeRefs`, `_classRefs` and `_classRefFields`. */
  datatype Tables = Tables(objects: seq<nat>, types: seq<Text>, classes: seq<Text>, fields: map<Text, seq<Text>>)

  /** Every class defined has its field order recorded, and the empty type is never recorded. */
  predicate Valid(t: Tables)
  {
    (forall c :: c in t.classes ==> c in t.fields) && [] !in t.types
  }

  /** The tables only grow: each list keeps what it held and each class defined keeps its field order. */
  predicate Grows(a: Tables, b: Tables)
  {
    a.objects <= b.objects && a.types <= b.types && a.classes <= b.classes &&
    forall c :: c in a.classes ==> c in a.fields && c in b.fields && b.fields[c] == a.fields[c]
  }

  /** The bytes written and the tables after them. */
  datatype Out = Out(bytes: seq<byte>, tables: Tables)

  /** What `_writeObjectBegin` writes and returns. */
  datatype Begun = Begun(bytes: seq<byte>, ref: int, tables: Tables)

  /**
   * `_writeObjectBegin`: a class defined before gives 'o' and its index;
   * a new one is recorded with its field order and gives 'O', the length
   * of its name as an int and the raw name, and -1.
   */
  function ObjectBegin(cls: Text, keys: seq<Text>, t: Tables): (r: Begun)
    requires Valid(t)
    ensures Valid(r.tables) && cls in r.tables.classes && Grows(t, r.tables)
    ensures r.tables.objects == t.objects && r.tables.types == t.types
  {
    var ref := IndexOf(t.classes, cls);
    if ref >= 0 then Begun([0x6f] + IntForm(ref), ref, t)
    else
      Begun([0x4f] + IntForm(|cls|) + RawString(cls), -1,
        t.(classes := t.classes + [cls], fields := t.fields[cls := keys]))
  }

  /** The field names of a definition, one string each. */
  function NamesForm(keys: seq<Text>): (r: seq<byte>)
  {
    if keys == [] then [] else StringForm(keys[0]) + NamesForm(keys[1..])
  }

  // ---------------------------------------------------------------------
  // What `write` puts out for a whole value
  // ---------------------------------------------------------------------

  /** What `write(v)` appends when the tables are `t`. */
  function Encode(v: JsValue, t: Tables): (r: Out)
    requires Valid(t)
    ensures Valid(r.tables) && Grows(t, r.tables)
    decreases v, 1
  {
    match v
    case Null => Out(V1Encoder.NULL_BYTES, t)
    case Bool(b) => Out(V1Encoder.BoolBytes(b), t)
    case Number(n) => Out(if InSigned(n, 4) then IntForm(n) else LongForm(n), t)
    case Str(s) => Out(StringForm(s), t)
    case LongObj(n) => Out(LongForm(n), t)
    case Date(ms) => Out(V1Encoder.DateBytes(ms), t)
    case Buffer(b) => Out(BytesForm(b), t)
    case ClassedNull(id, cls) => if ArrayClass(cls) then EncodeNullList(id, t) else Out(V1Encoder.NULL_BYTES, t)
    case Array(id, items) => EncodeList(id, [], items, t)
    case ClassedArray(id, cls, items) => EncodeList(id, if cls == ARRAY_LIST then [] else cls, items, t)
    case Plain(_, _) => EncodeWriteObject(v, t)
    case Classed(_, _, _) => EncodeWriteObject(v, t)
  }

  /**
   * `writeObject(obj)`: 'N' for an object with a string `$class` and no
   * `$`, nothing recorded; else the map under its type.
   */
  function EncodeWriteObject(v: JsValue, t: Tables): (r: Out)
    requires Valid(t) && (v.Plain? || v.Classed?)
    ensures Valid(r.tables) && Grows(t, r.tables)
    decreases v, 0
  {
    if v.Plain? && NullShaped(v.fields) then Out(V1Encoder.NULL_BYTES, t)
    else EncodeMap(v.id, MapType(v), v.fields, t)
  }

  /**
   * A plain object is written as 'N', and left out of the tables, exactly
   * when it has a string `$class` and no `$`; any other plain object is a
   * reference ('J', 'K' or 'R') or a map ('M').
   */
  lemma PlainNullCheck(v: JsValue, t: Tables)
    requires Valid(t) && v.Plain?
    ensures NullShaped(v.fields) <==> Encode(v, t).bytes == V1Encoder.NULL_BYTES
    ensures NullShaped(v.fields) ==> Encode(v, t).tables == t
    ensures !NullShaped(v.fields) ==> |Encode(v, t).bytes| > 0 && Encode(v, t).bytes[0] in {0x4a, 0x4b, 0x52, 0x4d}
  {
    if !NullShaped(v.fields) {
      var r := Encode(v, t);
      assert r == EncodeWriteObject(v, t);
      assert MapType(v) == [];
      assert r == EncodeMap(v.id, [], v.fields, t);
    }
  }

  /** `writeArray` of an object whose `$` is null: a reference to it when seen before, else 'N', the object now seen. */
  function EncodeNullList(id: nat, t: Tables): (r: Out)
    requires Valid(t)
    ensures Valid(r.tables) && Grows(t, r.tables)
  {
    var ref := IndexOf(t.objects, id);
    if ref >= 0 then Out(RefForm(ref), t)
    else Out(V1Encoder.NULL_BYTES, t.(objects := t.objects + [id]))
  }

  /** `writeArray`: a reference to a list seen before, else its head, its items and, after a 'V' head, 'z'. */
  function EncodeList(id: nat, cls: Text, items: seq<JsValue>, t: Tables): (r: Out)
    requires Valid(t)
    ensures Valid(r.tables) && Grows(t, r.tables)
    decreases items, 2
  {
    var ref := IndexOf(t.objects, id);
    if ref >= 0 then Out(RefForm(ref), t)
    else
      var head := ListHead(|items|, cls, t.types);
      var body := EncodeItems(items, t.(objects := t.objects + [id], types := head.2));
      Out(head.0 + body.bytes + (if head.1 then [0x7a] else []), body.tables)
  }

  /** The items of a list, one after the other. */
  function EncodeItems(items: seq<JsValue>, t: Tables): (r: Out)
    requires Valid(t)
    ensures Valid(r.tables) && Grows(t, r.tables)
    decreases items, 0
  {
    if items == [] then Out([], t)
    else
      var head := Encode(items[0], t);
      var rest := EncodeItems(items[1..], head.tables);
      Out(head.bytes + rest.bytes, rest.tables)
  }

  /**
   * `writeObject` past its null check: a reference to a map seen before; else, for an empty
   * class, `_writeHashMap` ('M', the keys in sorted order with their
   * values, 'z'), and for any other class `_writeObject`.
   */
  function EncodeMap(id: nat, cls: Text, fields: seq<Field>, t: Tables): (r: Out)
    requires Valid(t)
    ensures Valid(r.tables) && Grows(t, r.tables)
    decreases fields, 3
  {
    var ref := IndexOf(t.objects, id);
    if ref >= 0 then Out(RefForm(ref), t)
    else
      var t' := t.(objects := t.objects + [id]);
      if cls == [] then
        var body := EncodeEntries(fields, SortKeys(Keys(fields)), t');
        Out([0x4d] + body.bytes + [0x7a], body.tables)
      else EncodeObject(cls, fields, t')
  }

  /**
   * `_writeObject`: on the first instance of a class its definition (the
   * class, the field count, the field names) and then the begin again,
   * which now finds the class; then one value per field of the order
   * recorded for the class (null where the object lacks the field).
   */
  function EncodeObject(cls: Text, fields: seq<Field>, t: Tables): (r: Out)
    requires Valid(t)
    ensures Valid(r.tables) && Grows(t, r.tables)
    decreases fields, 2
  {
    var keys := Keys(fields);
    var first := ObjectBegin(cls, keys, t);
    var begun :=
      if first.ref == -1 then
        var again := ObjectBegin(cls, keys, first.tables);
        Begun(first.bytes + IntForm(|keys|) + NamesForm(keys) + again.bytes, again.ref, again.tables)
      else first;
    var values := EncodeValues(fields, begun.tables.fields[cls], begun.tables);
    Out(begun.bytes + values.bytes, values.tables)
  }

  /** For each key, the key as a string and then its value. */
  function EncodeEntries(fields: seq<Field>, keys: seq<Text>, t: Tables): (r: Out)
    requires Valid(t)
    ensures Valid(r.tables) && Grows(t, r.tables)
    decreases fields, 1, |keys|
  {
    if keys == [] then Out([], t)
    else
      var key := StringForm(keys[0]);
      var value := EncodeValue(fields, keys[0], t);
      var rest := EncodeEntries(fields, keys[1..], value.tables);
      Out(key + value.bytes + rest.bytes, rest.tables)
  }

  /** For each name, the value of that field alone. */
  function EncodeValues(fields: seq<Field>, names: seq<Text>, t: Tables): (r: Out)
    requires Valid(t)
    ensures Valid(r.tables) && Grows(t, r.tables)
    decreases fields, 1, |names|
  {
    if names == [] then Out([], t)
    else
      var value := EncodeValue(fields, names[0], t);
      var rest := EncodeValues(fields, names[1..], value.tables);
      Out(value.bytes + rest.bytes, rest.tables)
  }

  /** `obj[key]`: the field's value, or null where the object has no such field. */
  function EncodeValue(fields: seq<Field>, key: Text, t: Tables): (r: Out)
    requires Valid(t)
    ensures Valid(r.tables) && Grows(t, r.tables)
    decreases fields, 0
  {
    var i := FieldIndex(fields, key);
    if i < 0 then Out(V1Encoder.NULL_BYTES, t) else Encode(fields[i].value, t)
  }

  // ---------------------------------------------------------------------
  // Steps of the loops
  // ---------------------------------------------------------------------

  /** One step of the bytes form: a full chunk, then the form of the rest. */
  lemma BytesFormStep(b: seq<byte>, o: nat)
    requires o <= |b| && |b| - o > MAX_BYTE_TRUNK_SIZE
    ensures BytesForm(b[o..]) == [0x62] + BE(MAX_BYTE_TRUNK_SIZE, 2) + b[o..o + MAX_BYTE_TRUNK_SIZE] + BytesForm(b[o + MAX_BYTE_TRUNK_SIZE..])
  {
    var rest := b[o..];
    assert rest[..MAX_BYTE_TRUNK_SIZE] == b[o..o + MAX_BYTE_TRUNK_SIZE];
    assert rest[MAX_BYTE_TRUNK_SIZE..] == b[o + MAX_BYTE_TRUNK_SIZE..];
  }

  /** One step of the string form: a full chunk, then the form of the rest. */
  lemma StringFormStep(s: Text, o: nat, n: nat)
    requires o <= |s| && |s| - o > Utils.MAX_CHAR_TRUNK_SIZE && n == ChunkLen(s[o..])
    ensures StringForm(s[o..]) == [0x73] + BE(n, 2) + RawString(s[o..o + n]) + StringForm(s[o + n..])
  {
    var rest := s[o..];
    assert rest[..n] == s[o..o + n];
    assert rest[n..] == s[o + n..];
  }

  /** Up to 0x8000 bytes are a final chunk alone: the short form up to 15, else 'B'. */
  lemma BytesFormFinal(b: seq<byte>)
    requires |b| <= MAX_BYTE_TRUNK_SIZE
    ensures |b| <= 15 ==> BytesForm(b) == [|b| + 0x20] + b
    ensures |b| > 15 ==> BytesForm(b) == [0x42] + BE(|b|, 2) + b
  {
  }

  /** Up to 0x8000 code units are a final chunk alone: the short form up to 31, else 'S'. */
  lemma StringFormFinal(s: Text)
    requires |s| <= Utils.MAX_CHAR_TRUNK_SIZE
    ensures |s| <= 31 ==> StringForm(s) == [|s|] + RawString(s)
    ensures |s| > 31 ==> StringForm(s) == [0x53] + BE(|s|, 2) + RawString(s)
  {
  }

  /** The code a bytes form starts with: 'b' before a full chunk, else the code of the final chunk. */
  lemma BytesFormHead(b: seq<byte>)
    ensures |BytesForm(b)| > 0
    ensures BytesForm(b)[0] == if |b| > MAX_BYTE_TRUNK_SIZE then 0x62 else if |b| <= 15 then |b| + 0x20 else 0x42
  {
  }

  /** The code a string form starts with: 's' before a full chunk, else the code of the final chunk. */
  lemma StringFormHead(s: Text)
    ensures |StringForm(s)| > 0
    ensures StringForm(s)[0] == if |s| > Utils.MAX_CHAR_TRUNK_SIZE then 0x73 else if |s| <= 31 then |s| else 0x53
  {
  }

  // ---------------------------------------------------------------------
  // Types, classes and list heads written twice
  // ---------------------------------------------------------------------

  /** An element appended to a list without it is found at the end. */
  lemma IndexOfAppended<T>(list: seq<T>, x: T)
    requires x !in list
    ensures IndexOf(list + [x], x) == |list|
  {
    var r := IndexOf(list + [x], x);
    assert (list + [x])[r] == x;
  }

  /**
   * A type written in full becomes the next type, and writing it again
   * gives its index as an int; the empty type writes nothing.
   */
  lemma TypeOutTwice(t: Text, types: seq<Text>)
    requires t !in types
    ensures t == [] ==> TypeOut(t, types) == ([], types)
    ensures t != [] ==> TypeOut(t, types) == (TypeBytes(t), types + [t])
    ensures t != [] ==> TypeOut(t, types + [t]) == (IntForm(|types|), types + [t])
  {
    if t != [] {
      IndexOfAppended(types, t);
    }
  }

  /**
   * An untyped list gets the 'V' head with the length alone and a 'z'
   * after its items; a list whose type was written before gets the 'v'
   * head, the type's index and the length as ints, and no 'z'.
   */
  lemma ListHeadCases(length: nat, t: Text, types: seq<Text>)
    ensures [] !in types ==> ListHead(length, [], types) == ([0x56] + LengthForm(length), true, types)
    ensures t in types ==> var i := IndexOf(types, t);
      0 <= i && types[i] == t && ListHead(length, t, types) == ([0x76] + IntForm(i) + IntForm(length), false, types)
    ensures t !in types && t != [] ==> ListHead(length, t, types) == ([0x56] + TypeBytes(t) + LengthForm(length), true, types + [t])
  {
    assert [0x56] + [] == [0x56];
  }

  /**
   * The first instance of a class defines it: the begin gives -1 and
   * records the class as the next class, with the instance's keys as its
   * field order; the begin that follows finds it there and gives 'o' and
   * its index. A class defined before is found the same way, whatever
   * the keys of the instance.
   */
  lemma ObjectBeginTwice(cls: Text, keys: seq<Text>, keys': seq<Text>, t: Tables)
    requires Valid(t)
    ensures cls !in t.classes ==>
      var first := ObjectBegin(cls, keys, t);
      first.ref == -1 && first.tables.classes == t.classes + [cls] && first.tables.fields[cls] == keys &&
      ObjectBegin(cls, keys', first.tables) == Begun([0x6f] + IntForm(|t.classes|), |t.classes|, first.tables)
    ensures cls in t.classes ==>
      var i := IndexOf(t.classes, cls);
      0 <= i && t.classes[i] == cls && ObjectBegin(cls, keys', t) == Begun([0x6f] + IntForm(i), i, t)
  {
    if cls !in t.classes {
      IndexOfAppended(t.classes, cls);
    }
  }

  // ---------------------------------------------------------------------
  // The encoder
  // ---------------------------------------------------------------------

  class Encoder {
    var buf: seq<byte>
    var objects: seq<nat>
    var typeRefs: seq<Text>
    var classRefs: seq<Text>
    var classRefFields: map<Text, seq<Text>>

    /** The tables as they stand. */
    function Seen(): (r: Tables)
      reads this
      ensures r.objects == objects && r.types == typeRefs && r.classes == classRefs && r.fields == classRefFields
    {
      Tables(objects, typeRefs, classRefs, classRefFields)
    }

    constructor ()
      ensures buf == [] && Seen() == Tables([], [], [], map[]) && Valid(Seen())
    {
      buf := [];
      objects := [];
      typeRefs := [];
      classRefs := [];
      classRefFields := map[];
    }

    /** `reset`: an empty buffer, no objects seen, no types and no classes. */
    method Reset()
      modifies this
      ensures buf == [] && Seen() == Tables([], [], [], map[]) && Valid(Seen())
    {
      buf := [];
      objects := [];
      typeRefs := [];
      classRefs := [];
      classRefFields := map[];
    }

    method WriteNull()
      modifies this
      ensures buf == old(buf) + V1Encoder.NULL_BYTES && Seen() == old(Seen())
    {
      buf := buf + [0x4e];
    }

    method WriteBool(b: bool)
      modifies this
      ensures buf == old(buf) + V1Encoder.BoolBytes(b) && Seen() == old(Seen())
    {
      buf := buf + (if b then [0x54] else [0x46]);
    }

    /** `writeDate`, kept from the Hessian 1.0 encoder: 'd' and eight bytes. */
    method WriteDate(ms: int)
      modifies this
      ensures buf == old(buf) + V1Encoder.DateBytes(ms) && Seen() == old(Seen())
    {
      buf := buf + [0x64] + BE(ms, 8);
    }

    /** `writeInt`: a value outside the 32-bit range is refused with a TypeError and nothing written. */
    method WriteInt(v: int) returns (ok: bool)
      modifies this
      ensures ok <==> InSigned(v, 4)
      ensures buf == old(buf) + (if ok then IntForm(v) else []) && Seen() == old(Seen())
    {
      if !(-0x8000_0000 <= v < 0x8000_0000) {
        return false;
      }
      PutInt(v);
      ok := true;
    }

    /** The form of `writeInt`, for the indices and lengths the encoder writes itself. */
    method PutInt(v: int)
      modifies this
      ensures buf == old(buf) + IntForm(v) && Seen() == old(Seen())
    {
      if -0x10 <= v <= 0x2f {
        buf := buf + [v + 0x90];
      } else if -0x800 <= v <= 0x7ff {
        buf := buf + [v / 0x100 + 0xc8, v % 0x100];
      } else if -0x4_0000 <= v <= 0x3_ffff {
        buf := buf + [v / 0x1_0000 + 0xd4] + BE(v % 0x1_0000, 2);
      } else {
        buf := buf + [0x49] + BE(v, 4);
      }
    }

    /** `writeLong` on a number. */
    method WriteLong(v: int)
      modifies this
      ensures buf == old(buf) + LongForm(v) && Seen() == old(Seen())
    {
      if -8 <= v <= 15 {
        buf := buf + [v + 0xe0];
      } else if -0x800 <= v <= 0x7ff {
        buf := buf + [v / 0x100 + 0xf8, v % 0x100];
      } else if -0x4_0000 <= v <= 0x3_ffff {
        buf := buf + [v / 0x1_0000 + 0x3c] + BE(v % 0x1_0000, 2);
      } else if -0x8000_0000 <= v <= 0x7fff_ffff {
        buf := buf + [0x77] + BE(v, 4);
      } else {
        buf := buf + [0x4c] + BE(v, 8);
      }
    }

    /**
     * `writeLong` on a Long: one whose high word is 0 or -1 goes through
     * the number path, any other one is 'L' and eight bytes; both give the
     * number form of its value.
     */
    method WriteLongObj(v: int)
      modifies this
      ensures buf == old(buf) + LongForm(v) && Seen() == old(Seen())
    {
      if -0x1_0000_0000 <= v < 0x1_0000_0000 {
        WriteLong(v);
      } else {
        buf := buf + [0x4c] + BE(v, 8);
      }
    }

    /** `writeBytes`: up to 15 bytes at once; else full 'b' chunks while more than 0x8000 remain, then the final chunk. */
    method WriteBytes(b: seq<byte>)
      modifies this
      ensures buf == old(buf) + BytesForm(b) && Seen() == old(Seen())
    {
      hide BytesForm, FinalBytes, BE;
      if |b| <= 15 {
        BytesFormFinal(b);
        buf := buf + [|b| + 0x20] + b;
        return;
      }
      var offset := 0;
      while |b| - offset > MAX_BYTE_TRUNK_SIZE
        invariant offset <= |b|
        invariant old(buf) + BytesForm(b) == buf + BytesForm(b[offset..])
        invariant Seen() == old(Seen())
        decreases |b| - offset
      {
        BytesFormStep(b, offset);
        V1Encoder.Assoc5(buf, [0x62], BE(MAX_BYTE_TRUNK_SIZE, 2), b[offset..offset + MAX_BYTE_TRUNK_SIZE], BytesForm(b[offset + MAX_BYTE_TRUNK_SIZE..]));
        buf := buf + [0x62] + BE(MAX_BYTE_TRUNK_SIZE, 2) + b[offset..offset + MAX_BYTE_TRUNK_SIZE];
        offset := offset + MAX_BYTE_TRUNK_SIZE;
      }
      var left := |b| - offset;
      BytesFormFinal(b[offset..]);
      if left <= 15 {
        V1Encoder.Assoc(buf, [left + 0x20], b[offset..]);
        buf := buf + [left + 0x20] + b[offset..];
      } else {
        V1Encoder.Assoc4(buf, [0x42], BE(left, 2), b[offset..]);
        buf := buf + [0x42] + BE(left, 2) + b[offset..];
      }
    }

    /** `writeString`: up to 31 code units at once; else 's' chunks that never end on a high surrogate, then the final chunk. */
    method WriteString(s: Text)
      modifies this
      ensures buf == old(buf) + StringForm(s) && Seen() == old(Seen())
    {
      hide StringForm, FinalString, BE, RawString, ChunkLen;
      if |s| <= 31 {
        StringFormFinal(s);
        buf := buf + [|s|] + RawString(s);
        return;
      }
      var length: nat := |s|;
      var strOffset: nat := 0;
      while length > Utils.MAX_CHAR_TRUNK_SIZE
        invariant strOffset + length == |s|
        invariant old(buf) + StringForm(s) == buf + StringForm(s[strOffset..])
        invariant Seen() == old(Seen())
        decreases length
      {
        var sublen := Utils.MAX_CHAR_TRUNK_SIZE;
        var tail := s[strOffset + sublen - 1];
        if 0xd800 <= tail <= 0xdbff {
          sublen := sublen - 1;
        }
        assert sublen == ChunkLen(s[strOffset..]) by {
          assert s[strOffset..][Utils.MAX_CHAR_TRUNK_SIZE - 1] == tail;
        }
        StringFormStep(s, strOffset, sublen);
        V1Encoder.Assoc5(buf, [0x73], BE(sublen, 2), RawString(s[strOffset..strOffset + sublen]), StringForm(s[strOffset + sublen..]));
        buf := buf + [0x73] + BE(sublen, 2) + RawString(s[strOffset..strOffset + sublen]);
        length := length - sublen;
        strOffset := strOffset + sublen;
      }
      StringFormFinal(s[strOffset..]);
      if length <= 31 {
        V1Encoder.Assoc(buf, [length], RawString(s[strOffset..]));
        buf := buf + [length] + RawString(s[strOffset..]);
      } else {
        V1Encoder.Assoc4(buf, [0x53], BE(length, 2), RawString(s[strOffset..]));
        buf := buf + [0x53] + BE(length, 2) + RawString(s[strOffset..]);
      }
    }

    /** `writeType`: nothing for the empty type, the index of a type written before, else the new type, recorded. */
    method WriteType(t: Text)
      modifies this
      ensures var out := TypeOut(t, old(typeRefs));
        buf == old(buf) + out.0 && Seen() == old(Seen()).(types := out.1)
    {
      if t == [] {
        return;
      }
      var ref := IndexOf(typeRefs, t);
      if ref >= 0 {
        PutInt(ref);
      } else {
        typeRefs := typeRefs + [t];
        buf := buf + [0x74] + BE(|t|, 2) + RawString(t);
      }
    }

    method WriteRef(id: nat)
      modifies this
      ensures buf == old(buf) + RefForm(id) && Seen() == old(Seen())
    {
      if id < 0x100 {
        buf := buf + [0x4a] + [id];
      } else if id < 0x1_0000 {
        buf := buf + [0x4b] + BE(id, 2);
      } else {
        buf := buf + [0x52] + BE(id, 4);
      }
    }

    /**
     * `_checkRef`: an object seen before is written as a reference to its
     * place in `objects`; a new one is appended to `objects` and nothing is
     * written.
     */
    method CheckRef(id: nat) returns (isRef: bool)
      modifies this
      ensures isRef <==> id in old(objects)
      ensures isRef ==> buf == old(buf) + RefForm(IndexOf(old(objects), id)) && Seen() == old(Seen())
      ensures !isRef ==> buf == old(buf) && Seen() == old(Seen()).(objects := old(objects) + [id])
    {
      var refIndex := IndexOf(objects, id);
      if refIndex >= 0 {
        WriteRef(refIndex);
        return true;
      }
      objects := objects + [id];
      return false;
    }

    /** `_writeObjectBegin`: 'o' and the index of a class defined before; else the class recorded with its fields, 'O', its name, and -1. */
    method WriteObjectBegin(cls: Text, keys: seq<Text>) returns (ref: int)
      requires Valid(Seen())
      modifies this
      ensures var b := ObjectBegin(cls, keys, old(Seen()));
        buf == old(buf) + b.bytes && ref == b.ref && Seen() == b.tables
    {
      hide IntForm, RawString;
      ref := IndexOf(classRefs, cls);
      if ref >= 0 {
        buf := buf + [0x6f];
        PutInt(ref);
        return;
      }
      classRefs := classRefs + [cls];
      classRefFields := classRefFields[cls := keys];
      buf := buf + [0x4f];
      PutInt(|cls|);
      buf := buf + RawString(cls);
      ref := -1;
    }

    /** `_writeListBegin`: 'v', the type's index and the length for a type written before; else 'V', the type and the length. */
    method WriteListBegin(length: nat, t: Text) returns (hasEnd: bool)
      modifies this
      ensures var h := ListHead(length, t, old(typeRefs));
        buf == old(buf) + h.0 && hasEnd == h.1 && Seen() == old(Seen()).(types := h.2)
    {
      hide IntForm, TypeOut, LengthForm;
      var ref := IndexOf(typeRefs, t);
      if ref >= 0 {
        buf := buf + [0x76];
        PutInt(ref);
        PutInt(length);
        return false;
      }
      buf := buf + [0x56];
      WriteType(t);
      WriteLength(length);
      return true;
    }

    /** The length of a 'V' list: 'n' and one byte, or 'l' and four. */
    method WriteLength(length: nat)
      modifies this
      ensures buf == old(buf) + LengthForm(length) && Seen() == old(Seen())
    {
      if length < 0x100 {
        buf := buf + [0x6e] + [length];
      } else {
        buf := buf + [0x6c] + BE(length, 4);
      }
    }

    /** `write`: dispatches on the kind of value, to the Hessian 2.0 writers. */
    method Write(v: JsValue)
      requires Valid(Seen())
      modifies this
      ensures buf == old(buf) + Encode(v, old(Seen())).bytes
      ensures Seen() == Encode(v, old(Seen())).tables
      decreases v, 1
    {
      hide EncodeList, EncodeMap, IntForm, LongForm, StringForm, BytesForm;
      match v
      case Null => WriteNull();
      case Bool(b) => WriteBool(b);
      case Number(n) =>
        if !(-0x8000_0000 <= n < 0x8000_0000) {
          WriteLong(n);
        } else {
          var _ := WriteInt(n);
        }
      case Str(s) => WriteString(s);
      case LongObj(n) => WriteLongObj(n);
      case Date(ms) => WriteDate(ms);
      case Buffer(b) => WriteBytes(b);
      case ClassedNull(id, cls) =>
        if ArrayClass(cls) {
          WriteNullArray(id);
        } else {
          WriteNull();
        }
      case Array(id, items) => WriteArray(id, [], items);
      case ClassedArray(id, cls, items) => WriteArray(id, if cls == ARRAY_LIST then [] else cls, items);
      case Plain(_, _) => WriteObject(v);
      case Classed(_, _, _) => WriteObject(v);
    }

    /** `writeArray` for an object of identity `id` whose `$` is null: registered like any object, then 'N'. */
    method WriteNullArray(id: nat)
      requires Valid(Seen())
      modifies this
      ensures buf == old(buf) + EncodeNullList(id, old(Seen())).bytes
      ensures Seen() == EncodeNullList(id, old(Seen())).tables
    {
      var isRef := CheckRef(id);
      if isRef {
        return;
      }
      WriteNull();
    }

    /** `writeArray` for a list of identity `id` and class `cls` ("" for the default list class). */
    method WriteArray(id: nat, cls: Text, items: seq<JsValue>)
      requires Valid(Seen())
      modifies this
      ensures buf == old(buf) + EncodeList(id, cls, items, old(Seen())).bytes
      ensures Seen() == EncodeList(id, cls, items, old(Seen())).tables
      decreases items, 2
    {
      hide Encode, ListHead;
      var isRef := CheckRef(id);
      if isRef {
        return;
      }
      ghost var start := buf;
      ghost var head := ListHead(|items|, cls, typeRefs);
      var hasEnd := WriteListBegin(|items|, cls);
      ghost var body := EncodeItems(items, Seen());
      var i := 0;
      while i < |items|
        invariant i <= |items| && Valid(Seen())
        invariant start + head.0 + body.bytes == buf + EncodeItems(items[i..], Seen()).bytes
        invariant body.tables == EncodeItems(items[i..], Seen()).tables
        decreases |items| - i
      {
        ghost var before := buf;
        ghost var step := EncodeItems(items[i..], Seen());
        ghost var first := Encode(items[i], Seen());
        assert items[i..][1..] == items[i + 1..];
        assert step.bytes == first.bytes + EncodeItems(items[i + 1..], first.tables).bytes;
        Write(items[i]);
        V1Encoder.Assoc(before, first.bytes, EncodeItems(items[i + 1..], first.tables).bytes);
        i := i + 1;
      }
      assert items[i..] == [];
      if hasEnd {
        buf := buf + [0x7a];
      }
      V1Encoder.Assoc4(start, head.0, body.bytes, if hasEnd then [0x7a] else []);
    }

    /**
     * `writeObject(v)`: null for a string `$class` without `$`; else the
     * map under its type.
     */
    method WriteObject(v: JsValue)
      requires Valid(Seen()) && (v.Plain? || v.Classed?)
      modifies this
      ensures buf == old(buf) + EncodeWriteObject(v, old(Seen())).bytes
      ensures Seen() == EncodeWriteObject(v, old(Seen())).tables
      decreases v, 0
    {
      hide EncodeMap;
      if v.Plain? && NullShaped(v.fields) {
        WriteNull();
      } else {
        WriteMap(v.id, MapType(v), v.fields);
      }
    }

    /**
     * `writeObject` past its null check, for a map of identity `id` written
     * under type `cls`: a reference, or `_writeHashMap` when the type is
     * empty and `_writeObject` otherwise.
     */
    method WriteMap(id: nat, cls: Text, fields: seq<Field>)
      requires Valid(Seen())
      modifies this
      ensures buf == old(buf) + EncodeMap(id, cls, fields, old(Seen())).bytes
      ensures Seen() == EncodeMap(id, cls, fields, old(Seen())).tables
      decreases fields, 3
    {
      hide EncodeEntries, EncodeObject;
      var isRef := CheckRef(id);
      if isRef {
        return;
      }
      if cls == [] {
        WriteHashMap(fields);
      } else {
        WriteClassed(cls, fields);
      }
    }

    /** `_writeHashMap`: 'M', the keys in sorted order with their values, 'z'; no type. */
    method WriteHashMap(fields: seq<Field>)
      requires Valid(Seen())
      modifies this
      ensures var body := EncodeEntries(fields, SortKeys(Keys(fields)), old(Seen()));
        buf == old(buf) + [0x4d] + body.bytes + [0x7a] && Seen() == body.tables
      decreases fields, 2
    {
      hide EncodeEntries;
      buf := buf + [0x4d];
      var keys := SortKeys(Keys(fields));
      WriteEntries(fields, keys);
      buf := buf + [0x7a];
      V1Encoder.Assoc(old(buf), [0x4d], EncodeEntries(fields, keys, old(Seen())).bytes);
    }

    /**
     * `_writeObject`: the begin; on a class's first instance its field
     * count, its field names and the begin again; then the values in the
     * field order recorded for the class.
     */
    method WriteClassed(cls: Text, fields: seq<Field>)
      requires Valid(Seen())
      modifies this
      ensures buf == old(buf) + EncodeObject(cls, fields, old(Seen())).bytes
      ensures Seen() == EncodeObject(cls, fields, old(Seen())).tables
      decreases fields, 2
    {
      hide EncodeValues, ObjectBegin, NamesForm, IntForm;
      var keys := Keys(fields);
      ghost var first := ObjectBegin(cls, keys, Seen());
      var ref := WriteObjectBegin(cls, keys);
      ghost var begun := first;
      if ref == -1 {
        ghost var again := ObjectBegin(cls, keys, Seen());
        PutInt(|keys|);
        WriteNames(keys);
        var _ := WriteObjectBegin(cls, keys);
        begun := Begun(first.bytes + IntForm(|keys|) + NamesForm(keys) + again.bytes, again.ref, again.tables);
        V1Encoder.Assoc4(old(buf), first.bytes, IntForm(|keys|), NamesForm(keys));
        V1Encoder.Assoc(old(buf), first.bytes + IntForm(|keys|) + NamesForm(keys), again.bytes);
      }
      assert buf == old(buf) + begun.bytes && Seen() == begun.tables;
      var names := classRefFields[cls];
      WriteValues(fields, names);
      V1Encoder.Assoc(old(buf), begun.bytes, EncodeValues(fields, names, begun.tables).bytes);
    }

    /** The field names of a definition, one `writeString` each. */
    method WriteNames(keys: seq<Text>)
      modifies this
      ensures buf == old(buf) + NamesForm(keys) && Seen() == old(Seen())
    {
      hide StringForm;
      var i := 0;
      while i < |keys|
        invariant i <= |keys| && Seen() == old(Seen())
        invariant old(buf) + NamesForm(keys) == buf + NamesForm(keys[i..])
      {
        assert keys[i..][1..] == keys[i + 1..];
        V1Encoder.Assoc(buf, StringForm(keys[i]), NamesForm(keys[i + 1..]));
        WriteString(keys[i]);
        i := i + 1;
      }
      assert keys[i..] == [];
    }

    /** The loop of `_writeHashMap`: each key as a string, then its value. */
    method WriteEntries(fields: seq<Field>, keys: seq<Text>)
      requires Valid(Seen())
      modifies this
      ensures buf == old(buf) + EncodeEntries(fields, keys, old(Seen())).bytes
      ensures Seen() == EncodeEntries(fields, keys, old(Seen())).tables
      decreases fields, 1
    {
      hide EncodeValue, StringForm;
      ghost var body := EncodeEntries(fields, keys, Seen());
      var i := 0;
      while i < |keys|
        invariant i <= |keys| && Valid(Seen())
        invariant old(buf) + body.bytes == buf + EncodeEntries(fields, keys[i..], Seen()).bytes
        invariant body.tables == EncodeEntries(fields, keys[i..], Seen()).tables
        decreases |keys| - i
      {
        ghost var before := buf;
        ghost var value := EncodeValue(fields, keys[i], Seen());
        ghost var rest := EncodeEntries(fields, keys[i + 1..], value.tables);
        assert keys[i..][1..] == keys[i + 1..];
        assert EncodeEntries(fields, keys[i..], Seen()).bytes == StringForm(keys[i]) + value.bytes + rest.bytes;
        WriteString(keys[i]);
        WriteValue(fields, keys[i]);
        V1Encoder.Assoc4(before, StringForm(keys[i]), value.bytes, rest.bytes);
        i := i + 1;
      }
      assert keys[i..] == [];
    }

    /** The loop of `_writeObject`: the value of each field, in the order given. */
    method WriteValues(fields: seq<Field>, names: seq<Text>)
      requires Valid(Seen())
      modifies this
      ensures buf == old(buf) + EncodeValues(fields, names, old(Seen())).bytes
      ensures Seen() == EncodeValues(fields, names, old(Seen())).tables
      decreases fields, 1
    {
      hide EncodeValue;
      ghost var body := EncodeValues(fields, names, Seen());
      var i := 0;
      while i < |names|
        invariant i <= |names| && Valid(Seen())
        invariant old(buf) + body.bytes == buf + EncodeValues(fields, names[i..], Seen()).bytes
        invariant body.tables == EncodeValues(fields, names[i..], Seen()).tables
        decreases |names| - i
      {
        ghost var before := buf;
        ghost var value := EncodeValue(fields, names[i], Seen());
        ghost var rest := EncodeValues(fields, names[i + 1..], value.tables);
        assert names[i..][1..] == names[i + 1..];
        WriteValue(fields, names[i]);
        V1Encoder.Assoc(before, value.bytes, rest.bytes);
        i := i + 1;
      }
      assert names[i..] == [];
    }

    /** `write(obj[key])`: the field's value, or null where there is none. */
    method WriteValue(fields: seq<Field>, key: Text)
      requires Valid(Seen())
      modifies this
      ensures buf == old(buf) + EncodeValue(fields, key, old(Seen())).bytes
      ensures Seen() == EncodeValue(fields, key, old(Seen())).tables
      decreases fields, 0
    {
      hide Encode;
      var at := FieldIndex(fields, key);
      if at < 0 {
        WriteNull();
      } else {
        Write(fields[at].value);
      }
    }
  }
}
