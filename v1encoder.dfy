/**
 * The Hessian 1.0 encoder: every `write*` appends to the output buffer;
 * `objects` lists the identities of the maps and lists written so far, so
 * that a second occurrence is written as a reference.
 */
module V1Encoder {
  import opened Bytes
  import opened Utf8
  import opened JsValues
  import Utils

  const MAX_BYTE_TRUNK_SIZE: nat := Utils.MAX_BYTE_TRUNK_SIZE

  // ---------------------------------------------------------------------
  // The bytes of each form
  // ---------------------------------------------------------------------

  /** 'N'. */
  const NULL_BYTES: seq<byte> := [0x4e]

  /** 'T' or 'F'. */
  function BoolBytes(b: bool): (r: seq<byte>)
  {
    if b then [0x54] else [0x46]
  }

  /** 'I' and the value as four big-endian bytes. */
  function IntBytes(v: int): (r: seq<byte>)
  {
    [0x49] + BE(v, 4)
  }

  /** 'L' and the value as eight big-endian bytes. */
  function LongBytes(v: int): (r: seq<byte>)
  {
    [0x4c] + BE(v, 8)
  }

  /** 'd' and the milliseconds as eight big-endian bytes. */
  function DateBytes(ms: int): (r: seq<byte>)
  {
    [0x64] + BE(ms, 8)
  }

  /** 'b' chunks of 0x8000 bytes while more than that remain, then 'B' with the rest. */
  function BytesForm(b: seq<byte>): (r: seq<byte>)
    decreases |b|
  {
    if |b| > MAX_BYTE_TRUNK_SIZE then
      [0x62] + BE(MAX_BYTE_TRUNK_SIZE, 2) + b[..MAX_BYTE_TRUNK_SIZE] + BytesForm(b[MAX_BYTE_TRUNK_SIZE..])
    else [0x42] + BE(|b|, 2) + b
  }

  /** 's' chunks while more than 0x8000 code units remain, then 'S' with the rest. */
  function StringForm(s: Text): (r: seq<byte>)
    decreases |s|
  {
    if |s| > Utils.MAX_CHAR_TRUNK_SIZE then
      var n := ChunkLen(s);
      [0x73] + BE(n, 2) + RawString(s[..n]) + StringForm(s[n..])
    else [0x53] + BE(|s|, 2) + RawString(s)
  }

  /** 't', the length in code units and the raw type name; the empty type too. */
  function TypeBytes(t: Text): (r: seq<byte>)
  {
    [0x74] + BE(|t|, 2) + RawString(t)
  }

  /** 'R' and the reference as four big-endian bytes. */
  function RefBytes(id: int): (r: seq<byte>)
  {
    [0x52] + BE(id, 4)
  }

  /** The list head: 'V', the type when there is one, 'l' and the length. */
  function ListBegin(length: nat, t: Text): (r: seq<byte>)
  {
    [0x56] + (if t != [] then TypeBytes(t) else []) + [0x6c] + BE(length, 4)
  }

  // ---------------------------------------------------------------------
  // What `write` puts out for a whole value
  // ---------------------------------------------------------------------

  /** Bytes written and the object list after them. */
  datatype Out = Out(bytes: seq<byte>, objects: seq<nat>)

  /** What `write(v)` appends when `objects` holds the objects seen so far. */
  function Encode(v: JsValue, objects: seq<nat>): (r: Out)
    decreases v, 1
  {
    match v
    case Null => Out(NULL_BYTES, objects)
    case Bool(b) => Out(BoolBytes(b), objects)
    case Number(n) => Out(if InSigned(n, 4) then IntBytes(n) else LongBytes(n), objects)
    case Str(s) => Out(StringForm(s), objects)
    case LongObj(n) => Out(LongBytes(n), objects)
    case Date(ms) => Out(DateBytes(ms), objects)
    case Buffer(b) => Out(BytesForm(b), objects)
    case ClassedNull(id, cls) => if ArrayClass(cls) then EncodeNullList(id, objects) else Out(NULL_BYTES, objects)
    case Array(id, items) => EncodeList(id, [], items, objects)
    case ClassedArray(id, cls, items) => EncodeList(id, if cls == ARRAY_LIST then [] else cls, items, objects)
    case Plain(_, _) => EncodeWriteObject(v, objects)
    case Classed(_, _, _) => EncodeWriteObject(v, objects)
  }

  /**
   * `writeObject(obj)`: 'N' for an object with a string `$class` and no
   * `$`, nothing recorded; else the map under its type.
   */
  function EncodeWriteObject(v: JsValue, objects: seq<nat>): (r: Out)
    requires v.Plain? || v.Classed?
    decreases v, 0
  {
    if v.Plain? && NullShaped(v.fields) then Out(NULL_BYTES, objects)
    else EncodeMap(v.id, MapType(v), v.fields, objects)
  }

  /**
   * A plain object is written as 'N', and left out of the object list,
   * exactly when it has a string `$class` and no `$`; any other plain
   * object is a reference ('R') or a map ('M').
   */
  lemma PlainNullCheck(v: JsValue, objects: seq<nat>)
    requires v.Plain?
    ensures NullShaped(v.fields) <==> Encode(v, objects).bytes == NULL_BYTES
    ensures NullShaped(v.fields) ==> Encode(v, objects).objects == objects
    ensures !NullShaped(v.fields) ==> |Encode(v, objects).bytes| > 0 && Encode(v, objects).bytes[0] in {0x52, 0x4d}
  {
    if !NullShaped(v.fields) {
      var r := Encode(v, objects);
      assert r == EncodeWriteObject(v, objects);
      assert MapType(v) == [];
      assert r == EncodeMap(v.id, [], v.fields, objects);
    }
  }

  /** `writeArray` of an object whose `$` is null: a reference to it when seen before, else 'N', the object now seen. */
  function EncodeNullList(id: nat, objects: seq<nat>): (r: Out)
  {
    var ref := IndexOf(objects, id);
    if ref >= 0 then Out(RefBytes(ref), objects)
    else Out(NULL_BYTES, objects + [id])
  }

  /** `writeArray`: a reference to a list seen before, else its head, its items and 'z'. */
  function EncodeList(id: nat, cls: Text, items: seq<JsValue>, objects: seq<nat>): (r: Out)
    decreases items, 2
  {
    var ref := IndexOf(objects, id);
    if ref >= 0 then Out(RefBytes(ref), objects)
    else
      var body := EncodeItems(items, objects + [id]);
      Out(ListBegin(|items|, cls) + body.bytes + [0x7a], body.objects)
  }

  /**
   * `writeObject` past its null check: a reference to a map seen before, else 'M', the type
   * ('t' 0 0 for a hash map), the entries and 'z'; a hash map's keys go in
   * sorted order, a typed object's in `Object.keys` order.
   */
  function EncodeMap(id: nat, cls: Text, fields: seq<Field>, objects: seq<nat>): (r: Out)
    decreases fields, 3
  {
    var ref := IndexOf(objects, id);
    if ref >= 0 then Out(RefBytes(ref), objects)
    else EncodeMapBody(cls, fields, objects + [id])
  }

  /** The map itself: 'M', the type, the entries in the order of its kind, 'z'. */
  function EncodeMapBody(cls: Text, fields: seq<Field>, objects: seq<nat>): (r: Out)
    decreases fields, 2
  {
    var keys := if cls == [] then SortKeys(Keys(fields)) else Keys(fields);
    var body := EncodeEntries(fields, keys, objects);
    Out(MapFrame(cls, body.bytes), body.objects)
  }

  /** 'M', the type, the entries, 'z'. */
  function MapFrame(cls: Text, entries: seq<byte>): (r: seq<byte>)
  {
    [0x4d] + TypeBytes(cls) + entries + [0x7a]
  }

  /** The items of a list, one after the other. */
  function EncodeItems(items: seq<JsValue>, objects: seq<nat>): (r: Out)
    decreases items, 0
  {
    if items == [] then Out([], objects)
    else
      var head := Encode(items[0], objects);
      var rest := EncodeItems(items[1..], head.objects);
      Out(head.bytes + rest.bytes, rest.objects)
  }

  /** For each key, the key as a string and then its value. */
  function EncodeEntries(fields: seq<Field>, keys: seq<Text>, objects: seq<nat>): (r: Out)
    decreases fields, 1, |keys|
  {
    if keys == [] then Out([], objects)
    else
      var head := EncodeEntry(fields, keys[0], objects);
      var rest := EncodeEntries(fields, keys[1..], head.objects);
      Out(head.bytes + rest.bytes, rest.objects)
  }

  /** One entry: the key as a string, then `obj[key]` (null where the key is missing). */
  function EncodeEntry(fields: seq<Field>, key: Text, objects: seq<nat>): (r: Out)
    decreases fields, 0
  {
    var i := FieldIndex(fields, key);
    var value := if i < 0 then Out(NULL_BYTES, objects) else Encode(fields[i].value, objects);
    Out(StringForm(key) + value.bytes, value.objects)
  }

  lemma Assoc(a: seq<byte>, b: seq<byte>, c: seq<byte>)
    ensures a + b + c == a + (b + c)
  {
  }

  lemma Assoc4(a: seq<byte>, b: seq<byte>, c: seq<byte>, d: seq<byte>)
    ensures a + b + c + d == a + (b + c + d)
  {
  }

  lemma Assoc5(a: seq<byte>, b: seq<byte>, c: seq<byte>, d: seq<byte>, e: seq<byte>)
    ensures a + b + c + d + e == a + (b + c + d + e)
  {
  }

  /** One step of the string form: a full chunk, then the form of the rest. */
  lemma StringFormStep(s: Text, o: nat, n: nat)
    requires o <= |s| && |s| - o > Utils.MAX_CHAR_TRUNK_SIZE && n == ChunkLen(s[o..])
    ensures StringForm(s[o..]) == [0x73] + BE(n, 2) + RawString(s[o..o + n]) + StringForm(s[o + n..])
  {
    var rest := s[o..];
    assert rest[..n] == s[o..o + n];
    assert rest[n..] == s[o + n..];
  }

  /** One step of the bytes form: a full chunk, then the form of the rest. */
  lemma BytesFormStep(b: seq<byte>, o: nat)
    requires o <= |b| && |b| - o > MAX_BYTE_TRUNK_SIZE
    ensures BytesForm(b[o..]) == [0x62] + BE(MAX_BYTE_TRUNK_SIZE, 2) + b[o..o + MAX_BYTE_TRUNK_SIZE] + BytesForm(b[o + MAX_BYTE_TRUNK_SIZE..])
  {
    var rest := b[o..];
    assert rest[..MAX_BYTE_TRUNK_SIZE] == b[o..o + MAX_BYTE_TRUNK_SIZE];
    assert rest[MAX_BYTE_TRUNK_SIZE..] == b[o + MAX_BYTE_TRUNK_SIZE..];
  }

  // ---------------------------------------------------------------------
  // The encoder
  // ---------------------------------------------------------------------

  class Encoder {
    var buf: seq<byte>
    var objects: seq<nat>

    constructor ()
      ensures buf == [] && objects == []
    {
      buf := [];
      objects := [];
    }

    /** `reset`: an empty buffer and no objects seen. */
    method Reset()
      modifies this
      ensures buf == [] && objects == []
    {
      buf := [];
      objects := [];
    }

    method WriteNull()
      modifies this
      ensures buf == old(buf) + NULL_BYTES && objects == old(objects)
    {
      buf := buf + [0x4e];
    }

    method WriteBool(b: bool)
      modifies this
      ensures buf == old(buf) + BoolBytes(b) && objects == old(objects)
    {
      buf := buf + (if b then [0x54] else [0x46]);
    }

    /** `writeInt`: a value outside the 32-bit range is refused with a TypeError and nothing written. */
    method WriteInt(v: int) returns (ok: bool)
      modifies this
      ensures ok <==> InSigned(v, 4)
      ensures buf == old(buf) + (if ok then IntBytes(v) else []) && objects == old(objects)
    {
      if !(-0x8000_0000 <= v < 0x8000_0000) {
        return false;
      }
      buf := buf + [0x49] + BE(v, 4);
      ok := true;
    }

    method WriteLong(v: int)
      modifies this
      ensures buf == old(buf) + LongBytes(v) && objects == old(objects)
    {
      buf := buf + [0x4c] + BE(v, 8);
    }

    method WriteDate(ms: int)
      modifies this
      ensures buf == old(buf) + DateBytes(ms) && objects == old(objects)
    {
      buf := buf + [0x64] + BE(ms, 8);
    }

    /** `writeBytes`: full 'b' chunks while more than 0x8000 bytes remain, then the 'B' chunk. */
    method WriteBytes(b: seq<byte>)
      modifies this
      ensures buf == old(buf) + BytesForm(b) && objects == old(objects)
    {
      hide BE;
      var offset := 0;
      while |b| - offset > MAX_BYTE_TRUNK_SIZE
        invariant offset <= |b|
        invariant old(buf) + BytesForm(b) == buf + BytesForm(b[offset..])
        invariant objects == old(objects)
        decreases |b| - offset
      {
        BytesFormStep(b, offset);
        Assoc5(buf, [0x62], BE(MAX_BYTE_TRUNK_SIZE, 2), b[offset..offset + MAX_BYTE_TRUNK_SIZE], BytesForm(b[offset + MAX_BYTE_TRUNK_SIZE..]));
        buf := buf + [0x62] + BE(MAX_BYTE_TRUNK_SIZE, 2) + b[offset..offset + MAX_BYTE_TRUNK_SIZE];
        offset := offset + MAX_BYTE_TRUNK_SIZE;
      }
      Assoc4(buf, [0x42], BE(|b| - offset, 2), b[offset..]);
      buf := buf + [0x42] + BE(|b| - offset, 2) + b[offset..];
    }

    /** `writeString`: 's' chunks that never split a surrogate pair, then the 'S' chunk. */
    method WriteString(s: Text)
      modifies this
      ensures buf == old(buf) + StringForm(s) && objects == old(objects)
    {
      var length: nat := |s|;
      var strOffset: nat := 0;
      while length > Utils.MAX_CHAR_TRUNK_SIZE
        invariant strOffset + length == |s|
        invariant old(buf) + StringForm(s) == buf + StringForm(s[strOffset..])
        invariant objects == old(objects)
        decreases length
      {
        var sublen := Utils.MAX_CHAR_TRUNK_SIZE;
        var tail := s[strOffset + sublen - 1];
        if 0xd800 <= tail <= 0xdbff {
          sublen := sublen - 1;
        }
        StringFormStep(s, strOffset, sublen);
        Assoc5(buf, [0x73], BE(sublen, 2), RawString(s[strOffset..strOffset + sublen]), StringForm(s[strOffset + sublen..]));
        buf := buf + [0x73] + BE(sublen, 2) + RawString(s[strOffset..strOffset + sublen]);
        length := length - sublen;
        strOffset := strOffset + sublen;
      }
      Assoc4(buf, [0x53], BE(length, 2), RawString(s[strOffset..]));
      buf := buf + [0x53] + BE(length, 2) + RawString(s[strOffset..]);
    }

    /** `writeType`: the type name, the empty one included, as 't', length and raw name. */
    method WriteType(t: Text)
      modifies this
      ensures buf == old(buf) + TypeBytes(t) && objects == old(objects)
    {
      buf := buf + [0x74] + BE(|t|, 2) + RawString(t);
    }

    method WriteRef(id: int)
      modifies this
      ensures buf == old(buf) + RefBytes(id) && objects == old(objects)
    {
      buf := buf + [0x52] + BE(id, 4);
    }

    /**
     * `_checkRef`: an object seen before is written as a reference to its
     * place in `objects`; a new one is appended to `objects` and nothing is
     * written.
     */
    method CheckRef(id: nat) returns (isRef: bool)
      modifies this
      ensures isRef <==> id in old(objects)
      ensures isRef ==> buf == old(buf) + RefBytes(IndexOf(old(objects), id)) && objects == old(objects)
      ensures !isRef ==> buf == old(buf) && objects == old(objects) + [id]
    {
      var refIndex := IndexOf(objects, id);
      if refIndex >= 0 {
        WriteRef(refIndex);
        return true;
      }
      objects := objects + [id];
      return false;
    }

    /** `write`: dispatches on the kind of value. */
    method Write(v: JsValue)
      modifies this
      ensures buf == old(buf) + Encode(v, old(objects)).bytes
      ensures objects == Encode(v, old(objects)).objects
      decreases v, 1
    {
      match v
      case Null => WriteNull();
      case Bool(b) => WriteBool(b);
      case Number(n) =>
        if !(-0x8000_0000 <= n < 0x8000_0000) {
          WriteLong(n);
        } else {
          var _ := WriteInt(n);
        }
      case Str(s) => WriteString(s);
      case LongObj(n) => WriteLong(n);
      case Date(ms) => WriteDate(ms);
      case Buffer(b) => WriteBytes(b);
      case ClassedNull(id, cls) =>
        if ArrayClass(cls) {
          WriteNullArray(id);
        } else {
          WriteNull();
        }
      case Array(id, items) => WriteArray(id, [], items);
      case ClassedArray(id, cls, items) => WriteArray(id, if cls == ARRAY_LIST then [] else cls, items);
      case Plain(_, _) => WriteObject(v);
      case Classed(_, _, _) => WriteObject(v);
    }

    /** `_writeListBegin`: 'V', the type unless it is empty, 'l' and the length; a 'z' follows. */
    method WriteListBegin(length: nat, t: Text) returns (hasEnd: bool)
      modifies this
      ensures buf == old(buf) + ListBegin(length, t) && objects == old(objects)
      ensures hasEnd
    {
      hide TypeBytes, BE;
      ghost var typed := if t != [] then TypeBytes(t) else [];
      buf := buf + [0x56];
      if t != [] {
        WriteType(t);
      }
      assert buf == old(buf) + [0x56] + typed;
      buf := buf + [0x6c] + BE(length, 4);
      Assoc5(old(buf), [0x56], typed, [0x6c], BE(length, 4));
      return true;
    }

    /** `writeArray` for an object of identity `id` whose `$` is null: registered like any object, then 'N'. */
    method WriteNullArray(id: nat)
      modifies this
      ensures buf == old(buf) + EncodeNullList(id, old(objects)).bytes
      ensures objects == EncodeNullList(id, old(objects)).objects
    {
      var isRef := CheckRef(id);
      if isRef {
        return;
      }
      WriteNull();
    }

    /** `writeArray` for a list of identity `id` and class `cls` ("" for the default list class). */
    method WriteArray(id: nat, cls: Text, items: seq<JsValue>)
      modifies this
      ensures buf == old(buf) + EncodeList(id, cls, items, old(objects)).bytes
      ensures objects == EncodeList(id, cls, items, old(objects)).objects
      decreases items, 2
    {
      var isRef := CheckRef(id);
      if isRef {
        return;
      }
      ghost var start := buf;
      ghost var body := EncodeItems(items, objects);
      var hasEnd := WriteListBegin(|items|, cls);
      var i := 0;
      while i < |items|
        invariant i <= |items|
        invariant start + ListBegin(|items|, cls) + body.bytes == buf + EncodeItems(items[i..], objects).bytes
        invariant body.objects == EncodeItems(items[i..], objects).objects
        decreases |items| - i
      {
        ghost var before := buf;
        ghost var step := EncodeItems(items[i..], objects);
        ghost var head := Encode(items[i], objects);
        assert items[i..][1..] == items[i + 1..];
        assert step.bytes == head.bytes + EncodeItems(items[i + 1..], head.objects).bytes;
        Write(items[i]);
        Assoc(before, head.bytes, EncodeItems(items[i + 1..], head.objects).bytes);
        i := i + 1;
      }
      assert items[i..] == [];
      if hasEnd {
        buf := buf + [0x7a];
      }
      Assoc4(start, ListBegin(|items|, cls), body.bytes, [0x7a]);
    }

    /**
     * `writeObject(v)`: null for a string `$class` without `$`; else the
     * map under its type.
     */
    method WriteObject(v: JsValue)
      requires v.Plain? || v.Classed?
      modifies this
      ensures buf == old(buf) + EncodeWriteObject(v, old(objects)).bytes
      ensures objects == EncodeWriteObject(v, old(objects)).objects
      decreases v, 0
    {
      if v.Plain? && NullShaped(v.fields) {
        WriteNull();
      } else {
        WriteMap(v.id, MapType(v), v.fields);
      }
    }

    /**
     * `writeObject` past its null check, for a map of identity `id` written
     * under type `cls`: a reference, or `_writeHashMap` when the type is
     * empty and `_writeObject` otherwise.
     */
    method WriteMap(id: nat, cls: Text, fields: seq<Field>)
      modifies this
      ensures buf == old(buf) + EncodeMap(id, cls, fields, old(objects)).bytes
      ensures objects == EncodeMap(id, cls, fields, old(objects)).objects
      decreases fields, 3
    {
      var isRef := CheckRef(id);
      if isRef {
        return;
      }
      if cls == [] {
        WriteHashMap(fields);
      } else {
        WriteClassed(cls, fields);
      }
    }

    /** `_writeHashMap`: 'M', the empty type, the keys in sorted order with their values, 'z'. */
    method WriteHashMap(fields: seq<Field>)
      modifies this
      ensures var body := EncodeEntries(fields, SortKeys(Keys(fields)), old(objects));
        buf == old(buf) + MapFrame([], body.bytes) && objects == body.objects
      decreases fields, 2
    {
      buf := buf + [0x4d];
      WriteType([]);
      var keys := SortKeys(Keys(fields));
      WriteEntries(fields, keys);
      buf := buf + [0x7a];
      Assoc5(old(buf), [0x4d], TypeBytes([]), EncodeEntries(fields, keys, old(objects)).bytes, [0x7a]);
    }

    /** `_writeObject`: 'M', the class as a type, the keys in `Object.keys` order with their values, 'z'. */
    method WriteClassed(cls: Text, fields: seq<Field>)
      modifies this
      ensures var body := EncodeEntries(fields, Keys(fields), old(objects));
        buf == old(buf) + MapFrame(cls, body.bytes) && objects == body.objects
      decreases fields, 2
    {
      buf := buf + [0x4d];
      WriteType(cls);
      WriteEntries(fields, Keys(fields));
      buf := buf + [0x7a];
      Assoc5(old(buf), [0x4d], TypeBytes(cls), EncodeEntries(fields, Keys(fields), old(objects)).bytes, [0x7a]);
    }

    /** The loop shared by both map writers. */
    method WriteEntries(fields: seq<Field>, keys: seq<Text>)
      modifies this
      ensures buf == old(buf) + EncodeEntries(fields, keys, old(objects)).bytes
      ensures objects == EncodeEntries(fields, keys, old(objects)).objects
      decreases fields, 1
    {
      ghost var body := EncodeEntries(fields, keys, objects);
      var i := 0;
      while i < |keys|
        invariant i <= |keys|
        invariant old(buf) + body.bytes == buf + EncodeEntries(fields, keys[i..], objects).bytes
        invariant body.objects == EncodeEntries(fields, keys[i..], objects).objects
        decreases |keys| - i
      {
        ghost var before := buf;
        ghost var step := EncodeEntries(fields, keys[i..], objects);
        ghost var head := EncodeEntry(fields, keys[i], objects);
        assert keys[i..][1..] == keys[i + 1..];
        assert step.bytes == head.bytes + EncodeEntries(fields, keys[i + 1..], head.objects).bytes;
        WriteEntry(fields, keys[i]);
        Assoc(before, head.bytes, EncodeEntries(fields, keys[i + 1..], head.objects).bytes);
        i := i + 1;
      }
      assert keys[i..] == [];
    }

    /** One entry: the key as a string, then `obj[key]`. */
    method WriteEntry(fields: seq<Field>, key: Text)
      modifies this
      ensures buf == old(buf) + EncodeEntry(fields, key, old(objects)).bytes
      ensures objects == EncodeEntry(fields, key, old(objects)).objects
      decreases fields, 0
    {
      WriteString(key);
      ghost var mid := buf;
      var at := FieldIndex(fields, key);
      if at < 0 {
        WriteNull();
      } else {
        Write(fields[at].value);
      }
      ghost var value := if at < 0 then Out(NULL_BYTES, old(objects)) else Encode(fields[at].value, old(objects));
      assert buf == mid + value.bytes;
      Assoc(old(buf), StringForm(key), value.bytes);
    }
  }
}
