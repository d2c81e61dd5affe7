/**
 * The Hessian 1.0 decoder, reading without type information: a cursor
 * over the input, the table from a leading byte to the reader for it, and
 * the list of objects met so far, which a reference ('R') indexes.
 *
 * Each reader is specified by a function of the input and the position it
 * starts at, giving the value and the position after it; a reader that
 * registers objects also takes and gives the reference list.
 */
module V1Decoder {
  import opened Bytes
  import opened Wrappers
  import opened Utf8
  import opened JsValues
  import opened ByteView
  import Utils

  const UNEXPECTED_CODE: string := "hessian read got an unexpect code"
  const STRING_CODE_ERROR: string := "hessian readString error, unexpect string code"
  const END_LABEL_ERROR: string := "hessian readArray error, unexpect end label"
  const READ_ERROR: string := "read past the end of the buffer"

  /** The error `_checkLabel` throws. */
  function LabelError(reader: string): string
  {
    "hessian " + reader + " only accept label"
  }

  // ---------------------------------------------------------------------
  // Byte-level reads
  // ---------------------------------------------------------------------

  /** `_checkLabel`: the byte at `p` must be one of `labels`. */
  function Label(data: seq<byte>, p: nat, labels: set<byte>, reader: string): (r: Result<byte>)
    ensures r.Ok? <==> p < |data| && data[p] in labels
    ensures r.Ok? ==> r.value == data[p]
  {
    if p < |data| && data[p] in labels then Ok(data[p]) else Err(LabelError(reader))
  }

  /** `getUInt`: four bytes at `at`, most significant first, unsigned. */
  function UInt32At(data: seq<byte>, at: nat): (r: Result<nat>)
    ensures r.Ok? <==> at + 4 <= |data|
    ensures r.Ok? ==> r.value < TWO32
  {
    if at + 4 <= |data| then
      FromBEBound(data[at..at + 4]);
      Pow256Values();
      Ok(FromBE(data[at..at + 4]))
    else Err(RANGE_ERROR)
  }

  /** `read(len)`: the next `len` bytes. */
  function BytesAt(data: seq<byte>, at: nat, len: nat): (r: Result<seq<byte>>)
    ensures r.Ok? <==> at + len <= |data|
    ensures r.Ok? ==> r.value == data[at..at + len]
  {
    if at + len <= |data| then Ok(data[at..at + len]) else Err(READ_ERROR)
  }

  // ---------------------------------------------------------------------
  // The readers of scalars: the value and the position after it
  // ---------------------------------------------------------------------

  /** `readNull`: 'N'. */
  function ReadNullAt(data: seq<byte>, p: nat): (r: Result<(DValue, nat)>)
    ensures r.Ok? ==> r.value.1 == p + 1 && r.value.0 == DNull
  {
    var l :- Label(data, p, {0x4e}, "readNull");
    Ok((DNull, p + 1))
  }

  /** `readBool`: 'T' is true, 'F' is false. */
  function ReadBoolAt(data: seq<byte>, p: nat): (r: Result<(DValue, nat)>)
    ensures r.Ok? ==> r.value.1 == p + 1 && r.value.0.DBool?
  {
    var l :- Label(data, p, {0x54, 0x46}, "readBool");
    Ok((DBool(l == 0x54), p + 1))
  }

  /** `readInt`: 'I' and a signed 32-bit word. */
  function ReadIntAt(data: seq<byte>, p: nat): (r: Result<(DValue, nat)>)
    ensures r.Ok? ==> r.value.1 == p + 5 && r.value.0.DInt? && InSigned(r.value.0.n, 4)
  {
    var l :- Label(data, p, {0x49}, "readInt");
    var v :- Int32At(data, p + 1);
    Ok((DInt(v), p + 5))
  }

  /** `readLong`: 'L' and a signed 64-bit word, through `handleLong`. */
  function ReadLongAt(data: seq<byte>, p: nat): (r: Result<(DValue, nat)>)
    ensures r.Ok? ==> r.value.1 == p + 9 && r.value.0.DLong?
  {
    var l :- Label(data, p, {0x4c}, "readLong");
    var v :- Int64At(data, p + 1);
    Ok((DLong(Utils.HandleLong(v)), p + 9))
  }

  /** `readDouble`: 'D' and eight bytes. */
  function ReadDoubleAt(data: seq<byte>, p: nat): (r: Result<(DValue, nat)>)
    ensures r.Ok? ==> r.value.1 == p + 9 && r.value.0.DDouble? && |r.value.0.raw| == 8
  {
    var l :- Label(data, p, {0x44}, "readDouble");
    var raw :- BytesAt(data, p + 1, 8);
    Ok((DDouble(raw), p + 9))
  }

  /** `readDate`: 'd' and a signed 64-bit count of milliseconds, through `handleLong`. */
  function ReadDateAt(data: seq<byte>, p: nat): (r: Result<(DValue, nat)>)
    ensures r.Ok? ==> r.value.1 == p + 9 && r.value.0.DDate?
  {
    var l :- Label(data, p, {0x64}, "readDate");
    var v :- Int64At(data, p + 1);
    Ok((DDate(Utils.HandleLong(v)), p + 9))
  }

  /**
   * The chunks of `readBytes` from a label at `p` on, appended to `acc`:
   * 'b' and 'B' each carry a 16-bit length and that many bytes, and 'B'
   * ends the value.
   */
  function BytesFrom(data: seq<byte>, p: nat, acc: seq<byte>): (r: Result<(seq<byte>, nat)>)
    ensures r.Ok? ==> p < r.value.1 <= |data|
    decreases |data| - p
  {
    var tag :- Label(data, p, {0x62, 0x42}, "readBytes");
    var len :- UInt16At(data, p + 1);
    var chunk :- BytesAt(data, p + 3, len);
    if tag == 0x62 then BytesFrom(data, p + 3 + len, acc + chunk)
    else Ok((acc + chunk, p + 3 + len))
  }

  /** `readBytes`. */
  function ReadBytesAt(data: seq<byte>, p: nat): (r: Result<(DValue, nat)>)
    ensures r.Ok? ==> p < r.value.1 <= |data| && r.value.0.DBytes?
  {
    var b :- BytesFrom(data, p, []);
    Ok((DBytes(b.0), b.1))
  }

  /**
   * `_readUTF8String` at `p`: a 16-bit count of UTF-16 code units, then
   * their UTF-8 bytes; the code units and the position after them.
   */
  function Utf8ChunkAt(data: seq<byte>, p: nat): (r: Result<(Text, nat)>)
    ensures r.Ok? ==> p + 2 <= r.value.1 <= |data|
  {
    var len :- UInt16At(data, p);
    if len == 0 then Ok(([], p + 2))
    else
      var d :- DecodeUnits(data, p + 2, len);
      Ok((d.0, p + 2 + d.1))
  }

  /**
   * The chunks of `readString` from a code at `p` on, appended to `acc`:
   * 's' chunks go on, 'S' is the last, any other code is an error.
   */
  function StringFrom(data: seq<byte>, p: nat, acc: Text): (r: Result<(Text, nat)>)
    ensures r.Ok? ==> p < r.value.1 <= |data|
    decreases |data| - p
  {
    if p >= |data| || (data[p] != 0x73 && data[p] != 0x53) then Err(STRING_CODE_ERROR)
    else
      var chunk :- Utf8ChunkAt(data, p + 1);
      if data[p] == 0x73 then StringFrom(data, chunk.1, acc + chunk.0)
      else Ok((acc + chunk.0, chunk.1))
  }

  /** `readString`. */
  function ReadStringAt(data: seq<byte>, p: nat): (r: Result<(DValue, nat)>)
    ensures r.Ok? ==> p < r.value.1 <= |data| && r.value.0.DStr?
  {
    var s :- StringFrom(data, p, []);
    Ok((DStr(s.0), s.1))
  }

  /**
   * `readType`: 't' and a 16-bit length, then that many bytes, which are
   * skipped (giving "") or taken as the type name.
   */
  function ReadTypeAt(data: seq<byte>, p: nat, skip: bool): (r: Result<(DValue, nat)>)
    ensures r.Ok? ==> p + 3 <= r.value.1
    ensures r.Ok? && !skip ==> r.value.1 <= |data|
  {
    var l :- Label(data, p, {0x74}, "readType");
    var len :- UInt16At(data, p + 1);
    if skip then Ok((DStr([]), p + 3 + len))
    else
      var t :- BytesAt(data, p + 3, len);
      Ok((DType(t), p + 3 + len))
  }

  /** `readLength`: 'l' and an unsigned 32-bit word. */
  function ReadLengthAt(data: seq<byte>, p: nat): (r: Result<(nat, nat)>)
    ensures r.Ok? ==> r.value.1 == p + 5 && r.value.0 < TWO32
  {
    var l :- Label(data, p, {0x6c}, "readLength");
    var n :- UInt32At(data, p + 1);
    Ok((n, p + 5))
  }

  /** `readRefId`: 'R' and a signed 32-bit word. */
  function ReadRefIdAt(data: seq<byte>, p: nat): (r: Result<(int, nat)>)
    ensures r.Ok? ==> r.value.1 == p + 5 && InSigned(r.value.0, 4)
  {
    var l :- Label(data, p, {0x52}, "readRef");
    var v :- Int32At(data, p + 1);
    Ok((v, p + 5))
  }

  /** `refMap[rid]`: the object registered under `rid`, or undefined. */
  function RefValue(refs: seq<DValue>, rid: int): (r: DValue)
    ensures 0 <= rid < |refs| ==> r == refs[rid]
    ensures !(0 <= rid < |refs|) ==> r == DUndefined
  {
    if 0 <= rid < |refs| then refs[rid] else DUndefined
  }

  // ---------------------------------------------------------------------
  // The dispatch table
  // ---------------------------------------------------------------------

  /** The readers `read` dispatches to. */
  datatype Reader =
    | OnNull | OnBool | OnInt | OnLong | OnDouble | OnDate | OnBytes
    | OnString | OnType | OnLength | OnObject | OnArray | OnRef

  /** `BYTE_CODES`, as the `addByteCodes` calls fill it, in their order. */
  function Registered(): map<int, Reader>
  {
    var m0 := Utils.Register(map[], [Utils.Single(0x4e)], OnNull);
    var m1 := Utils.Register(m0, [Utils.Single(0x54), Utils.Single(0x46)], OnBool);
    var m2 := Utils.Register(m1, [Utils.Single(0x49)], OnInt);
    var m3 := Utils.Register(m2, [Utils.Single(0x4c)], OnLong);
    var m4 := Utils.Register(m3, [Utils.Single(0x44)], OnDouble);
    var m5 := Utils.Register(m4, [Utils.Single(0x64)], OnDate);
    var m6 := Utils.Register(m5, [Utils.Single(0x62), Utils.Single(0x42)], OnBytes);
    var m7 := Utils.Register(m6, [Utils.Single(0x73), Utils.Single(0x53)], OnString);
    var m8 := Utils.Register(m7, [Utils.Single(0x74)], OnType);
    var m9 := Utils.Register(m8, [Utils.Single(0x6c)], OnLength);
    var m10 := Utils.Register(m9, [Utils.Single(0x4d)], OnObject);
    var m11 := Utils.Register(m10, [Utils.Single(0x56)], OnArray);
    Utils.Register(m11, [Utils.Single(0x52)], OnRef)
  }

  /** The table as a literal: one entry per label of Hessian 1.0. */
  const BYTE_CODES: map<int, Reader> := map[
    0x4e := OnNull, 0x54 := OnBool, 0x46 := OnBool, 0x49 := OnInt,
    0x4c := OnLong, 0x44 := OnDouble, 0x64 := OnDate, 0x62 := OnBytes,
    0x42 := OnBytes, 0x73 := OnString, 0x53 := OnString, 0x74 := OnType,
    0x6c := OnLength, 0x4d := OnObject, 0x56 := OnArray, 0x52 := OnRef]

  // ---------------------------------------------------------------------
  // The readers of values that hold values
  // ---------------------------------------------------------------------

  /** A value read, the position after it and the reference list after it. */
  datatype Decoded = Decoded(value: DValue, next: nat, refs: seq<DValue>)

  /** What remains of the input after `p`: the measure every reader decreases. */
  function Left(data: seq<byte>, p: nat): nat
  {
    if p <= |data| then |data| - p else 0
  }

  /** The references registered before stay as they were; new ones may follow. */
  predicate Grows(before: seq<DValue>, after: seq<DValue>)
  {
    |before| <= |after| && after[..|before|] == before
  }

  /** A scalar reader's result, with the reference list unchanged. */
  function Leaf(d: Result<(DValue, nat)>, refs: seq<DValue>): (r: Result<Decoded>)
    ensures r.Ok? <==> d.Ok?
    ensures r.Ok? ==> r.value == Decoded(d.value.0, d.value.1, refs)
  {
    var v :- d;
    Ok(Decoded(v.0, v.1, refs))
  }

  /** A key the typed object reader drops: "this$" followed by one or more digits. */
  predicate IsOuterRef(key: DValue)
  {
    key.DStr? && |key.s| > 5 && key.s[..5] == [0x74, 0x68, 0x69, 0x73, 0x24] &&
    forall i :: 5 <= i < |key.s| ==> 0x30 <= key.s[i] <= 0x39
  }

  /** `read`: the reader the leading byte selects in `BYTE_CODES`. */
  function DecodeAt(data: seq<byte>, p: nat, refs: seq<DValue>): (r: Result<Decoded>)
    ensures r.Ok? ==> p < |data| && p < r.value.next && Grows(refs, r.value.refs)
    decreases Left(data, p), 3
  {
    if p >= |data| || data[p] as int !in BYTE_CODES then Err(UNEXPECTED_CODE)
    else
      match BYTE_CODES[data[p] as int]
      case OnNull => Leaf(ReadNullAt(data, p), refs)
      case OnBool => Leaf(ReadBoolAt(data, p), refs)
      case OnInt => Leaf(ReadIntAt(data, p), refs)
      case OnLong => Leaf(ReadLongAt(data, p), refs)
      case OnDouble => Leaf(ReadDoubleAt(data, p), refs)
      case OnDate => Leaf(ReadDateAt(data, p), refs)
      case OnBytes => Leaf(ReadBytesAt(data, p), refs)
      case OnString => Leaf(ReadStringAt(data, p), refs)
      case OnType => Leaf(ReadTypeAt(data, p, false), refs)
      case OnLength =>
        var n :- ReadLengthAt(data, p);
        Ok(Decoded(DInt(n.0), n.1, refs))
      case OnObject => ReadObjectAt(data, p, refs)
      case OnArray => ReadArrayAt(data, p, refs)
      case OnRef =>
        var rid :- ReadRefIdAt(data, p);
        Ok(Decoded(RefValue(refs, rid.0), rid.1, refs))
  }

  /**
   * `readObject`: 'M'; with a type after it the object is registered as a
   * reference before its properties are read, and its slot holds the
   * finished object; without one it is a sparse object, not registered.
   */
  function ReadObjectAt(data: seq<byte>, p: nat, refs: seq<DValue>): (r: Result<Decoded>)
    ensures r.Ok? ==> p < |data| && p < r.value.next && Grows(refs, r.value.refs)
    ensures r.Ok? && p + 1 < |data| && data[p + 1] == 0x74 ==>
      |refs| < |r.value.refs| && r.value.refs[|refs|] == r.value.value
    decreases Left(data, p), 2
  {
    var l :- Label(data, p, {0x4d}, "readObject");
    if p + 1 < |data| && data[p + 1] == 0x74 then
      var t :- ReadTypeAt(data, p + 1, false);
      var r := ObjectFields(data, t.1, refs + [DMap([])], |refs|, []);
      assert r.Ok? ==> (refs + [DMap([])])[..|refs|] == refs;
      r
    else SparseFields(data, p + 1, refs, [])
  }

  /**
   * The properties of a typed object from `q` on, put into `acc`, until
   * 'z'; then slot `id` of the reference list takes the finished object.
   * Keys "this$<digits>" are read and dropped.
   */
  function ObjectFields(data: seq<byte>, q: nat, refs: seq<DValue>, id: nat, acc: seq<Entry>): (r: Result<Decoded>)
    requires id < |refs|
    ensures r.Ok? ==> q < r.value.next && |refs| <= |r.value.refs|
    ensures r.Ok? ==> r.value.refs[..id] == refs[..id] && r.value.refs[id] == r.value.value
    ensures r.Ok? ==> r.value.value.DMap?
    decreases Left(data, q), 4
  {
    if q < |data| && data[q] == 0x7a then
      Ok(Decoded(DMap(acc), q + 1, refs[id := DMap(acc)]))
    else
      var key :- DecodeAt(data, q, refs);
      var value :- DecodeAt(data, key.next, key.refs);
      assert value.refs[..id] == refs[..id] by {
        assert key.refs[..|refs|] == refs;
        assert value.refs[..|key.refs|] == key.refs;
      }
      ObjectFields(data, value.next, value.refs, id,
        if IsOuterRef(key.value) then acc else Put(acc, key.value, value.value))
  }

  /** `_readSparseObject`: pairs of key and value from `q` on, until 'z'. */
  function SparseFields(data: seq<byte>, q: nat, refs: seq<DValue>, acc: seq<Entry>): (r: Result<Decoded>)
    ensures r.Ok? ==> q < r.value.next && Grows(refs, r.value.refs) && r.value.value.DMap?
    decreases Left(data, q), 4
  {
    if q < |data| && data[q] == 0x7a then Ok(Decoded(DMap(acc), q + 1, refs))
    else
      var key :- DecodeAt(data, q, refs);
      var value :- DecodeAt(data, key.next, key.refs);
      SparseFields(data, value.next, value.refs, Put(acc, key.value, value.value))
  }

  /** Where a list's length label is looked for: after its type, which is skipped, if it has one. */
  function ListTypeEnd(data: seq<byte>, q: nat): (r: Result<nat>)
    ensures r.Ok? ==> q <= r.value
  {
    if q < |data| && data[q] == 0x74 then
      var t :- ReadTypeAt(data, q, true);
      Ok(t.1)
    else Ok(q)
  }

  /**
   * `readArray`: 'V', an optional type, then either 'l' with a length, the
   * list registered as a reference, exactly that many values and 'z', or,
   * without a length, values until 'z' and no registration.
   */
  function ReadArrayAt(data: seq<byte>, p: nat, refs: seq<DValue>): (r: Result<Decoded>)
    ensures r.Ok? ==> p < |data| && p < r.value.next && Grows(refs, r.value.refs)
    decreases Left(data, p), 2
  {
    var l :- Label(data, p, {0x56}, "readArray");
    var q :- ListTypeEnd(data, p + 1);
    if q < |data| && data[q] == 0x6c then
      var n :- ReadLengthAt(data, q);
      var r := FixedItems(data, n.1, refs + [DList([])], |refs|, n.0, []);
      assert r.Ok? ==> (refs + [DList([])])[..|refs|] == refs;
      r
    else NoLengthItems(data, q, refs, [])
  }

  /** The `n` remaining values of a list with a length, then 'z'; slot `id` takes the list. */
  function FixedItems(data: seq<byte>, q: nat, refs: seq<DValue>, id: nat, n: nat, acc: seq<DValue>): (r: Result<Decoded>)
    requires id < |refs|
    ensures r.Ok? ==> q < r.value.next && |refs| <= |r.value.refs|
    ensures r.Ok? ==> r.value.refs[..id] == refs[..id] && r.value.refs[id] == r.value.value
    ensures r.Ok? ==> r.value.value.DList? && |r.value.value.items| == |acc| + n
    decreases Left(data, q), 4
  {
    if n == 0 then
      if q < |data| && data[q] == 0x7a then Ok(Decoded(DList(acc), q + 1, refs[id := DList(acc)]))
      else Err(END_LABEL_ERROR)
    else
      var item :- DecodeAt(data, q, refs);
      assert item.refs[..id] == refs[..id] by {
        assert item.refs[..|refs|] == refs;
      }
      FixedItems(data, item.next, item.refs, id, n - 1, acc + [item.value])
  }

  /** `_readNoLengthArray`: values from `q` on until 'z'. */
  function NoLengthItems(data: seq<byte>, q: nat, refs: seq<DValue>, acc: seq<DValue>): (r: Result<Decoded>)
    ensures r.Ok? ==> q < r.value.next && Grows(refs, r.value.refs) && r.value.value.DList?
    decreases Left(data, q), 4
  {
    if q < |data| && data[q] == 0x7a then Ok(Decoded(DList(acc), q + 1, refs))
    else
      var item :- DecodeAt(data, q, refs);
      NoLengthItems(data, item.next, item.refs, acc + [item.value])
  }

  /** `read` hands a scalar's leading byte to that scalar's reader and registers nothing. */
  lemma DecodeLeaf(data: seq<byte>, p: nat, refs: seq<DValue>)
    requires p < |data|
    ensures data[p] == 0x4e ==> DecodeAt(data, p, refs) == Leaf(ReadNullAt(data, p), refs)
    ensures data[p] == 0x54 || data[p] == 0x46 ==> DecodeAt(data, p, refs) == Leaf(ReadBoolAt(data, p), refs)
    ensures data[p] == 0x49 ==> DecodeAt(data, p, refs) == Leaf(ReadIntAt(data, p), refs)
    ensures data[p] == 0x4c ==> DecodeAt(data, p, refs) == Leaf(ReadLongAt(data, p), refs)
    ensures data[p] == 0x64 ==> DecodeAt(data, p, refs) == Leaf(ReadDateAt(data, p), refs)
    ensures data[p] == 0x62 || data[p] == 0x42 ==> DecodeAt(data, p, refs) == Leaf(ReadBytesAt(data, p), refs)
    ensures data[p] == 0x73 || data[p] == 0x53 ==> DecodeAt(data, p, refs) == Leaf(ReadStringAt(data, p), refs)
  {
    hide ReadNullAt, ReadBoolAt, ReadIntAt, ReadLongAt, ReadDoubleAt, ReadDateAt, ReadBytesAt, ReadStringAt,
      ReadTypeAt, ReadLengthAt, ReadRefIdAt, ReadObjectAt, ReadArrayAt;
  }

  /** `read` hands 'M', 'V' and 'R' to the object, list and reference readers. */
  lemma DecodeNode(data: seq<byte>, p: nat, refs: seq<DValue>)
    requires p < |data|
    ensures data[p] == 0x4d ==> DecodeAt(data, p, refs) == ReadObjectAt(data, p, refs)
    ensures data[p] == 0x56 ==> DecodeAt(data, p, refs) == ReadArrayAt(data, p, refs)
    ensures data[p] == 0x52 && ReadRefIdAt(data, p).Err? ==> DecodeAt(data, p, refs).Err?
    ensures data[p] == 0x52 && ReadRefIdAt(data, p).Ok? ==>
      var rid := ReadRefIdAt(data, p).value;
      DecodeAt(data, p, refs) == Ok(Decoded(RefValue(refs, rid.0), rid.1, refs))
  {
    hide ReadNullAt, ReadBoolAt, ReadIntAt, ReadLongAt, ReadDoubleAt, ReadDateAt, ReadBytesAt, ReadStringAt,
      ReadTypeAt, ReadLengthAt, ReadRefIdAt, ReadObjectAt, ReadArrayAt;
  }

  // ---------------------------------------------------------------------
  // The table as the calls fill it
  // ---------------------------------------------------------------------

  lemma CoveredOne(x: int)
    ensures Utils.Covered([Utils.Single(x)]) == {x}
  {
    assert [Utils.Single(x)][..0] == [];
  }

  lemma CoveredTwo(x: int, y: int)
    ensures Utils.Covered([Utils.Single(x), Utils.Single(y)]) == {x, y}
  {
    assert [Utils.Single(x), Utils.Single(y)][..1] == [Utils.Single(x)];
    CoveredOne(x);
  }

  /** One call naming one code is one update of the table. */
  lemma RegisterOne(m: map<int, Reader>, x: int, name: Reader)
    ensures Utils.Register(m, [Utils.Single(x)], name) == m[x := name]
  {
    CoveredOne(x);
  }

  /** One call naming two codes is two updates of the table. */
  lemma RegisterTwo(m: map<int, Reader>, x: int, y: int, name: Reader)
    ensures Utils.Register(m, [Utils.Single(x), Utils.Single(y)], name) == m[x := name][y := name]
  {
    CoveredTwo(x, y);
  }

  /**
   * The thirteen `addByteCodes` calls give exactly the literal table: every
   * Hessian 1.0 label maps to its reader and no other byte has a reader.
   */
  lemma RegisteredIsTable()
    ensures Registered() == BYTE_CODES
  {
    var m0 := map[];
    RegisterOne(m0, 0x4e, OnNull);
    var m1 := m0[0x4e := OnNull];
    RegisterTwo(m1, 0x54, 0x46, OnBool);
    var m2 := m1[0x54 := OnBool][0x46 := OnBool];
    RegisterOne(m2, 0x49, OnInt);
    var m3 := m2[0x49 := OnInt];
    RegisterOne(m3, 0x4c, OnLong);
    var m4 := m3[0x4c := OnLong];
    RegisterOne(m4, 0x44, OnDouble);
    var m5 := m4[0x44 := OnDouble];
    RegisterOne(m5, 0x64, OnDate);
    var m6 := m5[0x64 := OnDate];
    RegisterTwo(m6, 0x62, 0x42, OnBytes);
    var m7 := m6[0x62 := OnBytes][0x42 := OnBytes];
    RegisterTwo(m7, 0x73, 0x53, OnString);
    var m8 := m7[0x73 := OnString][0x53 := OnString];
    RegisterOne(m8, 0x74, OnType);
    var m9 := m8[0x74 := OnType];
    RegisterOne(m9, 0x6c, OnLength);
    var m10 := m9[0x6c := OnLength];
    RegisterOne(m10, 0x4d, OnObject);
    var m11 := m10[0x4d := OnObject];
    RegisterOne(m11, 0x56, OnArray);
    var m12 := m11[0x56 := OnArray];
    RegisterOne(m12, 0x52, OnRef);
  }

  /** The table `addByteCodes` fills in place, call by call. */
  method BuildByteCodes() returns (codes: Utils.ByteCodes<Reader>)
    ensures fresh(codes)
    ensures codes.table == BYTE_CODES
  {
    codes := new Utils.ByteCodes();
    codes.AddByteCodes([Utils.Single(0x4e)], OnNull);
    codes.AddByteCodes([Utils.Single(0x54), Utils.Single(0x46)], OnBool);
    codes.AddByteCodes([Utils.Single(0x49)], OnInt);
    codes.AddByteCodes([Utils.Single(0x4c)], OnLong);
    codes.AddByteCodes([Utils.Single(0x44)], OnDouble);
    codes.AddByteCodes([Utils.Single(0x64)], OnDate);
    codes.AddByteCodes([Utils.Single(0x62), Utils.Single(0x42)], OnBytes);
    codes.AddByteCodes([Utils.Single(0x73), Utils.Single(0x53)], OnString);
    codes.AddByteCodes([Utils.Single(0x74)], OnType);
    codes.AddByteCodes([Utils.Single(0x6c)], OnLength);
    codes.AddByteCodes([Utils.Single(0x4d)], OnObject);
    codes.AddByteCodes([Utils.Single(0x56)], OnArray);
    codes.AddByteCodes([Utils.Single(0x52)], OnRef);
    RegisteredIsTable();
  }

  // ---------------------------------------------------------------------
  // One step of each reader's loop
  // ---------------------------------------------------------------------

  lemma BytesStep(data: seq<byte>, q: nat, acc: seq<byte>)
    requires q < |data| && (data[q] == 0x62 || data[q] == 0x42)
    ensures UInt16At(data, q + 1).Err? ==> BytesFrom(data, q, acc).Err?
    ensures UInt16At(data, q + 1).Ok? ==>
      var len := UInt16At(data, q + 1).value;
      (q + 3 + len > |data| ==> BytesFrom(data, q, acc).Err?) &&
      (q + 3 + len <= |data| && data[q] == 0x62 ==>
        BytesFrom(data, q, acc) == BytesFrom(data, q + 3 + len, acc + data[q + 3..q + 3 + len])) &&
      (q + 3 + len <= |data| && data[q] == 0x42 ==>
        BytesFrom(data, q, acc) == Ok((acc + data[q + 3..q + 3 + len], q + 3 + len)))
  {
  }

  /** The state of `readBytes`'s loop: just past a valid label, with the rest completing the value. */
  predicate BytesLoop(data: seq<byte>, start: nat, pos: nat, tag: byte, bufs: seq<byte>)
  {
    0 < pos <= |data| && tag == data[pos - 1] && (tag == 0x62 || tag == 0x42) &&
    BytesFrom(data, start, []) == BytesFrom(data, pos - 1, bufs)
  }

  /** How `readBytes` begins: a label that is not 'b' or 'B' fails, one that is starts the loop. */
  lemma BytesStart(data: seq<byte>, start: nat)
    ensures Label(data, start, {0x62, 0x42}, "readBytes").Err? ==> ReadBytesAt(data, start).Err?
    ensures Label(data, start, {0x62, 0x42}, "readBytes").Ok? ==> BytesLoop(data, start, start + 1, data[start], [])
  {
  }

  /** After a 'b' label: a chunk or a next label that cannot be read fails the whole read. */
  lemma BytesLoopFails(data: seq<byte>, start: nat, pos: nat, bufs: seq<byte>)
    requires BytesLoop(data, start, pos, 0x62, bufs)
    ensures var len := UInt16At(data, pos);
      ((len.Err? || pos + 2 + len.value > |data|) ==> ReadBytesAt(data, start).Err?) &&
      ((len.Ok? && pos + 2 + len.value <= |data| &&
        Label(data, pos + 2 + len.value, {0x62, 0x42}, "readBytes").Err?) ==> ReadBytesAt(data, start).Err?)
  {
    BytesStep(data, pos - 1, bufs);
  }

  /** After a 'b' label: the chunk and the next label continue the loop. */
  lemma BytesLoopStep(data: seq<byte>, start: nat, pos: nat, bufs: seq<byte>, pos': nat, tag': byte, bufs': seq<byte>)
    requires BytesLoop(data, start, pos, 0x62, bufs)
    requires UInt16At(data, pos).Ok? && pos' == pos + 3 + UInt16At(data, pos).value
    requires pos' <= |data| && tag' == data[pos' - 1] && (tag' == 0x62 || tag' == 0x42)
    requires bufs' == bufs + data[pos + 2..pos' - 1]
    ensures BytesLoop(data, start, pos', tag', bufs')
  {
    BytesStep(data, pos - 1, bufs);
  }

  /** After the 'B' label: the last chunk fails the whole read or completes it. */
  lemma BytesLoopLast(data: seq<byte>, start: nat, pos: nat, bufs: seq<byte>)
    requires BytesLoop(data, start, pos, 0x42, bufs)
    ensures var len := UInt16At(data, pos);
      ((len.Err? || pos + 2 + len.value > |data|) ==> ReadBytesAt(data, start).Err?) &&
      (len.Ok? && pos + 2 + len.value <= |data| ==>
        ReadBytesAt(data, start) == Ok((DBytes(bufs + data[pos + 2..pos + 2 + len.value]), pos + 2 + len.value)))
  {
    BytesStep(data, pos - 1, bufs);
  }

  lemma StringStep(data: seq<byte>, q: nat, acc: Text)
    requires q < |data| && (data[q] == 0x73 || data[q] == 0x53)
    ensures Utf8ChunkAt(data, q + 1).Err? ==> StringFrom(data, q, acc).Err?
    ensures Utf8ChunkAt(data, q + 1).Ok? ==>
      var c := Utf8ChunkAt(data, q + 1).value;
      (data[q] == 0x73 ==> StringFrom(data, q, acc) == StringFrom(data, c.1, acc + c.0)) &&
      (data[q] == 0x53 ==> StringFrom(data, q, acc) == Ok((acc + c.0, c.1)))
  {
  }

  lemma ObjectFieldsStep(data: seq<byte>, q: nat, refs: seq<DValue>, id: nat, acc: seq<Entry>)
    requires id < |refs|
    ensures q < |data| && data[q] == 0x7a ==>
      ObjectFields(data, q, refs, id, acc) == Ok(Decoded(DMap(acc), q + 1, refs[id := DMap(acc)]))
    ensures !(q < |data| && data[q] == 0x7a) && DecodeAt(data, q, refs).Err? ==> ObjectFields(data, q, refs, id, acc).Err?
    ensures !(q < |data| && data[q] == 0x7a) && DecodeAt(data, q, refs).Ok? ==>
      var key := DecodeAt(data, q, refs).value;
      (DecodeAt(data, key.next, key.refs).Err? ==> ObjectFields(data, q, refs, id, acc).Err?) &&
      (DecodeAt(data, key.next, key.refs).Ok? ==>
        var value := DecodeAt(data, key.next, key.refs).value;
        id < |value.refs| &&
        ObjectFields(data, q, refs, id, acc) == ObjectFields(data, value.next, value.refs, id,
          if IsOuterRef(key.value) then acc else Put(acc, key.value, value.value)))
  {
  }

  /** How `readObject` begins: a sparse object, or a type and the first state of the loop. */
  lemma ObjectStart(data: seq<byte>, start: nat, refs0: seq<DValue>)
    ensures !(start < |data| && data[start] == 0x4d) ==> ReadObjectAt(data, start, refs0).Err?
    ensures start < |data| && data[start] == 0x4d && !(start + 1 < |data| && data[start + 1] == 0x74) ==>
      ReadObjectAt(data, start, refs0) == SparseFields(data, start + 1, refs0, [])
    ensures start < |data| && data[start] == 0x4d && start + 1 < |data| && data[start + 1] == 0x74 ==>
      var t := ReadTypeAt(data, start + 1, false);
      (t.Err? ==> ReadObjectAt(data, start, refs0).Err?) &&
      (t.Ok? ==> ReadObjectAt(data, start, refs0) == ObjectFields(data, t.value.1, refs0 + [DMap([])], |refs0|, []))
  {
  }

  /** How `readArray` begins: past 'V' and the type, a list without a length, or the length and the first state of the loop. */
  lemma ArrayStart(data: seq<byte>, start: nat, refs0: seq<DValue>)
    ensures !(start < |data| && data[start] == 0x56) ==> ReadArrayAt(data, start, refs0).Err?
    ensures start < |data| && data[start] == 0x56 && ListTypeEnd(data, start + 1).Err? ==>
      ReadArrayAt(data, start, refs0).Err?
    ensures start < |data| && data[start] == 0x56 && ListTypeEnd(data, start + 1).Ok? ==>
      var q := ListTypeEnd(data, start + 1).value;
      (!(q < |data| && data[q] == 0x6c) ==> ReadArrayAt(data, start, refs0) == NoLengthItems(data, q, refs0, [])) &&
      (q < |data| && data[q] == 0x6c && ReadLengthAt(data, q).Err? ==> ReadArrayAt(data, start, refs0).Err?) &&
      (q < |data| && data[q] == 0x6c && ReadLengthAt(data, q).Ok? ==>
        var n := ReadLengthAt(data, q).value;
        ReadArrayAt(data, start, refs0) == FixedItems(data, n.1, refs0 + [DList([])], |refs0|, n.0, []))
  {
  }

  lemma SparseFieldsStep(data: seq<byte>, q: nat, refs: seq<DValue>, acc: seq<Entry>)
    requires !(q < |data| && data[q] == 0x7a)
    ensures DecodeAt(data, q, refs).Err? ==> SparseFields(data, q, refs, acc).Err?
    ensures DecodeAt(data, q, refs).Ok? ==>
      var key := DecodeAt(data, q, refs).value;
      (DecodeAt(data, key.next, key.refs).Err? ==> SparseFields(data, q, refs, acc).Err?) &&
      (DecodeAt(data, key.next, key.refs).Ok? ==>
        var value := DecodeAt(data, key.next, key.refs).value;
        SparseFields(data, q, refs, acc) == SparseFields(data, value.next, value.refs, Put(acc, key.value, value.value)))
  {
  }

  lemma FixedItemsStep(data: seq<byte>, q: nat, refs: seq<DValue>, id: nat, n: nat, acc: seq<DValue>)
    requires id < |refs|
    ensures n == 0 && !(q < |data| && data[q] == 0x7a) ==> FixedItems(data, q, refs, id, n, acc).Err?
    ensures n == 0 && q < |data| && data[q] == 0x7a ==>
      FixedItems(data, q, refs, id, n, acc) == Ok(Decoded(DList(acc), q + 1, refs[id := DList(acc)]))
    ensures n > 0 && DecodeAt(data, q, refs).Err? ==> FixedItems(data, q, refs, id, n, acc).Err?
    ensures n > 0 && DecodeAt(data, q, refs).Ok? ==>
      var item := DecodeAt(data, q, refs).value;
      id < |item.refs| &&
      FixedItems(data, q, refs, id, n, acc) == FixedItems(data, item.next, item.refs, id, n - 1, acc + [item.value])
  {
  }

  lemma NoLengthItemsStep(data: seq<byte>, q: nat, refs: seq<DValue>, acc: seq<DValue>)
    requires !(q < |data| && data[q] == 0x7a)
    ensures DecodeAt(data, q, refs).Err? ==> NoLengthItems(data, q, refs, acc).Err?
    ensures DecodeAt(data, q, refs).Ok? ==>
      var item := DecodeAt(data, q, refs).value;
      NoLengthItems(data, q, refs, acc) == NoLengthItems(data, item.next, item.refs, acc + [item.value])
  {
  }

  // ---------------------------------------------------------------------
  // The decoder
  // ---------------------------------------------------------------------

  /** A method's value and new position are what the scalar reader's function gives. */
  predicate Gives(r: Result<DValue>, pos: nat, d: Result<(DValue, nat)>)
  {
    (r.Ok? <==> d.Ok?) && (d.Ok? ==> r.value == d.value.0 && pos == d.value.1)
  }

  /** A method's value, new position and new reference list are what the reader's function gives. */
  predicate Yields(r: Result<DValue>, pos: nat, refs: seq<DValue>, d: Result<Decoded>)
  {
    (r.Ok? <==> d.Ok?) && (d.Ok? ==> r.value == d.value.value && pos == d.value.next && refs == d.value.refs)
  }

  /**
   * The decoder: the input, the cursor into it and `refMap`, whose keys are
   * always 0 up to `refId`, so it is a list and `refId` its length.
   */
  class Decoder {
    var data: seq<byte>
    var pos: nat
    var refs: seq<DValue>

    constructor (buf: seq<byte>)
      ensures data == buf && pos == 0 && refs == []
    {
      data := buf;
      pos := 0;
      refs := [];
    }

    /** `init`: reads from a new buffer; the references are kept. */
    method Init(buf: seq<byte>)
      modifies this
      ensures data == buf && pos == 0 && refs == old(refs)
    {
      data := buf;
      pos := 0;
    }

    /** `clean`: an empty buffer and no references. */
    method Clean()
      modifies this
      ensures data == [] && pos == 0 && refs == []
    {
      data := [];
      pos := 0;
      refs := [];
    }

    /** `_addRef`: the object takes the next reference number. */
    method AddRef(v: DValue)
      modifies this
      ensures refs == old(refs) + [v] && refs[|old(refs)|] == v
      ensures data == old(data) && pos == old(pos)
    {
      refs := refs + [v];
    }

    /** The byte at `at` without moving, as `getChar(index)` reads it; none past the end. */
    function PeekAt(at: nat): (r: Option<byte>)
      reads this
      ensures r.Some? <==> at < |data|
      ensures r.Some? ==> r.value == data[at]
    {
      if at < |data| then Some(data[at]) else None
    }

    /** `get()`/`getChar()`: the next byte; the cursor moves on even past the end. */
    method GetByte() returns (r: Option<byte>)
      modifies this
      ensures r == PeekAt(old(pos)) && pos == old(pos) + 1
      ensures data == old(data) && refs == old(refs)
    {
      r := PeekAt(pos);
      pos := pos + 1;
    }

    /** `_checkLabel`. */
    method CheckLabel(labels: set<byte>, reader: string) returns (r: Result<byte>)
      modifies this
      ensures r == Label(data, old(pos), labels, reader) && pos == old(pos) + 1
      ensures data == old(data) && refs == old(refs)
    {
      var l := GetByte();
      if l.Some? && l.value in labels {
        r := Ok(l.value);
      } else {
        r := Err(LabelError(reader));
      }
    }

    method ReadNull() returns (r: Result<DValue>)
      modifies this
      ensures Gives(r, pos, ReadNullAt(data, old(pos)))
      ensures data == old(data) && refs == old(refs)
    {
      var l :- CheckLabel({0x4e}, "readNull");
      r := Ok(DNull);
    }

    method ReadBool() returns (r: Result<DValue>)
      modifies this
      ensures Gives(r, pos, ReadBoolAt(data, old(pos)))
      ensures data == old(data) && refs == old(refs)
    {
      var l :- CheckLabel({0x54, 0x46}, "readBool");
      r := Ok(DBool(l == 0x54));
    }

    method ReadInt() returns (r: Result<DValue>)
      modifies this
      ensures Gives(r, pos, ReadIntAt(data, old(pos)))
      ensures data == old(data) && refs == old(refs)
    {
      var l :- CheckLabel({0x49}, "readInt");
      var v :- Int32At(data, pos);
      pos := pos + 4;
      r := Ok(DInt(v));
    }

    method ReadLong() returns (r: Result<DValue>)
      modifies this
      ensures Gives(r, pos, ReadLongAt(data, old(pos)))
      ensures data == old(data) && refs == old(refs)
    {
      var l :- CheckLabel({0x4c}, "readLong");
      var v :- Int64At(data, pos);
      pos := pos + 8;
      r := Ok(DLong(Utils.HandleLong(v)));
    }

    method ReadDouble() returns (r: Result<DValue>)
      modifies this
      ensures Gives(r, pos, ReadDoubleAt(data, old(pos)))
      ensures data == old(data) && refs == old(refs)
    {
      var l :- CheckLabel({0x44}, "readDouble");
      var raw :- BytesAt(data, pos, 8);
      pos := pos + 8;
      r := Ok(DDouble(raw));
    }

    method ReadDate() returns (r: Result<DValue>)
      modifies this
      ensures Gives(r, pos, ReadDateAt(data, old(pos)))
      ensures data == old(data) && refs == old(refs)
    {
      var l :- CheckLabel({0x64}, "readDate");
      var v :- Int64At(data, pos);
      pos := pos + 8;
      r := Ok(DDate(Utils.HandleLong(v)));
    }

    /** One chunk of `readBytes` after its label: a 16-bit length and that many bytes. */
    method ReadChunk() returns (r: Result<seq<byte>>)
      modifies this
      ensures var len := UInt16At(data, old(pos));
        (r.Ok? <==> len.Ok? && old(pos) + 2 + len.value <= |data|) &&
        (r.Ok? ==> r.value == data[old(pos) + 2..old(pos) + 2 + len.value] && pos == old(pos) + 2 + len.value)
      ensures data == old(data) && refs == old(refs)
    {
      var len :- UInt16At(data, pos);
      var chunk :- BytesAt(data, pos + 2, len);
      pos := pos + 2 + len;
      r := Ok(chunk);
    }

    /** `readBytes`: the 'b' chunks in a loop, then the 'B' chunk, concatenated. */
    method ReadBytes() returns (r: Result<DValue>)
      modifies this
      ensures Gives(r, pos, ReadBytesAt(data, old(pos)))
      ensures data == old(data) && refs == old(refs)
    {
      hide BytesFrom, ReadBytesAt, UInt16At, Label, LabelError;
      BytesStart(data, pos);
      var tag :- CheckLabel({0x62, 0x42}, "readBytes");
      var bufs: seq<byte> := [];
      while tag == 0x62
        invariant data == old(data) && refs == old(refs)
        invariant BytesLoop(data, old(pos), pos, tag, bufs)
        decreases |data| - pos
      {
        BytesLoopFails(data, old(pos), pos, bufs);
        ghost var before, acc := pos, bufs;
        var chunk :- ReadChunk();
        bufs := bufs + chunk;
        tag :- CheckLabel({0x62, 0x42}, "readBytes");
        BytesLoopStep(data, old(pos), before, acc, pos, tag, bufs);
      }
      BytesLoopLast(data, old(pos), pos, bufs);
      var chunk :- ReadChunk();
      r := Ok(DBytes(bufs + chunk));
    }

    /** `_readUTF8String`: a count of code units, then their UTF-8 bytes. */
    method ReadUtf8String() returns (r: Result<Text>)
      modifies this
      ensures var d := Utf8ChunkAt(data, old(pos));
        (r.Ok? <==> d.Ok?) && (d.Ok? ==> r.value == d.value.0 && pos == d.value.1)
      ensures data == old(data) && refs == old(refs)
    {
      var len :- UInt16At(data, pos);
      pos := pos + 2;
      if len == 0 {
        return Ok([]);
      }
      var d :- DecodeUnits(data, pos, len);
      pos := pos + d.1;
      r := Ok(d.0);
    }

    /** `readString`: 's' chunks in a loop, then an 'S' chunk; any other code is an error. */
    method ReadString() returns (r: Result<DValue>)
      modifies this
      ensures Gives(r, pos, ReadStringAt(data, old(pos)))
      ensures data == old(data) && refs == old(refs)
    {
      var str: Text := [];
      var code := GetByte();
      while code == Some(0x73)
        invariant data == old(data) && refs == old(refs)
        invariant 0 < pos && code == PeekAt(pos - 1)
        invariant StringFrom(data, old(pos), []) == StringFrom(data, pos - 1, str)
        decreases Left(data, pos - 1)
      {
        StringStep(data, pos - 1, str);
        var chunk :- ReadUtf8String();
        str := str + chunk;
        code := GetByte();
      }
      if code != Some(0x53) {
        return Err(STRING_CODE_ERROR);
      }
      StringStep(data, pos - 1, str);
      var chunk :- ReadUtf8String();
      r := Ok(DStr(str + chunk));
    }

    /** `readType`: the type name's bytes are skipped (giving "") or taken. */
    method ReadType(skip: bool) returns (r: Result<DValue>)
      modifies this
      ensures Gives(r, pos, ReadTypeAt(data, old(pos), skip))
      ensures data == old(data) && refs == old(refs)
    {
      var l :- CheckLabel({0x74}, "readType");
      var len :- UInt16At(data, pos);
      pos := pos + 2;
      if skip {
        pos := pos + len;
        return Ok(DStr([]));
      }
      var t :- BytesAt(data, pos, len);
      pos := pos + len;
      r := Ok(DType(t));
    }

    /** `readLength`. */
    method ReadLength() returns (r: Result<nat>)
      modifies this
      ensures var d := ReadLengthAt(data, old(pos));
        (r.Ok? <==> d.Ok?) && (d.Ok? ==> r.value == d.value.0 && pos == d.value.1)
      ensures data == old(data) && refs == old(refs)
    {
      var l :- CheckLabel({0x6c}, "readLength");
      var n :- UInt32At(data, pos);
      pos := pos + 4;
      r := Ok(n);
    }

    /** `readRefId`. */
    method ReadRefId() returns (r: Result<int>)
      modifies this
      ensures var d := ReadRefIdAt(data, old(pos));
        (r.Ok? <==> d.Ok?) && (d.Ok? ==> r.value == d.value.0 && pos == d.value.1)
      ensures data == old(data) && refs == old(refs)
    {
      var l :- CheckLabel({0x52}, "readRef");
      var v :- Int32At(data, pos);
      pos := pos + 4;
      r := Ok(v);
    }

    /** `readRef`: the object registered under the id read. */
    method ReadRef() returns (r: Result<DValue>)
      modifies this
      ensures var d := ReadRefIdAt(data, old(pos));
        (r.Ok? <==> d.Ok?) && (d.Ok? ==> r.value == RefValue(refs, d.value.0) && pos == d.value.1)
      ensures data == old(data) && refs == old(refs)
    {
      var rid :- ReadRefId();
      r := Ok(RefValue(refs, rid));
    }

    /** `read`: the reader `BYTE_CODES` names for the byte at the cursor, or an error. */
    method Read() returns (r: Result<DValue>)
      modifies this
      ensures data == old(data)
      ensures Yields(r, pos, refs, DecodeAt(data, old(pos), old(refs)))
      decreases Left(data, pos), 3
    {
      var code := PeekAt(pos);
      if code.None? || code.value as int !in BYTE_CODES {
        return Err(UNEXPECTED_CODE);
      }
      match BYTE_CODES[code.value as int] {
        case OnNull => r := ReadNull();
        case OnBool => r := ReadBool();
        case OnInt => r := ReadInt();
        case OnLong => r := ReadLong();
        case OnDouble => r := ReadDouble();
        case OnDate => r := ReadDate();
        case OnBytes => r := ReadBytes();
        case OnString => r := ReadString();
        case OnType => r := ReadType(false);
        case OnLength =>
          var n :- ReadLength();
          r := Ok(DInt(n));
        case OnObject => r := ReadObject();
        case OnArray => r := ReadArray();
        case OnRef => r := ReadRef();
      }
    }

    /**
     * `readObject`: a sparse object when no type follows 'M'; otherwise the
     * object is registered first, then pairs are read until 'z', stepping
     * back over each label that is not 'z'.
     */
    method ReadObject() returns (r: Result<DValue>)
      modifies this
      ensures data == old(data)
      ensures Yields(r, pos, refs, ReadObjectAt(data, old(pos), old(refs)))
      decreases Left(data, pos), 2
    {
      hide DecodeAt, ReadObjectAt, ObjectFields, SparseFields, ReadArrayAt, FixedItems, NoLengthItems, ReadTypeAt, Put, IsOuterRef, Label, LabelError, Lookup;
      ObjectStart(data, pos, refs);
      var l :- CheckLabel({0x4d}, "readObject");
      if PeekAt(pos) != Some(0x74) {
        r := ReadSparseObject();
        return;
      }
      var t :- ReadType(false);
      AddRef(DMap([]));
      r := ReadFields(|refs| - 1);
    }

    /**
     * The loop of `readObject` over a typed object's pairs, until 'z',
     * stepping back over each label that is not 'z'; slot `id` then takes
     * the object.
     */
    method ReadFields(id: nat) returns (r: Result<DValue>)
      requires id < |refs|
      modifies this
      ensures data == old(data)
      ensures Yields(r, pos, refs, ObjectFields(data, old(pos), old(refs), id, []))
      decreases Left(data, pos), 4
    {
      hide DecodeAt, ReadObjectAt, ObjectFields, SparseFields, ReadArrayAt, FixedItems, NoLengthItems, Put, IsOuterRef, Lookup;
      var entries: seq<Entry> := [];
      var lab := GetByte();
      while lab != Some(0x7a)
        invariant data == old(data) && old(pos) < pos && lab == PeekAt(pos - 1) && id < |refs|
        invariant ObjectFields(data, old(pos), old(refs), id, []) == ObjectFields(data, pos - 1, refs, id, entries)
        decreases Left(data, pos - 1)
      {
        pos := pos - 1;
        ObjectFieldsStep(data, pos, refs, id, entries);
        var key :- Read();
        var value :- Read();
        lab := GetByte();
        if !IsOuterRef(key) {
          entries := Put(entries, key, value);
        }
      }
      ObjectFieldsStep(data, pos - 1, refs, id, entries);
      refs := refs[id := DMap(entries)];
      r := Ok(DMap(entries));
    }

    /** `_readSparseObject`: pairs until 'z', nothing registered. */
    method ReadSparseObject() returns (r: Result<DValue>)
      modifies this
      ensures data == old(data)
      ensures Yields(r, pos, refs, SparseFields(data, old(pos), old(refs), []))
      decreases Left(data, pos), 4
    {
      var entries: seq<Entry> := [];
      while PeekAt(pos) != Some(0x7a)
        invariant data == old(data) && old(pos) <= pos
        invariant SparseFields(data, old(pos), old(refs), []) == SparseFields(data, pos, refs, entries)
        decreases Left(data, pos)
      {
        SparseFieldsStep(data, pos, refs, entries);
        var key :- Read();
        var value :- Read();
        entries := Put(entries, key, value);
      }
      pos := pos + 1;
      r := Ok(DMap(entries));
    }

    /**
     * `readArray`: 'V', a type that is skipped, then with 'l' a registered
     * list of exactly the length read and an 'z' after it, or without it a
     * list read to 'z'.
     */
    method ReadArray() returns (r: Result<DValue>)
      modifies this
      ensures data == old(data)
      ensures Yields(r, pos, refs, ReadArrayAt(data, old(pos), old(refs)))
      decreases Left(data, pos), 2
    {
      hide DecodeAt, ReadObjectAt, ObjectFields, SparseFields, ReadArrayAt, FixedItems, NoLengthItems, Label, LabelError;
      ArrayStart(data, pos, refs);
      var l :- CheckLabel({0x56}, "readArray");
      if PeekAt(pos) == Some(0x74) {
        var t :- ReadType(true);
      }
      if PeekAt(pos) != Some(0x6c) {
        r := ReadNoLengthArray();
        return;
      }
      AddRef(DList([]));
      var n :- ReadLength();
      r := ReadItems(|refs| - 1, n);
    }

    /**
     * The loop of `readArray` over the `n` items of a list with a length,
     * then 'z'; slot `id` then takes the list.
     */
    method ReadItems(id: nat, n: nat) returns (r: Result<DValue>)
      requires id < |refs|
      modifies this
      ensures data == old(data)
      ensures Yields(r, pos, refs, FixedItems(data, old(pos), old(refs), id, n, []))
      decreases Left(data, pos), 4
    {
      hide DecodeAt, ReadObjectAt, ObjectFields, SparseFields, ReadArrayAt, FixedItems, NoLengthItems;
      var items: seq<DValue> := [];
      var count := n;
      while count > 0
        invariant data == old(data) && old(pos) <= pos && id < |refs|
        invariant FixedItems(data, old(pos), old(refs), id, n, []) == FixedItems(data, pos, refs, id, count, items)
      {
        FixedItemsStep(data, pos, refs, id, count, items);
        var item :- Read();
        items := items + [item];
        count := count - 1;
      }
      FixedItemsStep(data, pos, refs, id, 0, items);
      var end := GetByte();
      if end != Some(0x7a) {
        return Err(END_LABEL_ERROR);
      }
      refs := refs[id := DList(items)];
      r := Ok(DList(items));
    }

    /** `_readNoLengthArray`: values until 'z', nothing registered. */
    method ReadNoLengthArray() returns (r: Result<DValue>)
      modifies this
      ensures data == old(data)
      ensures Yields(r, pos, refs, NoLengthItems(data, old(pos), old(refs), []))
      decreases Left(data, pos), 4
    {
      var items: seq<DValue> := [];
      while PeekAt(pos) != Some(0x7a)
        invariant data == old(data) && old(pos) <= pos
        invariant NoLengthItems(data, old(pos), old(refs), []) == NoLengthItems(data, pos, refs, items)
        decreases Left(data, pos)
      {
        NoLengthItemsStep(data, pos, refs, items);
        var item :- Read();
        items := items + [item];
      }
      pos := pos + 1;
      r := Ok(DList(items));
    }
  }
}
