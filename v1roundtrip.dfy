/**
 * What the Hessian 1.0 encoder writes, the Hessian 1.0 decoder reads back:
 * each form, wherever it sits in the input, gives the value written and
 * the position just after it.
 */
module V1RoundTrip {
  import opened Bytes
  import opened Wrappers
  import opened Utf8
  import opened JsValues
  import opened ByteView
  import opened V1Encoder
  import opened V1Decoder
  import Utils

  /** `form` sits in `data` at `p`. */
  predicate Holds(data: seq<byte>, p: nat, form: seq<byte>)
  {
    p + |form| <= |data| && data[p..p + |form|] == form
  }

  /** A form made of `x` then `y` holds `x` at its start and `y` after it. */
  lemma HoldsSplit(data: seq<byte>, p: nat, x: seq<byte>, y: seq<byte>)
    requires Holds(data, p, x + y)
    ensures Holds(data, p, x) && Holds(data, p + |x|, y)
  {
    SliceSplit(data, p, x + y, x, y);
  }

  /** A form that begins with `b` has `b` at its position. */
  lemma HoldsHead(data: seq<byte>, p: nat, b: byte, rest: seq<byte>)
    requires Holds(data, p, [b] + rest)
    ensures p < |data| && data[p] == b
  {
    assert data[p..p + |[b] + rest|][0] == b;
  }

  // ---------------------------------------------------------------------
  // Scalars
  // ---------------------------------------------------------------------

  /** 'N' reads back as null. */
  lemma NullReadsBack(data: seq<byte>, p: nat, refs: seq<DValue>)
    requires Holds(data, p, NULL_BYTES)
    ensures ReadNullAt(data, p) == Ok((DNull, p + 1))
    ensures p < |data| && data[p] == 0x4e
    ensures DecodeAt(data, p, refs) == Ok(Decoded(DNull, p + 1, refs))
  {
    hide DecodeAt;
    HoldsHead(data, p, 0x4e, []);
    DecodeLeaf(data, p, refs);
  }

  /** 'T' and 'F' read back as the boolean written. */
  lemma BoolReadsBack(data: seq<byte>, p: nat, b: bool, refs: seq<DValue>)
    requires Holds(data, p, BoolBytes(b))
    ensures ReadBoolAt(data, p) == Ok((DBool(b), p + 1))
    ensures p < |data| && data[p] == if b then 0x54 else 0x46
    ensures DecodeAt(data, p, refs) == Ok(Decoded(DBool(b), p + 1, refs))
  {
    hide DecodeAt;
    HoldsHead(data, p, if b then 0x54 else 0x46, []);
    DecodeLeaf(data, p, refs);
  }

  /** 'I' and a 32-bit word read back as the int written. */
  lemma IntWordRead(data: seq<byte>, p: nat, v: int)
    requires InSigned(v, 4) && Holds(data, p, IntBytes(v))
    ensures p < |data| && data[p] == 0x49
    ensures ReadIntAt(data, p) == Ok((DInt(v), p + 5))
  {
    HoldsSplit(data, p, [0x49], BE(v, 4));
    HoldsHead(data, p, 0x49, []);
    Int32Written(data, p + 1, v);
  }

  /** An int written in 32 bits reads back as itself. */
  lemma IntReadsBack(data: seq<byte>, p: nat, v: int, refs: seq<DValue>)
    requires InSigned(v, 4) && Holds(data, p, IntBytes(v))
    ensures ReadIntAt(data, p) == Ok((DInt(v), p + 5))
    ensures p < |data| && data[p] == 0x49
    ensures DecodeAt(data, p, refs) == Ok(Decoded(DInt(v), p + 5, refs))
  {
    hide DecodeAt, ReadNullAt, ReadBoolAt, ReadIntAt, ReadLongAt, ReadDateAt, ReadBytesAt, ReadStringAt;
    IntWordRead(data, p, v);
    DecodeLeaf(data, p, refs);
  }

  /** 'L' and a 64-bit word read back through `handleLong`. */
  lemma LongWordRead(data: seq<byte>, p: nat, v: int)
    requires InSigned(v, 8) && Holds(data, p, LongBytes(v))
    ensures p < |data| && data[p] == 0x4c
    ensures ReadLongAt(data, p) == Ok((DLong(Utils.HandleLong(v)), p + 9))
  {
    hide Utils.HandleLong;
    HoldsSplit(data, p, [0x4c], BE(v, 8));
    HoldsHead(data, p, 0x4c, []);
    Int64Written(data, p + 1, v);
  }

  /** A long written in 64 bits reads back through `handleLong`. */
  lemma LongReadsBack(data: seq<byte>, p: nat, v: int, refs: seq<DValue>)
    requires InSigned(v, 8) && Holds(data, p, LongBytes(v))
    ensures ReadLongAt(data, p) == Ok((DLong(Utils.HandleLong(v)), p + 9))
    ensures p < |data| && data[p] == 0x4c
    ensures DecodeAt(data, p, refs) == Ok(Decoded(DLong(Utils.HandleLong(v)), p + 9, refs))
  {
    hide DecodeAt, ReadNullAt, ReadBoolAt, ReadIntAt, ReadLongAt, ReadDateAt, ReadBytesAt, ReadStringAt, Utils.HandleLong;
    LongWordRead(data, p, v);
    DecodeLeaf(data, p, refs);
  }

  /** 'd' and 64-bit milliseconds read back through `handleLong`. */
  lemma DateWordRead(data: seq<byte>, p: nat, ms: int)
    requires InSigned(ms, 8) && Holds(data, p, DateBytes(ms))
    ensures p < |data| && data[p] == 0x64
    ensures ReadDateAt(data, p) == Ok((DDate(Utils.HandleLong(ms)), p + 9))
  {
    hide Utils.HandleLong;
    HoldsSplit(data, p, [0x64], BE(ms, 8));
    HoldsHead(data, p, 0x64, []);
    Int64Written(data, p + 1, ms);
  }

  /** A date reads back as its milliseconds, through `handleLong`. */
  lemma DateReadsBack(data: seq<byte>, p: nat, ms: int, refs: seq<DValue>)
    requires InSigned(ms, 8) && Holds(data, p, DateBytes(ms))
    ensures ReadDateAt(data, p) == Ok((DDate(Utils.HandleLong(ms)), p + 9))
    ensures p < |data| && data[p] == 0x64
    ensures DecodeAt(data, p, refs) == Ok(Decoded(DDate(Utils.HandleLong(ms)), p + 9, refs))
  {
    hide DecodeAt, ReadNullAt, ReadBoolAt, ReadIntAt, ReadLongAt, ReadDateAt, ReadBytesAt, ReadStringAt, Utils.HandleLong;
    DateWordRead(data, p, ms);
    DecodeLeaf(data, p, refs);
  }

  /** A reference reads back as the number written. */
  lemma RefReadsBack(data: seq<byte>, p: nat, id: int)
    requires InSigned(id, 4) && Holds(data, p, RefBytes(id))
    ensures ReadRefIdAt(data, p) == Ok((id, p + 5))
    ensures p < |data| && data[p] == 0x52
  {
    HoldsSplit(data, p, [0x52], BE(id, 4));
    HoldsHead(data, p, 0x52, []);
    Int32Written(data, p + 1, id);
  }

  // ---------------------------------------------------------------------
  // Chunked forms
  // ---------------------------------------------------------------------

  /** A 16-bit length written in a chunk header reads back as itself. */
  lemma ChunkHeader(data: seq<byte>, p: nat, tag: byte, n: nat, rest: seq<byte>)
    requires n < 0x1_0000 && Holds(data, p, [tag] + BE(n, 2) + rest)
    ensures p < |data| && data[p] == tag
    ensures UInt16At(data, p + 1) == Ok(n)
    ensures Holds(data, p + 3, rest)
  {
    HoldsSplit(data, p, [tag] + BE(n, 2), rest);
    HoldsSplit(data, p, [tag], BE(n, 2));
    HoldsHead(data, p, tag, []);
    UInt16Written(data, p + 1, n);
  }

  /** One full 'b' chunk of a byte array: its bytes are appended and reading goes on after it. */
  lemma BytesChunkNext(data: seq<byte>, p: nat, b: seq<byte>, acc: seq<byte>) returns (q: nat)
    requires |b| > MAX_BYTE_TRUNK_SIZE && Holds(data, p, BytesForm(b))
    ensures Holds(data, q, BytesForm(b[MAX_BYTE_TRUNK_SIZE..]))
    ensures q + |BytesForm(b[MAX_BYTE_TRUNK_SIZE..])| == p + |BytesForm(b)|
    ensures BytesFrom(data, p, acc) == BytesFrom(data, q, acc + b[..MAX_BYTE_TRUNK_SIZE])
  {
    var head := [0x62] + BE(MAX_BYTE_TRUNK_SIZE, 2) + b[..MAX_BYTE_TRUNK_SIZE];
    var rest := BytesForm(b[MAX_BYTE_TRUNK_SIZE..]);
    assert BytesForm(b) == head + rest;
    hide BytesForm, BytesFrom;
    q := p + |head|;
    HoldsSplit(data, p, head, rest);
    ChunkHeader(data, p, 0x62, MAX_BYTE_TRUNK_SIZE, b[..MAX_BYTE_TRUNK_SIZE]);
    BytesStep(data, p, acc);
  }

  /** The last chunk of a byte array: 'B' and the rest of the bytes. */
  lemma BytesChunkLast(data: seq<byte>, p: nat, b: seq<byte>, acc: seq<byte>)
    requires |b| <= MAX_BYTE_TRUNK_SIZE && Holds(data, p, BytesForm(b))
    ensures BytesFrom(data, p, acc) == Ok((acc + b, p + |BytesForm(b)|))
  {
    assert BytesForm(b) == [0x42] + BE(|b|, 2) + b;
    hide BytesForm, BytesFrom;
    ChunkHeader(data, p, 0x42, |b|, b);
    BytesStep(data, p, acc);
  }

  /** The chunks of a byte array, after `acc`, read back as `acc` and the array. */
  lemma {:induction false} BytesFromForm(data: seq<byte>, p: nat, b: seq<byte>, acc: seq<byte>)
    requires Holds(data, p, BytesForm(b))
    ensures BytesFrom(data, p, acc) == Ok((acc + b, p + |BytesForm(b)|))
    decreases |b|
  {
    hide BytesForm, BytesFrom;
    if |b| > MAX_BYTE_TRUNK_SIZE {
      var q := BytesChunkNext(data, p, b, acc);
      BytesFromForm(data, q, b[MAX_BYTE_TRUNK_SIZE..], acc + b[..MAX_BYTE_TRUNK_SIZE]);
      assert acc + b[..MAX_BYTE_TRUNK_SIZE] + b[MAX_BYTE_TRUNK_SIZE..] == acc + b by {
        assert b[..MAX_BYTE_TRUNK_SIZE] + b[MAX_BYTE_TRUNK_SIZE..] == b;
      }
    } else {
      BytesChunkLast(data, p, b, acc);
    }
  }

  /** `writeBytes` reads back through `readBytes`. */
  lemma BytesReadsBack(data: seq<byte>, p: nat, b: seq<byte>, refs: seq<DValue>)
    requires Holds(data, p, BytesForm(b))
    ensures ReadBytesAt(data, p) == Ok((DBytes(b), p + |BytesForm(b)|))
    ensures p < |data| && (data[p] == 0x62 || data[p] == 0x42)
    ensures DecodeAt(data, p, refs) == Ok(Decoded(DBytes(b), p + |BytesForm(b)|, refs))
  {
    hide DecodeAt, BytesFrom, BytesForm;
    BytesFromForm(data, p, b, []);
    assert [] + b == b;
    BytesFormHead(b);
    HoldsHead(data, p, BytesForm(b)[0], BytesForm(b)[1..]);
    DecodeLeaf(data, p, refs);
  }

  /** One chunk of a string: its count and its raw bytes read back as its code units. */
  lemma Utf8ChunkForm(data: seq<byte>, p: nat, tag: byte, s: Text, rest: seq<byte>)
    requires |s| < 0x1_0000 && Holds(data, p, [tag] + BE(|s|, 2) + RawString(s) + rest)
    ensures p < |data| && data[p] == tag
    ensures Utf8ChunkAt(data, p + 1) == Ok((s, p + 3 + |RawString(s)|))
    ensures Holds(data, p + 3 + |RawString(s)|, rest)
  {
    hide StringForm, DecodeUnits;
    Assoc([tag] + BE(|s|, 2), RawString(s), rest);
    ChunkHeader(data, p, tag, |s|, RawString(s) + rest);
    HoldsSplit(data, p + 3, RawString(s), rest);
    if s != [] {
      DecodeRawString(data, p + 3, s);
    }
  }

  /** A string chunk that is not the last: 's', then the chunks of the rest. */
  lemma StringChunkNext(data: seq<byte>, p: nat, s: Text, acc: Text) returns (q: nat)
    requires |s| > Utils.MAX_CHAR_TRUNK_SIZE && Holds(data, p, StringForm(s))
    ensures Holds(data, q, StringForm(s[ChunkLen(s)..]))
    ensures q + |StringForm(s[ChunkLen(s)..])| == p + |StringForm(s)|
    ensures StringFrom(data, p, acc) == StringFrom(data, q, acc + s[..ChunkLen(s)])
  {
    var n := ChunkLen(s);
    var rest := StringForm(s[n..]);
    assert StringForm(s) == [0x73] + BE(n, 2) + RawString(s[..n]) + rest;
    hide StringForm, StringFrom, RawString, Utf8ChunkAt, ChunkLen;
    q := p + 3 + |RawString(s[..n])|;
    Utf8ChunkForm(data, p, 0x73, s[..n], rest);
    StringStep(data, p, acc);
  }

  /** The last string chunk: 'S' and the rest of the string. */
  lemma StringChunkLast(data: seq<byte>, p: nat, s: Text, acc: Text)
    requires |s| <= Utils.MAX_CHAR_TRUNK_SIZE && Holds(data, p, StringForm(s))
    ensures StringFrom(data, p, acc) == Ok((acc + s, p + |StringForm(s)|))
  {
    assert StringForm(s) == [0x53] + BE(|s|, 2) + RawString(s) + [];
    hide StringForm, StringFrom, RawString, Utf8ChunkAt;
    Utf8ChunkForm(data, p, 0x53, s, []);
    StringStep(data, p, acc);
  }

  /** The chunks of a string, after `acc`, read back as `acc` and the string. */
  lemma {:induction false} StringFromForm(data: seq<byte>, p: nat, s: Text, acc: Text)
    requires Holds(data, p, StringForm(s))
    ensures StringFrom(data, p, acc) == Ok((acc + s, p + |StringForm(s)|))
    decreases |s|
  {
    hide StringForm, StringFrom, ChunkLen, RawString;
    if |s| > Utils.MAX_CHAR_TRUNK_SIZE {
      var q := StringChunkNext(data, p, s, acc);
      var n := ChunkLen(s);
      StringFromForm(data, q, s[n..], acc + s[..n]);
      assert acc + s[..n] + s[n..] == acc + s by {
        assert s[..n] + s[n..] == s;
      }
    } else {
      StringChunkLast(data, p, s, acc);
    }
  }

  /** `writeString` reads back through `readString`. */
  lemma StringReadsBack(data: seq<byte>, p: nat, s: Text, refs: seq<DValue>)
    requires Holds(data, p, StringForm(s))
    ensures ReadStringAt(data, p) == Ok((DStr(s), p + |StringForm(s)|))
    ensures p < |data| && (data[p] == 0x73 || data[p] == 0x53)
    ensures DecodeAt(data, p, refs) == Ok(Decoded(DStr(s), p + |StringForm(s)|, refs))
  {
    hide DecodeAt, StringForm, RawString, StringFrom;
    StringFromForm(data, p, s, []);
    assert [] + s == s;
    StringFormHead(s);
    HoldsHead(data, p, StringForm(s)[0], StringForm(s)[1..]);
    DecodeLeaf(data, p, refs);
  }

  // ---------------------------------------------------------------------
  // Types
  // ---------------------------------------------------------------------

  /** A type name whose code units are all ASCII reads back as its bytes. */
  lemma TypeReadsBack(data: seq<byte>, p: nat, t: Text)
    requires |t| < 0x1_0000 && |RawString(t)| == |t| && Holds(data, p, TypeBytes(t))
    ensures ReadTypeAt(data, p, false) == Ok((DType(RawString(t)), p + 3 + |t|))
    ensures ReadTypeAt(data, p, true) == Ok((DStr([]), p + 3 + |t|))
  {
    ChunkHeader(data, p, 0x74, |t|, RawString(t));
  }

  /**
   * `writeType` counts code units and `readType` takes that many bytes: a
   * type name with one non-ASCII character ("é") loses its last byte and
   * leaves the cursor inside the name.
   */
  lemma TypeCountMismatch()
    ensures TypeBytes([0xe9]) == [0x74, 0x00, 0x01, 0xc3, 0xa9]
    ensures ReadTypeAt([0x74, 0x00, 0x01, 0xc3, 0xa9], 0, false) == Ok((DType([0xc3]), 4))
  {
    assert BE(1, 2) == [0x00, 0x01];
    assert RawString([0xe9]) == [0xc3, 0xa9] by {
      assert EncodeUnit(0xe9) == [0xc3, 0xa9];
      assert Concat([0xe9], EncodeUnit) == EncodeUnit(0xe9) + Concat([], EncodeUnit);
    }
    var data: seq<byte> := [0x74, 0x00, 0x01, 0xc3, 0xa9];
    UInt16Written(data, 1, 1);
    assert data[3..4] == [0xc3];
  }

  // ---------------------------------------------------------------------
  // Whole values
  // ---------------------------------------------------------------------

  /** A value `write` writes without touching the object list: no object, save the ones it writes as null. */
  predicate Flat(v: JsValue)
  {
    match v
    case Null => true
    case Bool(_) => true
    case Number(n) => InSigned(n, 8)
    case Str(_) => true
    case LongObj(n) => InSigned(n, 8)
    case Date(ms) => InSigned(ms, 8)
    case Buffer(_) => true
    case ClassedNull(_, cls) => !ArrayClass(cls)
    case Plain(_, fields) => NullShaped(fields)
    case _ => false
  }

  /** What `read` gives back for a flat value. */
  function Expected(v: JsValue): (d: DValue)
    requires Flat(v)
  {
    match v
    case Null => DNull
    case Bool(b) => DBool(b)
    case Number(n) => if InSigned(n, 4) then DInt(n) else DLong(Utils.HandleLong(n))
    case Str(s) => DStr(s)
    case LongObj(n) => DLong(Utils.HandleLong(n))
    case Date(ms) => DDate(Utils.HandleLong(ms))
    case Buffer(b) => DBytes(b)
    case ClassedNull(_, _) => DNull
    case Plain(_, _) => DNull
  }

  /**
   * `read` gives back what `write` wrote for a flat value: ints of 32 bits
   * as ints, other numbers through `handleLong`, the rest as themselves;
   * no reference is registered.
   */
  lemma FlatReadsBack(data: seq<byte>, p: nat, refs: seq<DValue>, v: JsValue, objects: seq<nat>)
    requires Flat(v) && Holds(data, p, Encode(v, objects).bytes)
    ensures Encode(v, objects).objects == objects
    ensures DecodeAt(data, p, refs) == Ok(Decoded(Expected(v), p + |Encode(v, objects).bytes|, refs))
  {
    hide DecodeAt, Encode, Expected;
    if v.Number? {
      NumberReadsBack(data, p, refs, v, objects);
    } else if v.LongObj? || v.Date? {
      StampReadsBack(data, p, refs, v, objects);
    } else {
      PlainReadsBack(data, p, refs, v, objects);
    }
  }

  /** Numbers in `FlatReadsBack`: an int when they fit 32 bits, a long otherwise. */
  lemma NumberReadsBack(data: seq<byte>, p: nat, refs: seq<DValue>, v: JsValue, objects: seq<nat>)
    requires Flat(v) && v.Number? && Holds(data, p, Encode(v, objects).bytes)
    ensures Encode(v, objects).objects == objects
    ensures DecodeAt(data, p, refs) == Ok(Decoded(Expected(v), p + |Encode(v, objects).bytes|, refs))
  {
    hide DecodeAt, ReadIntAt, ReadLongAt, ReadDateAt, EncodeList, EncodeMap, Utils.HandleLong;
    var e := Encode(v, objects);
    var d := Expected(v);
    if InSigned(v.n, 4) {
      assert e == Out(IntBytes(v.n), objects) && d == DInt(v.n);
      IntReadsBack(data, p, v.n, refs);
    } else {
      assert e == Out(LongBytes(v.n), objects) && d == DLong(Utils.HandleLong(v.n));
      LongReadsBack(data, p, v.n, refs);
    }
  }

  /** `Long` objects and dates in `FlatReadsBack`: 64-bit values through `handleLong`. */
  lemma StampReadsBack(data: seq<byte>, p: nat, refs: seq<DValue>, v: JsValue, objects: seq<nat>)
    requires Flat(v) && (v.LongObj? || v.Date?) && Holds(data, p, Encode(v, objects).bytes)
    ensures Encode(v, objects).objects == objects
    ensures DecodeAt(data, p, refs) == Ok(Decoded(Expected(v), p + |Encode(v, objects).bytes|, refs))
  {
    hide DecodeAt, ReadIntAt, ReadLongAt, ReadDateAt, EncodeList, EncodeMap, Utils.HandleLong;
    var e := Encode(v, objects);
    var d := Expected(v);
    if v.LongObj? {
      assert e == Out(LongBytes(v.v), objects) && d == DLong(Utils.HandleLong(v.v));
      LongReadsBack(data, p, v.v, refs);
    } else {
      assert e == Out(DateBytes(v.ms), objects) && d == DDate(Utils.HandleLong(v.ms));
      DateReadsBack(data, p, v.ms, refs);
    }
  }

  /** The other half of `FlatReadsBack`: null, booleans, strings and buffers. */
  lemma PlainReadsBack(data: seq<byte>, p: nat, refs: seq<DValue>, v: JsValue, objects: seq<nat>)
    requires Flat(v) && !(v.Number? || v.LongObj? || v.Date?) && Holds(data, p, Encode(v, objects).bytes)
    ensures Encode(v, objects).objects == objects
    ensures DecodeAt(data, p, refs) == Ok(Decoded(Expected(v), p + |Encode(v, objects).bytes|, refs))
  {
    hide DecodeAt, ReadNullAt, ReadBoolAt, ReadBytesAt, ReadStringAt,
      StringForm, BytesForm, EncodeList, EncodeMap, Utils.HandleLong;
    var e := Encode(v, objects);
    var d := Expected(v);
    if v.Null? || v.ClassedNull? || v.Plain? {
      assert e == Out(NULL_BYTES, objects) && d == DNull;
      NullReadsBack(data, p, refs);
    } else if v.Bool? {
      assert e == Out(BoolBytes(v.b), objects) && d == DBool(v.b);
      BoolReadsBack(data, p, v.b, refs);
    } else if v.Str? {
      assert e == Out(StringForm(v.s), objects) && d == DStr(v.s);
      StringReadsBack(data, p, v.s, refs);
    } else {
      assert e == Out(BytesForm(v.bytes), objects) && d == DBytes(v.bytes);
      BytesReadsBack(data, p, v.bytes, refs);
    }
  }

  /** A string form starts with 's' or 'S'. */
  lemma StringFormHead(s: Text)
    ensures |StringForm(s)| > 0 && (StringForm(s)[0] == 0x73 || StringForm(s)[0] == 0x53)
  {
  }

  /** A bytes form starts with 'b' or 'B'. */
  lemma BytesFormHead(b: seq<byte>)
    ensures |BytesForm(b)| > 0 && (BytesForm(b)[0] == 0x62 || BytesForm(b)[0] == 0x42)
  {
  }

  // ---------------------------------------------------------------------
  // Lists and references
  // ---------------------------------------------------------------------

  /** Every item is flat. */
  predicate AllFlat(items: seq<JsValue>)
  {
    forall i :: 0 <= i < |items| ==> Flat(items[i])
  }

  /** What `read` gives back for each of a list's flat items. */
  function ExpectedAll(items: seq<JsValue>): (r: seq<DValue>)
    requires AllFlat(items)
    ensures |r| == |items|
    ensures forall i :: 0 <= i < |items| ==> r[i] == Expected(items[i])
  {
    if items == [] then [] else [Expected(items[0])] + ExpectedAll(items[1..])
  }

  /** A 32-bit length written after 'l' reads back as itself. */
  lemma LengthReadsBack(data: seq<byte>, p: nat, n: nat)
    requires n < TWO32 && Holds(data, p, [0x6c] + BE(n, 4))
    ensures ReadLengthAt(data, p) == Ok((n, p + 5))
  {
    HoldsSplit(data, p, [0x6c], BE(n, 4));
    HoldsHead(data, p, 0x6c, []);
    assert data[p + 1..p + 5] == BE(n, 4);
    Pow256Values();
    UnsignedBE(n, 4);
  }

  /**
   * The flat items of a list and the 'z' after them read back, after
   * `acc`, as their expected values; slot `id` then takes the list.
   */
  lemma {:induction false} ItemsReadBack(data: seq<byte>, q: nat, refs: seq<DValue>, id: nat,
                                         items: seq<JsValue>, objects: seq<nat>, acc: seq<DValue>)
    requires id < |refs| && AllFlat(items)
    requires Holds(data, q, EncodeItems(items, objects).bytes + [0x7a])
    ensures EncodeItems(items, objects).objects == objects
    ensures FixedItems(data, q, refs, id, |items|, acc) ==
      Ok(Decoded(DList(acc + ExpectedAll(items)), q + |EncodeItems(items, objects).bytes| + 1,
        refs[id := DList(acc + ExpectedAll(items))]))
    decreases |items|
  {
    hide DecodeAt, FixedItems, Encode, ExpectedAll, Expected;
    if items == [] {
      assert EncodeItems(items, objects).bytes == [];
      HoldsHead(data, q, 0x7a, []);
      FixedItemsStep(data, q, refs, id, 0, acc);
      assert acc + ExpectedAll(items) == acc;
    } else {
      var head := Encode(items[0], objects);
      var rest := EncodeItems(items[1..], head.objects);
      assert EncodeItems(items, objects) == Out(head.bytes + rest.bytes, rest.objects);
      Assoc(head.bytes, rest.bytes, [0x7a]);
      HoldsSplit(data, q, head.bytes, rest.bytes + [0x7a]);
      FlatReadsBack(data, q, refs, items[0], objects);
      FixedItemsStep(data, q, refs, id, |items|, acc);
      ItemsReadBack(data, q + |head.bytes|, refs, id, items[1..], objects, acc + [Expected(items[0])]);
      assert acc + [Expected(items[0])] + ExpectedAll(items[1..]) == acc + ExpectedAll(items);
    }
  }

  /**
   * A list seen for the first time, without a class and with flat items,
   * reads back as the list of their expected values, registered as the
   * next reference, just as the encoder registers it as its next object.
   */
  lemma ListReadsBack(data: seq<byte>, p: nat, refs: seq<DValue>, id: nat, items: seq<JsValue>, objects: seq<nat>)
    requires IndexOf(objects, id) < 0 && AllFlat(items) && |items| < TWO32
    requires Holds(data, p, EncodeList(id, [], items, objects).bytes)
    ensures EncodeList(id, [], items, objects).objects == objects + [id]
    ensures DecodeAt(data, p, refs) == Ok(Decoded(DList(ExpectedAll(items)),
      p + |EncodeList(id, [], items, objects).bytes|, refs + [DList(ExpectedAll(items))]))
  {
    hide DecodeAt, FixedItems, Encode, EncodeItems, ExpectedAll, ReadArrayAt, ReadLengthAt;
    var body := EncodeItems(items, objects + [id]);
    assert EncodeList(id, [], items, objects) == Out(ListBegin(|items|, []) + body.bytes + [0x7a], body.objects);
    assert ListBegin(|items|, []) == [0x56] + ([0x6c] + BE(|items|, 4));
    Assoc(ListBegin(|items|, []), body.bytes, [0x7a]);
    HoldsSplit(data, p, ListBegin(|items|, []), body.bytes + [0x7a]);
    HoldsSplit(data, p, [0x56], [0x6c] + BE(|items|, 4));
    HoldsHead(data, p, 0x56, []);
    HoldsHead(data, p + 1, 0x6c, BE(|items|, 4));
    LengthReadsBack(data, p + 1, |items|);
    DecodeNode(data, p, refs);
    ArrayStart(data, p, refs);
    ItemsReadBack(data, p + 6, refs + [DList([])], |refs|, items, objects + [id], []);
    assert [] + ExpectedAll(items) == ExpectedAll(items);
    assert (refs + [DList([])])[|refs| := DList(ExpectedAll(items))] == refs + [DList(ExpectedAll(items))];
  }

  /**
   * A map or list written a second time is a reference to its place in the
   * encoder's object list; when the decoder's references are numbered the
   * same way, it reads back as the object registered there.
   */
  lemma RepeatReadsBack(data: seq<byte>, p: nat, refs: seq<DValue>, v: JsValue, objects: seq<nat>)
    requires v.Array? || (v.Plain? && !NullShaped(v.fields)) || v.Classed? || v.ClassedArray?
    requires IndexOf(objects, v.id) >= 0
    requires |objects| <= |refs| && |objects| < TWO32 / 2
    requires Holds(data, p, Encode(v, objects).bytes)
    ensures Encode(v, objects) == Out(RefBytes(IndexOf(objects, v.id)), objects)
    ensures DecodeAt(data, p, refs) == Ok(Decoded(refs[IndexOf(objects, v.id)], p + 5, refs))
  {
    hide DecodeAt, ReadRefIdAt, EncodeItems, EncodeMapBody, NullShaped, MapType;
    var i := IndexOf(objects, v.id);
    if v.Plain? || v.Classed? {
      assert Encode(v, objects) == EncodeWriteObject(v, objects) == EncodeMap(v.id, MapType(v), v.fields, objects);
    }
    assert Encode(v, objects) == Out(RefBytes(i), objects);
    assert InSigned(i, 4);
    RefReadsBack(data, p, i);
    DecodeNode(data, p, refs);
  }
}
