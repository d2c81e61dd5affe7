/**
 * The reader of the tagged output stream on the JavaScript side (`start()`
 * of the harness): it walks the records the transcoder wrote, rebuilds the
 * values, keeps a pool of the arrays and objects met so far for reference
 * records, and builds maps and objects from the shapes in the shape cache.
 */
module TagReader {
  import opened Bytes
  import opened Wrappers
  import opened Types
  import opened Utf8
  import Output
  import Harness

  const RANGE_ERROR: string := "offset is outside the bounds of the DataView"
  const UNKNOWN_TYPE: string := "unknown type"
  const NEED_TYPE: string := "need type"
  const CHUNK_TYPE: string := "error chunk type"
  const NOT_A_FUNCTION: string := "object shape is not a function"
  const NOT_A_BUFFER: string := "chunk part is not a Buffer"
  const NOT_A_STRING: string := "chunk part is not a string"

  /** A value the reader builds. Arrays and objects carry their index in the reference pool. */
  datatype JsValue =
    | JsNull
    | JsUndefined
    | JsBool(b: bool)
    | JsInt(i: int)
    | JsLong(l: int)
    | JsDouble(bits: nat)
    | JsDate(ms: int)
    | JsString(units: seq<unit16>)
    | JsBytes(bytes: seq<byte>)
    | JsArray(ref: nat, elems: seq<JsValue>)
    | JsObject(ref: nat, fields: seq<Field>)
    | JsRef(id: nat)

  /** A property name: a key of the shape, or the value read for an object or reference key. */
  datatype Key = Named(name: seq<byte>) | Computed(key: JsValue)

  datatype Field = Field(key: Key, value: JsValue)

  // ---------------------------------------------------------------------
  // Little-endian reads through the DataView (out of range: a RangeError)
  // ---------------------------------------------------------------------

  function U8At(out: seq<byte>, at: int): (r: Result<byte>)
  {
    if 0 <= at < |out| then Ok(out[at]) else Err(RANGE_ERROR)
  }

  function U32At(out: seq<byte>, at: int): (r: Result<nat>)
  {
    if 0 <= at && at + 4 <= |out| then Ok(FromLE(out[at..at + 4])) else Err(RANGE_ERROR)
  }

  /** String.prototype.substring with non-negative bounds: clamped to the string, swapped when reversed. */
  function Substring(s: seq<unit16>, a: nat, b: nat): seq<unit16>
  {
    var lo := if a <= b then a else b;
    var hi := if a <= b then b else a;
    var lo' := if lo <= |s| then lo else |s|;
    var hi' := if hi <= |s| then hi else |s|;
    s[lo'..hi']
  }

  /** Buffer.prototype.slice: clamped to the buffer, empty when the end is before the start. */
  function BufferSlice(s: seq<byte>, a: nat, b: nat): seq<byte>
  {
    var lo := if a <= |s| then a else |s|;
    var hi := if b <= |s| then b else |s|;
    if hi <= lo then [] else s[lo..hi]
  }

  /** An input byte, or 0 past the end (`undefined & 0x3f` is 0). */
  function ByteOr0(input: seq<byte>, i: nat): byte
  {
    if i < |input| then input[i] else 0
  }

  /**
   * `readUtf8SurrogateString`'s decoding of the input range `[c, end)`: one
   * code unit per 1/2/3-byte sequence, continuation bytes past the input
   * read as 0, and any other lead byte (or a lead byte past the input)
   * throws.
   */
  function RangeUnits(input: seq<byte>, c: nat, end: nat): (r: Result<seq<unit16>>)
    decreases end - c
  {
    if c >= end then Ok([])
    else if c >= |input| || LeadWidth(input[c]) == 0 then Err(NOT_UTF8)
    else
      var w := LeadWidth(input[c]);
      var u := RangeUnit(input, c, w);
      match RangeUnits(input, c + w, end)
      case Ok(rest) => Ok([u] + rest)
      case Err(e) => Err(e)
  }

  /** The code unit of the `w`-byte sequence at `c`, continuation bytes past the input read as 0. */
  function RangeUnit(input: seq<byte>, c: nat, w: nat): unit16
    requires c < |input| && 1 <= w <= 3
  {
    if w == 1 then input[c] as unit16
    else if w == 2 then Unit2(input[c], ByteOr0(input, c + 1))
    else Unit3(input[c], ByteOr0(input, c + 1), ByteOr0(input, c + 2))
  }

  /**
   * The JavaScript decoder agrees with the transcoder's checked decoder:
   * the byte range the transcoder consumed for `n` characters decodes to
   * the same code units.
   */
  lemma {:induction false} RangeOfDecoded(data: seq<byte>, pos: nat, n: nat)
    requires DecodeUnits(data, pos, n).Ok?
    ensures RangeUnits(data, pos, pos + DecodeUnits(data, pos, n).value.1) == Ok(DecodeUnits(data, pos, n).value.0)
    decreases n
  {
    if n > 0 {
      var w := LeadWidth(data[pos]);
      RangeOfDecoded(data, pos + w, n - 1);
      assert RangeUnit(data, pos, w) == UnitOf(data, pos, w);
    }
  }

  /** A string written one code unit at a time comes back whole. */
  lemma RangeOfRaw(data: seq<byte>, pos: nat, s: seq<unit16>)
    requires pos + |RawString(s)| <= |data| && data[pos..pos + |RawString(s)|] == RawString(s)
    ensures RangeUnits(data, pos, pos + |RawString(s)|) == Ok(s)
  {
    DecodeRawString(data, pos, s);
    RangeOfDecoded(data, pos, |s|);
  }

  /** Loop state of the surrogate-string decoder: `units` decoded from `start` up to `c`. */
  predicate RangeSoFar(input: seq<byte>, start: nat, end: nat, c: nat, units: seq<unit16>)
  {
    var whole := RangeUnits(input, start, end);
    var rest := RangeUnits(input, c, end);
    (whole.Ok? <==> rest.Ok?) && (whole.Ok? ==> whole.value == units + rest.value)
  }

  /** Decoding one more sequence keeps the loop state. */
  lemma RangeStep(input: seq<byte>, start: nat, end: nat, c: nat, units: seq<unit16>, c': nat, units': seq<unit16>)
    requires RangeSoFar(input, start, end, c, units)
    requires c < end && c < |input| && LeadWidth(input[c]) != 0
    requires c' == c + LeadWidth(input[c]) && units' == units + [RangeUnit(input, c, LeadWidth(input[c]))]
    ensures RangeSoFar(input, start, end, c', units')
  {
    var rest := RangeUnits(input, c', end);
    if rest.Ok? {
      assert units' + rest.value == units + ([RangeUnit(input, c, LeadWidth(input[c]))] + rest.value);
    }
  }

  // ---------------------------------------------------------------------
  // Fixed-width records
  // ---------------------------------------------------------------------

  /** Tags whose record has a fixed width and no nested records. */
  predicate IsScalarTag(tag: byte)
  {
    tag == 3 || tag == 4 || tag == 5 || tag == 6 || tag == 9 || tag == 10 || tag == 11 ||
    tag == 12 || tag == 13 || tag == 16 || tag == 17
  }

  /** The tags `read` dispatches on; the trailer tags 7 and 8 are not among them. */
  predicate IsKnownTag(tag: byte)
  {
    1 <= tag <= 17 && tag != 7 && tag != 8
  }

  /** The payload width of a fixed-width record. */
  function ScalarWidth(tag: byte): nat
  {
    if tag == 3 then 0 else if tag == 5 then 1 else if tag == 6 || tag == 12 then 4 else 8
  }

  /**
   * What `read` returns for a fixed-width record whose payload starts at
   * `pos`, and where the cursor ends: null; a bool from one byte; a signed
   * 32-bit int; a 64-bit double, long or date; a reference looked up in the
   * pool (undefined when out of range); an input slice; a substring of a
   * string pool; or a decoded input range.
   */
  function Scalar(out: seq<byte>, input: seq<byte>, latin1: seq<unit16>, ucs2: seq<unit16>, refCount: nat,
                  tag: byte, pos: nat): (r: Result<(JsValue, nat)>)
    requires IsScalarTag(tag)
    ensures r.Ok? ==> r.value.1 == pos + ScalarWidth(tag) <= |out|
    ensures pos + ScalarWidth(tag) <= |out| && tag != 16 ==> r.Ok?
  {
    if pos + ScalarWidth(tag) > |out| then Err(RANGE_ERROR)
    else
      var next := pos + ScalarWidth(tag);
      if tag == 3 then Ok((JsNull, next))
      else if tag == 5 then Ok((JsBool(out[pos] != 0), next))
      else if tag == 6 then Ok((JsInt(Signed(FromLE(out[pos..pos + 4]), 4)), next))
      else if tag == 12 then
        var id := Signed(FromLE(out[pos..pos + 4]), 4);
        Ok((if 0 <= id < refCount then JsRef(id) else JsUndefined, next))
      else if tag == 9 then Ok((JsDouble(FromLE(out[pos..pos + 8])), next))
      else if tag == 10 then Ok((JsLong(Signed(FromLE(out[pos..pos + 8]), 8)), next))
      else if tag == 11 then Ok((JsDate(Signed(FromLE(out[pos..pos + 8]), 8)), next))
      else
        var a := FromLE(out[pos..pos + 4]);
        var b := FromLE(out[pos + 4..pos + 8]);
        if tag == 13 then Ok((JsBytes(BufferSlice(input, a, a + b)), next))
        else if tag == 17 then Ok((JsString(Substring(latin1, a, b)), next))
        else if tag == 4 then Ok((JsString(Substring(ucs2, a, b)), next))
        else
          match RangeUnits(input, a, b)
          case Ok(units) => Ok((JsString(units), next))
          case Err(e) => Err(e)
  }

  /** Records of fixed width, with their numbers within the widths the writer gives them. */
  predicate ScalarRecord(rec: Output.Record)
  {
    match rec
    case NullRec => true
    case BoolRec(_) => true
    case IntRec(v) => InSigned(v, 4)
    case RefRec(v) => InSigned(v, 4)
    case LongRec(v) => InSigned(v, 8)
    case DateRec(v) => InSigned(v, 8)
    case DoubleRec(b) => 0 <= b < TWO64
    case BytesRec(s, n) => 0 <= s < TWO32 && 0 <= n < TWO32
    case StringRec(m, s, e) => (m == 4 || m == 16 || m == 17) && 0 <= s < TWO32 && 0 <= e < TWO32
    case _ => false
  }

  /** The value a fixed-width record stands for, read against the pools. */
  function Expected(rec: Output.Record, input: seq<byte>, latin1: seq<unit16>, ucs2: seq<unit16>, refCount: nat): Result<JsValue>
    requires ScalarRecord(rec)
  {
    match rec
    case NullRec => Ok(JsNull)
    case BoolRec(f) => Ok(JsBool(f != 0))
    case IntRec(v) => Ok(JsInt(v))
    case RefRec(v) => Ok(if 0 <= v < refCount then JsRef(v) else JsUndefined)
    case LongRec(v) => Ok(JsLong(v))
    case DateRec(v) => Ok(JsDate(v))
    case DoubleRec(b) => Ok(JsDouble(b))
    case BytesRec(s, n) => Ok(JsBytes(BufferSlice(input, s, s + n)))
    case StringRec(m, s, e) =>
      if m == 17 then Ok(JsString(Substring(latin1, s, e)))
      else if m == 4 then Ok(JsString(Substring(ucs2, s, e)))
      else match RangeUnits(input, s, e)
        case Ok(units) => Ok(JsString(units))
        case Err(msg) => Err(msg)
  }

  /** Four little-endian bytes of a value below 2^32 read back as that value. */
  lemma Word4(out: seq<byte>, at: nat, v: int)
    requires 0 <= v < TWO32 && at + 4 <= |out| && out[at..at + 4] == LE(v, 4)
    ensures FromLE(out[at..at + 4]) == v
  {
    Pow256Values();
    UnsignedLE(v, 4);
  }

  /** Four little-endian bytes of a signed 32-bit value read back, as signed, as that value. */
  lemma Signed4(out: seq<byte>, at: nat, v: int)
    requires InSigned(v, 4) && at + 4 <= |out| && out[at..at + 4] == LE(v, 4)
    ensures Signed(FromLE(out[at..at + 4]), 4) == v
  {
    FromLEOfLE(v, 4);
    SignedOfMod(v, 4);
  }

  /** Eight little-endian bytes of a signed 64-bit value read back, as signed, as that value. */
  lemma Signed8(out: seq<byte>, at: nat, v: int)
    requires InSigned(v, 8) && at + 8 <= |out| && out[at..at + 8] == LE(v, 8)
    ensures Signed(FromLE(out[at..at + 8]), 8) == v
  {
    FromLEOfLE(v, 8);
    SignedOfMod(v, 8);
  }

  /** A record sitting at `pos`: its tag, then its payload. */
  lemma RecordAt(out: seq<byte>, pos: nat, rec: Output.Record)
    requires pos + |Output.RecordBytes(rec)| <= |out| && out[pos..pos + |Output.RecordBytes(rec)|] == Output.RecordBytes(rec)
    ensures out[pos] == Output.Tag(rec)
    ensures out[pos + 1..pos + |Output.RecordBytes(rec)|] == Output.RecordBytes(rec)[1..]
  {
    var b := Output.RecordBytes(rec);
    assert out[pos] == out[pos..pos + |b|][0];
    assert out[pos + 1..pos + |b|] == out[pos..pos + |b|][1..];
  }

  /** The two words of an eight-byte payload made of two four-byte fields. */
  lemma TwoWords(out: seq<byte>, at: nat, s: int, e: int)
    requires 0 <= s < TWO32 && 0 <= e < TWO32
    requires at + 8 <= |out| && out[at..at + 8] == LE(s, 4) + LE(e, 4)
    ensures FromLE(out[at..at + 4]) == s && FromLE(out[at + 4..at + 8]) == e
  {
    SliceSplit(out, at, LE(s, 4) + LE(e, 4), LE(s, 4), LE(e, 4));
    Word4(out, at, s);
    Word4(out, at + 4, e);
  }

  /**
   * A fixed-width record at `pos` reads back as the value it stands for,
   * with the cursor just past the record; a string range the JavaScript
   * decoder refuses fails the read.
   */
  predicate ReadsBack(out: seq<byte>, pos: nat, rec: Output.Record,
                      input: seq<byte>, latin1: seq<unit16>, ucs2: seq<unit16>, refCount: nat)
    requires ScalarRecord(rec) && pos < |out|
  {
    IsScalarTag(out[pos]) && ScalarWidth(out[pos]) == Output.PayloadWidth(rec) &&
    var r := Scalar(out, input, latin1, ucs2, refCount, out[pos], pos + 1);
    match Expected(rec, input, latin1, ucs2, refCount)
    case Ok(v) => r == Ok((v, pos + |Output.RecordBytes(rec)|))
    case Err(_) => r.Err?
  }

  /** The reader inverts the writer for every fixed-width record. */
  lemma ScalarOfRecord(out: seq<byte>, pos: nat, rec: Output.Record,
                       input: seq<byte>, latin1: seq<unit16>, ucs2: seq<unit16>, refCount: nat)
    requires ScalarRecord(rec)
    requires pos + |Output.RecordBytes(rec)| <= |out| && out[pos..pos + |Output.RecordBytes(rec)|] == Output.RecordBytes(rec)
    ensures ReadsBack(out, pos, rec, input, latin1, ucs2, refCount)
  {
    match rec
    case NullRec => ScalarOfNull(out, pos, input, latin1, ucs2, refCount);
    case BoolRec(f) => ScalarOfBool(out, pos, f, input, latin1, ucs2, refCount);
    case IntRec(v) => ScalarOfInt(out, pos, v, input, latin1, ucs2, refCount);
    case RefRec(v) => ScalarOfRef(out, pos, v, input, latin1, ucs2, refCount);
    case LongRec(v) => ScalarOfLong(out, pos, v, input, latin1, ucs2, refCount);
    case DateRec(v) => ScalarOfDate(out, pos, v, input, latin1, ucs2, refCount);
    case DoubleRec(b) => ScalarOfDouble(out, pos, b, input, latin1, ucs2, refCount);
    case BytesRec(st, n) => ScalarOfBytes(out, pos, st, n, input, latin1, ucs2, refCount);
    case StringRec(m, st, e) => ScalarOfString(out, pos, m, st, e, input, latin1, ucs2, refCount);
  }

  lemma ScalarOfNull(out: seq<byte>, pos: nat,
      input: seq<byte>, latin1: seq<unit16>, ucs2: seq<unit16>, refCount: nat)
    requires pos + |Output.RecordBytes(Output.NullRec)| <= |out| && out[pos..pos + |Output.RecordBytes(Output.NullRec)|] == Output.RecordBytes(Output.NullRec)
    ensures ReadsBack(out, pos, Output.NullRec, input, latin1, ucs2, refCount)
  {
    RecordAt(out, pos, Output.NullRec);
  }

  lemma ScalarOfBool(out: seq<byte>, pos: nat, f: byte,
      input: seq<byte>, latin1: seq<unit16>, ucs2: seq<unit16>, refCount: nat)
    requires pos + |Output.RecordBytes(Output.BoolRec(f))| <= |out| && out[pos..pos + |Output.RecordBytes(Output.BoolRec(f))|] == Output.RecordBytes(Output.BoolRec(f))
    ensures ReadsBack(out, pos, Output.BoolRec(f), input, latin1, ucs2, refCount)
  {
    RecordAt(out, pos, Output.BoolRec(f));
    assert out[pos + 1] == out[pos + 1..pos + 2][0];
  }

  lemma ScalarOfInt(out: seq<byte>, pos: nat, v: int,
      input: seq<byte>, latin1: seq<unit16>, ucs2: seq<unit16>, refCount: nat)
    requires InSigned(v, 4)
    requires pos + |Output.RecordBytes(Output.IntRec(v))| <= |out| && out[pos..pos + |Output.RecordBytes(Output.IntRec(v))|] == Output.RecordBytes(Output.IntRec(v))
    ensures ReadsBack(out, pos, Output.IntRec(v), input, latin1, ucs2, refCount)
  {
    RecordAt(out, pos, Output.IntRec(v));
    Signed4(out, pos + 1, v);
    Word4Record(out, pos + 1, 6, v, input, latin1, ucs2, refCount);
  }

  lemma ScalarOfRef(out: seq<byte>, pos: nat, v: int,
      input: seq<byte>, latin1: seq<unit16>, ucs2: seq<unit16>, refCount: nat)
    requires InSigned(v, 4)
    requires pos + |Output.RecordBytes(Output.RefRec(v))| <= |out| && out[pos..pos + |Output.RecordBytes(Output.RefRec(v))|] == Output.RecordBytes(Output.RefRec(v))
    ensures ReadsBack(out, pos, Output.RefRec(v), input, latin1, ucs2, refCount)
  {
    RecordAt(out, pos, Output.RefRec(v));
    Signed4(out, pos + 1, v);
    Word4Record(out, pos + 1, 12, v, input, latin1, ucs2, refCount);
  }

  lemma ScalarOfLong(out: seq<byte>, pos: nat, v: int,
      input: seq<byte>, latin1: seq<unit16>, ucs2: seq<unit16>, refCount: nat)
    requires InSigned(v, 8)
    requires pos + |Output.RecordBytes(Output.LongRec(v))| <= |out| && out[pos..pos + |Output.RecordBytes(Output.LongRec(v))|] == Output.RecordBytes(Output.LongRec(v))
    ensures ReadsBack(out, pos, Output.LongRec(v), input, latin1, ucs2, refCount)
  {
    var rec := Output.LongRec(v);
    assert |Output.RecordBytes(rec)| == 9 && Output.RecordBytes(rec)[1..] == LE(v, 8);
    RecordAt(out, pos, rec);
    Signed8(out, pos + 1, v);
    Word8ReadsBack(out, pos, rec, v, input, latin1, ucs2, refCount);
  }

  lemma ScalarOfDate(out: seq<byte>, pos: nat, v: int,
      input: seq<byte>, latin1: seq<unit16>, ucs2: seq<unit16>, refCount: nat)
    requires InSigned(v, 8)
    requires pos + |Output.RecordBytes(Output.DateRec(v))| <= |out| && out[pos..pos + |Output.RecordBytes(Output.DateRec(v))|] == Output.RecordBytes(Output.DateRec(v))
    ensures ReadsBack(out, pos, Output.DateRec(v), input, latin1, ucs2, refCount)
  {
    var rec := Output.DateRec(v);
    assert |Output.RecordBytes(rec)| == 9 && Output.RecordBytes(rec)[1..] == LE(v, 8);
    RecordAt(out, pos, rec);
    Signed8(out, pos + 1, v);
    Word8ReadsBack(out, pos, rec, v, input, latin1, ucs2, refCount);
  }

  lemma ScalarOfDouble(out: seq<byte>, pos: nat, b: int,
      input: seq<byte>, latin1: seq<unit16>, ucs2: seq<unit16>, refCount: nat)
    requires 0 <= b < TWO64
    requires pos + |Output.RecordBytes(Output.DoubleRec(b))| <= |out| && out[pos..pos + |Output.RecordBytes(Output.DoubleRec(b))|] == Output.RecordBytes(Output.DoubleRec(b))
    ensures ReadsBack(out, pos, Output.DoubleRec(b), input, latin1, ucs2, refCount)
  {
    RecordAt(out, pos, Output.DoubleRec(b));
    Pow256Values();
    UnsignedLE(b, 8);
    Word8Record(out, pos + 1, 9, b, input, latin1, ucs2, refCount);
  }

  lemma ScalarOfBytes(out: seq<byte>, pos: nat, st: int, n: int,
      input: seq<byte>, latin1: seq<unit16>, ucs2: seq<unit16>, refCount: nat)
    requires 0 <= st < TWO32 && 0 <= n < TWO32
    requires pos + |Output.RecordBytes(Output.BytesRec(st, n))| <= |out| && out[pos..pos + |Output.RecordBytes(Output.BytesRec(st, n))|] == Output.RecordBytes(Output.BytesRec(st, n))
    ensures ReadsBack(out, pos, Output.BytesRec(st, n), input, latin1, ucs2, refCount)
  {
    RecordAt(out, pos, Output.BytesRec(st, n));
    TwoWords(out, pos + 1, st, n);
    PairRecord(out, pos + 1, 13, st, n, input, latin1, ucs2, refCount);
  }

  lemma ScalarOfString(out: seq<byte>, pos: nat, m: byte, st: int, e: int,
      input: seq<byte>, latin1: seq<unit16>, ucs2: seq<unit16>, refCount: nat)
    requires (m == 4 || m == 16 || m == 17) && 0 <= st < TWO32 && 0 <= e < TWO32
    requires pos + |Output.RecordBytes(Output.StringRec(m, st, e))| <= |out| && out[pos..pos + |Output.RecordBytes(Output.StringRec(m, st, e))|] == Output.RecordBytes(Output.StringRec(m, st, e))
    ensures ReadsBack(out, pos, Output.StringRec(m, st, e), input, latin1, ucs2, refCount)
  {
    RecordAt(out, pos, Output.StringRec(m, st, e));
    TwoWords(out, pos + 1, st, e);
    PairRecord(out, pos + 1, m, st, e, input, latin1, ucs2, refCount);
  }

  /** A four-byte record payload, as an int or a reference. */
  lemma Word4Record(out: seq<byte>, at: nat, tag: byte, v: int,
                    input: seq<byte>, latin1: seq<unit16>, ucs2: seq<unit16>, refCount: nat)
    requires (tag == 6 || tag == 12) && at + 4 <= |out| && Signed(FromLE(out[at..at + 4]), 4) == v
    ensures Scalar(out, input, latin1, ucs2, refCount, tag, at) ==
      Ok((if tag == 6 then JsInt(v) else if 0 <= v < refCount then JsRef(v) else JsUndefined, at + 4))
  {
  }

  /** An eight-byte record payload, as a double's bits, a long or a date. */
  lemma Word8Record(out: seq<byte>, at: nat, tag: byte, v: int,
                    input: seq<byte>, latin1: seq<unit16>, ucs2: seq<unit16>, refCount: nat)
    requires (tag == 9 || tag == 10 || tag == 11) && at + 8 <= |out|
    requires tag == 9 ==> 0 <= v && FromLE(out[at..at + 8]) == v
    requires tag != 9 ==> Signed(FromLE(out[at..at + 8]), 8) == v
    ensures Scalar(out, input, latin1, ucs2, refCount, tag, at) ==
      Ok((if tag == 9 then JsDouble(v) else if tag == 10 then JsLong(v) else JsDate(v), at + 8))
  {
  }

  /** A long or date record whose tag and signed payload are in place reads back. */
  lemma Word8ReadsBack(out: seq<byte>, pos: nat, rec: Output.Record, v: int,
                       input: seq<byte>, latin1: seq<unit16>, ucs2: seq<unit16>, refCount: nat)
    requires (rec == Output.LongRec(v) || rec == Output.DateRec(v)) && InSigned(v, 8)
    requires pos + 9 <= |out| && out[pos] == Output.Tag(rec) && Signed(FromLE(out[pos + 1..pos + 9]), 8) == v
    ensures ReadsBack(out, pos, rec, input, latin1, ucs2, refCount)
  {
    Word8Record(out, pos + 1, out[pos], v, input, latin1, ucs2, refCount);
  }

  /** A payload of two words, as an input slice, a pool substring or a decoded input range. */
  lemma PairRecord(out: seq<byte>, at: nat, tag: byte, s: nat, e: nat,
                   input: seq<byte>, latin1: seq<unit16>, ucs2: seq<unit16>, refCount: nat)
    requires (tag == 4 || tag == 13 || tag == 16 || tag == 17) && at + 8 <= |out|
    requires FromLE(out[at..at + 4]) == s && FromLE(out[at + 4..at + 8]) == e
    ensures var r := Scalar(out, input, latin1, ucs2, refCount, tag, at);
      if tag == 13 then r == Ok((JsBytes(BufferSlice(input, s, s + e)), at + 8))
      else if tag == 17 then r == Ok((JsString(Substring(latin1, s, e)), at + 8))
      else if tag == 4 then r == Ok((JsString(Substring(ucs2, s, e)), at + 8))
      else match RangeUnits(input, s, e)
        case Ok(units) => r == Ok((JsString(units), at + 8))
        case Err(_) => r.Err?
  {
  }

  // ---------------------------------------------------------------------
  // Map trailers and anonymous keys
  // ---------------------------------------------------------------------

  /**
   * The shape trailer of a map whose header payload starts at `pos`: it
   * sits at `pos + offset - 1`; its category byte, the word after it, and
   * the trailer position.
   */
  function TrailerHead(out: seq<byte>, pos: nat): (r: Result<(byte, nat, nat)>)
    requires pos >= 1
  {
    match U32At(out, pos)
    case Err(e) => Err(e)
    case Ok(off) =>
      var t := pos + off - 1;
      match U8At(out, t)
      case Err(e) => Err(e)
      case Ok(cat) =>
        if cat != 7 && cat != 8 then Err(NEED_TYPE)
        else match U32At(out, t + 1)
          case Err(e) => Err(e)
          case Ok(w) => Ok((cat, w, t))
  }

  /** `indexOf(',', start)`: the first separator at or after `start`, or -1. */
  function IndexOf(s: seq<byte>, start: nat): (r: int)
    ensures r == -1 || (start <= r < |s| && s[r] == Harness.SEPARATOR)
    ensures forall j :: start <= j < |s| && (r == -1 || j < r) ==> s[j] != Harness.SEPARATOR
    decreases |s| - start
  {
    if start >= |s| then -1
    else if s[start] == Harness.SEPARATOR then start
    else IndexOf(s, start + 1)
  }

  /** Where the key loop of `buildAnonymousObject` goes on after the key at `start`, as written: one past the separator, which is 0 when there is none. */
  function NextStartAsWritten(fields: seq<byte>, start: nat): nat
  {
    IndexOf(fields, start) + 1
  }

  /**
   * As written, a last key without a separator sends the loop back to the
   * start: for the field string "a" the loop reads key "a" and then starts
   * over at 0 with the loop condition still true. Each pass reads one more
   * value, so the loop goes on through the later records until `read`
   * throws at the end of the output. The parser ends every key with ','
   * (parse.rs:66, 322-323), so the transcoder never writes such fields.
   */
  lemma AnonymousLoopStalls()
    ensures var fields: seq<byte> := [0x61];
      0 < |fields| && NextStartAsWritten(fields, 0) == 0
  {
  }

  /** Where the key loop goes on after the key at `start`: one past the separator, or the end when there is none. */
  function NextStart(fields: seq<byte>, start: nat): (r: nat)
    requires start < |fields|
    ensures start < r <= |fields|
  {
    var i := IndexOf(fields, start);
    if i < 0 then |fields| else i + 1
  }

  /** The key at `start`: up to the next separator, or the rest when there is none. */
  function KeyAt(fields: seq<byte>, start: nat): seq<byte>
    requires start < |fields|
  {
    var i := IndexOf(fields, start);
    if i < 0 then fields[start..] else fields[start..i]
  }

  /** The keys the corrected loop reads from `start` on. */
  function KeysFrom(fields: seq<byte>, start: nat): (r: seq<seq<byte>>)
    ensures forall i :: 0 <= i < |r| ==> Harness.SEPARATOR !in r[i]
    decreases |fields| - start
  {
    if start >= |fields| then [] else [KeyAt(fields, start)] + KeysFrom(fields, NextStart(fields, start))
  }

  /** The keys of a signature the parser wrote come back, in order, as the keys it was made of. */
  lemma KeysOfSignature(keys: seq<seq<byte>>)
    requires forall i :: 0 <= i < |keys| ==> Harness.SEPARATOR !in keys[i]
    ensures KeysFrom(Harness.Signature(keys), 0) == keys
  {
    assert [] + Harness.Signature(keys) == Harness.Signature(keys);
    KeysOfSignatureFrom([], keys);
  }

  lemma {:induction false} KeysOfSignatureFrom(pre: seq<byte>, keys: seq<seq<byte>>)
    requires forall i :: 0 <= i < |keys| ==> Harness.SEPARATOR !in keys[i]
    ensures KeysFrom(pre + Harness.Signature(keys), |pre|) == keys
    decreases |keys|
  {
    var s := pre + Harness.Signature(keys);
    if keys != [] {
      var k := keys[0];
      var pre' := pre + k + [Harness.SEPARATOR];
      assert s == pre' + Harness.Signature(keys[1..]);
      KeyStep(s, pre, k);
      KeysOfSignatureFrom(pre', keys[1..]);
    }
  }

  /** A key followed by its separator is read whole, and the loop goes on after the separator. */
  lemma KeyStep(s: seq<byte>, pre: seq<byte>, k: seq<byte>)
    requires Harness.SEPARATOR !in k
    requires |pre + k + [Harness.SEPARATOR]| <= |s| && s[..|pre + k + [Harness.SEPARATOR]|] == pre + k + [Harness.SEPARATOR]
    ensures |pre| < |s| && KeyAt(s, |pre|) == k && NextStart(s, |pre|) == |pre| + |k| + 1
  {
    var p := |pre|;
    forall j | p <= j < p + |k|
      ensures s[j] != Harness.SEPARATOR
    {
      assert s[j] == (pre + k + [Harness.SEPARATOR])[j] == k[j - p];
    }
    assert s[p + |k|] == (pre + k + [Harness.SEPARATOR])[p + |k|];
    IndexOfAt(s, p, p + |k|);
    assert s[p..p + |k|] == (pre + k + [Harness.SEPARATOR])[p..p + |k|];
  }

  lemma IndexOfAt(s: seq<byte>, start: nat, i: nat)
    requires start <= i < |s| && s[i] == Harness.SEPARATOR
    requires forall j :: start <= j < i ==> s[j] != Harness.SEPARATOR
    ensures IndexOf(s, start) == i
  {
  }

  /** The fields carry the keys in order: one field per key, named by it unless it is the object-key entry. */
  predicate KeyedAs(keys: seq<seq<byte>>, fields: seq<Field>)
  {
    |fields| == |keys| &&
    forall i :: 0 <= i < |keys| && keys[i] != Harness.SPEC_KEY ==> fields[i].key == Named(keys[i])
  }

  lemma KeyedStep(keys: seq<seq<byte>>, fields: seq<Field>, x: seq<byte>, field: Field)
    requires KeyedAs(keys, fields) && (x != Harness.SPEC_KEY ==> field.key == Named(x))
    ensures KeyedAs(keys + [x], fields + [field])
  {
  }

  /** Loop state of the key loop: `keys` read before `start`, and the rest still to come. */
  predicate KeysLoop(fields: seq<byte>, start: nat, keys: seq<seq<byte>>)
  {
    start <= |fields| && keys + KeysFrom(fields, start) == KeysFrom(fields, 0)
  }

  lemma KeysNext(fields: seq<byte>, start: nat, keys: seq<seq<byte>>)
    requires KeysLoop(fields, start, keys) && start < |fields|
    ensures KeysLoop(fields, NextStart(fields, start), keys + [KeyAt(fields, start)])
  {
    assert KeysFrom(fields, start) == [KeyAt(fields, start)] + KeysFrom(fields, NextStart(fields, start));
    assert keys + KeysFrom(fields, start) == (keys + [KeyAt(fields, start)]) + KeysFrom(fields, NextStart(fields, start));
  }

  /** A pass of `readChunk` of kind 1 concatenates the byte parts. */
  function ConcatBytes(parts: seq<JsValue>): Result<seq<byte>>
  {
    if parts == [] then Ok([])
    else if !parts[0].JsBytes? then Err(NOT_A_BUFFER)
    else match ConcatBytes(parts[1..])
      case Ok(rest) => Ok(parts[0].bytes + rest)
      case Err(e) => Err(e)
  }

  /** `join("")` of the string parts of a chunk of kind 2; null and undefined join as nothing. */
  function JoinStrings(parts: seq<JsValue>): Result<seq<unit16>>
  {
    if parts == [] then Ok([])
    else
      var head: Result<seq<unit16>> :=
        if parts[0].JsString? then Ok(parts[0].units)
        else if parts[0].JsNull? || parts[0].JsUndefined? then Ok([])
        else Err(NOT_A_STRING);
      match head
      case Err(e) => Err(e)
      case Ok(h) =>
        match JoinStrings(parts[1..])
        case Ok(rest) => Ok(h + rest)
        case Err(e) => Err(e)
  }

  /**
   * The reading closure of `start()`, after `setState`: the output buffer,
   * the input, the two string pools, the shape cache, the cursor, and the
   * number of arrays and objects in the reference pool.
   */
  class Reader {
    const out: seq<byte>
    const input: seq<byte>
    const latin1: seq<unit16>
    const ucs2: seq<unit16>
    const shapes: Harness.ShapeCache
    var cursor: nat
    var refCount: nat

    /** `setState`: a reader at the start of one parse's output with an empty reference pool. */
    constructor (shapes: Harness.ShapeCache, out: seq<byte>, input: seq<byte>, latin1: seq<unit16>, ucs2: seq<unit16>)
      ensures this.shapes == shapes && this.out == out && this.input == input
      ensures this.latin1 == latin1 && this.ucs2 == ucs2
      ensures cursor == 0 && refCount == 0
    {
      this.shapes := shapes;
      this.out := out;
      this.input := input;
      this.latin1 := latin1;
      this.ucs2 := ucs2;
      cursor := 0;
      refCount := 0;
    }

    /**
     * `read`: dispatches on the tag byte at the cursor. Fixed-width records
     * are read as `Scalar` says; arrays, chunks, maps and objects read their
     * parts through nested calls. Any other tag throws.
     */
    method Read() returns (ok: bool, v: JsValue)
      modifies this`cursor, this`refCount
      ensures ok ==> old(cursor) < cursor <= |out| && old(refCount) <= refCount
      ensures ok ==> old(cursor) < |out| && IsKnownTag(out[old(cursor)])
      ensures old(cursor) < |out| && IsScalarTag(out[old(cursor)]) ==>
        var r := Scalar(out, input, latin1, ucs2, old(refCount), out[old(cursor)], old(cursor) + 1);
        ok == r.Ok? && (ok ==> (v, cursor) == r.value && refCount == old(refCount))
      ensures ok && out[old(cursor)] == Code(Array) ==>
        U32At(out, old(cursor) + 1).Ok? && v.JsArray? && v.ref == old(refCount) &&
        |v.elems| == U32At(out, old(cursor) + 1).value
      ensures ok && out[old(cursor)] == Code(Object) ==>
        U32At(out, old(cursor) + 1).Ok? && U32At(out, old(cursor) + 1).value < |shapes.objectShapeCache| &&
        v.JsObject? && v.ref == old(refCount) &&
        KeyedAs(shapes.objectShapeCache[U32At(out, old(cursor) + 1).value].keys, v.fields)
      ensures ok && out[old(cursor)] == Code(Map) ==>
        TrailerHead(out, old(cursor) + 1).Ok? && v.JsObject? && v.ref == old(refCount)
      decreases |out| - cursor, 3
    {
      if cursor >= |out| {
        return false, JsUndefined;
      }
      var tag := out[cursor];
      cursor := cursor + 1;
      if IsScalarTag(tag) {
        ok, v := ReadScalar(tag);
      } else if tag == Code(Array) {
        ok, v := ReadArray();
      } else if tag == Code(Object) {
        ok, v := ReadObject();
      } else if tag == Code(Map) {
        ok, v := ReadMap();
      } else if tag == Code(Chunk) {
        var kind, count, parts;
        ok, v, kind, count, parts := ReadChunk();
      } else {
        ok, v := false, JsUndefined;
      }
    }

    /** The fixed-width readers, each advancing the cursor past the payload. */
    method ReadScalar(tag: byte) returns (ok: bool, v: JsValue)
      requires IsScalarTag(tag)
      modifies this`cursor
      ensures var r := Scalar(out, input, latin1, ucs2, refCount, tag, old(cursor));
        ok == r.Ok? && (ok ==> (v, cursor) == r.value)
    {
      var pos := cursor;
      if pos + ScalarWidth(tag) > |out| {
        return false, JsUndefined;
      }
      if tag == 3 {
        v := JsNull;
      } else if tag == 5 {
        v := JsBool(out[pos] != 0);
      } else if tag == 6 {
        v := JsInt(Signed(FromLE(out[pos..pos + 4]), 4));
      } else if tag == 12 {
        var id := Signed(FromLE(out[pos..pos + 4]), 4);
        v := if 0 <= id < refCount then JsRef(id) else JsUndefined;
      } else if tag == 9 {
        v := JsDouble(FromLE(out[pos..pos + 8]));
      } else if tag == 10 {
        v := JsLong(Signed(FromLE(out[pos..pos + 8]), 8));
      } else if tag == 11 {
        v := JsDate(Signed(FromLE(out[pos..pos + 8]), 8));
      } else {
        var a := FromLE(out[pos..pos + 4]);
        var b := FromLE(out[pos + 4..pos + 8]);
        if tag == 13 {
          v := JsBytes(BufferSlice(input, a, a + b));
        } else if tag == 17 {
          v := JsString(Substring(latin1, a, b));
        } else if tag == 4 {
          v := JsString(Substring(ucs2, a, b));
        } else {
          var units;
          ok, units := DecodeRange(a, b);
          if !ok {
            return false, JsUndefined;
          }
          v := JsString(units);
        }
      }
      cursor := pos + ScalarWidth(tag);
      ok := true;
    }

    /** The decoding loop of `readUtf8SurrogateString` over the input range `[start, end)`. */
    method DecodeRange(start: nat, end: nat) returns (ok: bool, units: seq<unit16>)
      ensures ok == RangeUnits(input, start, end).Ok?
      ensures ok ==> units == RangeUnits(input, start, end).value
    {
      var c := start;
      units := [];
      while c < end
        invariant RangeSoFar(input, start, end, c, units)
        decreases end - c
      {
        if c >= |input| || LeadWidth(input[c]) == 0 {
          return false, units;
        }
        var w := LeadWidth(input[c]);
        var u := RangeUnit(input, c, w);
        RangeStep(input, start, end, c, units, c + w, units + [u]);
        units := units + [u];
        c := c + w;
      }
      ok := true;
    }

    /** `readArray`: the element count, a place in the reference pool, then that many values. */
    method ReadArray() returns (ok: bool, v: JsValue)
      requires 0 < cursor <= |out|
      modifies this`cursor, this`refCount
      ensures ok ==> old(cursor) < cursor <= |out| && old(refCount) < refCount
      ensures ok ==> (U32At(out, old(cursor)).Ok? && v.JsArray? && v.ref == old(refCount) &&
        |v.elems| == U32At(out, old(cursor)).value)
      decreases |out| - cursor + 1, 2
    {
      var len := U32At(out, cursor);
      if len.Err? {
        return false, JsUndefined;
      }
      cursor := cursor + 4;
      var ref := refCount;
      refCount := refCount + 1;
      var elems;
      ok, elems := ReadMany(len.value, old(cursor));
      v := JsArray(ref, elems);
    }

    /** `count` values in a row, as the loops of `readArray` and `readChunk` read them. */
    method ReadMany(count: nat, ghost floor: nat) returns (ok: bool, vs: seq<JsValue>)
      requires floor < cursor <= |out|
      modifies this`cursor, this`refCount
      ensures ok ==> old(cursor) <= cursor <= |out| && old(refCount) <= refCount && |vs| == count
      decreases |out| - floor, 1
    {
      vs := [];
      while |vs| < count
        invariant old(cursor) <= cursor <= |out| && old(refCount) <= refCount && |vs| <= count
        decreases count - |vs|
      {
        var e;
        ok, e := Read();
        if !ok {
          return;
        }
        vs := vs + [e];
      }
      ok := true;
    }

    /** `readChunk`: the kind and the part count; one part is returned as is, otherwise the parts are joined. */
    method ReadChunk() returns (ok: bool, v: JsValue, kind: byte, count: nat, parts: seq<JsValue>)
      requires 0 < cursor <= |out|
      modifies this`cursor, this`refCount
      ensures ok ==> old(cursor) < cursor <= |out| && old(refCount) <= refCount
      ensures ok ==> old(cursor) + 5 <= |out| && kind == out[old(cursor)] && count == U32At(out, old(cursor) + 1).value
      ensures ok && count != 1 && kind == 1 ==> v.JsBytes? && |parts| == count && ConcatBytes(parts) == Ok(v.bytes)
      ensures ok && count != 1 && kind == 2 ==> v.JsString? && |parts| == count && JoinStrings(parts) == Ok(v.units)
      ensures ok ==> count == 1 || kind == 1 || kind == 2
      decreases |out| - cursor + 1, 2
    {
      parts := [];
      var k := U8At(out, cursor);
      var n := U32At(out, cursor + 1);
      if k.Err? || n.Err? {
        return false, JsUndefined, 0, 0, [];
      }
      kind, count := k.value, n.value;
      cursor := cursor + 5;
      if count == 1 {
        ok, v := Read();
        return;
      }
      if kind != 1 && kind != 2 {
        return false, JsUndefined, kind, count, [];
      }
      ok, parts := ReadMany(count, old(cursor));
      if !ok {
        return false, JsUndefined, kind, count, parts;
      }
      if kind == 1 {
        var b := ConcatBytes(parts);
        if b.Err? {
          return false, JsUndefined, kind, count, parts;
        }
        v := JsBytes(b.value);
      } else {
        var s := JoinStrings(parts);
        if s.Err? {
          return false, JsUndefined, kind, count, parts;
        }
        v := JsString(s.value);
      }
    }

    /**
     * The record constructor a shape generates: a place in the reference
     * pool, then one entry per key.
     */
    method ReadShaped(keys: seq<seq<byte>>, ghost floor: nat) returns (ok: bool, v: JsValue)
      requires floor < cursor <= |out|
      modifies this`cursor, this`refCount
      ensures ok ==> old(cursor) <= cursor <= |out| && old(refCount) < refCount
      ensures ok ==> v.JsObject? && v.ref == old(refCount) && KeyedAs(keys, v.fields)
      decreases |out| - floor, 1
    {
      var ref := refCount;
      refCount := refCount + 1;
      var fields: seq<Field> := [];
      while |fields| < |keys|
        invariant old(cursor) <= cursor <= |out| && old(refCount) < refCount && |fields| <= |keys|
        invariant KeyedAs(keys[..|fields|], fields)
        decreases |keys| - |fields|
      {
        var x := keys[|fields|];
        var field;
        ok, field := ReadEntry(x, floor);
        if !ok {
          return false, JsUndefined;
        }
        KeyedStep(keys[..|fields|], fields, x, field);
        assert keys[..|fields| + 1] == keys[..|fields|] + [x];
        fields := fields + [field];
      }
      assert keys[..|fields|] == keys;
      return true, JsObject(ref, fields);
    }

    /** One entry of an object: the value of the object-key entry's key first, then the value. */
    method ReadEntry(x: seq<byte>, ghost floor: nat) returns (ok: bool, field: Field)
      requires floor < cursor <= |out|
      modifies this`cursor, this`refCount
      ensures ok ==> old(cursor) <= cursor <= |out| && old(refCount) <= refCount
      ensures x != Harness.SPEC_KEY ==> field.key == Named(x)
      decreases |out| - floor, 0
    {
      var key := Named(x);
      if x == Harness.SPEC_KEY {
        var kv;
        ok, kv := Read();
        if !ok {
          return false, Field(key, JsUndefined);
        }
        key := Computed(kv);
      }
      var value;
      ok, value := Read();
      field := Field(key, value);
    }

    /** `readObject`: the shape index, then the shape's record constructor; an index with no shape throws. */
    method ReadObject() returns (ok: bool, v: JsValue)
      requires 0 < cursor <= |out|
      modifies this`cursor, this`refCount
      ensures ok ==> old(cursor) < cursor <= |out| && old(refCount) < refCount
      ensures ok ==> (U32At(out, old(cursor)).Ok? && U32At(out, old(cursor)).value < |shapes.objectShapeCache| &&
        v.JsObject? && v.ref == old(refCount) && KeyedAs(shapes.objectShapeCache[U32At(out, old(cursor)).value].keys, v.fields))
      decreases |out| - cursor + 1, 2
    {
      var idx := U32At(out, cursor);
      if idx.Err? {
        return false, JsUndefined;
      }
      cursor := cursor + 4;
      if idx.value >= |shapes.objectShapeCache| {
        return false, JsUndefined;
      }
      ok, v := ReadShaped(shapes.objectShapeCache[idx.value].keys, old(cursor));
    }

    /**
     * `readMap`: finds the trailer through the header's offset, reads the
     * entries after the header through the cached shape (category 8) or
     * the written-out keys (category 7), and resumes after the trailer.
     */
    method ReadMap() returns (ok: bool, v: JsValue)
      requires 0 < cursor <= |out|
      modifies this`cursor, this`refCount
      ensures ok ==> old(cursor) < cursor <= |out| && old(refCount) < refCount
      ensures ok ==> TrailerHead(out, old(cursor)).Ok? && v.JsObject? && v.ref == old(refCount)
      ensures ok ==> var (cat, w, t) := TrailerHead(out, old(cursor)).value;
        (cat == 8 ==> w < |shapes.mapShapeCache| && cursor == t + 5 &&
                      KeyedAs(shapes.mapShapeCache[w].keys, v.fields)) &&
        (cat == 7 ==> t + 9 <= |out| && cursor == t + 9 + FromLE(out[t + 5..t + 9]) &&
                      |v.fields| == w && KeyedAs(KeysFrom(out[t + 9..cursor], 0), v.fields))
      decreases |out| - cursor + 1, 2
    {
      var pos := cursor;
      var th := TrailerHead(out, pos);
      if th.Err? {
        return false, JsUndefined;
      }
      var (cat, w, t) := th.value;
      var endCursor: nat;
      var fields: seq<byte> := [];
      if cat == 7 {
        var len := U32At(out, t + 5);
        if len.Err? || t + 9 + len.value > |out| {
          return false, JsUndefined;
        }
        fields := out[t + 9..t + 9 + len.value];
        endCursor := t + 9 + len.value;
      } else {
        endCursor := t + 5;
      }
      cursor := pos + 4;
      if cursor > |out| {
        return false, JsUndefined;
      }
      if cat == 8 {
        if w >= |shapes.mapShapeCache| {
          return false, JsUndefined;
        }
        ok, v := ReadShaped(shapes.mapShapeCache[w].keys, pos - 1);
      } else {
        ok, v := ReadAnonymous(fields, w, pos - 1);
      }
      cursor := endCursor;
    }

    /**
     * `buildAnonymousObject`, with the key loop ending at the last key
     * (see `NextStartAsWritten`): a place in the reference pool, one value
     * per key (a key value and a value for the object-key entry), then the
     * check that the keys number `fieldLen`.
     */
    method ReadAnonymous(fields: seq<byte>, fieldLen: nat, ghost floor: nat) returns (ok: bool, v: JsValue)
      requires floor < cursor <= |out|
      modifies this`cursor, this`refCount
      ensures ok ==> old(cursor) <= cursor <= |out| && old(refCount) < refCount
      ensures ok ==> v.JsObject? && v.ref == old(refCount) && |v.fields| == fieldLen && KeyedAs(KeysFrom(fields, 0), v.fields)
      decreases |out| - floor, 1
    {
      var ref := refCount;
      refCount := refCount + 1;
      var start := 0;
      var result: seq<Field> := [];
      ghost var keys: seq<seq<byte>> := [];
      while start < |fields|
        invariant old(cursor) <= cursor <= |out| && old(refCount) < refCount
        invariant KeysLoop(fields, start, keys) && KeyedAs(keys, result)
        decreases |fields| - start
      {
        var x := KeyAt(fields, start);
        KeysNext(fields, start, keys);
        start := NextStart(fields, start);
        var field;
        ok, field := ReadEntry(x, floor);
        if !ok {
          return false, JsUndefined;
        }
        KeyedStep(keys, result, x, field);
        result := result + [field];
        keys := keys + [x];
      }
      if fieldLen != |result| {
        return false, JsUndefined;
      }
      return true, JsObject(ref, result);
    }
  }
}
