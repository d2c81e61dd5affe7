/**
 * The writer of the tagged output stream (`OutPut` over bytes and over
 * UTF-16 code units): a fixed buffer, a cursor, and a flag that turns every
 * record push into a no-op while it is off.
 */
module Output {
  import opened Bytes
  import opened Wrappers
  import opened Types
  import Harness

  /** One record of the output stream; every field is written little-endian. */
  datatype Record =
    | ObjectHead(cacheIdx: int)
    | ArrayHead(len: int)
    | NullRec
    | StringRec(mode: byte, start: int, end: int)
    | BoolRec(flag: byte)
    | IntRec(v: int)
    | TypingRec(fieldLen: int, fields: seq<byte>)
    | TypingIdxRec(idx: int)
    | DoubleRec(bits: int)
    | LongRec(v: int)
    | DateRec(v: int)
    | RefRec(v: int)
    | BytesRec(start: int, len: int)
    | ChunkRec(kind: byte, len: int)
    | MapHead(offset: int)

  /** Bytes that follow the tag byte of a record. */
  function PayloadWidth(r: Record): nat
  {
    match r
    case NullRec => 0
    case BoolRec(_) => 1
    case IntRec(_) | RefRec(_) | ObjectHead(_) | ArrayHead(_) | MapHead(_) | TypingIdxRec(_) => 4
    case LongRec(_) | DoubleRec(_) | DateRec(_) | StringRec(_, _, _) | BytesRec(_, _) => 8
    case ChunkRec(_, _) => 5
    case TypingRec(_, f) => 8 + |f|
  }

  function Tag(r: Record): byte
  {
    match r
    case ObjectHead(_) => Code(Object)
    case ArrayHead(_) => Code(Array)
    case NullRec => Code(Null)
    case StringRec(mode, _, _) => mode
    case BoolRec(_) => Code(Bool)
    case IntRec(_) => Code(Int)
    case TypingRec(_, _) => Code(Typing)
    case TypingIdxRec(_) => Code(TypingIdx)
    case DoubleRec(_) => Code(Double)
    case LongRec(_) => Code(Long)
    case DateRec(_) => Code(Date)
    case RefRec(_) => Code(Ref)
    case BytesRec(_, _) => Code(Bytes)
    case ChunkRec(_, _) => Code(Chunk)
    case MapHead(_) => Code(Map)
  }

  /**
   * The bytes of a record: its tag, then its fields. Numbers are cut to the
   * field width (the source's `as u32` casts); a string record's start and
   * end are one 64-bit word `(end << 32) | start`, that is start then end.
   */
  function RecordBytes(r: Record): (b: seq<byte>)
    ensures |b| == 1 + PayloadWidth(r)
    ensures b[0] == Tag(r)
  {
    [Tag(r)] +
    match r
    case NullRec => []
    case BoolRec(v) => [v]
    case IntRec(v) => LE(v, 4)
    case RefRec(v) => LE(v, 4)
    case ObjectHead(i) => LE(i, 4)
    case ArrayHead(n) => LE(n, 4)
    case MapHead(o) => LE(o, 4)
    case TypingIdxRec(i) => LE(i, 4)
    case LongRec(v) => LE(v, 8)
    case DoubleRec(v) => LE(v, 8)
    case DateRec(v) => LE(v, 8)
    case StringRec(_, s, e) => LE(s, 4) + LE(e, 4)
    case BytesRec(s, n) => LE(s, 4) + LE(n, 4)
    case ChunkRec(k, n) => [k] + LE(n, 4)
    case TypingRec(n, f) => LE(n, 4) + LE(|f|, 4) + f
  }

  /** `buf` with `v` written at `at`, cut short at the end of `buf` (the slice `write` of the source). */
  function Overwrite(buf: seq<byte>, at: nat, v: seq<byte>): (r: seq<byte>)
    requires at <= |buf|
    ensures |r| == |buf|
    ensures at + |v| <= |buf| ==> r == buf[..at] + v + buf[at + |v|..]
    ensures forall i :: 0 <= i < at ==> r[i] == buf[i]
    ensures forall i :: at <= i < |buf| && i - at < |v| ==> r[i] == v[i - at]
  {
    var k := if |v| <= |buf| - at then |v| else |buf| - at;
    buf[..at] + v[..k] + buf[at + k..]
  }

  /**
   * What one record push does: nothing while the flag is off; otherwise the
   * record is written at the cursor and the cursor moves past it, or, when
   * the record does not fit, the push fails (the source panics on the
   * out-of-range slice).
   */
  ghost predicate Pushed(before: seq<byte>, c0: nat, flag: bool, after: seq<byte>, c1: nat, ok: bool, rec: seq<byte>)
  {
    if !flag then ok && after == before && c1 == c0
    else if c0 + |rec| <= |before| then ok && after == before[..c0] + rec + before[c0 + |rec|..] && c1 == c0 + |rec|
    else !ok && after == before && c1 == c0
  }

  /** Whether `push_map_type` registers `sig` as a new map shape: the flag is on, the signature is new and the cache has room. */
  predicate Registers(flag: bool, st: State, sig: seq<byte>)
  {
    flag && sig !in st.mapShapeCache && |st.mapShapeCache| < st.maxMapShapeCacheLen
  }

  /**
   * What `push_map_type` does to the cache state (`st` to `st2`) and to the
   * reader's map shapes (`m0` to `m1`): a registered shape is appended and
   * remembered under its index; nothing else changes.
   */
  predicate TypeCached(flag: bool, ok: bool, st: State, st2: State, m0: seq<Harness.Shape>, m1: seq<Harness.Shape>,
                       sig: seq<byte>, fieldLen: int)
  {
    st2.classShapeCache == st.classShapeCache && st2.maxMapShapeCacheLen == st.maxMapShapeCacheLen &&
    (Registers(flag, st, sig) && Harness.BuildShape(sig, fieldLen).Ok? ==>
      m1 == m0 + [Harness.BuildShape(sig, fieldLen).value] &&
      st2 == st.(mapShapeCache := st.mapShapeCache[sig := |m0|])) &&
    (Registers(flag, st, sig) && Harness.BuildShape(sig, fieldLen).Err? ==> !ok) &&
    (!(Registers(flag, st, sig) && Harness.BuildShape(sig, fieldLen).Ok?) ==> st2 == st && m1 == m0)
  }

  /**
   * What `push_map_type` writes (`d0`, `c0` before, `d1`, `c1` after): the
   * cached index of the signature, the index it is registered under, or,
   * the cache being full, the field count and the signature.
   */
  ghost predicate TypeWritten(d0: seq<byte>, c0: nat, flag: bool, d1: seq<byte>, c1: nat, ok: bool,
                              st: State, m0: seq<Harness.Shape>, sig: seq<byte>, fieldLen: int)
  {
    (!ok ==> d1 == d0 && c1 == c0) &&
    (!flag ==> ok && d1 == d0 && c1 == c0) &&
    (flag && sig in st.mapShapeCache ==>
      Pushed(d0, c0, flag, d1, c1, ok, RecordBytes(TypingIdxRec(st.mapShapeCache[sig])))) &&
    (flag && sig !in st.mapShapeCache && |st.mapShapeCache| >= st.maxMapShapeCacheLen ==>
      ok == (c0 + 9 <= |d0|) &&
      (ok ==> d1 == Overwrite(d0, c0, RecordBytes(TypingRec(fieldLen, sig))) &&
              c1 == c0 + |RecordBytes(TypingRec(fieldLen, sig))|)) &&
    (Registers(flag, st, sig) && Harness.BuildShape(sig, fieldLen).Ok? ==>
      Pushed(d0, c0, flag, d1, c1, ok, RecordBytes(TypingIdxRec(|m0|))))
  }

  /** A successful push with the flag on leaves what precedes the cursor and puts the record right after it. */
  lemma PushedFacts(before: seq<byte>, c0: nat, flag: bool, after: seq<byte>, c1: nat, ok: bool, rec: seq<byte>)
    requires Pushed(before, c0, flag, after, c1, ok, rec)
    ensures |after| == |before|
    ensures !flag ==> after == before && c1 == c0
    ensures ok && flag ==> c1 == c0 + |rec| <= |before| && after[..c0] == before[..c0] && after[c0..c1] == rec
  {
    if ok && flag {
      assert after == before[..c0] + rec + before[c0 + |rec|..];
      assert after[c0..c1] == (before[..c0] + rec + before[c0 + |rec|..])[c0..c0 + |rec|];
    }
  }

  /** A chunk header: tag 14, the kind, then the 32-bit count. */
  lemma ChunkBytes(k: byte, n: int)
    ensures RecordBytes(ChunkRec(k, n)) == [14, k] + LE(n, 4)
  {
    assert RecordBytes(ChunkRec(k, n)) == [Code(Chunk)] + ([k] + LE(n, 4));
  }

  /** `b` agrees with `a` below position `c`. */
  predicate SamePrefix(a: seq<byte>, b: seq<byte>, c: nat)
  {
    |a| == |b| && forall i :: 0 <= i < c && i < |a| ==> a[i] == b[i]
  }

  lemma SamePrefixTrans(a: seq<byte>, b: seq<byte>, c: seq<byte>, ca: nat, cb: nat)
    requires SamePrefix(a, b, ca) && SamePrefix(b, c, cb) && ca <= cb
    ensures SamePrefix(a, c, ca)
  {
  }

  /** A push leaves everything before the old cursor alone. */
  lemma PushedPrefix(before: seq<byte>, c0: nat, flag: bool, after: seq<byte>, c1: nat, ok: bool, rec: seq<byte>)
    requires Pushed(before, c0, flag, after, c1, ok, rec)
    ensures SamePrefix(before, after, c0) && c0 <= c1
  {
    PushedFacts(before, c0, flag, after, c1, ok, rec);
    if ok && flag {
      forall i | 0 <= i < c0 && i < |before|
        ensures before[i] == after[i]
      {
        assert before[i] == before[..c0][i];
      }
    }
  }

  /** Equal slices below `c` mean equal elements below `c`. */
  lemma SliceSamePrefix(a: seq<byte>, b: seq<byte>, c: nat)
    requires c <= |a| == |b| && a[..c] == b[..c]
    ensures SamePrefix(a, b, c)
  {
    forall i | 0 <= i < c
      ensures a[i] == b[i]
    {
      assert a[i] == a[..c][i];
    }
  }

  /**
   * From contents `d0` at cursor `c0` to contents `d1` at cursor `c1` the
   * output was only extended: the cursor did not move back, nothing before
   * the old cursor changed, and nothing at all changed while the flag `f`
   * was off.
   */
  predicate Ext(d0: seq<byte>, c0: nat, f: bool, d1: seq<byte>, c1: nat)
  {
    c0 <= c1 && SamePrefix(d0, d1, c0) && (!f ==> c1 == c0 && d1 == d0)
  }

  /** Extending twice is extending. */
  lemma ExtTrans(d0: seq<byte>, c0: nat, f: bool, d1: seq<byte>, c1: nat, d2: seq<byte>, c2: nat)
    requires Ext(d0, c0, f, d1, c1) && Ext(d1, c1, f, d2, c2)
    ensures Ext(d0, c0, f, d2, c2)
  {
    SamePrefixTrans(d0, d1, d2, c0, c1);
  }

  /** A record that was pushed extends the output. */
  lemma PushedExt(before: seq<byte>, c0: nat, flag: bool, after: seq<byte>, c1: nat, ok: bool, rec: seq<byte>)
    requires Pushed(before, c0, flag, after, c1, ok, rec)
    ensures Ext(before, c0, flag, after, c1)
  {
    PushedPrefix(before, c0, flag, after, c1, ok, rec);
  }

  /** Unchanged bytes below `c` give unchanged slices below `c`. */
  lemma SamePrefixSlice(a: seq<byte>, b: seq<byte>, c: nat, lo: nat, hi: nat)
    requires SamePrefix(a, b, c) && lo <= hi <= c && hi <= |a|
    ensures a[lo..hi] == b[lo..hi]
  {
    assert forall i :: 0 <= i < hi - lo ==> a[lo..hi][i] == a[lo + i] == b[lo + i] == b[lo..hi][i];
  }

  /** Between two states, `o` was only extended, as `Ext` says. */
  twostate predicate Extended(o: ByteOutput)
    reads o, o.data
  {
    Ext(old(o.data[..]), old(o.cursor), old(o.flag), o.data[..], o.cursor)
  }

  class ByteOutput {
    const data: array<byte>
    var cursor: nat
    var flag: bool

    constructor (buf: array<byte>)
      ensures data == buf && cursor == 0 && flag
    {
      data := buf;
      cursor := 0;
      flag := true;
    }

    method SetFlag(f: bool)
      modifies this`flag
      ensures flag == f
    {
      flag := f;
    }

    method Disable()
      modifies this`flag
      ensures !flag
    {
      flag := false;
    }

    /**
     * The slice writer: copies as much of `v` as fits, yet moves the cursor
     * by all of `v`. Fails when the cursor is already past the end.
     */
    method Write(v: seq<byte>) returns (ok: bool)
      modifies this`cursor, data
      ensures ok == (old(cursor) <= data.Length)
      ensures ok ==> data[..] == Overwrite(old(data[..]), old(cursor), v) && cursor == old(cursor) + |v|
      ensures !ok ==> data[..] == old(data[..]) && cursor == old(cursor)
    {
      if cursor > data.Length {
        return false;
      }
      var c := cursor;
      var k := if |v| <= data.Length - c then |v| else data.Length - c;
      forall j | 0 <= j < k {
        data[c + j] := v[j];
      }
      assert forall j :: 0 <= j < data.Length ==> data[..][j] == Overwrite(old(data[..]), c, v)[j];
      cursor := c + |v|;
      return true;
    }

    /** Writes a record that must fit entirely (the source's fixed-width writers). */
    method Put(rec: seq<byte>)
      requires cursor + |rec| <= data.Length
      modifies this`cursor, data
      ensures data[..] == old(data[..])[..old(cursor)] + rec + old(data[..])[old(cursor) + |rec|..]
      ensures cursor == old(cursor) + |rec|
    {
      var ok := Write(rec);
    }

    method Push(r: Record) returns (ok: bool)
      modifies this`cursor, data
      ensures Pushed(old(data[..]), old(cursor), flag, data[..], cursor, ok, RecordBytes(r))
    {
      if !flag {
        return true;
      }
      var b := RecordBytes(r);
      if cursor + |b| > data.Length {
        return false;
      }
      Put(b);
      return true;
    }

    method PushI32(v: int) returns (ok: bool)
      modifies this`cursor, data
      ensures Pushed(old(data[..]), old(cursor), flag, data[..], cursor, ok, RecordBytes(IntRec(v)))
    {
      ok := Push(IntRec(v));
    }

    method PushI64(v: int) returns (ok: bool)
      modifies this`cursor, data
      ensures Pushed(old(data[..]), old(cursor), flag, data[..], cursor, ok, RecordBytes(LongRec(v)))
    {
      ok := Push(LongRec(v));
    }

    method PushRef(v: int) returns (ok: bool)
      modifies this`cursor, data
      ensures Pushed(old(data[..]), old(cursor), flag, data[..], cursor, ok, RecordBytes(RefRec(v)))
    {
      ok := Push(RefRec(v));
    }

    method PushDate(v: int) returns (ok: bool)
      modifies this`cursor, data
      ensures Pushed(old(data[..]), old(cursor), flag, data[..], cursor, ok, RecordBytes(DateRec(v)))
    {
      ok := Push(DateRec(v));
    }

    /** A double, given by the bits of its IEEE 754 encoding. */
    method PushF64(bits: int) returns (ok: bool)
      modifies this`cursor, data
      ensures Pushed(old(data[..]), old(cursor), flag, data[..], cursor, ok, RecordBytes(DoubleRec(bits)))
    {
      ok := Push(DoubleRec(bits));
    }

    method PushNull() returns (ok: bool)
      modifies this`cursor, data
      ensures Pushed(old(data[..]), old(cursor), flag, data[..], cursor, ok, RecordBytes(NullRec))
    {
      ok := Push(NullRec);
    }

    method PushString(mode: byte, start: int, end: int) returns (ok: bool)
      modifies this`cursor, data
      ensures Pushed(old(data[..]), old(cursor), flag, data[..], cursor, ok, RecordBytes(StringRec(mode, start, end)))
    {
      ok := Push(StringRec(mode, start, end));
    }

    /** The one push that goes through the slice writer: it may be cut short at the end of the buffer. */
    method PushBool(v: byte) returns (ok: bool)
      modifies this`cursor, data
      ensures !flag ==> ok && data[..] == old(data[..]) && cursor == old(cursor)
      ensures flag ==> ok == (old(cursor) <= data.Length)
      ensures flag && ok ==>
        data[..] == Overwrite(old(data[..]), old(cursor), RecordBytes(BoolRec(v))) && cursor == old(cursor) + 2
      ensures flag && !ok ==> data[..] == old(data[..]) && cursor == old(cursor)
    {
      if !flag {
        return true;
      }
      ok := Write(RecordBytes(BoolRec(v)));
    }

    method PushMapHead(offset: int) returns (ok: bool)
      modifies this`cursor, data
      ensures Pushed(old(data[..]), old(cursor), flag, data[..], cursor, ok, RecordBytes(MapHead(offset)))
    {
      ok := Push(MapHead(offset));
    }

    method PushObjectHead(cacheIdx: int) returns (ok: bool)
      modifies this`cursor, data
      ensures Pushed(old(data[..]), old(cursor), flag, data[..], cursor, ok, RecordBytes(ObjectHead(cacheIdx)))
    {
      ok := Push(ObjectHead(cacheIdx));
    }

    method PushBytes(start: int, len: int) returns (ok: bool)
      modifies this`cursor, data
      ensures Pushed(old(data[..]), old(cursor), flag, data[..], cursor, ok, RecordBytes(BytesRec(start, len)))
    {
      ok := Push(BytesRec(start, len));
    }

    method PushChunk(kind: byte, len: int) returns (ok: bool)
      modifies this`cursor, data
      ensures Pushed(old(data[..]), old(cursor), flag, data[..], cursor, ok, RecordBytes(ChunkRec(kind, len)))
    {
      ok := Push(ChunkRec(kind, len));
    }

    method PushArrayHead(len: int) returns (ok: bool)
      modifies this`cursor, data
      ensures Pushed(old(data[..]), old(cursor), flag, data[..], cursor, ok, RecordBytes(ArrayHead(len)))
    {
      ok := Push(ArrayHead(len));
    }

    /**
     * Backpatches a 32-bit little-endian value at `start`, leaving the
     * cursor alone; suppressed while the flag is off. The source slices
     * `start..cursor + 4`, so it needs `start <= cursor` and four bytes of
     * room after the cursor.
     */
    method SetU32(start: int, v: int) returns (ok: bool)
      modifies data
      ensures !flag ==> ok && data[..] == old(data[..])
      ensures flag ==> ok == (0 <= start <= cursor && cursor + 4 <= data.Length)
      ensures flag && ok ==> data[..] == old(data[..])[..start] + LE(v, 4) + old(data[..])[start + 4..]
      ensures flag && !ok ==> data[..] == old(data[..])
    {
      if !flag {
        return true;
      }
      if start < 0 || start > cursor || cursor + 4 > data.Length {
        return false;
      }
      var b := LE(v, 4);
      data[start], data[start + 1], data[start + 2], data[start + 3] := b[0], b[1], b[2], b[3];
      assert data[..] == old(data[..])[..start] + b + old(data[..])[start + 4..];
      return true;
    }

    /**
     * Writes the shape trailer of a map. A signature already cached is
     * written as its index. A new one, while the cache is below its bound,
     * is registered with the reader's shape cache, remembered under the
     * returned index and written as that index. Once the cache is full the
     * field count and the signature itself are written. Nothing happens
     * while the flag is off. Fails when the reader rejects the shape (the
     * source panics with "set cache error") or the record does not fit.
     */
    method PushMapType(sig: seq<byte>, fieldLen: int, st: State, shapes: Harness.ShapeCache)
      returns (ok: bool, st': State)
      modifies this`cursor, data, shapes
      ensures TypeCached(flag, ok, st, st', old(shapes.mapShapeCache), shapes.mapShapeCache, sig, fieldLen)
      ensures TypeWritten(old(data[..]), old(cursor), flag, data[..], cursor, ok, st, old(shapes.mapShapeCache), sig, fieldLen)
      ensures shapes.objectShapeCache == old(shapes.objectShapeCache)
      ensures StateOk(st) ==> StateOk(st')
    {
      st' := st;
      if !flag {
        return true, st';
      }
      if sig in st.mapShapeCache {
        ok := Push(TypingIdxRec(st.mapShapeCache[sig]));
        return;
      }
      if |st.mapShapeCache| >= st.maxMapShapeCacheLen {
        if cursor + 9 > data.Length {
          return false, st';
        }
        ok := Write(RecordBytes(TypingRec(fieldLen, sig)));
        return;
      }
      var idx := shapes.SetCache(sig, fieldLen, true);
      if idx.Err? {
        return false, st';
      }
      st' := st.(mapShapeCache := st.mapShapeCache[sig := idx.value]);
      ok := Push(TypingIdxRec(idx.value));
    }
  }

  /** The writer of the UTF-16 pool. */
  class Ucs2Output {
    const data: array<int>
    var cursor: nat

    /** The pool cursor never passes the end: a store beyond it panics. */
    ghost predicate Valid()
      reads this
    {
      cursor <= data.Length
    }

    constructor (buf: array<int>)
      ensures data == buf && cursor == 0 && Valid()
    {
      data := buf;
      cursor := 0;
    }

    /** Stores one code unit at the cursor; fails when the pool is full (an index panic in the source). */
    method WriteU16(v: int) returns (ok: bool)
      requires Valid()
      modifies this`cursor, data
      ensures Valid()
      ensures ok == (old(cursor) < data.Length)
      ensures ok ==> data[..] == old(data[..])[old(cursor) := v] && cursor == old(cursor) + 1
      ensures !ok ==> data[..] == old(data[..]) && cursor == old(cursor)
    {
      if cursor >= data.Length {
        return false;
      }
      data[cursor] := v;
      cursor := cursor + 1;
      return true;
    }
  }
}
