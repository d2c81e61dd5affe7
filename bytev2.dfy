/**
 * `ByteV2`, a reader over a byte buffer through a DataView: a cursor, the
 * big-endian fixed-width getters that advance it, and the decoder of
 * strings counted in characters.
 */
module ByteView {
  import opened Bytes
  import opened Wrappers
  import opened Utf8

  /** What a DataView getter throws when the read would pass the end. */
  const RANGE_ERROR: string := "Offset is outside the bounds of the DataView"

  /** The byte at `at`, or a range error past the end. */
  function ByteAt(data: seq<byte>, at: nat): (r: Result<byte>)
    ensures r.Ok? <==> at < |data|
    ensures r.Ok? ==> r.value == data[at]
  {
    if at < |data| then Ok(data[at]) else Err(RANGE_ERROR)
  }

  /** `getUint16`: two bytes at `at`, most significant first. */
  function UInt16At(data: seq<byte>, at: nat): (r: Result<nat>)
    ensures r.Ok? <==> at + 2 <= |data|
    ensures r.Ok? ==> r.value < 0x1_0000
  {
    if at + 2 <= |data| then
      FromBEBound(data[at..at + 2]);
      Pow256Values();
      Ok(FromBE(data[at..at + 2]))
    else Err(RANGE_ERROR)
  }

  /** `getInt32`: four bytes at `at`, most significant first, two's complement. */
  function Int32At(data: seq<byte>, at: nat): (r: Result<int>)
    ensures r.Ok? <==> at + 4 <= |data|
    ensures r.Ok? ==> InSigned(r.value, 4)
  {
    if at + 4 <= |data| then
      FromBEBound(data[at..at + 4]);
      SignedRange(FromBE(data[at..at + 4]), 4);
      Ok(Signed(FromBE(data[at..at + 4]), 4))
    else Err(RANGE_ERROR)
  }

  /** `getBigInt64`: eight bytes at `at`, most significant first, two's complement. */
  function Int64At(data: seq<byte>, at: nat): (r: Result<int>)
    ensures r.Ok? <==> at + 8 <= |data|
    ensures r.Ok? ==> InSigned(r.value, 8)
  {
    if at + 8 <= |data| then
      FromBEBound(data[at..at + 8]);
      SignedRange(FromBE(data[at..at + 8]), 8);
      Ok(Signed(FromBE(data[at..at + 8]), 8))
    else Err(RANGE_ERROR)
  }

  /** A 16-bit word written big-endian reads back as itself. */
  lemma UInt16Written(data: seq<byte>, at: nat, v: int)
    requires 0 <= v < 0x1_0000 && at + 2 <= |data| && data[at..at + 2] == BE(v, 2)
    ensures UInt16At(data, at) == Ok(v)
  {
    Pow256Values();
    UnsignedBE(v, 2);
  }

  /** A signed 32-bit word written big-endian reads back as itself. */
  lemma Int32Written(data: seq<byte>, at: nat, v: int)
    requires InSigned(v, 4) && at + 4 <= |data| && data[at..at + 4] == BE(v, 4)
    ensures Int32At(data, at) == Ok(v)
  {
    SignedBE(v, 4);
  }

  /** A signed 64-bit word written big-endian reads back as itself. */
  lemma Int64Written(data: seq<byte>, at: nat, v: int)
    requires InSigned(v, 8) && at + 8 <= |data| && data[at..at + 8] == BE(v, 8)
    ensures Int64At(data, at) == Ok(v)
  {
    SignedBE(v, 8);
  }

  /**
   * What a DataView made over the whole backing store of a buffer reads at
   * `cursor`: the byte of the store there, wherever the buffer starts in it.
   */
  function StoreByteAt(store: seq<byte>, cursor: nat): (r: Result<byte>)
    ensures r.Ok? <==> cursor < |store|
    ensures r.Ok? ==> r.value == store[cursor]
  {
    if cursor < |store| then Ok(store[cursor]) else Err(RANGE_ERROR)
  }

  /** For a buffer at the start of its store, the store view and the buffer view read alike. */
  lemma StoreViewAtStart(store: seq<byte>, length: nat, cursor: nat)
    requires length <= |store| && cursor < length
    ensures StoreByteAt(store, cursor) == ByteAt(store[..length], cursor)
  {
  }

  /**
   * A one-byte buffer at offset 1 of the store ['N', 'T'] holds 'T', but a
   * view over the whole store reads 'N' at cursor 0 and still finds a byte
   * at cursor 1, past the buffer's end.
   */
  lemma StoreViewMisreads()
    ensures var store := [0x4e, 0x54];
      var bf := store[1..2];
      StoreByteAt(store, 0) == Ok(0x4e) && ByteAt(bf, 0) == Ok(0x54) &&
      StoreByteAt(store, 1).Ok? && ByteAt(bf, 1).Err?
  {
  }

  /** The reader: a buffer and a cursor into it. */
  class ByteV2 {
    const bytes: seq<byte>
    var offset: nat

    constructor (bf: seq<byte>)
      ensures bytes == bf && offset == 0
    {
      bytes := bf;
      offset := 0;
    }

    /** `get()`: the byte at the cursor; the cursor moves on by one even when the read fails. */
    method Get() returns (r: Result<byte>)
      modifies this
      ensures offset == old(offset) + 1
      ensures r.Ok? <==> old(offset) < |bytes|
      ensures r.Ok? ==> r.value == bytes[old(offset)]
    {
      r := ByteAt(bytes, offset);
      offset := offset + 1;
    }

    /** `get(cursor)`: the byte at `cursor`; the cursor stays. */
    method GetAt(cursor: nat) returns (r: Result<byte>)
      ensures r.Ok? <==> cursor < |bytes|
      ensures r.Ok? ==> r.value == bytes[cursor]
    {
      r := ByteAt(bytes, cursor);
    }

    /** `getChar()`: the byte at the cursor as a one-unit character; the cursor moves on by one. */
    method GetChar() returns (r: Result<unit16>)
      modifies this
      ensures offset == old(offset) + 1
      ensures r.Ok? <==> old(offset) < |bytes|
      ensures r.Ok? ==> r.value == bytes[old(offset)] as unit16
    {
      var b := Get();
      r := if b.Ok? then Ok(b.value as unit16) else Err(b.msg);
    }

    /** `getUInt16()`: a read that fails leaves the cursor; one that succeeds moves it by two. */
    method GetUInt16() returns (r: Result<nat>)
      modifies this
      ensures r == UInt16At(bytes, old(offset))
      ensures offset == if r.Ok? then old(offset) + 2 else old(offset)
    {
      r := UInt16At(bytes, offset);
      if r.Ok? {
        offset := offset + 2;
      }
    }

    /** `getInt()`: a signed 32-bit word; the cursor moves by four on success. */
    method GetInt() returns (r: Result<int>)
      modifies this
      ensures r == Int32At(bytes, old(offset))
      ensures offset == if r.Ok? then old(offset) + 4 else old(offset)
    {
      r := Int32At(bytes, offset);
      if r.Ok? {
        offset := offset + 4;
      }
    }

    /** `getLong()`: a signed 64-bit word; the cursor moves by eight on success. */
    method GetLong() returns (r: Result<int>)
      modifies this
      ensures r == Int64At(bytes, old(offset))
      ensures offset == if r.Ok? then old(offset) + 8 else old(offset)
    {
      r := Int64At(bytes, offset);
      if r.Ok? {
        offset := offset + 8;
      }
    }

    /** `position()`: the cursor. */
    method Position() returns (p: nat)
      ensures p == offset
    {
      p := offset;
    }

    /** `skip(len)`: the cursor moves by `len`, with no check against the end. */
    method Skip(len: nat)
      modifies this
      ensures offset == old(offset) + len
    {
      offset := offset + len;
    }

    /**
     * The decoding loop of `getRawStringByStringLength`: `length` characters
     * from `index`, each one, two or three bytes by its lead byte. It
     * succeeds exactly when the checked decoder does, with its characters
     * and its byte count.
     */
    method DecodeFrom(index: nat, length: nat) returns (r: Result<(seq<unit16>, nat)>)
      ensures r.Ok? <==> DecodeUnits(bytes, index, length).Ok?
      ensures r.Ok? ==> r == DecodeUnits(bytes, index, length)
    {
      ghost var d := DecodeUnits(bytes, index, length);
      var data: seq<unit16> := [];
      var bufLength: nat := 0;
      var n := length;
      DecodedStart(bytes, index, length);
      while n > 0
        invariant DecodedSoFar(bytes, index, index + bufLength, n, data, d)
        decreases n
      {
        var pos := index + bufLength;
        if pos >= |bytes| {
          DecodeFails(bytes, pos, n);
          return Err(RANGE_ERROR);
        }
        var ch := bytes[pos];
        var w := 0;
        var v: unit16 := 0;
        if ch < 0x80 {
          w, v := 1, ch;
        } else if 0xc0 <= ch < 0xe0 {
          if pos + 1 >= |bytes| {
            DecodeFails(bytes, pos, n);
            return Err(RANGE_ERROR);
          }
          w, v := 2, Unit2(ch, bytes[pos + 1]);
        } else if 0xe0 <= ch < 0xf0 {
          if pos + 2 >= |bytes| {
            DecodeFails(bytes, pos, n);
            return Err(RANGE_ERROR);
          }
          w, v := 3, Unit3(ch, bytes[pos + 1], bytes[pos + 2]);
        } else {
          DecodeFails(bytes, pos, n);
          return Err(NOT_UTF8);
        }
        DecodedStep(bytes, index, pos, n, data, d, pos + w, n - 1, data + [v]);
        data := data + [v];
        bufLength := bufLength + w;
        n := n - 1;
      }
      DecodedAll(bytes, index, index + bufLength, data, d);
      r := Ok((data, bufLength));
    }

    /** `getRawStringByStringLength(index, length)`: decodes at `index`; the cursor stays. */
    method GetRawStringAt(index: nat, length: nat) returns (r: Result<seq<unit16>>)
      ensures r.Ok? <==> DecodeUnits(bytes, index, length).Ok?
      ensures r.Ok? ==> r.value == DecodeUnits(bytes, index, length).value.0
    {
      var d := DecodeFrom(index, length);
      r := if d.Ok? then Ok(d.value.0) else Err(d.msg);
    }

    /**
     * `getRawStringByStringLength(length)`: decodes at the cursor and, on
     * success, moves the cursor past the bytes the characters took.
     */
    method GetRawString(length: nat) returns (r: Result<seq<unit16>>)
      modifies this
      ensures var d := DecodeUnits(bytes, old(offset), length);
        (r.Ok? <==> d.Ok?) &&
        (r.Ok? ==> r.value == d.value.0 && offset == old(offset) + d.value.1) &&
        (r.Err? ==> offset == old(offset))
    {
      var d := DecodeFrom(offset, length);
      if d.Ok? {
        offset := offset + d.value.1;
        r := Ok(d.value.0);
      } else {
        r := Err(d.msg);
      }
    }
  }

  /** A string put out with the raw string coding reads back whole, and the cursor ends after it. */
  lemma RawStringReadsBack(data: seq<byte>, at: nat, s: seq<unit16>)
    requires at + |RawString(s)| <= |data| && data[at..at + |RawString(s)|] == RawString(s)
    ensures DecodeUnits(data, at, |s|).Ok?
    ensures DecodeUnits(data, at, |s|).value == (s, |RawString(s)|)
  {
    DecodeRawString(data, at, s);
  }
}
