/**
 * What the Hessian 2.0 encoder writes, read back by the two readers of
 * this repository: the Rust transcoder, which reads the encoder's own
 * dialect, and the JavaScript 2.0 decoder, which reads another one. Each
 * form that both readers share reads back as the value written; the
 * forms where the dialects part are stated as what the JavaScript
 * decoder does with them instead.
 */
module V2RoundTrip {
  import opened Bytes
  import opened Wrappers
  import opened Utf8
  import opened JsValues
  import opened ByteView
  import opened V2Encoder
  import V2Decoder
  import Parse
  import Utils
  import V1RoundTrip
  import V1Encoder

  /** What `read_bytes` panics with on a code that neither goes on nor ends a byte array. */
  const READ_BYTES_ERROR: string := "read bytes error"
  /** What `read_string` panics with on a code that does not end a string. */
  const STRING_END_ERROR: string := "string muse be end"

  // ---------------------------------------------------------------------
  // The values `read_bytes` and `read_string` point at
  // ---------------------------------------------------------------------

  /**
   * The bytes `read_bytes` records from its code at `q`: a 'b' chunk (a
   * 16-bit length and that many bytes) goes on to the next code; a 'B'
   * chunk or a short chunk 0x20..0x2f ends the array. The payloads in
   * order and the position after the last one.
   */
  function BytesValue(data: seq<byte>, q: nat): (r: Result<(seq<byte>, nat)>)
    ensures r.Ok? ==> q < r.value.1 <= |data| && Parse.IsBytesCode(data[q])
    decreases |data| - q
  {
    if q >= |data| then Err(Parse.UNEXPECTED_END)
    else
      var code := data[q];
      if code == 0x62 || code == 0x42 then
        if q + 3 > |data| then Err(Parse.UNEXPECTED_END)
        else
          var len := FromBE(data[q + 1..q + 3]);
          if q + 3 + len > |data| then Err(Parse.UNEXPECTED_END)
          else if code == 0x62 then
            var rest :- BytesValue(data, q + 3 + len);
            Ok((data[q + 3..q + 3 + len] + rest.0, rest.1))
          else Ok((data[q + 3..q + 3 + len], q + 3 + len))
      else if 0x20 <= code <= 0x2f then
        var len := code as nat - 0x20;
        if q + 1 + len > |data| then Err(Parse.UNEXPECTED_END)
        else Ok((data[q + 1..q + 1 + len], q + 1 + len))
      else Err(READ_BYTES_ERROR)
  }

  /**
   * The string `read_string` records from its code at `q`: an 's' chunk
   * (a 16-bit count of code units and their UTF-8 bytes) goes on to the
   * next code; an 'S' chunk or a short chunk 0x00..0x1f ends the string.
   * The code units in order and the position after the last one.
   */
  function StringValue(data: seq<byte>, q: nat): (r: Result<(Text, nat)>)
    ensures r.Ok? ==> q < |data| && q < r.value.1 && Parse.IsStringCode(data[q])
    decreases |data| - q
  {
    if q >= |data| then Err(Parse.UNEXPECTED_END)
    else
      var code := data[q];
      if code == 0x73 || code == 0x53 then
        if q + 3 > |data| then Err(Parse.UNEXPECTED_END)
        else
          var len := FromBE(data[q + 1..q + 3]);
          var d :- DecodeUnits(data, q + 3, len);
          if code == 0x73 then
            var rest :- StringValue(data, q + 3 + d.1);
            Ok((d.0 + rest.0, rest.1))
          else Ok((d.0, q + 3 + d.1))
      else if code <= 0x1f then
        var d :- DecodeUnits(data, q + 1, code as nat);
        Ok((d.0, q + 1 + d.1))
      else Err(STRING_END_ERROR)
  }

  // ---------------------------------------------------------------------
  // Ints, longs and references
  // ---------------------------------------------------------------------

  /** Two bytes of an unsigned 16-bit value, most significant first. */
  lemma TwoBytes(u: int)
    requires 0 <= u < 0x1_0000
    ensures BE(u, 2) == [u / 0x100, u % 0x100]
  {
  }

  /** A one-byte form: the code alone. */
  lemma OneAt(data: seq<byte>, p: nat, v: int, base: int)
    requires 0 <= v + base < 0x100 && V1RoundTrip.Holds(data, p, [v + base])
    ensures p < |data| && data[p] as int - base == v
  {
    V1RoundTrip.HoldsHead(data, p, v + base, []);
  }

  /** A two-byte form: the high bits added to the code, then the low byte. */
  lemma TwoAt(data: seq<byte>, p: nat, v: int, base: int)
    requires -0x800 <= v <= 0x7ff && 8 <= base <= 0xf8
    requires V1RoundTrip.Holds(data, p, [v / 0x100 + base, v % 0x100])
    ensures p + 2 <= |data| && data[p] as int == v / 0x100 + base
    ensures (data[p] as int - base) * 0x100 + data[p + 1] as int == v
  {
    V1RoundTrip.HoldsHead(data, p, v / 0x100 + base, [v % 0x100]);
    assert data[p..p + 2][1] == v % 0x100;
  }

  /** A three-byte form: the high bits added to the code, then two bytes. */
  lemma ThreeAt(data: seq<byte>, p: nat, v: int, base: int)
    requires -0x4_0000 <= v <= 0x3_ffff && 4 <= base <= 0xfc
    requires V1RoundTrip.Holds(data, p, [v / 0x1_0000 + base] + BE(v % 0x1_0000, 2))
    ensures p + 3 <= |data| && data[p] as int == v / 0x1_0000 + base
    ensures (data[p] as int - base) * 0x1_0000 + data[p + 1] as int * 0x100 + data[p + 2] as int == v
  {
    var u := v % 0x1_0000;
    TwoBytes(u);
    V1RoundTrip.HoldsHead(data, p, v / 0x1_0000 + base, BE(u, 2));
    assert data[p..p + 3][1] == u / 0x100 && data[p..p + 3][2] == u % 0x100;
  }

  /** A form of a code and an `n`-byte signed word. */
  lemma WordAt(data: seq<byte>, p: nat, code: byte, v: int, n: nat)
    requires InSigned(v, n) && V1RoundTrip.Holds(data, p, [code] + BE(v, n))
    ensures p + 1 + n <= |data| && data[p] == code
    ensures Signed(FromBE(data[p + 1..p + 1 + n]), n) == v
  {
    V1RoundTrip.HoldsSplit(data, p, [code], BE(v, n));
    V1RoundTrip.HoldsHead(data, p, code, []);
    SignedBE(v, n);
  }

  /** `writeInt` reads back through `read_int_value` and through the 2.0 decoder's `readInt`. */
  lemma IntFormReadsBack(data: seq<byte>, p: nat, v: int)
    requires InSigned(v, 4) && V1RoundTrip.Holds(data, p, IntForm(v))
    ensures Parse.IntValue(data, p) == Ok((v, p + |IntForm(v)|))
    ensures V2Decoder.IntAt(data, p) == Ok((v, p + |IntForm(v)|))
  {
    if -0x10 <= v <= 0x2f {
      OneAt(data, p, v, 0x90);
    } else if -0x800 <= v <= 0x7ff {
      TwoAt(data, p, v, 0xc8);
    } else if -0x4_0000 <= v <= 0x3_ffff {
      ThreeAt(data, p, v, 0xd4);
    } else {
      WordAt(data, p, 0x49, v, 4);
      Int32Written(data, p + 1, v);
    }
  }

  /** A one-byte long 0xd8..0xef reads back through `read_long_value`. */
  lemma LongOneRead(data: seq<byte>, p: nat, v: int)
    requires -8 <= v <= 15 && V1RoundTrip.Holds(data, p, [v + 0xe0])
    ensures Parse.LongValue(data, p) == Ok((v, p + 1))
  {
    OneAt(data, p, v, 0xe0);
  }

  /** A two-byte long 0xf0..0xff reads back through `read_long_value`. */
  lemma LongTwoRead(data: seq<byte>, p: nat, v: int)
    requires -0x800 <= v <= 0x7ff && V1RoundTrip.Holds(data, p, [v / 0x100 + 0xf8, v % 0x100])
    ensures Parse.LongValue(data, p) == Ok((v, p + 2))
  {
    TwoAt(data, p, v, 0xf8);
  }

  /** A three-byte long 0x38..0x3f reads back through `read_long_value`. */
  lemma LongThreeRead(data: seq<byte>, p: nat, v: int)
    requires -0x4_0000 <= v <= 0x3_ffff && V1RoundTrip.Holds(data, p, [v / 0x1_0000 + 0x3c] + BE(v % 0x1_0000, 2))
    ensures Parse.LongValue(data, p) == Ok((v, p + 3))
  {
    ThreeAt(data, p, v, 0x3c);
  }

  /** The compact forms of `writeLong` read back through `read_long_value`. */
  lemma CompactLongReadsBack(data: seq<byte>, p: nat, v: int)
    requires -0x4_0000 <= v <= 0x3_ffff && V1RoundTrip.Holds(data, p, LongForm(v))
    ensures Parse.LongValue(data, p) == Ok((v, p + |LongForm(v)|))
  {
    hide Parse.LongValue;
    if -8 <= v <= 15 {
      LongOneRead(data, p, v);
    } else if -0x800 <= v <= 0x7ff {
      LongTwoRead(data, p, v);
    } else {
      LongThreeRead(data, p, v);
    }
  }


  /** The 0x77 and 'L' forms of `writeLong` read back through `read_long_value`. */
  lemma WordLongReadsBack(data: seq<byte>, p: nat, v: int)
    requires InSigned(v, 8) && !(-0x4_0000 <= v <= 0x3_ffff) && V1RoundTrip.Holds(data, p, LongForm(v))
    ensures Parse.LongValue(data, p) == Ok((v, p + |LongForm(v)|))
  {
    if -0x8000_0000 <= v <= 0x7fff_ffff {
      Pow256Values();
      WordAt(data, p, 0x77, v, 4);
    } else {
      WordAt(data, p, 0x4c, v, 8);
    }
  }

  /**
   * `writeLong` on a number reads back through `read_long_value`, which
   * takes every form the encoder writes, 0x77 included.
   */
  lemma LongFormReadsBack(data: seq<byte>, p: nat, v: int)
    requires InSigned(v, 8) && V1RoundTrip.Holds(data, p, LongForm(v))
    ensures Parse.LongValue(data, p) == Ok((v, p + |LongForm(v)|))
  {
    hide LongForm, Parse.LongValue;
    if -0x4_0000 <= v <= 0x3_ffff {
      CompactLongReadsBack(data, p, v);
    } else {
      WordLongReadsBack(data, p, v);
    }
  }



  /** The 2.0 decoder's `readLong` reads back the compact forms of `writeLong` as numbers. */
  lemma CompactLongInDecoder(data: seq<byte>, p: nat, v: int)
    requires -0x4_0000 <= v <= 0x3_ffff && V1RoundTrip.Holds(data, p, LongForm(v))
    ensures V2Decoder.LongAt(data, p) == Ok((DLong(Utils.AsNumber(v)), p + |LongForm(v)|))
  {
    if -8 <= v <= 15 {
      OneAt(data, p, v, 0xe0);
    } else if -0x800 <= v <= 0x7ff {
      TwoAt(data, p, v, 0xf8);
    } else {
      ThreeAt(data, p, v, 0x3c);
    }
  }

  /** A value outside 32 bits is written as 'L' and eight bytes. */
  lemma WideLongForm(v: int)
    requires !InSigned(v, 4)
    ensures LongForm(v) == [0x4c] + BE(v, 8)
  {
    Pow256Values();
  }

  /** The 2.0 decoder's `readLong` reads back the 64-bit form of `writeLong` through `handleLong`. */
  lemma WideLongInDecoder(data: seq<byte>, p: nat, v: int)
    requires InSigned(v, 8) && !InSigned(v, 4) && V1RoundTrip.Holds(data, p, LongForm(v))
    ensures V2Decoder.LongAt(data, p) == Ok((DLong(Utils.HandleLong(v)), p + 9))
  {
    hide Utils.HandleLong, LongForm, Int32At;
    WideLongForm(v);
    V1RoundTrip.HoldsSplit(data, p, [0x4c], BE(v, 8));
    V1RoundTrip.HoldsHead(data, p, 0x4c, []);
    Int64Written(data, p + 1, v);
  }

  /**
   * The 2.0 decoder has no reader for the 0x77 form `writeLong` uses for
   * a value that needs 32 bits: `readLong` refuses it and `read` takes
   * 0x77 for a typed list.
   */
  lemma Long32InDecoder(data: seq<byte>, p: nat, v: int)
    requires InSigned(v, 4) && !(-0x4_0000 <= v <= 0x3_ffff) && V1RoundTrip.Holds(data, p, LongForm(v))
    ensures V2Decoder.LongAt(data, p) == Err(V2Decoder.CodeError("readLong"))
    ensures V2Decoder.ReaderOf(data[p]) == Some(V2Decoder.OnArray)
  {
    Pow256Values();
    V1RoundTrip.HoldsHead(data, p, 0x77, BE(v, 4));
  }

  /** `writeRef` reads back through `read_ref_id`. */
  lemma RefFormReadsBack(data: seq<byte>, p: nat, id: nat)
    requires id < TWO32 && V1RoundTrip.Holds(data, p, RefForm(id))
    ensures Parse.RefIdValue(data, p) == Ok((id, p + |RefForm(id)|))
  {
    Pow256Values();
    if id < 0x100 {
      V1RoundTrip.HoldsHead(data, p, 0x4a, [id]);
      assert data[p..p + 2][1] == id;
    } else if id < 0x1_0000 {
      V1RoundTrip.HoldsSplit(data, p, [0x4b], BE(id, 2));
      V1RoundTrip.HoldsHead(data, p, 0x4b, []);
      UnsignedBE(id, 2);
    } else {
      V1RoundTrip.HoldsSplit(data, p, [0x52], BE(id, 4));
      V1RoundTrip.HoldsHead(data, p, 0x52, []);
      UnsignedBE(id, 4);
    }
  }

  /**
   * The 2.0 decoder reads references as 'Q' and an int: the 'J' and 'K'
   * forms `writeRef` writes are dates to it, and the 'R' form a string
   * chunk.
   */
  lemma RefFormInDecoder(id: nat)
    ensures id < 0x1_0000 ==> V2Decoder.ReaderOf(RefForm(id)[0]) == Some(V2Decoder.OnDate)
    ensures id >= 0x1_0000 ==> V2Decoder.ReaderOf(RefForm(id)[0]) == Some(V2Decoder.OnString)
  {
  }

  // ---------------------------------------------------------------------
  // Byte arrays and strings
  // ---------------------------------------------------------------------

  /** The last chunk of a byte array of up to 0x8000 bytes, as `read_bytes` ends it. */
  lemma FinalBytesReadBack(data: seq<byte>, p: nat, b: seq<byte>)
    requires |b| <= MAX_BYTE_TRUNK_SIZE && V1RoundTrip.Holds(data, p, BytesForm(b))
    ensures BytesValue(data, p) == Ok((b, p + |BytesForm(b)|))
  {
    hide BytesForm;
    BytesFormFinal(b);
    if |b| <= 15 {
      V1RoundTrip.HoldsSplit(data, p, [|b| + 0x20], b);
      V1RoundTrip.HoldsHead(data, p, |b| + 0x20, []);
    } else {
      V1RoundTrip.ChunkHeader(data, p, 0x42, |b|, b);
    }
  }

  /** A 'b' chunk of a byte array: its bytes, then what `read_bytes` reads from the next code. */
  lemma BytesChunkRead(data: seq<byte>, p: nat, b: seq<byte>) returns (q: nat)
    requires |b| > MAX_BYTE_TRUNK_SIZE && V1RoundTrip.Holds(data, p, BytesForm(b))
    ensures V1RoundTrip.Holds(data, q, BytesForm(b[MAX_BYTE_TRUNK_SIZE..]))
    ensures q + |BytesForm(b[MAX_BYTE_TRUNK_SIZE..])| == p + |BytesForm(b)|
    ensures var r := BytesValue(data, q);
      r.Ok? ==> BytesValue(data, p) == Ok((b[..MAX_BYTE_TRUNK_SIZE] + r.value.0, r.value.1))
  {
    hide BytesForm;
    var n := MAX_BYTE_TRUNK_SIZE;
    var rest := BytesForm(b[n..]);
    BytesFormStep(b, 0);
    assert b[0..] == b && b[0..n] == b[..n] && b[0 + n..] == b[n..];
    V1Encoder.Assoc([0x62] + BE(n, 2), b[..n], rest);
    V1RoundTrip.ChunkHeader(data, p, 0x62, n, b[..n] + rest);
    V1RoundTrip.HoldsSplit(data, p + 3, b[..n], rest);
    q := p + 3 + n;
  }

  /** The payloads `read_bytes` collects from the chunks of `writeBytes` are the array written. */
  lemma {:induction false} BytesFormReadsBack(data: seq<byte>, p: nat, b: seq<byte>)
    requires V1RoundTrip.Holds(data, p, BytesForm(b))
    ensures BytesValue(data, p) == Ok((b, p + |BytesForm(b)|))
    decreases |b|
  {
    hide BytesForm, BytesValue;
    if |b| > MAX_BYTE_TRUNK_SIZE {
      var q := BytesChunkRead(data, p, b);
      BytesFormReadsBack(data, q, b[MAX_BYTE_TRUNK_SIZE..]);
      assert b[..MAX_BYTE_TRUNK_SIZE] + b[MAX_BYTE_TRUNK_SIZE..] == b;
    } else {
      FinalBytesReadBack(data, p, b);
    }
  }

  /** The last chunk of a string of up to 0x8000 code units, as `read_string` ends it. */
  lemma FinalStringReadBack(data: seq<byte>, p: nat, s: Text)
    requires |s| <= Utils.MAX_CHAR_TRUNK_SIZE && V1RoundTrip.Holds(data, p, StringForm(s))
    ensures StringValue(data, p) == Ok((s, p + |StringForm(s)|))
  {
    hide StringForm, RawString, DecodeUnits;
    StringFormFinal(s);
    if |s| <= 31 {
      V1RoundTrip.HoldsSplit(data, p, [|s|], RawString(s));
      V1RoundTrip.HoldsHead(data, p, |s|, []);
      DecodeRawString(data, p + 1, s);
    } else {
      V1RoundTrip.ChunkHeader(data, p, 0x53, |s|, RawString(s));
      DecodeRawString(data, p + 3, s);
    }
  }


  /** A form that sits at `p` has its first byte there. */
  lemma HeadOf(data: seq<byte>, p: nat, form: seq<byte>)
    requires |form| > 0 && V1RoundTrip.Holds(data, p, form)
    ensures p < |data| && data[p] == form[0]
  {
    assert data[p..p + |form|][0] == form[0];
  }

  /** An 's' chunk of a string: its code units, then what `read_string` reads from the next code. */
  lemma StringChunkRead(data: seq<byte>, p: nat, s: Text) returns (q: nat)
    requires |s| > Utils.MAX_CHAR_TRUNK_SIZE && V1RoundTrip.Holds(data, p, StringForm(s))
    ensures V1RoundTrip.Holds(data, q, StringForm(s[ChunkLen(s)..]))
    ensures q + |StringForm(s[ChunkLen(s)..])| == p + |StringForm(s)|
    ensures StringValue(data, p) == V2Decoder.Prefixed(s[..ChunkLen(s)], StringValue(data, q))
  {
    hide StringForm, RawString, DecodeUnits, ChunkLen;
    var n := ChunkLen(s);
    var raw := RawString(s[..n]);
    var rest := StringForm(s[n..]);
    StringFormStep(s, 0, n);
    assert s[0..] == s && s[0..n] == s[..n] && s[0 + n..] == s[n..];
    V1Encoder.Assoc([0x73] + BE(n, 2), raw, rest);
    V1RoundTrip.ChunkHeader(data, p, 0x73, n, raw + rest);
    V1RoundTrip.HoldsSplit(data, p + 3, raw, rest);
    DecodeRawString(data, p + 3, s[..n]);
    q := p + 3 + |raw|;
  }


  /**
   * The code units `read_string` collects from the chunks of
   * `writeString` are the string written: a chunk cut before a low
   * surrogate still holds whole characters.
   */
  lemma {:induction false} StringFormReadsBack(data: seq<byte>, p: nat, s: Text)
    requires V1RoundTrip.Holds(data, p, StringForm(s))
    ensures StringValue(data, p) == Ok((s, p + |StringForm(s)|))
    decreases |s|
  {
    hide StringForm, RawString, ChunkLen, StringValue;
    if |s| > Utils.MAX_CHAR_TRUNK_SIZE {
      var q := StringChunkRead(data, p, s);
      var n := ChunkLen(s);
      StringFormReadsBack(data, q, s[n..]);
      assert s[..n] + s[n..] == s;
    } else {
      FinalStringReadBack(data, p, s);
    }
  }


  /**
   * The 2.0 decoder's `readBytes` reads back an array of up to 0x8000
   * bytes, which `writeBytes` writes as one final chunk.
   */
  lemma ShortBytesInDecoder(data: seq<byte>, p: nat, b: seq<byte>)
    requires |b| <= MAX_BYTE_TRUNK_SIZE && V1RoundTrip.Holds(data, p, BytesForm(b))
    ensures V2Decoder.BytesAt(data, p) == Ok((DBytes(b), p + |BytesForm(b)|))
  {
    hide BytesForm, Int32At, Int64At, DecodeUnits;
    BytesFormFinal(b);
    if |b| <= 15 {
      V1RoundTrip.HoldsSplit(data, p, [|b| + 0x20], b);
      V1RoundTrip.HoldsHead(data, p, |b| + 0x20, []);
    } else {
      V1RoundTrip.ChunkHeader(data, p, 0x42, |b|, b);
    }
    assert [] + b == b;
  }

  /**
   * A longer array starts with the 'b' chunk code, which the 2.0
   * decoder's `readBytes` does not accept (its chunk code is 'A').
   */
  lemma LongBytesInDecoder(data: seq<byte>, p: nat, b: seq<byte>)
    requires |b| > MAX_BYTE_TRUNK_SIZE && V1RoundTrip.Holds(data, p, BytesForm(b))
    ensures V2Decoder.BytesAt(data, p) == Err(V2Decoder.CodeError("readBytes"))
  {
    hide BytesForm, Int32At, Int64At, DecodeUnits;
    BytesFormHead(b);
    HeadOf(data, p, BytesForm(b));
  }

  /**
   * The 2.0 decoder's `readString` reads back a string of up to 0x8000
   * code units, which `writeString` writes as one final chunk.
   */
  lemma ShortStringInDecoder(data: seq<byte>, p: nat, s: Text)
    requires |s| <= Utils.MAX_CHAR_TRUNK_SIZE && V1RoundTrip.Holds(data, p, StringForm(s))
    ensures V2Decoder.StringAt(data, p) == Ok((DStr(s), p + |StringForm(s)|))
  {
    hide StringForm, DecodeUnits, Int32At, Int64At, V2Decoder.StringFrom;
    StringFormFinal(s);
    if |s| <= 31 {
      V1RoundTrip.HoldsSplit(data, p, [|s|], RawString(s));
      V1RoundTrip.HoldsHead(data, p, |s|, []);
      DecodeRawString(data, p + 1, s);
      assert V2Decoder.StringChunk(data, p) == Ok((s, p + |StringForm(s)|));
    } else {
      V1RoundTrip.ChunkHeader(data, p, 0x53, |s|, RawString(s));
      DecodeRawString(data, p + 3, s);
      assert V2Decoder.StringChunk(data, p) == Ok((s, p + |StringForm(s)|));
    }
    V2Decoder.StringStep(data, p);
  }


  /**
   * A longer string starts with the 's' chunk code, which the 2.0
   * decoder's `readString` does not accept (its chunk code is 'R').
   */
  lemma LongStringInDecoder(data: seq<byte>, p: nat, s: Text)
    requires |s| > Utils.MAX_CHAR_TRUNK_SIZE && V1RoundTrip.Holds(data, p, StringForm(s))
    ensures V2Decoder.StringAt(data, p) == Err(V2Decoder.CodeError("readString"))
  {
    hide StringForm, RawString, DecodeUnits, Int32At, Int64At;
    StringFormHead(s);
    HeadOf(data, p, StringForm(s));
  }
}
