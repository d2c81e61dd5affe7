/**
 * The 1/2/3-byte character coding that Hessian uses for strings: every
 * UTF-16 code unit, surrogates included, is written on its own as a one-,
 * two- or three-byte UTF-8 sequence, and readers classify a sequence by its
 * lead byte alone.
 */
module Utf8 {
  import opened Bytes
  import opened Wrappers

  type unit16 = x: int | 0 <= x < 0x10000

  const OUT_OF_BOUNDS: string := "index out of range"
  const NOT_UTF8: string := "string is not valid UTF-8 encode"

  /**
   * Sequence width announced by a lead byte: 0xxxxxxx, 110xxxxx (the byte
   * masked with 0xe0 is 0xc0), 1110xxxx (masked with 0xf0 it is 0xe0); 0 for
   * anything else.
   */
  function LeadWidth(b: byte): (w: nat)
    ensures w <= 3
  {
    if b < 0x80 then 1 else if b < 0xc0 then 0 else if b < 0xe0 then 2 else if b < 0xf0 then 3 else 0
  }

  /** The code unit of a two-byte sequence: low five bits of the lead, low six of the next byte. */
  function Unit2(b0: byte, b1: byte): (u: unit16)
    ensures u < 0x800
  {
    (b0 % 32) * 64 + b1 % 64
  }

  /** The code unit of a three-byte sequence. */
  function Unit3(b0: byte, b1: byte, b2: byte): unit16
  {
    (b0 % 16) * 4096 + (b1 % 64) * 64 + b2 % 64
  }

  predicate IsSurrogate(u: int)
  {
    0xd800 <= u <= 0xdfff
  }

  /** The bytes the writer puts out for one code unit. */
  function EncodeUnit(u: unit16): (r: seq<byte>)
    ensures 1 <= |r| <= 3
    ensures |r| == 1 <==> u < 0x80
  {
    if u < 0x80 then [u]
    else if u < 0x800 then [0xc0 + u / 64, 0x80 + u % 64]
    else [0xe0 + u / 4096, 0x80 + (u / 64) % 64, 0x80 + u % 64]
  }

  /** The raw bytes of a string: each code unit encoded on its own. */
  function RawString(s: seq<unit16>): (r: seq<byte>)
    ensures |r| >= |s|
  {
    Concat(s, EncodeUnit)
  }

  /** The concatenated codings of the units of `s`, under a coding of at least one byte per unit. */
  function Concat(s: seq<unit16>, enc: unit16 -> seq<byte>): (r: seq<byte>)
    requires forall u :: |enc(u)| >= 1
    ensures |r| >= |s|
  {
    if s == [] then [] else enc(s[0]) + Concat(s[1..], enc)
  }

  /** The code unit of the `w`-byte sequence at `pos`. */
  function UnitOf(data: seq<byte>, pos: nat, w: nat): unit16
    requires 1 <= w <= 3 && pos + w <= |data|
  {
    if w == 1 then data[pos] as unit16
    else if w == 2 then Unit2(data[pos], data[pos + 1])
    else Unit3(data[pos], data[pos + 1], data[pos + 2])
  }

  /**
   * Decodes `n` characters starting at `pos` with every byte read checked:
   * the code units and the number of bytes they took.
   */
  function DecodeUnits(data: seq<byte>, pos: nat, n: nat): (r: Result<(seq<unit16>, nat)>)
    ensures r.Ok? ==> |r.value.0| == n && r.value.1 >= n
    ensures r.Ok? && n > 0 ==> pos + r.value.1 <= |data|
    decreases n
  {
    if n == 0 then Ok(([], 0))
    else if pos >= |data| then Err(OUT_OF_BOUNDS)
    else
      var w := LeadWidth(data[pos]);
      if w == 0 then Err(NOT_UTF8)
      else if pos + w > |data| then Err(OUT_OF_BOUNDS)
      else
        var u := UnitOf(data, pos, w);
        match DecodeUnits(data, pos + w, n - 1)
        case Ok(rest) => Ok(([u] + rest.0, w + rest.1))
        case Err(e) => Err(e)
  }

  /** One step of the checked decoder: the first character, then the rest. */
  lemma DecodeStep(data: seq<byte>, pos: nat, n: nat)
    requires 0 < n && pos < |data| && LeadWidth(data[pos]) != 0 && pos + LeadWidth(data[pos]) <= |data|
    ensures var w := LeadWidth(data[pos]);
      var rest := DecodeUnits(data, pos + w, n - 1);
      (DecodeUnits(data, pos, n).Ok? <==> rest.Ok?) &&
      (rest.Ok? ==> DecodeUnits(data, pos, n).value == ([UnitOf(data, pos, w)] + rest.value.0, w + rest.value.1))
  {
  }

  /**
   * Loop state of a decoder that has stored `written` and stands at `cur`
   * with `n` characters to go: the whole decode `d` from `start` succeeds
   * exactly when the rest does, and is what was stored followed by the rest.
   */
  predicate DecodedSoFar(data: seq<byte>, start: nat, cur: nat, n: nat, written: seq<unit16>,
                         d: Result<(seq<unit16>, nat)>)
  {
    start <= cur &&
    (d.Ok? <==> DecodeUnits(data, cur, n).Ok?) &&
    (d.Ok? ==> d.value == (written + DecodeUnits(data, cur, n).value.0, (cur - start) + DecodeUnits(data, cur, n).value.1))
  }

  /** Before the first character the loop state holds with nothing stored. */
  lemma DecodedStart(data: seq<byte>, start: nat, n: nat)
    ensures DecodedSoFar(data, start, start, n, [], DecodeUnits(data, start, n))
  {
    var d := DecodeUnits(data, start, n);
    if d.Ok? {
      assert [] + d.value.0 == d.value.0;
      assert d.value == ([] + d.value.0, (start - start) + d.value.1);
    }
  }

  /** Decoding one more character keeps the loop state. */
  lemma DecodedStep(data: seq<byte>, start: nat, cur: nat, n: nat, written: seq<unit16>, d: Result<(seq<unit16>, nat)>,
                    cur': nat, n': nat, written': seq<unit16>)
    requires DecodedSoFar(data, start, cur, n, written, d)
    requires 0 < n && cur < |data| && LeadWidth(data[cur]) != 0 && cur + LeadWidth(data[cur]) <= |data|
    requires cur' == cur + LeadWidth(data[cur]) && n' == n - 1
    requires written' == written + [UnitOf(data, cur, LeadWidth(data[cur]))]
    ensures DecodedSoFar(data, start, cur', n', written', d)
  {
    var w := LeadWidth(data[cur]);
    var u := UnitOf(data, cur, w);
    DecodeStep(data, cur, n);
    var rest := DecodeUnits(data, cur + w, n - 1);
    if d.Ok? {
      assert written + [u] + rest.value.0 == written + ([u] + rest.value.0);
    }
  }

  /** At the end of the loop the whole decode is what was stored. */
  lemma DecodedAll(data: seq<byte>, start: nat, cur: nat, written: seq<unit16>, d: Result<(seq<unit16>, nat)>)
    requires DecodedSoFar(data, start, cur, 0, written, d)
    ensures d == Ok((written, cur - start))
  {
    assert written + [] == written;
  }

  /** The checked decoder fails at a missing byte, a bad lead byte or a truncated sequence. */
  lemma DecodeFails(data: seq<byte>, pos: nat, n: nat)
    requires 0 < n
    requires pos >= |data| || LeadWidth(data[pos]) == 0 || pos + LeadWidth(data[pos]) > |data|
    ensures DecodeUnits(data, pos, n).Err?
  {
  }

  /** The checked decoder puts the first character in front of the rest. */
  lemma DecodeCons(data: seq<byte>, pos: nat, n: nat, u: unit16, w: nat, t: seq<unit16>, k: nat)
    requires 0 < n && pos < |data| && LeadWidth(data[pos]) == w && 1 <= w && pos + w <= |data|
    requires UnitOf(data, pos, w) == u && DecodeUnits(data, pos + w, n - 1) == Ok((t, k))
    ensures DecodeUnits(data, pos, n) == Ok(([u] + t, w + k))
  {
  }

  /** Every character's sequence decodes back to the code unit it was written from. */
  lemma EncodeUnitDecodes(u: unit16)
    ensures var e := EncodeUnit(u);
      (|e| == 1 ==> e[0] == u) &&
      (|e| == 2 ==> Unit2(e[0], e[1]) == u) &&
      (|e| == 3 ==> Unit3(e[0], e[1], e[2]) == u)
  {
    if 0x80 <= u < 0x800 {
      Unit2Of(u);
    } else if 0x800 <= u {
      Unit3Of(u);
    }
  }

  lemma Unit2Of(u: unit16)
    requires 0x80 <= u < 0x800
    ensures Unit2(0xc0 + u / 64, 0x80 + u % 64) == u
  {
    var q, r := u / 64, u % 64;
    assert u == 64 * q + r && q < 32;
    DivModUnique(0xc0 + q, 32, 6, q);
    DivModUnique(0x80 + r, 64, 2, r);
  }

  lemma Unit3Of(u: unit16)
    requires 0x800 <= u
    ensures Unit3(0xe0 + u / 4096, 0x80 + (u / 64) % 64, 0x80 + u % 64) == u
  {
    var q, c := u / 64, u % 64;
    var a, b := q / 64, q % 64;
    assert u == 64 * q + c && q == 64 * a + b;
    DivModUnique(u, 4096, a, 64 * b + c);
    assert a < 16;
    DivModUnique(0xe0 + a, 16, 14, a);
    DivModUnique(0x80 + b, 64, 2, b);
    DivModUnique(0x80 + c, 64, 2, c);
  }

  /** The first character of a concatenation sits at its front, and the rest follows it. */
  lemma ConcatHead(data: seq<byte>, pos: nat, s: seq<unit16>, enc: unit16 -> seq<byte>)
    requires forall u :: |enc(u)| >= 1
    requires s != []
    requires pos + |Concat(s, enc)| <= |data|
    requires data[pos..pos + |Concat(s, enc)|] == Concat(s, enc)
    ensures var e := enc(s[0]);
      |Concat(s, enc)| == |e| + |Concat(s[1..], enc)| &&
      data[pos..pos + |e|] == e &&
      data[pos + |e|..pos + |Concat(s, enc)|] == Concat(s[1..], enc)
  {
    SliceSplit(data, pos, Concat(s, enc), enc(s[0]), Concat(s[1..], enc));
  }

  /** The sequence written for `u` is classified by its lead byte and decodes to `u`. */
  lemma UnitAt(data: seq<byte>, pos: nat, u: unit16)
    requires pos + |EncodeUnit(u)| <= |data|
    requires data[pos..pos + |EncodeUnit(u)|] == EncodeUnit(u)
    ensures LeadWidth(data[pos]) == |EncodeUnit(u)| && UnitOf(data, pos, |EncodeUnit(u)|) == u
  {
    var e := EncodeUnit(u);
    assert data[pos] == e[0];
    if |e| >= 2 { assert data[pos + 1] == e[1]; }
    if |e| == 3 { assert data[pos + 2] == e[2]; }
    EncodeUnitDecodes(u);
  }

  /** Decoding the raw bytes of a string gives the string back, wherever it sits in the buffer. */
  lemma DecodeRawString(data: seq<byte>, pos: nat, s: seq<unit16>)
    requires pos + |RawString(s)| <= |data|
    requires data[pos..pos + |RawString(s)|] == RawString(s)
    ensures DecodeUnits(data, pos, |s|) == Ok((s, |RawString(s)|))
  {
    RawUnitsAt(data, pos, s);
    DecodeUnitsAt(data, pos, s, |RawString(s)|);
  }

  /**
   * `s` sits at `pos` in `len` bytes, character by character: each lead
   * byte announces a width whose sequence decodes to the character, and
   * only three-byte sequences carry surrogates.
   */
  predicate UnitsAt(data: seq<byte>, pos: nat, s: seq<unit16>, len: nat)
    decreases |s|
  {
    if s == [] then len == 0
    else
      pos < |data| &&
      var w := LeadWidth(data[pos]);
      1 <= w <= len && pos + w <= |data| && UnitOf(data, pos, w) == s[0] &&
      (IsSurrogate(s[0]) ==> w == 3) &&
      UnitsAt(data, pos + w, s[1..], len - w)
  }

  /** The raw bytes of a string lay out its characters one after the other. */
  lemma {:induction false} RawUnitsAt(data: seq<byte>, pos: nat, s: seq<unit16>)
    requires pos + |RawString(s)| <= |data|
    requires data[pos..pos + |RawString(s)|] == RawString(s)
    ensures UnitsAt(data, pos, s, |RawString(s)|)
    decreases |s|
  {
    if s != [] {
      var w := RawFront(data, pos, s);
      RawUnitsAt(data, pos + w, s[1..]);
    }
  }

  /** The checked decoder reads back characters laid out one after the other. */
  lemma {:induction false} DecodeUnitsAt(data: seq<byte>, pos: nat, s: seq<unit16>, len: nat)
    requires UnitsAt(data, pos, s, len)
    ensures DecodeUnits(data, pos, |s|) == Ok((s, len))
    decreases |s|
  {
    if s != [] {
      var w := LeadWidth(data[pos]);
      DecodeUnitsAt(data, pos + w, s[1..], len - w);
      DecodeCons(data, pos, |s|, s[0], w, s[1..], len - w);
      assert [s[0]] + s[1..] == s;
    }
  }

  /** The first character of a written string: its width, its lead byte's class and its code unit. */
  lemma RawFront(data: seq<byte>, pos: nat, s: seq<unit16>) returns (w: nat)
    requires s != []
    requires pos + |RawString(s)| <= |data|
    requires data[pos..pos + |RawString(s)|] == RawString(s)
    ensures 1 <= w <= 3 && |RawString(s)| == w + |RawString(s[1..])|
    ensures data[pos + w..pos + |RawString(s)|] == RawString(s[1..])
    ensures pos < |data| && LeadWidth(data[pos]) == w && UnitOf(data, pos, w) == s[0]
    ensures IsSurrogate(s[0]) ==> w == 3
  {
    w := |EncodeUnit(s[0])|;
    ConcatHead(data, pos, s, EncodeUnit);
    UnitAt(data, pos, s[0]);
    SurrogateWidth(s[0]);
  }

  /** A surrogate is written as a three-byte sequence. */
  lemma SurrogateWidth(u: unit16)
    ensures IsSurrogate(u) ==> |EncodeUnit(u)| == 3
  {
  }

  /**
   * The classification pass over `n` characters that precedes string
   * output: the bytes they take and whether a three-byte sequence decoded
   * into a surrogate. Only lead bytes are read, except that while no
   * surrogate has been seen a three-byte sequence has its two continuation
   * bytes read too; any of these reads past the buffer fails.
   */
  function Scan(data: seq<byte>, pos: nat, n: nat, sur: bool): (r: Result<(nat, bool)>)
    ensures r.Ok? ==> r.value.0 >= n
    ensures r.Ok? && n > 0 ==> pos + n <= |data|
    ensures r.Ok? && sur ==> r.value.1
    decreases n
  {
    if n == 0 then Ok((0, sur))
    else if pos >= |data| then Err(OUT_OF_BOUNDS)
    else
      var w := LeadWidth(data[pos]);
      if w == 0 then Err(NOT_UTF8)
      else if w == 3 && !sur && pos + 2 >= |data| then Err(OUT_OF_BOUNDS)
      else
        var sur' := sur || (w == 3 && IsSurrogate(Unit3(data[pos], data[pos + 1], data[pos + 2])));
        match Scan(data, pos + w, n - 1, sur')
        case Ok(rest) => Ok((w + rest.0, rest.1))
        case Err(e) => Err(e)
  }

  /** Every byte in `[from, to)` exists and is below 0x80. */
  predicate AllAscii(data: seq<byte>, from: nat, to: nat)
  {
    forall i :: from <= i < to ==> AsciiByte(data, i)
  }

  /** The byte at `i` exists and is below 0x80. */
  predicate AsciiByte(data: seq<byte>, i: int)
  {
    0 <= i < |data| && data[i] < 0x80
  }

  /** Two adjacent ASCII runs make one. */
  lemma AllAsciiJoin(data: seq<byte>, a: nat, b: nat, c: nat)
    requires a <= b <= c && AllAscii(data, a, b) && AllAscii(data, b, c)
    ensures AllAscii(data, a, c)
  {
  }

  /** A byte inside an ASCII run. */
  lemma AsciiAt(data: seq<byte>, from: nat, to: nat, i: int)
    requires AllAscii(data, from, to) && from <= i < to
    ensures i < |data| && data[i] < 0x80
  {
    assert AsciiByte(data, i);
  }

  /** An ASCII run at the front is consumed one byte per character, without setting the surrogate flag. */
  lemma {:induction false} ScanAsciiPrefix(data: seq<byte>, pos: nat, k: nat, n: nat, sur: bool)
    requires k <= n && pos + k <= |data| && AllAscii(data, pos, pos + k)
    ensures Scan(data, pos, n, sur) ==
      match Scan(data, pos + k, n - k, sur)
      case Ok(rest) => Ok((k + rest.0, rest.1))
      case Err(e) => Err(e)
    decreases k
  {
    if k > 0 {
      assert AsciiByte(data, pos);
      ScanAsciiPrefix(data, pos + 1, k - 1, n - 1, sur);
    }
  }

  /** A scan uses exactly one byte per character if and only if every character is ASCII. */
  lemma {:induction false} ScanLatin1(data: seq<byte>, pos: nat, n: nat, sur: bool)
    requires pos <= |data| && Scan(data, pos, n, sur).Ok?
    ensures pos + n <= |data|
    ensures Scan(data, pos, n, sur).value.0 == n <==> AllAscii(data, pos, pos + n)
    ensures AllAscii(data, pos, pos + n) ==> Scan(data, pos, n, sur).value.1 == sur
    decreases n
  {
    if n > 0 {
      var w := LeadWidth(data[pos]);
      var sur' := sur || (w == 3 && IsSurrogate(Unit3(data[pos], data[pos + 1], data[pos + 2])));
      var rest := Scan(data, pos + w, n - 1, sur');
      assert rest.Ok? && Scan(data, pos, n, sur).value == (w + rest.value.0, rest.value.1);
      if w != 1 {
        assert !AsciiByte(data, pos);
        assert !AllAscii(data, pos, pos + n);
      } else {
        assert AsciiByte(data, pos);
        assert sur' == sur;
        if n > 1 {
          ScanLatin1(data, pos + 1, n - 1, sur);
        }
        assert AllAscii(data, pos, pos + n) <==> AllAscii(data, pos + 1, pos + n);
      }
    }
  }

  /** One step of the scan: the first character, then the rest. */
  lemma ScanStep(data: seq<byte>, pos: nat, n: nat, sur: bool)
    requires 0 < n && pos < |data| && LeadWidth(data[pos]) != 0
    requires LeadWidth(data[pos]) == 3 && !sur ==> pos + 2 < |data|
    ensures var w := LeadWidth(data[pos]);
      var sur' := sur || (w == 3 && IsSurrogate(Unit3(data[pos], data[pos + 1], data[pos + 2])));
      Scan(data, pos, n, sur) ==
        match Scan(data, pos + w, n - 1, sur')
        case Ok(rest) => Ok((w + rest.0, rest.1))
        case Err(e) => Err(e)
  {
  }

  /** Whether a string holds a surrogate code unit. */
  predicate HasSurrogate(s: seq<unit16>)
  {
    s != [] && (IsSurrogate(s[0]) || HasSurrogate(s[1..]))
  }

  /** The scan of a written string: its byte length, and whether it holds a surrogate code unit. */
  lemma ScanRawString(data: seq<byte>, pos: nat, s: seq<unit16>, sur: bool)
    requires pos + |RawString(s)| <= |data|
    requires data[pos..pos + |RawString(s)|] == RawString(s)
    ensures Scan(data, pos, |s|, sur) == Ok((|RawString(s)|, sur || HasSurrogate(s)))
  {
    RawUnitsAt(data, pos, s);
    ScanUnitsAt(data, pos, s, |RawString(s)|, sur);
  }

  /** The scan of characters laid out one after the other: their bytes, and whether one is a surrogate. */
  lemma {:induction false} ScanUnitsAt(data: seq<byte>, pos: nat, s: seq<unit16>, len: nat, sur: bool)
    requires UnitsAt(data, pos, s, len)
    ensures Scan(data, pos, |s|, sur) == Ok((len, sur || HasSurrogate(s)))
    decreases |s|
  {
    if s != [] {
      var w := LeadWidth(data[pos]);
      var sur' := sur || (w == 3 && IsSurrogate(Unit3(data[pos], data[pos + 1], data[pos + 2])));
      ScanUnitsAt(data, pos + w, s[1..], len - w, sur');
      ScanStep(data, pos, |s|, sur);
    }
  }

  /** Every code unit is below 0x80. */
  predicate AsciiUnits(s: seq<unit16>)
  {
    forall i :: 0 <= i < |s| ==> s[i] < 0x80
  }

  /** A string is written one byte per character exactly when all its units are ASCII, and then as those bytes. */
  lemma {:induction false} RawAscii(s: seq<unit16>)
    ensures |RawString(s)| == |s| <==> AsciiUnits(s)
    ensures AsciiUnits(s) ==> RawString(s) == s
    decreases |s|
  {
    if s != [] {
      RawAscii(s[1..]);
      assert AsciiUnits(s) <==> s[0] < 0x80 && AsciiUnits(s[1..]);
      assert [s[0]] + s[1..] == s;
    }
  }

  /**
   * How the classifier sees a written string: the scan succeeds, it uses
   * one byte per character exactly for an all-ASCII string, it reports a
   * surrogate exactly when the string holds one, and the checked decoder
   * gives the string back.
   */
  lemma ClassifyRaw(data: seq<byte>, pos: nat, s: seq<unit16>)
    requires pos + |RawString(s)| <= |data|
    requires data[pos..pos + |RawString(s)|] == RawString(s)
    ensures Scan(data, pos, |s|, false).Ok?
    ensures Scan(data, pos, |s|, false).value.0 == |s| <==> AsciiUnits(s)
    ensures Scan(data, pos, |s|, false).value.1 <==> HasSurrogate(s)
    ensures AsciiUnits(s) ==> data[pos..pos + |s|] == s
    ensures DecodeUnits(data, pos, |s|) == Ok((s, |RawString(s)|))
  {
    ScanRawString(data, pos, s, false);
    RawAscii(s);
    DecodeRawString(data, pos, s);
  }

  /** A UTF-8 continuation byte, 10xxxxxx. */
  predicate IsContinuation(b: byte)
  {
    0x80 <= b <= 0xbf
  }

  /**
   * The second byte a three-byte lead allows in well-formed UTF-8: no
   * overlong form after 0xe0, no surrogate after 0xed.
   */
  predicate SecondOf3(b0: byte, b1: byte)
  {
    if b0 == 0xe0 then 0xa0 <= b1 <= 0xbf
    else if b0 == 0xed then 0x80 <= b1 <= 0x9f
    else IsContinuation(b1)
  }

  /** The second byte a four-byte lead allows: no overlong form after 0xf0, nothing past U+10FFFF after 0xf4. */
  predicate SecondOf4(b0: byte, b1: byte)
  {
    if b0 == 0xf0 then 0x90 <= b1 <= 0xbf
    else if b0 == 0xf4 then 0x80 <= b1 <= 0x8f
    else IsContinuation(b1)
  }

  /**
   * The width of the well-formed UTF-8 sequence that `s` begins with, or 0
   * when it begins with none, as Rust's `String::from_utf8` judges it
   * (table 3-7 of the Unicode Standard).
   */
  function WellFormedWidth(s: seq<byte>): (w: nat)
    requires |s| > 0
    ensures w <= |s| && w <= 4
  {
    var b0 := s[0];
    if b0 < 0x80 then 1
    else if 0xc2 <= b0 <= 0xdf then
      (if |s| >= 2 && IsContinuation(s[1]) then 2 else 0)
    else if 0xe0 <= b0 <= 0xef then
      (if |s| >= 3 && SecondOf3(b0, s[1]) && IsContinuation(s[2]) then 3 else 0)
    else if 0xf0 <= b0 <= 0xf4 then
      (if |s| >= 4 && SecondOf4(b0, s[1]) && IsContinuation(s[2]) && IsContinuation(s[3]) then 4 else 0)
    else 0
  }

  /** Whether `s` is well-formed UTF-8: what `String::from_utf8` accepts. */
  predicate WellFormed(s: seq<byte>)
    decreases |s|
  {
    s == [] || (WellFormedWidth(s) > 0 && WellFormed(s[WellFormedWidth(s)..]))
  }

  /** One unit's coding in front of `rest` is well-formed exactly when the unit is no surrogate and `rest` is well-formed. */
  lemma EncodeUnitWellFormed(u: unit16, rest: seq<byte>)
    ensures WellFormed(EncodeUnit(u) + rest) <==> !IsSurrogate(u) && WellFormed(rest)
  {
    var e := EncodeUnit(u);
    var s := e + rest;
    assert s[|e|..] == rest;
    if u >= 0x800 {
      var q, r := u / 64, u % 64;
      assert u == 64 * q + r;
      var hi := u / 4096;
      assert q / 64 == hi && q % 64 == q - 64 * hi;
      assert e == [0xe0 + hi, 0x80 + q % 64, 0x80 + r];
      if hi == 0 {
        assert 32 <= q < 64;
      }
      if hi == 13 {
        assert IsSurrogate(u) <==> q % 64 >= 32;
      }
    } else if u >= 0x80 {
      assert 2 <= u / 64 < 32;
    }
  }

  /**
   * A string's raw bytes are well-formed UTF-8 exactly when it holds no
   * surrogate: the Hessian coding of a lone surrogate is what
   * `String::from_utf8` refuses.
   */
  lemma {:induction false} RawStringWellFormed(s: seq<unit16>)
    ensures WellFormed(RawString(s)) <==> !HasSurrogate(s)
  {
    if s != [] {
      RawStringWellFormed(s[1..]);
      EncodeUnitWellFormed(s[0], RawString(s[1..]));
    }
  }
}
