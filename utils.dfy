/**
 * The helpers the JavaScript codecs share: the chunk sizes, the test that a
 * decimal string fits a JavaScript number, the test that turns an unsafe
 * 64-bit long into text, the serializer chooser and the builder of the
 * byte-code dispatch tables.
 */
module Utils {
  import opened Bytes
  import opened Utf8

  /** The largest payload of one bytes chunk and of one string chunk (in code units). */
  const MAX_BYTE_TRUNK_SIZE: nat := 0x8000
  const MAX_CHAR_TRUNK_SIZE: nat := 0x8000

  /** 2^21: the high word of 2^53. */
  const MAX_INT_HIGH: int := 0x20_0000
  const TWO53: int := 0x20_0000_0000_0000
  /** Number.MAX_SAFE_INTEGER, 2^53 - 1. */
  const MAX_SAFE_INTEGER: int := 0x1f_ffff_ffff_ffff

  const MINUS: unit16 := 0x2d   // '-'
  const ZERO: unit16 := 0x30    // '0'
  const OPEN_BRACKET: unit16 := 0x5b  // '['


  // ---------------------------------------------------------------------
  // JavaScript string order and decimal text
  // ---------------------------------------------------------------------

  /** `a < b` on JavaScript strings: code unit by code unit, a proper prefix first. */
  predicate StrLess(a: seq<unit16>, b: seq<unit16>)
    decreases |a|
  {
    if b == [] then false
    else if a == [] then true
    else if a[0] != b[0] then a[0] < b[0]
    else StrLess(a[1..], b[1..])
  }

  /** `a <= b` on JavaScript strings. */
  predicate StrLe(a: seq<unit16>, b: seq<unit16>)
  {
    !StrLess(b, a)
  }

  predicate IsDigit(u: unit16)
  {
    ZERO <= u <= ZERO + 9
  }

  predicate AllDigits(s: seq<unit16>)
  {
    forall i :: 0 <= i < |s| ==> IsDigit(s[i])
  }

  /** Decimal text the way a number prints it: digits only, no leading zero. */
  predicate Canonical(s: seq<unit16>)
  {
    |s| >= 1 && AllDigits(s) && (|s| == 1 || s[0] != ZERO)
  }

  function Pow10(n: nat): (r: nat)
    ensures r >= 1
  {
    if n == 0 then 1 else 10 * Pow10(n - 1)
  }

  /** The value of a string of decimal digits, most significant first. */
  function DigitsValue(s: seq<unit16>): nat
    requires AllDigits(s)
  {
    if s == [] then 0 else (s[0] - ZERO) * Pow10(|s| - 1) + DigitsValue(s[1..])
  }

  /** The decimal digits of `n`, as `String(n)` prints them. */
  function Digits(n: nat): (r: seq<unit16>)
    ensures Canonical(r)
    decreases n
  {
    if n < 10 then [ZERO + n] else Digits(n / 10) + [ZERO + n % 10]
  }

  /** The decimal text of an integer, with a '-' in front of a negative one. */
  function DecimalText(v: int): (r: seq<unit16>)
    ensures |r| >= 1 && (v < 0 <==> r[0] == MINUS)
  {
    if v < 0 then [MINUS] + Digits(-v) else Digits(v)
  }

  // ---------------------------------------------------------------------
  // isSafeNumberString
  // ---------------------------------------------------------------------

  /** "9007199254740991", the text of Number.MAX_SAFE_INTEGER. */
  const MAX_SAFE_INTEGER_STR: seq<unit16> := Digits(MAX_SAFE_INTEGER)

  /**
   * `isSafeNumberString`: with one leading '-' dropped, the text is safe when
   * it is shorter than "9007199254740991", or just as long and not above it
   * in string order.
   */
  function IsSafeNumberString(s: seq<unit16>): (r: bool)
    ensures var t := if |s| > 0 && s[0] == MINUS then s[1..] else s;
      r <==> |t| < |MAX_SAFE_INTEGER_STR| || (|t| == |MAX_SAFE_INTEGER_STR| && StrLe(t, MAX_SAFE_INTEGER_STR))
  {
    var t := if |s| > 0 && s[0] == MINUS then s[1..] else s;
    |t| < |MAX_SAFE_INTEGER_STR| || (|t| == |MAX_SAFE_INTEGER_STR| && StrLe(t, MAX_SAFE_INTEGER_STR))
  }

  /**
   * The string test is the numeric one: for the text of an integer, with
   * or without a sign, the test holds exactly when the magnitude is at most
   * Number.MAX_SAFE_INTEGER.
   */
  lemma SafeNumberStringMeansSafe(v: int)
    ensures IsSafeNumberString(DecimalText(v)) <==> -MAX_SAFE_INTEGER <= v <= MAX_SAFE_INTEGER
  {
    var m: nat := if v < 0 then -v else v;
    assert (if v < 0 then DecimalText(v)[1..] else DecimalText(v)) == Digits(m);
    SafeDigits(m);
  }

  /** The unsigned half of the test: the digits of `m` pass exactly when `m` is safe. */
  lemma SafeDigits(m: nat)
    ensures var t := Digits(m);
      |t| < |MAX_SAFE_INTEGER_STR| || (|t| == |MAX_SAFE_INTEGER_STR| && StrLe(t, MAX_SAFE_INTEGER_STR))
      <==> m <= MAX_SAFE_INTEGER
  {
    var t := Digits(m);
    var max := MAX_SAFE_INTEGER_STR;
    MaxSafeText();
    DigitsOf(m);
    CanonicalBounds(t);
    Pow10Values();
    if |t| < 16 {
      Pow10Mono(|t|, 15);
    } else if |t| > 16 {
      Pow10Mono(16, |t| - 1);
    } else {
      DigitOrder(max, t);
    }
  }

  /** "9007199254740991" has sixteen digits and reads back as 2^53 - 1. */
  lemma MaxSafeText()
    ensures |MAX_SAFE_INTEGER_STR| == 16 && DigitsValue(MAX_SAFE_INTEGER_STR) == MAX_SAFE_INTEGER
  {
    var max := MAX_SAFE_INTEGER_STR;
    DigitsOf(MAX_SAFE_INTEGER);
    CanonicalBounds(max);
    Pow10Values();
    if |max| < 16 {
      Pow10Mono(|max|, 15);
    } else if |max| > 16 {
      Pow10Mono(16, |max| - 1);
    }
  }

  /** Reading back the digits of `n` gives `n`. */
  lemma {:induction false} DigitsOf(n: nat)
    ensures DigitsValue(Digits(n)) == n
    decreases n
  {
    if n >= 10 {
      DigitsOf(n / 10);
      DigitsSnoc(Digits(n / 10), ZERO + n % 10);
    }
  }

  /** Appending a digit multiplies by ten and adds it. */
  lemma {:induction false} DigitsSnoc(s: seq<unit16>, d: unit16)
    requires AllDigits(s) && IsDigit(d)
    ensures AllDigits(s + [d]) && DigitsValue(s + [d]) == DigitsValue(s) * 10 + (d - ZERO)
    decreases |s|
  {
    if s != [] {
      assert (s + [d])[1..] == s[1..] + [d];
      DigitsSnoc(s[1..], d);
      var p := Pow10(|s| - 1);
      assert Pow10(|s|) == 10 * p;
      assert (s[0] - ZERO) * Pow10(|s|) == (s[0] - ZERO) * p * 10;
    }
  }

  /** A canonical text of `k` digits lies below 10^k, and at or above 10^(k-1) unless it is "0". */
  lemma CanonicalBounds(s: seq<unit16>)
    requires Canonical(s)
    ensures DigitsValue(s) < Pow10(|s|)
    ensures |s| > 1 ==> DigitsValue(s) >= Pow10(|s| - 1)
  {
    DigitsBelow(s);
    var d := s[0] - ZERO;
    if |s| > 1 {
      MulMono(1, d, Pow10(|s| - 1));
    }
  }

  lemma {:induction false} DigitsBelow(s: seq<unit16>)
    requires AllDigits(s)
    ensures DigitsValue(s) < Pow10(|s|)
    decreases |s|
  {
    if s != [] {
      DigitsBelow(s[1..]);
      var d := s[0] - ZERO;
      var p := Pow10(|s| - 1);
      MulMono(d + 1, 10, p);
      assert (d + 1) * p == d * p + p;
    }
  }

  /** On digit strings of one length, string order is numeric order. */
  lemma {:induction false} DigitOrder(a: seq<unit16>, b: seq<unit16>)
    requires AllDigits(a) && AllDigits(b) && |a| == |b|
    ensures StrLess(a, b) <==> DigitsValue(a) < DigitsValue(b)
    decreases |a|
  {
    if a != [] {
      var p := Pow10(|a| - 1);
      var da, db := a[0] - ZERO, b[0] - ZERO;
      var ra, rb := DigitsValue(a[1..]), DigitsValue(b[1..]);
      assert DigitsValue(a) == da * p + ra && DigitsValue(b) == db * p + rb;
      if da < db {
        DigitsBelow(a[1..]);
        HeadDominates(da, db, p, ra, rb);
      } else if db < da {
        DigitsBelow(b[1..]);
        HeadDominates(db, da, p, rb, ra);
      } else {
        DigitOrder(a[1..], b[1..]);
      }
    }
  }

  /** A smaller leading digit makes a smaller number, whatever follows. */
  lemma HeadDominates(da: nat, db: nat, p: nat, ra: nat, rb: nat)
    requires da < db && ra < p
    ensures da * p + ra < db * p + rb
  {
    MulMono(da + 1, db, p);
    assert (da + 1) * p == da * p + p;
  }

  lemma MulMono(a: int, b: int, p: int)
    requires a <= b && p >= 0
    ensures a * p <= b * p
  {
    assert b * p - a * p == (b - a) * p;
  }

  lemma {:induction false} Pow10Mono(a: nat, b: nat)
    requires a <= b
    ensures Pow10(a) <= Pow10(b)
    decreases b
  {
    if a < b {
      Pow10Mono(a, b - 1);
    }
  }

  lemma {:induction false} Pow10Add(a: nat, b: nat)
    ensures Pow10(a + b) == Pow10(a) * Pow10(b)
    decreases a
  {
    if a > 0 {
      Pow10Add(a - 1, b);
      assert Pow10(a + b) == 10 * Pow10(a - 1 + b);
    }
  }

  lemma Pow10Values()
    ensures Pow10(15) == 1_000_000_000_000_000 && Pow10(16) == 10_000_000_000_000_000
  {
    assert Pow10(4) == 10000;
    assert Pow10(8) == Pow10(4) * Pow10(4) by { Pow10Add(4, 4); }
    assert Pow10(16) == Pow10(8) * Pow10(8) by { Pow10Add(8, 8); }
  }

  // ---------------------------------------------------------------------
  // handleLong
  // ---------------------------------------------------------------------

  /** The value of a Long held as two signed 32-bit words, as Long.toNumber computes it. */
  function LongOfWords(high: int, low: int): int
  {
    high * TWO32 + low % TWO32
  }

  /** The test in `handleLong` as written: true means the long comes back as text. */
  predicate NotSafeAsWritten(high: int, low: int)
  {
    high > MAX_INT_HIGH || (high == MAX_INT_HIGH && low > 0) ||
    high < -MAX_INT_HIGH || (high == -MAX_INT_HIGH && low < 0)
  }

  /** The test evidently intended: text exactly when the value lies beyond +-2^53. */
  predicate NotSafe(v: int)
  {
    v > TWO53 || v < -TWO53
  }

  /** What `handleLong` gives back: a number, or the decimal text of the long. */
  datatype LongResult = AsNumber(n: int) | AsText(text: seq<unit16>)

  /**
   * `handleLong` with the intended test: values within +-2^53 come back as
   * numbers and every other value as its decimal text, so no value is
   * returned as a number it is not.
   */
  function HandleLong(v: int): (r: LongResult)
    ensures r.AsNumber? ==> r.n == v && -TWO53 <= v <= TWO53
    ensures r.AsText? ==> r.text == DecimalText(v) && NotSafe(v)
  {
    if NotSafe(v) then AsText(DecimalText(v)) else AsNumber(v)
  }

  /**
   * Away from the two boundary high words the written test is the intended
   * one: for every pair of 32-bit words whose high word is not +-2^21, the
   * written test holds exactly when the value lies beyond +-2^53.
   */
  lemma HandleLongAgrees(high: int, low: int)
    requires InSigned(high, 4) && InSigned(low, 4)
    requires high != MAX_INT_HIGH && high != -MAX_INT_HIGH
    ensures NotSafeAsWritten(high, low) <==> NotSafe(LongOfWords(high, low))
  {
    var u := low % TWO32;
    assert 0 <= u < TWO32;
    if high > MAX_INT_HIGH {
      assert high * TWO32 >= (MAX_INT_HIGH + 1) * TWO32;
    } else if high < -MAX_INT_HIGH {
      assert high * TWO32 <= (-MAX_INT_HIGH - 1) * TWO32;
    } else {
      assert -MAX_INT_HIGH < high < MAX_INT_HIGH;
      assert (-MAX_INT_HIGH + 1) * TWO32 <= high * TWO32 <= (MAX_INT_HIGH - 1) * TWO32;
    }
  }

  /**
   * The written test lets 2^53 + 2^31 + 1 through as a number: its low word
   * 0x80000001 is negative as a signed word, so `low > 0` fails.
   */
  lemma HandleLongKeepsUnsafeNumber()
    ensures !NotSafeAsWritten(MAX_INT_HIGH, -0x7fff_ffff)
    ensures LongOfWords(MAX_INT_HIGH, -0x7fff_ffff) == TWO53 + 0x8000_0001
    ensures NotSafe(LongOfWords(MAX_INT_HIGH, -0x7fff_ffff))
  {
  }

  /** The written test turns -2^53 + 2^32 - 1, a safe integer, into text. */
  lemma HandleLongTextsSafeNumber()
    ensures NotSafeAsWritten(-MAX_INT_HIGH, -1)
    ensures LongOfWords(-MAX_INT_HIGH, -1) == -TWO53 + 0xffff_ffff
    ensures !NotSafe(LongOfWords(-MAX_INT_HIGH, -1))
  {
  }

  /**
   * The intended test and the string test of the encoder draw the same line
   * except at +-2^53 itself, which still fits a number exactly.
   */
  lemma HandleLongMatchesSafeText(v: int)
    requires v != TWO53 && v != -TWO53
    ensures HandleLong(v).AsNumber? <==> IsSafeNumberString(DecimalText(v))
  {
    SafeNumberStringMeansSafe(v);
  }

  // ---------------------------------------------------------------------
  // getSerializer
  // ---------------------------------------------------------------------

  /**
   * `getSerializer`: a type with an entry in the serializer map gets
   * "write" + that entry, else a type starting with '[' gets "writeArray",
   * else "writeObject". The serializer map is a parameter.
   */
  function GetSerializer(serializers: map<seq<unit16>, seq<unit16>>, t: seq<unit16>): (r: seq<unit16>)
    ensures t in serializers && serializers[t] != [] ==> r == WRITE + serializers[t]
    ensures !(t in serializers && serializers[t] != []) ==>
      (r == WRITE_ARRAY <==> (|t| > 0 && t[0] == OPEN_BRACKET)) && (r == WRITE_ARRAY || r == WRITE_OBJECT)
  {
    if t in serializers && serializers[t] != [] then WRITE + serializers[t]
    else if |t| > 0 && t[0] == OPEN_BRACKET then WRITE_ARRAY
    else WRITE_OBJECT
  }

  /** "write", "writeArray" and "writeObject". */
  const WRITE: seq<unit16> := [0x77, 0x72, 0x69, 0x74, 0x65]
  const WRITE_ARRAY: seq<unit16> := WRITE + [0x41, 0x72, 0x72, 0x61, 0x79]
  const WRITE_OBJECT: seq<unit16> := WRITE + [0x4f, 0x62, 0x6a, 0x65, 0x63, 0x74]

  /**
   * With a serializer map that names no array type (as the library's map
   * does), every array type is written as an array and every other unnamed
   * type as an object.
   */
  lemma SerializerOfArrayTypes(serializers: map<seq<unit16>, seq<unit16>>, t: seq<unit16>)
    requires forall k :: k in serializers ==> |k| == 0 || k[0] != OPEN_BRACKET
    requires t !in serializers
    ensures GetSerializer(serializers, t) == (if |t| > 0 && t[0] == OPEN_BRACKET then WRITE_ARRAY else WRITE_OBJECT)
  {
    assert WRITE_ARRAY != WRITE_OBJECT by {
      assert WRITE_ARRAY[5] != WRITE_OBJECT[5];
    }
  }

  // ---------------------------------------------------------------------
  // addByteCodes
  // ---------------------------------------------------------------------

  /** One entry of an `addByteCodes` list: a single code or an inclusive range. */
  datatype CodeSpec = Single(code: int) | Span(lo: int, hi: int)

  predicate InSpan(lo: int, hi: int, x: int)
  {
    lo <= x <= hi
  }

  predicate Below(lo: int, x: int, y: int)
  {
    lo <= y < x
  }

  /** The codes one entry names. */
  function SpecCodes(c: CodeSpec): set<int>
  {
    match c
    case Single(x) => {x}
    case Span(lo, hi) => set x | lo <= x <= hi && InSpan(lo, hi, x)
  }

  /** The codes a whole list names. */
  function Covered(specs: seq<CodeSpec>): set<int>
  {
    if specs == [] then {} else Covered(specs[..|specs| - 1]) + SpecCodes(specs[|specs| - 1])
  }

  /** The table after one `addByteCodes` call: every named code maps to `name`, the rest is unchanged. */
  function Register<T>(m: map<int, T>, specs: seq<CodeSpec>, name: T): map<int, T>
  {
    m + map x | x in Covered(specs) :: name
  }

  /** A code lies in the list exactly when some entry names it. */
  lemma {:induction false} CoveredAt(specs: seq<CodeSpec>, x: int)
    ensures x in Covered(specs) <==> exists i :: 0 <= i < |specs| && x in SpecCodes(specs[i])
    decreases |specs|
  {
    if specs != [] {
      var init := specs[..|specs| - 1];
      CoveredAt(init, x);
      if x in Covered(specs) && x !in SpecCodes(specs[|specs| - 1]) {
        var i :| 0 <= i < |init| && x in SpecCodes(init[i]);
        assert specs[i] == init[i];
      }
      if exists i :: 0 <= i < |specs| && x in SpecCodes(specs[i]) {
        var i :| 0 <= i < |specs| && x in SpecCodes(specs[i]);
        if i < |init| {
          assert init[i] == specs[i];
        }
      }
    }
  }

  /**
   * The effect of one call on one code: a named code now maps to `name`,
   * and any other code keeps its entry or its absence.
   */
  lemma RegisterAt<T>(m: map<int, T>, specs: seq<CodeSpec>, name: T, x: int)
    ensures x in Covered(specs) ==> x in Register(m, specs, name) && Register(m, specs, name)[x] == name
    ensures x !in Covered(specs) ==> (x in Register(m, specs, name) <==> x in m)
    ensures x !in Covered(specs) && x in m ==> Register(m, specs, name)[x] == m[x]
  {
  }

  /** A later call that names a code overrides what an earlier call put there. */
  lemma LaterCallWins<T>(m: map<int, T>, a: seq<CodeSpec>, p: T, b: seq<CodeSpec>, q: T, x: int)
    requires x in Covered(a) && x in Covered(b)
    ensures Register(Register(m, a, p), b, q)[x] == q
  {
  }

  /** The dispatch table that `addByteCodes` fills in place. */
  class ByteCodes<T> {
    var table: map<int, T>

    constructor ()
      ensures table == map[]
    {
      table := map[];
    }

    /**
     * `addByteCodes`: walks the list, and inside a range every code from
     * its start to its end, mapping each to `name`.
     */
    method AddByteCodes(specs: seq<CodeSpec>, name: T)
      modifies this
      ensures table == Register(old(table), specs, name)
    {
      var i := 0;
      while i < |specs|
        invariant 0 <= i <= |specs|
        invariant table == Register(old(table), specs[..i], name)
      {
        assert specs[..i + 1][..i] == specs[..i];
        match specs[i] {
          case Single(x) =>
            table := table[x := name];
          case Span(lo, hi) =>
            FillSpan(lo, hi, name);
        }
        i := i + 1;
      }
      assert specs[..|specs|] == specs;
    }

    /** The inner loop of `addByteCodes`: every code from `lo` to `hi` maps to `name`. */
    method FillSpan(lo: int, hi: int, name: T)
      modifies this
      ensures table == old(table) + map y | y in SpecCodes(Span(lo, hi)) :: name
    {
      var x := lo;
      while x <= hi
        invariant lo <= x && (x <= hi + 1 || x == lo)
        invariant table == old(table) + map y | lo <= y < x && Below(lo, x, y) :: name
      {
        table := table[x := name];
        x := x + 1;
      }
      assert (set y | lo <= y < x && Below(lo, x, y)) == SpecCodes(Span(lo, hi));
    }
  }
}
