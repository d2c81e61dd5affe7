/**
 * The recursive-descent transcoder (`Parser` of parse.rs): reads one
 * Hessian 2 value from the input and writes its records to the output
 * stream, registering map and class shapes with the reader as it meets
 * them. Panics of the source are failed calls (`ok == false`) here.
 */
module Parse {
  import opened Bytes
  import opened Wrappers
  import opened Types
  import opened Utf8
  import opened Output
  import opened InputBuf
  import Harness

  const UNEXPECTED_END: string := "read past the end of the input"
  const READ_LONG_ERROR: string := "read long error"
  const READ_REF_ERROR: string := "read_ref_id error"

  /** Key texts of the shape signature for keys that are not strings. */
  const TRUE_KEY: seq<byte> := [0x74, 0x72, 0x75, 0x65]
  const FALSE_KEY: seq<byte> := [0x66, 0x61, 0x6c, 0x73, 0x65]
  const NULL_KEY: seq<byte> := [0x6e, 0x75, 0x6c, 0x6c]
  /** Field names starting "this$" are compiler-generated outer-class references. */
  const OUTER_PREFIX: seq<byte> := [0x74, 0x68, 0x69, 0x73, 0x24]

  predicate IsIntCode(c: byte) { c == 0x49 || 0xc0 <= c <= 0xcf || 0xd0 <= c <= 0xd7 || 0x80 <= c <= 0xbf }
  predicate IsLongCode(c: byte) { c == 0x4c || c == 0x77 || 0xd8 <= c <= 0xef || 0xf0 <= c <= 0xff || 0x38 <= c <= 0x3f }
  predicate IsDoubleCode(c: byte) { c == 0x44 || 0x67 <= c <= 0x6b }
  predicate IsBytesCode(c: byte) { c == 0x62 || c == 0x42 || 0x20 <= c <= 0x2f }
  predicate IsStringCode(c: byte) { c == 0x73 || c == 0x53 || c <= 0x1f }
  predicate IsObjectCode(c: byte) { c == 0x4f || c == 0x6f }
  predicate IsRefCode(c: byte) { c == 0x52 || c == 0x4a || c == 0x4b }
  predicate IsArrayCode(c: byte) { c == 0x56 || c == 0x76 }
  /** Codes of values without children. */
  predicate IsScalarCode(c: byte)
  {
    c == 0x4e || c == 0x54 || c == 0x46 || IsIntCode(c) || IsLongCode(c) || IsDoubleCode(c) || c == 0x64 ||
    IsBytesCode(c) || IsStringCode(c) || IsRefCode(c)
  }
  /** Codes the dispatcher accepts; anything else is an invalid code. */
  predicate IsValueCode(c: byte)
  {
    IsScalarCode(c) || IsObjectCode(c) || IsArrayCode(c) || c == 0x48 || c == 0x4d
  }

  /** The value families of the dispatcher are pairwise disjoint. */
  lemma CodeFamiliesDisjoint(c: byte)
    ensures IsIntCode(c) ==> !IsLongCode(c) && !IsDoubleCode(c) && !IsBytesCode(c) && !IsStringCode(c)
    ensures IsLongCode(c) ==> !IsDoubleCode(c) && !IsBytesCode(c) && !IsStringCode(c) && !IsObjectCode(c)
    ensures IsBytesCode(c) ==> !IsStringCode(c) && !IsObjectCode(c) && !IsRefCode(c) && !IsArrayCode(c)
    ensures IsStringCode(c) ==> !IsObjectCode(c) && !IsRefCode(c) && !IsArrayCode(c) && !IsDoubleCode(c)
  {
  }

  /** Bytes an int takes, code included. */
  function IntWidth(c: byte): nat
  {
    if 0x80 <= c <= 0xbf then 1 else if 0xc0 <= c <= 0xcf then 2 else if 0xd0 <= c <= 0xd7 then 3 else 5
  }

  /**
   * `read_int_value` at `pos`: the value and the position after it. One
   * byte codes 0x80..0xbf stand for -16..47, two byte codes 0xc0..0xcf for
   * -2048..2047, three byte codes 0xd0..0xd7 for -262144..262143, and any
   * other code is followed by a big-endian 32-bit value.
   */
  function IntValue(data: seq<byte>, pos: nat): (r: Result<(int, nat)>)
    ensures r.Ok? ==> pos < r.value.1 <= |data| && InSigned(r.value.0, 4)
    ensures r.Ok? <==> (pos < |data| && pos + IntWidth(data[pos]) <= |data|)
  {
    if pos >= |data| then Err(UNEXPECTED_END)
    else
      var code: int := data[pos];
      if 0x80 <= code <= 0xbf then
        Pow256Values();
        Ok((code - 0x90, pos + 1))
      else if 0xc0 <= code <= 0xcf then
        if pos + 2 > |data| then Err(UNEXPECTED_END)
        else Pow256Values(); Ok(((code - 0xc8) * 256 + data[pos + 1] as int, pos + 2))
      else if 0xd0 <= code <= 0xd7 then
        if pos + 3 > |data| then Err(UNEXPECTED_END)
        else Pow256Values(); Ok(((code - 0xd4) * 65536 + data[pos + 1] as int * 256 + data[pos + 2] as int, pos + 3))
      else if pos + 5 > |data| then Err(UNEXPECTED_END)
      else
        FromBEBound(data[pos + 1..pos + 5]);
        SignedRange(FromBE(data[pos + 1..pos + 5]), 4);
        Ok((Signed(FromBE(data[pos + 1..pos + 5]), 4), pos + 5))
  }

  /**
   * `read_long_value` at `pos`: one byte codes 0xd8..0xef stand for -8..15,
   * two byte codes 0xf0..0xff for -2048..2047, three byte codes 0x38..0x3f
   * for -262144..262143, 0x77 is followed by a 32-bit value and 0x4c by a
   * 64-bit one; any other code is an error.
   */
  function LongValue(data: seq<byte>, pos: nat): (r: Result<(int, nat)>)
    ensures r.Ok? ==> pos < r.value.1 <= |data| && InSigned(r.value.0, 8) && IsLongCode(data[pos])
    ensures pos < |data| && !IsLongCode(data[pos]) ==> r == Err(READ_LONG_ERROR)
  {
    if pos >= |data| then Err(UNEXPECTED_END)
    else
      var code: int := data[pos];
      Pow256Values();
      if 0xd8 <= code <= 0xef then Ok((code - 0xe0, pos + 1))
      else if 0xf0 <= code <= 0xff then
        if pos + 2 > |data| then Err(UNEXPECTED_END)
        else Ok(((code - 0xf8) * 256 + data[pos + 1] as int, pos + 2))
      else if 0x38 <= code <= 0x3f then
        if pos + 3 > |data| then Err(UNEXPECTED_END)
        else Ok(((code - 0x3c) * 65536 + data[pos + 1] as int * 256 + data[pos + 2] as int, pos + 3))
      else if code == 0x77 then
        if pos + 5 > |data| then Err(UNEXPECTED_END)
        else
          FromBEBound(data[pos + 1..pos + 5]);
          SignedRange(FromBE(data[pos + 1..pos + 5]), 4);
          Ok((Signed(FromBE(data[pos + 1..pos + 5]), 4), pos + 5))
      else if code == 0x4c then
        if pos + 9 > |data| then Err(UNEXPECTED_END)
        else
          FromBEBound(data[pos + 1..pos + 9]);
          SignedRange(FromBE(data[pos + 1..pos + 9]), 8);
          Ok((Signed(FromBE(data[pos + 1..pos + 9]), 8), pos + 9))
      else Err(READ_LONG_ERROR)
  }

  /** `read_long_value` case by case, as the reader takes it apart. */
  lemma LongValueCases(data: seq<byte>, pos: nat)
    requires pos < |data|
    ensures var code := data[pos] as int; var r := LongValue(data, pos);
      (0xd8 <= code <= 0xef ==> r == Ok((code - 0xe0, pos + 1))) &&
      (0xf0 <= code <= 0xff ==>
        (pos + 2 <= |data| <==> r.Ok?) &&
        (r.Ok? ==> r.value == ((code - 0xf8) * 256 + data[pos + 1] as int, pos + 2))) &&
      (0x38 <= code <= 0x3f ==>
        (pos + 3 <= |data| <==> r.Ok?) &&
        (r.Ok? ==> r.value == ((code - 0x3c) * 65536 + data[pos + 1] as int * 256 + data[pos + 2] as int, pos + 3))) &&
      (code == 0x77 ==>
        (pos + 5 <= |data| <==> r.Ok?) &&
        (r.Ok? ==> r.value == (Signed(FromBE(data[pos + 1..pos + 5]), 4), pos + 5))) &&
      (code == 0x4c ==>
        (pos + 9 <= |data| <==> r.Ok?) &&
        (r.Ok? ==> r.value == (Signed(FromBE(data[pos + 1..pos + 9]), 8), pos + 9))) &&
      (!IsLongCode(data[pos]) ==> r.Err?)
  {
  }

  /**
   * `read_ref_id` at `pos`: 0x4a is followed by one byte, 0x4b by two and
   * 0x52 by four (a 32-bit value reinterpreted as unsigned); any other
   * code is an error.
   */
  function RefIdValue(data: seq<byte>, pos: nat): (r: Result<(nat, nat)>)
    ensures r.Ok? ==> pos < r.value.1 <= |data| && r.value.0 < TWO32 && IsRefCode(data[pos])
    ensures pos < |data| && !IsRefCode(data[pos]) ==> r == Err(READ_REF_ERROR)
  {
    if pos >= |data| then Err(UNEXPECTED_END)
    else
      var code := data[pos];
      if code == 0x4a then
        if pos + 2 > |data| then Err(UNEXPECTED_END) else Ok((data[pos + 1], pos + 2))
      else if code == 0x4b then
        if pos + 3 > |data| then Err(UNEXPECTED_END)
        else FromBEBound(data[pos + 1..pos + 3]); Pow256Values(); Ok((FromBE(data[pos + 1..pos + 3]), pos + 3))
      else if code == 0x52 then
        if pos + 5 > |data| then Err(UNEXPECTED_END)
        else FromBEBound(data[pos + 1..pos + 5]); Pow256Values(); Ok((FromBE(data[pos + 1..pos + 5]), pos + 5))
      else Err(READ_REF_ERROR)
  }

  /** Bytes after the code of a double: 8 for 0x44, 0 for 0x67 and 0x68, 1, 2 and 4 for 0x69..0x6b. */
  function DoubleWidth(c: byte): nat
  {
    if c == 0x44 then 8 else if c == 0x69 then 1 else if c == 0x6a then 2 else if c == 0x6b then 4 else 0
  }

  /** The decimal digits of `n` (Rust's `to_string` of a non-negative integer). */
  function Digits(n: nat): (r: seq<byte>)
    ensures |r| >= 1 && forall i :: 0 <= i < |r| ==> 0x30 <= r[i] <= 0x39
  {
    if n < 10 then [0x30 + n] else Digits(n / 10) + [0x30 + n % 10]
  }

  /** Rust's `to_string` of an integer: the digits, after a '-' when negative. */
  function Decimal(v: int): (r: seq<byte>)
    ensures r != [] && Harness.SEPARATOR !in r && Harness.QUOTE !in r
  {
    if v < 0 then [0x2d] + Digits(-v) else Digits(v)
  }

  /** The number the digits stand for. */
  function DigitsValue(s: seq<byte>): nat
  {
    if s == [] then 0 else DigitsValue(s[..|s| - 1]) * 10 + (s[|s| - 1] as int - 0x30) % 10
  }

  /** Reading the digits back gives the number. */
  lemma {:induction false} DigitsValueOf(n: nat)
    ensures DigitsValue(Digits(n)) == n
  {
    if n >= 10 {
      DigitsValueOf(n / 10);
      var s := Digits(n);
      assert s[..|s| - 1] == Digits(n / 10);
    }
  }

  /** Distinct integers have distinct key texts. */
  lemma DecimalInjective(a: int, b: int)
    requires Decimal(a) == Decimal(b)
    ensures a == b
  {
    DecimalSign(a);
    DecimalSign(b);
    var na := if a < 0 then -a else a;
    var nb := if b < 0 then -b else b;
    assert (a < 0) == (b < 0);
    assert Digits(na) == Digits(nb);
    DigitsValueOf(na);
    DigitsValueOf(nb);
  }

  /** The key text starts with '-' exactly for negative integers, and the rest is the digits. */
  lemma DecimalSign(v: int)
    ensures Decimal(v)[0] == 0x2d <==> v < 0
    ensures v < 0 ==> Decimal(v)[1..] == Digits(-v)
    ensures v >= 0 ==> Decimal(v) == Digits(v)
  {
    if v < 0 {
      assert Decimal(v) == [0x2d] + Digits(-v);
    } else {
      var d := Digits(v);
      assert 0x30 <= d[0] <= 0x39;
    }
  }

  /** A field name the object shape leaves out. */
  predicate IsOuterRef(name: seq<byte>)
  {
    |name| >= 5 && name[..5] == OUTER_PREFIX
  }

  /** The field names an object shape keeps, in order. */
  function KeptFields(names: seq<seq<byte>>): (r: seq<seq<byte>>)
    ensures |r| <= |names|
    ensures forall i :: 0 <= i < |r| ==> !IsOuterRef(r[i]) && r[i] in names
  {
    if names == [] then []
    else KeptFields(names[..|names| - 1]) + (if IsOuterRef(names[|names| - 1]) then [] else [names[|names| - 1]])
  }

  /** The positions of the outer-reference names, in order. */
  function SkipPositions(names: seq<seq<byte>>): seq<nat>
  {
    if names == [] then []
    else SkipPositions(names[..|names| - 1]) + (if IsOuterRef(names[|names| - 1]) then [|names| - 1] else [])
  }

  /** The skip list is strictly increasing, in range, and holds exactly the outer-reference positions. */
  lemma {:induction false} SkipPositionsOk(names: seq<seq<byte>>)
    ensures forall j :: 0 <= j < |SkipPositions(names)| ==> SkipPositions(names)[j] < |names|
    ensures forall j, k :: 0 <= j < k < |SkipPositions(names)| ==> SkipPositions(names)[j] < SkipPositions(names)[k]
    ensures forall j :: 0 <= j < |names| ==> (j in SkipPositions(names) <==> IsOuterRef(names[j]))
  {
    if names != [] {
      var init := names[..|names| - 1];
      SkipPositionsOk(init);
      forall j | 0 <= j < |init|
        ensures names[j] == init[j]
      {
      }
    }
  }

  /** Reading one more field name extends the kept names and the skip list by at most that name. */
  lemma FieldSnoc(names: seq<seq<byte>>, name: seq<byte>)
    ensures KeptFields(names + [name]) == KeptFields(names) + (if IsOuterRef(name) then [] else [name])
    ensures SkipPositions(names + [name]) == SkipPositions(names) + (if IsOuterRef(name) then [|names|] else [])
    ensures IsOuterRef(name) ==> Harness.Signature(KeptFields(names + [name])) == Harness.Signature(KeptFields(names))
    ensures !IsOuterRef(name) ==>
      Harness.Signature(KeptFields(names + [name])) == Harness.Signature(KeptFields(names)) + name + [Harness.SEPARATOR]
  {
    var next := names + [name];
    assert next[..|next| - 1] == names && next[|next| - 1] == name;
    var kept := KeptFields(names) + (if IsOuterRef(name) then [] else [name]);
    assert KeptFields(next) == kept;
    if IsOuterRef(name) {
      assert kept == KeptFields(names);
    } else {
      Harness.SignatureSnoc(KeptFields(names), name);
    }
  }

  /** The kinds of map key; an int or long key carries its decimal text. */
  datatype MapKey = KeyTrue | KeyFalse | KeyNull | KeyString | KeyInt(text: seq<byte>) | KeyLong(text: seq<byte>) | KeySpec

  /** What a key contributes to the signature; `str` is the raw input of a string key. */
  function KeyText(k: MapKey, str: seq<byte>): (r: seq<byte>)
    ensures k.KeyString? ==> r == str
    ensures k.KeySpec? ==> r == Harness.SPEC_KEY
  {
    match k
    case KeyTrue => TRUE_KEY
    case KeyFalse => FALSE_KEY
    case KeyNull => NULL_KEY
    case KeyString => str
    case KeyInt(t) => t
    case KeyLong(t) => t
    case KeySpec => Harness.SPEC_KEY
  }

  /** Registering a new map shape under the next index keeps every cached index pointing at its shape. */
  lemma CoherentAddMap(st: State, defs: seq<ClassInfo>, m: seq<Harness.Shape>, n: nat, sig: seq<byte>, shape: Harness.Shape)
    requires Coherent(st, defs, m, n) && shape.keys == Harness.NonEmpty(Harness.Split(sig))
    requires |st.mapShapeCache| < st.maxMapShapeCacheLen
    ensures Coherent(st.(mapShapeCache := st.mapShapeCache[sig := |m|]), defs, m + [shape], n)
  {
    var st' := st.(mapShapeCache := st.mapShapeCache[sig := |m|]);
    forall k | k in st'.mapShapeCache
      ensures st'.mapShapeCache[k] < |m + [shape]| &&
              (m + [shape])[st'.mapShapeCache[k]].keys == Harness.NonEmpty(Harness.Split(k))
    {
      if k != sig {
        assert (m + [shape])[st.mapShapeCache[k]] == m[st.mapShapeCache[k]];
      }
    }
  }

  /** Every shape the cache hands out agrees with the signature it was registered for. */
  ghost predicate Coherent(st: State, defs: seq<ClassInfo>, mapShapes: seq<Harness.Shape>, objectCount: nat)
  {
    |st.mapShapeCache| <= st.maxMapShapeCacheLen &&
    (forall sig :: sig in st.mapShapeCache ==>
       st.mapShapeCache[sig] < |mapShapes| &&
       mapShapes[st.mapShapeCache[sig]].keys == Harness.NonEmpty(Harness.Split(sig))) &&
    (forall name :: name in st.classShapeCache ==>
       VariantsOk(st.classShapeCache[name]) && InfosOk(st.classShapeCache[name], objectCount)) &&
    InfosOk(defs, objectCount)
  }

  /** Registering a new variant that points at a registered object shape keeps the caches coherent. */
  lemma CoherentAddClass(st: State, defs: seq<ClassInfo>, m: seq<Harness.Shape>, n: nat, name: seq<byte>, c: ClassInfo)
    requires Coherent(st, defs, m, n) && VariantsOk(Variants(st, name) + [c])
    requires c.cacheIdx < n && c.bytelen <= Harness.MAX_U32
    ensures Coherent(st.(classShapeCache := st.classShapeCache[name := Variants(st, name) + [c]]), defs, m, n)
  {
  }

  /** A definition that points at a registered object shape may join the definitions list. */
  lemma CoherentAddDef(st: State, defs: seq<ClassInfo>, m: seq<Harness.Shape>, n: nat, c: ClassInfo)
    requires Coherent(st, defs, m, n) && InfosOk([c], n)
    ensures Coherent(st, defs + [c], m, n)
  {
    assert (defs + [c])[|defs|] == c;
  }

  /** Every cached variant of a class points at a registered object shape. */
  lemma CoherentVariant(st: State, defs: seq<ClassInfo>, m: seq<Harness.Shape>, n: nat, name: seq<byte>, i: nat)
    requires Coherent(st, defs, m, n) && i < |Variants(st, name)|
    ensures InfosOk([Variants(st, name)[i]], n)
  {
  }

  /** Coherent caches satisfy the invariant of the cache state itself. */
  lemma CoherentStateOk(st: State, defs: seq<ClassInfo>, mapShapes: seq<Harness.Shape>, objectCount: nat)
    requires Coherent(st, defs, mapShapes, objectCount)
    ensures StateOk(st)
  {
  }

  /** Every variant points at a registered object shape and its field names fit a 32-bit skip. */
  predicate InfosOk(vs: seq<ClassInfo>, objectCount: nat)
  {
    forall i :: 0 <= i < |vs| ==> vs[i].cacheIdx < objectCount && vs[i].bytelen <= Harness.MAX_U32
  }

  /** Shapes only ever get appended, so coherence survives a growing cache. */
  lemma CoherentGrow(st: State, defs: seq<ClassInfo>, m: seq<Harness.Shape>, n: nat, m': seq<Harness.Shape>, n': nat)
    requires Coherent(st, defs, m, n) && m <= m' && n <= n'
    ensures Coherent(st, defs, m', n')
  {
  }

  /**
   * The length of a typed list whose length code sits at `at`, at or after
   * `pos`: a byte after 'n', a 32-bit big-endian value after 'l', and 0
   * after any other code.
   */
  predicate TypedLength(data: seq<byte>, pos: nat, at: nat, n: nat)
  {
    pos <= at < |data| &&
    (data[at] == 0x6e ==> at + 2 <= |data| && n == data[at + 1] as nat) &&
    (data[at] == 0x6c ==> at + 5 <= |data| && n == FromBE(data[at + 1..at + 5])) &&
    (data[at] != 0x6e && data[at] != 0x6c ==> n == 0)
  }

  /** Backpatching the offset `v` into the map header at `s` leaves the bytes before `s` alone. */
  lemma PatchFacts(d0: seq<byte>, d1: seq<byte>, s: nat, v: int)
    requires s + 5 <= |d0| && d0[s] == Code(Map) && d1 == d0[..s + 1] + LE(v, 4) + d0[s + 5..]
    ensures s + 5 <= |d1| && SamePrefix(d0, d1, s) && d1[s..s + 5] == RecordBytes(MapHead(v))
  {
    assert d1[s..s + 5] == [d1[s]] + d1[s + 1..s + 5];
    assert d1[s + 1..s + 5] == LE(v, 4);
  }

  /**
   * What a map leaves in the output `d` (cursor `c`) from `s`: a map header
   * holding the offset `t - s` of its shape trailer, and at `t` the
   * trailer: the index of the signature of `keys` when the cache `st` has
   * it, otherwise (the cache being full) the key count and the signature
   * written out.
   */
  predicate MapWritten(d: seq<byte>, c: nat, st: State, s: nat, t: nat, keys: seq<seq<byte>>)
  {
    s + 5 <= t && t + 5 <= |d| &&
    d[s..s + 5] == RecordBytes(MapHead(t - s)) &&
    TrailerWritten(d, t, c, st, Harness.Signature(keys), |keys|)
  }

  /**
   * The shape trailer of a map with `keys` at `c0` in `d1`, up to the
   * cursor `c1`: the index of the signature when the cache `st` has it,
   * otherwise (the cache being full) the key count and the signature.
   */
  predicate TrailerWritten(d1: seq<byte>, c0: nat, c1: nat, st: State, sig: seq<byte>, fieldLen: int)
  {
    (sig in st.mapShapeCache ==>
      c1 == c0 + 5 <= |d1| && d1[c0..c0 + 5] == RecordBytes(TypingIdxRec(st.mapShapeCache[sig]))) &&
    (sig !in st.mapShapeCache ==>
      |st.mapShapeCache| >= st.maxMapShapeCacheLen &&
      c1 == c0 + 9 + |sig| && c0 + 9 <= |d1| && d1[c0..c0 + 9] == RecordBytes(TypingRec(fieldLen, sig))[..9])
  }

  /**
   * The outcome of `push_map_type` on a signature for the output: it only
   * grows, and holds the trailer of the map.
   */
  lemma ShapeWritten(d0: seq<byte>, c0: nat, flag: bool, d1: seq<byte>, c1: nat, ok: bool,
                     st: State, st2: State, m0: seq<Harness.Shape>, m1: seq<Harness.Shape>, sig: seq<byte>, fieldLen: int)
    requires TypeCached(flag, ok, st, st2, m0, m1, sig, fieldLen)
    requires TypeWritten(d0, c0, flag, d1, c1, ok, st, m0, sig, fieldLen)
    ensures |d1| == |d0|
    ensures ok ==> Ext(d0, c0, flag, d1, c1)
    ensures ok && flag ==> TrailerWritten(d1, c0, c1, st2, sig, fieldLen)
  {
    if !flag || !ok {
    } else if sig in st.mapShapeCache {
      assert st2 == st;
      IndexWritten(d0, c0, d1, c1, st.mapShapeCache[sig]);
    } else if |st.mapShapeCache| >= st.maxMapShapeCacheLen {
      assert st2 == st;
      SignatureWritten(d0, c0, d1, c1, fieldLen, sig);
    } else {
      assert Harness.BuildShape(sig, fieldLen).Ok?;
      assert sig in st2.mapShapeCache && st2.mapShapeCache[sig] == |m0|;
      IndexWritten(d0, c0, d1, c1, |m0|);
    }
  }

  /** A pushed shape index: the output grows by its five bytes. */
  lemma IndexWritten(d0: seq<byte>, c0: nat, d1: seq<byte>, c1: nat, idx: int)
    requires Pushed(d0, c0, true, d1, c1, true, RecordBytes(TypingIdxRec(idx)))
    ensures Ext(d0, c0, true, d1, c1) && |d1| == |d0|
    ensures c1 == c0 + 5 <= |d1| && d1[c0..c0 + 5] == RecordBytes(TypingIdxRec(idx))
  {
    PushedFacts(d0, c0, true, d1, c1, true, RecordBytes(TypingIdxRec(idx)));
    PushedExt(d0, c0, true, d1, c1, true, RecordBytes(TypingIdxRec(idx)));
  }

  /** A written-out shape: its first nine bytes are in place and the cursor passes the whole record. */
  lemma SignatureWritten(d0: seq<byte>, c0: nat, d1: seq<byte>, c1: nat, fieldLen: int, sig: seq<byte>)
    requires c0 + 9 <= |d0|
    requires d1 == Overwrite(d0, c0, RecordBytes(TypingRec(fieldLen, sig)))
    requires c1 == c0 + |RecordBytes(TypingRec(fieldLen, sig))|
    ensures Ext(d0, c0, true, d1, c1) && |d1| == |d0|
    ensures c1 == c0 + 9 + |sig| && d1[c0..c0 + 9] == RecordBytes(TypingRec(fieldLen, sig))[..9]
  {
    var rec := RecordBytes(TypingRec(fieldLen, sig));
    assert forall i :: c0 <= i < c0 + 9 ==> d1[i] == rec[i - c0];
  }

  /** `push_map_type` keeps the caches coherent, before and after the state update. */
  lemma ShapeCoherent(flag: bool, ok: bool, st: State, st2: State, m0: seq<Harness.Shape>, m1: seq<Harness.Shape>,
                      sig: seq<byte>, fieldLen: int, defs: seq<ClassInfo>, n: nat)
    requires TypeCached(flag, ok, st, st2, m0, m1, sig, fieldLen)
    requires Coherent(st, defs, m0, n)
    ensures m0 <= m1 && Coherent(st, defs, m1, n) && Coherent(st2, defs, m1, n)
  {
    if Registers(flag, st, sig) && Harness.BuildShape(sig, fieldLen).Ok? {
      var shape := Harness.BuildShape(sig, fieldLen).value;
      CoherentAddMap(st, defs, m0, n, sig, shape);
      CoherentGrow(st, defs, m0, n, m1, n);
    }
  }

  /** Pushing one more key's text and separator on the names stack extends the signature of the keys. */
  lemma NamesSnoc(n0: seq<byte>, n1: seq<byte>, n2: seq<byte>, keys: seq<seq<byte>>, key: seq<byte>)
    requires n1 == n0 + Harness.Signature(keys) && n2 == n1 + key + [Harness.SEPARATOR]
    ensures n2 == n0 + Harness.Signature(keys + [key])
  {
    Harness.SignatureSnoc(keys, key);
  }

  /** A map header pushed at `s` is still there after the entries, which only extended the output. */
  lemma HeadKept(d0: seq<byte>, s: nat, f: bool, d1: seq<byte>, c1: nat, d2: seq<byte>, c2: nat)
    requires Pushed(d0, s, f, d1, c1, true, RecordBytes(MapHead(0)))
    requires Ext(d1, c1, f, d2, c2)
    ensures Ext(d0, s, f, d2, c2)
    ensures f ==> s + 5 <= c2 && s < |d2| && d2[s] == Code(Map)
  {
    PushedFacts(d0, s, f, d1, c1, true, RecordBytes(MapHead(0)));
    PushedExt(d0, s, f, d1, c1, true, RecordBytes(MapHead(0)));
    ExtTrans(d0, s, f, d1, c1, d2, c2);
    if f {
      assert d1[s] == d1[s..c1][0] == Code(Map);
    }
  }

  /** The class reference at `pos` reads and names the definition `def` of `defs`. */
  predicate ClassRefAt(data: seq<byte>, pos: nat, defs: seq<ClassInfo>, def: ClassInfo)
  {
    IntValue(data, pos).Ok? &&
    0 <= IntValue(data, pos).value.0 < |defs| &&
    def == defs[IntValue(data, pos).value.0]
  }

  /** Where the values of a typed list begin, after its length code at `at`. */
  function TypedLengthEnd(data: seq<byte>, at: nat): nat
    requires at < |data|
  {
    if data[at] == 0x6e then at + 2 else if data[at] == 0x6c then at + 5 else at + 1
  }

  /** Value `i` of a run starts at a value code, before value `i + 1`. */
  predicate ValueAt(data: seq<byte>, starts: seq<nat>, i: nat)
  {
    i < |starts| && starts[i] < |data| && IsValueCode(data[starts[i]]) &&
    (i + 1 < |starts| ==> starts[i] < starts[i + 1])
  }

  /**
   * A run of values read from `p0` to `p1`: the first starts at `p0`, each
   * at a value code after the one before, and all of them before `p1`.
   */
  predicate ValuesRead(data: seq<byte>, starts: seq<nat>, p0: nat, p1: nat)
  {
    (if |starts| == 0 then p0 == p1 else starts[0] == p0 && starts[|starts| - 1] < p1) &&
    forall i: nat :: i < |starts| ==> ValueAt(data, starts, i)
  }

  /**
   * The output around value `i` of a run (snapshots `snaps`, cursors
   * `marks`): only extended, and left exactly as it was when `i` is a skip
   * position.
   */
  predicate ValueStep(snaps: seq<seq<byte>>, marks: seq<nat>, skip: seq<nat>, f: bool, i: nat)
  {
    i + 1 < |snaps| && i + 1 < |marks| &&
    Ext(snaps[i], marks[i], f, snaps[i + 1], marks[i + 1]) &&
    (i in skip ==> snaps[i + 1] == snaps[i] && marks[i + 1] == marks[i])
  }

  /** The output before and after each of `count` values. */
  predicate ValuesLaid(snaps: seq<seq<byte>>, marks: seq<nat>, skip: seq<nat>, f: bool, count: nat)
  {
    |snaps| == count + 1 && |marks| == count + 1 &&
    forall i: nat :: i < count ==> ValueStep(snaps, marks, skip, f, i)
  }

  /** The first `n - 1` values of a run of `n` are a run. */
  lemma LaidPrefix(snaps: seq<seq<byte>>, marks: seq<nat>, skip: seq<nat>, f: bool, n: nat)
    requires ValuesLaid(snaps, marks, skip, f, n) && n > 0
    ensures ValuesLaid(snaps[..n], marks[..n], skip, f, n - 1)
  {
    forall i: nat | i < n - 1
      ensures ValueStep(snaps[..n], marks[..n], skip, f, i)
    {
      assert ValueStep(snaps, marks, skip, f, i);
    }
  }

  /** A run of values laid out only extends the output it started from. */
  lemma {:induction false} LaidExtends(snaps: seq<seq<byte>>, marks: seq<nat>, skip: seq<nat>, f: bool, n: nat)
    requires ValuesLaid(snaps, marks, skip, f, n)
    ensures Ext(snaps[0], marks[0], f, snaps[n], marks[n])
  {
    if n > 0 {
      LaidPrefix(snaps, marks, skip, f, n);
      LaidExtends(snaps[..n], marks[..n], skip, f, n - 1);
      assert ValueStep(snaps, marks, skip, f, n - 1);
      ExtTrans(snaps[0], marks[0], f, snaps[n - 1], marks[n - 1], snaps[n], marks[n]);
    }
  }

  /** When every position of a run is a skip position, the run leaves the output exactly as it was. */
  lemma {:induction false} SkippedRunSilent(snaps: seq<seq<byte>>, marks: seq<nat>, skip: seq<nat>, f: bool, n: nat)
    requires ValuesLaid(snaps, marks, skip, f, n)
    requires forall i: nat :: i < n ==> i in skip
    ensures snaps[n] == snaps[0] && marks[n] == marks[0]
  {
    if n > 0 {
      LaidPrefix(snaps, marks, skip, f, n);
      SkippedRunSilent(snaps[..n], marks[..n], skip, f, n - 1);
      assert ValueStep(snaps, marks, skip, f, n - 1);
    }
  }

  /** No values yet. */
  lemma ValuesStart(data: seq<byte>, p0: nat, skip: seq<nat>, f: bool, d: seq<byte>, c: nat)
    ensures ValuesRead(data, [], p0, p0) && ValuesLaid([d], [c], skip, f, 0)
  {
  }

  /** One more value read at `p1`, ending at `p2`. */
  lemma ValuesReadSnoc(data: seq<byte>, starts: seq<nat>, p0: nat, p1: nat, p2: nat)
    requires ValuesRead(data, starts, p0, p1)
    requires p1 < |data| && IsValueCode(data[p1]) && p1 < p2
    ensures ValuesRead(data, starts + [p1], p0, p2)
  {
    var s := starts + [p1];
    forall i: nat | i < |s|
      ensures ValueAt(data, s, i)
    {
      if i < |starts| {
        assert ValueAt(data, starts, i);
      }
    }
  }

  /** One more value laid out. */
  lemma ValuesLaidSnoc(snaps: seq<seq<byte>>, marks: seq<nat>, skip: seq<nat>, f: bool, count: nat,
                       d: seq<byte>, c: nat)
    requires ValuesLaid(snaps, marks, skip, f, count)
    requires Ext(snaps[count], marks[count], f, d, c)
    requires count in skip ==> d == snaps[count] && c == marks[count]
    ensures ValuesLaid(snaps + [d], marks + [c], skip, f, count + 1)
  {
    forall i: nat | i < count + 1
      ensures ValueStep(snaps + [d], marks + [c], skip, f, i)
    {
      if i < count {
        assert ValueStep(snaps, marks, skip, f, i);
      }
    }
  }

  /**
   * The length of the other list form at `pos`: a type reference and then
   * an int, taken as an unsigned 32-bit count; the values begin at `body`.
   */
  predicate ArrayIntLength(data: seq<byte>, pos: nat, n: nat, body: nat)
  {
    IntValue(data, pos).Ok? && IntValue(data, IntValue(data, pos).value.1).Ok? &&
    n == IntValue(data, IntValue(data, pos).value.1).value.0 % TWO32 &&
    body == IntValue(data, IntValue(data, pos).value.1).value.1
  }

  /** The header record `rec` sits at `c0` in `d`, and the cursor `c1` is past it. */
  predicate HeadAt(d: seq<byte>, c0: nat, c1: nat, rec: seq<byte>)
  {
    c0 + |rec| <= c1 && c0 + |rec| <= |d| && d[c0..c0 + |rec|] == rec
  }

  /** The output holds, from `c0` to `c1`, exactly the record of a binary chunk of `len` bytes at input position `at`. */
  predicate BytesAt(d: seq<byte>, c0: nat, c1: nat, at: nat, len: nat)
  {
    c0 + 9 == c1 && HeadAt(d, c0, c1, RecordBytes(BytesRec(at, len)))
  }

  /** A header record pushed at `c0` is still there after a body that only extended the output. */
  lemma HeadKeptAt(d0: seq<byte>, c0: nat, f: bool, d1: seq<byte>, c1: nat, d2: seq<byte>, c2: nat, rec: seq<byte>)
    requires Pushed(d0, c0, f, d1, c1, true, rec)
    requires Ext(d1, c1, f, d2, c2)
    ensures Ext(d0, c0, f, d2, c2)
    ensures f ==> HeadAt(d2, c0, c2, rec)
  {
    PushedFacts(d0, c0, f, d1, c1, true, rec);
    PushedExt(d0, c0, f, d1, c1, true, rec);
    ExtTrans(d0, c0, f, d1, c1, d2, c2);
    if f {
      SamePrefixSlice(d1, d2, c1, c0, c0 + |rec|);
    }
  }

  /**
   * A chunked value: its header pushed at `s` (`d0` to `d1`), the chunks
   * after it (`d1` to `d2`) and the count patched into the header (`d2` to
   * `d3`) only extend the output, and leave the patched header at `s`.
   */
  lemma ChunkPatched(d0: seq<byte>, s: nat, f: bool, d1: seq<byte>, c1: nat, d2: seq<byte>, c2: nat,
                     d3: seq<byte>, kind: byte, count: nat)
    requires Ext(d0, s, f, d1, c1) && Ext(d1, c1, f, d2, c2)
    requires f ==> s + 6 <= c1 && c2 <= |d3|
    requires !f ==> d3 == d2
    requires SamePrefix(d2, d3, s + 2)
    requires f ==> d3[s..s + 6] == RecordBytes(ChunkRec(kind, count))
    ensures Ext(d0, s, f, d3, c2)
    ensures f ==> HeadAt(d3, s, c2, RecordBytes(ChunkRec(kind, count)))
  {
    ExtTrans(d0, s, f, d1, c1, d2, c2);
    if f {
      assert SamePrefix(d2, d3, s);
      SamePrefixTrans(d0, d2, d3, s, s);
    }
  }

  lemma DropPrefix(a: seq<byte>, b: seq<byte>)
    ensures (a + b)[|a|..] == b
  {
  }

  /**
   * The parser. The per-parse scratch buffers of the source (the key-text
   * stack and the list of class definitions met so far) are fields here.
   */
  class Parser {
    const input: Input
    const output: ByteOutput
    const latin1: ByteOutput
    const ucs2: Ucs2Output
    const shapes: Harness.ShapeCache
    var state: State
    var names: seq<byte>
    var definitions: seq<ClassInfo>

    ghost function Repr(): set<object>
      reads this
    {
      {this, input, output, output.data, latin1, latin1.data, ucs2, ucs2.data, shapes}
    }

    /** The buffers are distinct and the input fits the harness bound. */
    ghost predicate Valid()
      reads this, ucs2
    {
      output != latin1 && output.data != latin1.data && ucs2.Valid() &&
      |input.data| <= Harness.MAX_U32
    }

    /** The caches agree with each other and with the shapes registered so far. */
    ghost predicate CachesOk()
      reads this, shapes
    {
      Coherent(state, definitions, shapes.mapShapeCache, |shapes.objectShapeCache|)
    }

    /** Caches only grow and their bound never changes. */
    twostate predicate Grown()
      reads this, shapes
    {
      state.maxMapShapeCacheLen == old(state.maxMapShapeCacheLen) &&
      old(definitions) <= definitions &&
      old(shapes.mapShapeCache) <= shapes.mapShapeCache &&
      old(shapes.objectShapeCache) <= shapes.objectShapeCache
    }

    /**
     * What every successful read leaves behind: the flag as it was, the
     * output only extended (nothing at all while the flag is off) and the
     * input never moved back.
     */
    twostate predicate Done()
      reads this, input, output, output.data
    {
      output.flag == old(output.flag) && Extended(output) && input.Remaining() <= old(input.Remaining())
    }

    constructor (input: Input, output: ByteOutput, latin1: ByteOutput, ucs2: Ucs2Output,
                 shapes: Harness.ShapeCache, state: State)
      ensures this.input == input && this.output == output && this.latin1 == latin1
      ensures this.ucs2 == ucs2 && this.shapes == shapes && this.state == state
      ensures names == [] && definitions == []
    {
      this.input := input;
      this.output := output;
      this.latin1 := latin1;
      this.ucs2 := ucs2;
      this.shapes := shapes;
      this.state := state;
      names := [];
      definitions := [];
    }

    /** `get_u8`: the byte at the cursor, without consuming it. */
    method PeekU8() returns (ok: bool, code: byte)
      modifies input`cursor
      ensures ok == (input.cursor < |input.data|)
      ensures input.cursor == old(input.cursor)
      ensures ok ==> code == input.data[input.cursor]
    {
      ok, code := input.ReadU8();
      if ok {
        input.cursor := input.cursor - 1;
      }
    }

    /** `assert`: consumes a tagByte byte, which must be one of `labels`. */
    method ExpectLabel(labels: seq<byte>) returns (ok: bool, tagByte: byte)
      modifies input`cursor
      ensures ok == (old(input.cursor) < |input.data| && input.data[old(input.cursor)] in labels)
      ensures ok ==> tagByte == input.data[old(input.cursor)] && input.cursor == old(input.cursor) + 1
    {
      ok, tagByte := input.ReadU8();
      ok := ok && tagByte in labels;
    }

    method ReadBoolValue() returns (ok: bool, b: bool)
      modifies input`cursor
      ensures ok == (old(input.cursor) < |input.data| && input.data[old(input.cursor)] in {0x54, 0x46})
      ensures ok ==> b == (input.data[old(input.cursor)] == 0x54) && input.cursor == old(input.cursor) + 1
    {
      var tagByte;
      ok, tagByte := ExpectLabel([0x54, 0x46]);
      b := tagByte == 0x54;
    }

    /** 'T' and 'F' become a bool record holding 1 or 0. */
    method ReadBool() returns (ok: bool)
      modifies input`cursor, output`cursor, output.data
      ensures old(input.cursor) < |input.data| && input.data[old(input.cursor)] in {0x54, 0x46} ==>
        input.cursor == old(input.cursor) + 1 &&
        (!output.flag ==> ok && output.data[..] == old(output.data[..]) && output.cursor == old(output.cursor)) &&
        (output.flag ==> ok == (old(output.cursor) <= output.data.Length)) &&
        (output.flag && ok ==>
          output.data[..] == Overwrite(old(output.data[..]), old(output.cursor),
                                       RecordBytes(BoolRec(if input.data[old(input.cursor)] == 0x54 then 1 else 0))) &&
          output.cursor == old(output.cursor) + 2)
      ensures !(old(input.cursor) < |input.data| && input.data[old(input.cursor)] in {0x54, 0x46}) ==> !ok
    {
      var b;
      ok, b := ReadBoolValue();
      if !ok {
        return;
      }
      ok := output.PushBool(if b then 1 else 0);
    }

    method ReadNull() returns (ok: bool)
      modifies input`cursor, output`cursor, output.data
      ensures old(input.cursor) < |input.data| && input.data[old(input.cursor)] == 0x4e ==>
        input.cursor == old(input.cursor) + 1 &&
        Pushed(old(output.data[..]), old(output.cursor), output.flag, output.data[..], output.cursor, ok,
               RecordBytes(NullRec))
      ensures !(old(input.cursor) < |input.data| && input.data[old(input.cursor)] == 0x4e) ==> !ok
    {
      var tagByte;
      ok, tagByte := ExpectLabel([0x4e]);
      if !ok {
        return;
      }
      ok := output.PushNull();
    }

    method ReadIntValue() returns (ok: bool, v: int)
      modifies input`cursor
      ensures ok == IntValue(input.data, old(input.cursor)).Ok?
      ensures ok ==> v == IntValue(input.data, old(input.cursor)).value.0 &&
                     input.cursor == IntValue(input.data, old(input.cursor)).value.1
    {
      var code;
      ok, code := input.ReadU8();
      if !ok {
        return false, 0;
      }
      if 0x80 <= code <= 0xbf {
        return true, code as int - 0x90;
      } else if 0xc0 <= code <= 0xcf {
        var b0;
        ok, b0 := input.ReadU8();
        return ok, (code as int - 0xc8) * 256 + b0 as int;
      } else if 0xd0 <= code <= 0xd7 {
        var b1, b0;
        ok, b1 := input.ReadU8();
        if !ok {
          return false, 0;
        }
        ok, b0 := input.ReadU8();
        return ok, (code as int - 0xd4) * 65536 + b1 as int * 256 + b0 as int;
      } else {
        ok, v := input.ReadSigned(4);
      }
    }

    /** Reads an int and writes an int record. */
    method ReadInt() returns (ok: bool, v: int)
      modifies input`cursor, output`cursor, output.data
      ensures IntValue(input.data, old(input.cursor)).Ok? ==>
        v == IntValue(input.data, old(input.cursor)).value.0 &&
        input.cursor == IntValue(input.data, old(input.cursor)).value.1 &&
        Pushed(old(output.data[..]), old(output.cursor), output.flag, output.data[..], output.cursor, ok,
               RecordBytes(IntRec(v)))
      ensures IntValue(input.data, old(input.cursor)).Err? ==> !ok
    {
      ok, v := ReadIntValue();
      if !ok {
        return;
      }
      ok := output.PushI32(v);
    }

    method ReadLongValue() returns (ok: bool, v: int)
      modifies input`cursor
      ensures ok ==> LongValue(input.data, old(input.cursor)) == Ok((v, input.cursor))
      ensures !ok ==> LongValue(input.data, old(input.cursor)).Err?
    {
      ghost var pos := input.cursor;
      var code;
      ok, code := input.ReadU8();
      if !ok {
        return false, 0;
      }
      LongValueCases(input.data, pos);
      if 0xd8 <= code <= 0xef {
        return true, code as int - 0xe0;
      } else if 0xf0 <= code <= 0xff {
        var b0;
        ok, b0 := input.ReadU8();
        return ok, (code as int - 0xf8) * 256 + b0 as int;
      } else if 0x38 <= code <= 0x3f {
        var b1, b0;
        ok, b1 := input.ReadU8();
        if !ok {
          return false, 0;
        }
        ok, b0 := input.ReadU8();
        return ok, (code as int - 0x3c) * 65536 + b1 as int * 256 + b0 as int;
      } else if code == 0x77 {
        ok, v := input.ReadSigned(4);
      } else if code == 0x4c {
        ok, v := input.ReadSigned(8);
      } else {
        return false, 0;
      }
    }

    /** Reads a long and writes a long record. */
    method ReadLong() returns (ok: bool, v: int)
      modifies input`cursor, output`cursor, output.data
      ensures LongValue(input.data, old(input.cursor)).Ok? ==>
        v == LongValue(input.data, old(input.cursor)).value.0 &&
        input.cursor == LongValue(input.data, old(input.cursor)).value.1 &&
        Pushed(old(output.data[..]), old(output.cursor), output.flag, output.data[..], output.cursor, ok,
               RecordBytes(LongRec(v)))
      ensures LongValue(input.data, old(input.cursor)).Err? ==> !ok
    {
      ok, v := ReadLongValue();
      if !ok {
        return;
      }
      ok := output.PushI64(v);
    }

    method ReadRefId() returns (ok: bool, v: nat)
      modifies input`cursor
      ensures ok == RefIdValue(input.data, old(input.cursor)).Ok?
      ensures ok ==> v == RefIdValue(input.data, old(input.cursor)).value.0 &&
                     input.cursor == RefIdValue(input.data, old(input.cursor)).value.1
    {
      var code;
      ok, code := input.ReadU8();
      if !ok {
        return false, 0;
      }
      if code == 0x4a {
        var b;
        ok, b := input.ReadU8();
        v := b;
      } else if code == 0x4b {
        ok, v := input.ReadU16();
      } else if code == 0x52 {
        ok, v := input.ReadU32();
      } else {
        return false, 0;
      }
    }

    /** Reads a back reference and writes a ref record. */
    method ReadRef() returns (ok: bool, v: nat)
      modifies input`cursor, output`cursor, output.data
      ensures RefIdValue(input.data, old(input.cursor)).Ok? ==>
        v == RefIdValue(input.data, old(input.cursor)).value.0 &&
        input.cursor == RefIdValue(input.data, old(input.cursor)).value.1 &&
        Pushed(old(output.data[..]), old(output.cursor), output.flag, output.data[..], output.cursor, ok,
               RecordBytes(RefRec(v)))
      ensures RefIdValue(input.data, old(input.cursor)).Err? ==> !ok
    {
      ok, v := ReadRefId();
      if !ok {
        return;
      }
      ok := output.PushRef(v);
    }

    /**
     * Reads a double and writes a double record. The bits of 0.0, 1.0 and
     * of a 64-bit double are known; the float conversions of the one-byte,
     * two-byte and 32-bit forms are not modelled, so their bits are any.
     */
    method ReadDouble() returns (ok: bool, bits: nat)
      modifies input`cursor, output`cursor, output.data
      ensures ok ==>
        old(input.cursor) < |input.data| && IsDoubleCode(input.data[old(input.cursor)]) &&
        input.cursor == old(input.cursor) + 1 + DoubleWidth(input.data[old(input.cursor)]) <= |input.data|
      ensures ok && input.data[old(input.cursor)] == 0x44 ==>
        bits == FromBE(input.data[old(input.cursor) + 1..old(input.cursor) + 9])
      ensures ok && input.data[old(input.cursor)] == 0x67 ==> bits == 0
      ensures ok && input.data[old(input.cursor)] == 0x68 ==> bits == 0x3ff0_0000_0000_0000
      ensures old(input.cursor) < |input.data| && IsDoubleCode(input.data[old(input.cursor)]) &&
              old(input.cursor) + 1 + DoubleWidth(input.data[old(input.cursor)]) <= |input.data| ==>
        Pushed(old(output.data[..]), old(output.cursor), output.flag, output.data[..], output.cursor, ok,
               RecordBytes(DoubleRec(bits)))
    {
      hide RecordBytes, Pushed, FromBE;
      var code;
      ok, code := input.ReadU8();
      if !ok || !IsDoubleCode(code) {
        return false, 0;
      }
      if code == 0x44 {
        ok, bits := input.ReadU64();
      } else if code == 0x67 {
        bits := 0;
      } else if code == 0x68 {
        bits := 0x3ff0_0000_0000_0000;
      } else {
        var raw;
        ok, raw := input.ReadBE(DoubleWidth(code));
        bits :| bits < TWO64;
      }
      if !ok {
        return;
      }
      ok := output.PushF64(bits);
    }

    /** 'd' and a 64-bit millisecond count become a date record. */
    method ReadDate() returns (ok: bool, v: nat)
      modifies input`cursor, output`cursor, output.data
      ensures ok ==>
        old(input.cursor) + 9 <= |input.data| && input.data[old(input.cursor)] == 0x64 &&
        v == FromBE(input.data[old(input.cursor) + 1..old(input.cursor) + 9]) &&
        input.cursor == old(input.cursor) + 9
      ensures old(input.cursor) + 9 <= |input.data| && input.data[old(input.cursor)] == 0x64 ==>
        v == FromBE(input.data[old(input.cursor) + 1..old(input.cursor) + 9]) &&
        Pushed(old(output.data[..]), old(output.cursor), output.flag, output.data[..], output.cursor, ok,
               RecordBytes(DateRec(v)))
    {
      var tagByte;
      ok, tagByte := ExpectLabel([0x64]);
      if !ok {
        return false, 0;
      }
      ok, v := input.ReadU64();
      if !ok {
        return;
      }
      ok := output.PushDate(v);
    }
 
    /**
     * `read_utf8_str`: a string of `len` characters, or of a 16-bit count
     * read first, through `read_utf8`; returns the input range it spans.
     */
    method ReadUtf8Str(len: Option<nat>) returns (ok: bool, start: nat, end: nat, size: nat)
      requires Valid()
      modifies input`cursor, output`cursor, output.data, latin1`cursor, latin1.data, ucs2`cursor, ucs2.data
      ensures Valid()
      ensures ok ==> old(input.cursor) <= start <= end == input.cursor <= |input.data|
      ensures ok ==> Extended(output) && (output.flag ==> old(output.cursor) + 9 == output.cursor <= output.data.Length)
      ensures len.Some? ==> size == len.value && start == old(input.cursor)
      ensures len.None? && ok ==>
        old(input.cursor) + 2 <= |input.data| && start == old(input.cursor) + 2 &&
        size == FromBE(input.data[old(input.cursor)..old(input.cursor) + 2])
    {
      if len.Some? {
        size := len.value;
      } else {
        var n;
        ok, n := input.ReadU16();
        if !ok {
          return false, 0, 0, 0;
        }
        size := n;
      }
      start := input.cursor;
      ghost var out0, lat0, pool0 := output.data[..], latin1.data[..], ucs2.data[..];
      ghost var oc0, lc0, pc0 := output.cursor, latin1.cursor, ucs2.cursor;
      ok := input.ReadUtf8(size, output, latin1, ucs2);
      end := input.cursor;
      Utf8ResultFacts(input.data, start, size, end, ok, output.flag, out0, oc0, output.data[..], output.cursor,
                      lat0, lc0, latin1.data[..], latin1.cursor, pool0, pc0, ucs2.data[..], ucs2.cursor);
      if ok && output.flag {
        SliceSamePrefix(out0, output.data[..], oc0);
      }
    }

    /** `read_string_key`: a field or key name, which must be a single, final chunk. */
    method ReadStringKey() returns (ok: bool, start: nat, end: nat)
      requires Valid()
      modifies input`cursor, output`cursor, output.data, latin1`cursor, latin1.data, ucs2`cursor, ucs2.data
      ensures Valid()
      ensures ok ==> old(input.cursor) < start <= end == input.cursor <= |input.data|
      ensures ok ==> Extended(output)
      ensures old(input.cursor) < |input.data| && !(input.data[old(input.cursor)] <= 0x1f || input.data[old(input.cursor)] == 0x53) ==> !ok
    {
      var code;
      ok, code := input.ReadU8();
      if !ok || code == 0x73 {
        return false, 0, 0;
      }
      var size;
      if code <= 0x1f {
        ok, start, end, size := ReadUtf8Str(Some(code as nat));
      } else if code == 0x53 {
        ok, start, end, size := ReadUtf8Str(None);
      } else {
        return false, 0, 0;
      }
    }

    /**
     * `read_string`: a string, possibly in chunks. A single chunk is one
     * string record; several are a chunk header of kind 2 whose count is
     * backpatched once the last chunk is read, followed by one string
     * record per chunk.
     */
    method ReadString() returns (ok: bool, count: nat)
      requires Valid()
      modifies input`cursor, output`cursor, output.data, latin1`cursor, latin1.data, ucs2`cursor, ucs2.data
      ensures Valid()
      ensures ok ==> old(input.cursor) < |input.data| && input.Remaining() < old(input.Remaining())
      ensures ok ==> Extended(output)
      ensures ok && output.flag && input.data[old(input.cursor)] != 0x73 ==>
        count == 1 && output.cursor == old(output.cursor) + 9
      ensures ok && output.flag && input.data[old(input.cursor)] == 0x73 ==>
        count >= 1 && old(output.cursor) + 6 + 9 * count == output.cursor &&
        HeadAt(output.data[..], old(output.cursor), output.cursor, RecordBytes(ChunkRec(2, count)))
    {
      var s := output.cursor;
      var code;
      ok, code := input.ReadU8();
      if !ok {
        return false, 0;
      }
      if code != 0x73 {
        ok := ReadLastChunk(code);
        return ok, 1;
      }
      ghost var d0 := output.data[..];
      ok := PushChunkHead(2, 0);
      if !ok {
        return false, 0;
      }
      ghost var d1, c1 := output.data[..], output.cursor;
      ok, count := StringChunks(s);
      if !ok {
        return;
      }
      ghost var d2, c2 := output.data[..], output.cursor;
      ok := PatchChunkCount(s, 2, count);
      if ok {
        ChunkPatched(d0, s, output.flag, d1, c1, d2, c2, output.data[..], 2, count);
      }
    }

    /** Pushes a chunk header of kind `kind` with a provisional count `n`. */
    method PushChunkHead(kind: byte, n: nat) returns (ok: bool)
      modifies output`cursor, output.data
      ensures ok ==> Extended(output)
      ensures ok && output.flag ==>
        old(output.cursor) + 6 == output.cursor <= output.data.Length &&
        output.data[old(output.cursor)] == 14 && output.data[old(output.cursor) + 1] == kind
    {
      var s := output.cursor;
      ghost var out0 := output.data[..];
      ok := output.PushChunk(kind, n);
      PushedFacts(out0, s, output.flag, output.data[..], output.cursor, ok, RecordBytes(ChunkRec(kind, n)));
      PushedPrefix(out0, s, output.flag, output.data[..], output.cursor, ok, RecordBytes(ChunkRec(kind, n)));
      ChunkBytes(kind, n);
      if ok && output.flag {
        ghost var head := output.data[s..s + 6];
        assert head == [14, kind] + LE(n, 4);
        assert output.data[s] == head[0] && output.data[s + 1] == head[1];
      }
    }

    /** Backpatches the count of the chunk header at `s`, which sits six bytes or more before the cursor. */
    method PatchChunkCount(s: nat, kind: byte, count: nat) returns (ok: bool)
      requires output.flag ==> s + 6 <= output.cursor <= output.data.Length && output.data[s] == 14 && output.data[s + 1] == kind
      modifies output.data
      ensures !output.flag ==> ok && output.data[..] == old(output.data[..])
      ensures ok ==> SamePrefix(old(output.data[..]), output.data[..], s + 2)
      ensures ok && output.flag ==>
        output.cursor + 4 <= output.data.Length &&
        output.data[s..s + 6] == RecordBytes(ChunkRec(kind, count))
      ensures output.flag ==> (ok <==> output.cursor + 4 <= output.data.Length)
    {
      ok := output.SetU32(s + 2, count);
      ChunkBytes(kind, count);
      if ok && output.flag {
        assert output.data[s..s + 6] == [output.data[s], output.data[s + 1]] + output.data[s + 2..s + 6];
        assert output.data[s + 2..s + 6] == LE(count, 4);
      }
    }

    /** The final chunk of a string: its code is `code`, already consumed. */
    method ReadLastChunk(code: byte) returns (ok: bool)
      requires Valid()
      requires 0 < input.cursor <= |input.data|
      modifies input`cursor, output`cursor, output.data, latin1`cursor, latin1.data, ucs2`cursor, ucs2.data
      ensures Valid()
      ensures ok ==> (code <= 0x1f || code == 0x53) && old(input.cursor) <= input.cursor <= |input.data|
      ensures ok ==> Extended(output) && (output.flag ==> old(output.cursor) + 9 == output.cursor <= output.data.Length)
    {
      var st, en, size;
      if code <= 0x1f {
        ok, st, en, size := ReadUtf8Str(Some(code as nat));
      } else if code == 0x53 {
        ok, st, en, size := ReadUtf8Str(None);
      } else {
        ok := false;
      }
    }

    /**
     * The chunks of a chunked string that follow its header at `s`: every
     * non-final chunk ('s') and then the final one, counted.
     */
    method StringChunks(s: nat) returns (ok: bool, count: nat)
      requires Valid()
      requires 0 < input.cursor <= |input.data|
      requires output.flag ==> s + 6 == output.cursor <= output.data.Length &&
                               output.data[s] == 14 && output.data[s + 1] == 2
      modifies input`cursor, output`cursor, output.data, latin1`cursor, latin1.data, ucs2`cursor, ucs2.data
      ensures Valid()
      ensures ok ==> old(input.cursor) <= input.cursor <= |input.data|
      ensures ok ==> Extended(output) && count >= 1
      ensures ok && output.flag ==>
        output.cursor == s + 6 + 9 * count <= output.data.Length &&
        output.data[s] == 14 && output.data[s + 1] == 2
    {
      count := 0;
      var code: byte := 0x73;
      while code == 0x73
        invariant Valid()
        invariant old(input.cursor) <= input.cursor <= |input.data|
        invariant Extended(output)
        invariant output.flag ==>
          output.cursor == s + 6 + 9 * count <= output.data.Length &&
          output.data[s] == 14 && output.data[s + 1] == 2
        decreases input.Remaining(), if code == 0x73 then 1 else 0
      {
        var st, en, size;
        ok, st, en, size := ReadUtf8Str(None);
        if !ok {
          return;
        }
        ok, code := input.ReadU8();
        if !ok {
          return;
        }
        count := count + 1;
      }
      ok := ReadLastChunk(code);
      count := count + 1;
    }

    /**
     * `read_bytes`: a binary value. A short one (codes 0x20..0x2f, length in
     * the code) is one bytes record naming its input range; otherwise a
     * chunk header of kind 1 is followed by one bytes record per chunk and
     * its count is backpatched. The input cursor is moved past each chunk
     * without a bounds check.
     */
    method ReadBytes() returns (ok: bool, count: nat)
      requires |input.data| <= Harness.MAX_U32
      modifies input`cursor, output`cursor, output.data
      ensures ok ==> old(input.cursor) < |input.data| && IsBytesCode(input.data[old(input.cursor)]) &&
                     input.Remaining() < old(input.Remaining())
      ensures ok ==> Extended(output)
      ensures ok && 0x20 <= input.data[old(input.cursor)] <= 0x2f ==>
        count == 1 && input.cursor == old(input.cursor) + 1 + (input.data[old(input.cursor)] as int - 0x20) &&
        (output.flag ==>
          BytesAt(output.data[..], old(output.cursor), output.cursor, old(input.cursor) + 1,
                  input.data[old(input.cursor)] as int - 0x20))
      ensures ok && output.flag && !(0x20 <= input.data[old(input.cursor)] <= 0x2f) ==>
        count >= 1 && old(output.cursor) + 6 + 9 * count == output.cursor &&
        HeadAt(output.data[..], old(output.cursor), output.cursor, RecordBytes(ChunkRec(1, count)))
    {
      hide BytesAt, HeadAt, RecordBytes;
      var code;
      ok, code := input.ReadU8();
      if !ok || !IsBytesCode(code) {
        return false, 0;
      }
      if 0x20 <= code <= 0x2f {
        ok := ByteChunk(code as int - 0x20);
        return ok, 1;
      }
      ok, count := ChunkedBytes(code);
    }

    /** A chunked binary value whose first chunk code `code` is consumed: the header, the chunks, the patched count. */
    method ChunkedBytes(code: byte) returns (ok: bool, count: nat)
      requires 0 < input.cursor <= |input.data|
      modifies input`cursor, output`cursor, output.data
      ensures ok ==> input.Remaining() <= old(input.Remaining()) && Extended(output)
      ensures ok && output.flag ==>
        count >= 1 && old(output.cursor) + 6 + 9 * count == output.cursor &&
        HeadAt(output.data[..], old(output.cursor), output.cursor, RecordBytes(ChunkRec(1, count)))
    {
      var s := output.cursor;
      ghost var d0 := output.data[..];
      ok := PushChunkHead(1, 1);
      if !ok {
        return false, 0;
      }
      ghost var d1, c1 := output.data[..], output.cursor;
      ok, count := ByteChunks(s, code);
      if !ok {
        return;
      }
      ghost var d2, c2 := output.data[..], output.cursor;
      ok := PatchChunkCount(s, 1, count);
      if ok {
        ChunkPatched(d0, s, output.flag, d1, c1, d2, c2, output.data[..], 1, count);
      }
    }

    /** One chunk of `len` bytes at the cursor: a bytes record for its range, and the cursor moved past it. */
    method ByteChunk(len: nat) returns (ok: bool)
      modifies input`cursor, output`cursor, output.data
      ensures input.cursor == old(input.cursor) + len
      ensures Extended(output)
      ensures !output.flag ==> ok
      ensures ok && output.flag ==> BytesAt(output.data[..], old(output.cursor), output.cursor, old(input.cursor), len)
    {
      ghost var out0 := output.data[..];
      ok := output.PushBytes(input.cursor, len);
      PushedFacts(out0, old(output.cursor), output.flag, output.data[..], output.cursor, ok,
                  RecordBytes(BytesRec(input.cursor, len)));
      PushedPrefix(out0, old(output.cursor), output.flag, output.data[..], output.cursor, ok,
                   RecordBytes(BytesRec(input.cursor, len)));
      input.cursor := input.cursor + len;
    }

    /**
     * The chunks of a chunked binary value after its header at `s`: 'b'
     * chunks, then a final 'B' or short chunk; `code` is the first chunk's
     * code, already consumed.
     */
    method ByteChunks(s: nat, code: byte) returns (ok: bool, count: nat)
      requires 0 < input.cursor <= |input.data|
      requires output.flag ==> s + 6 == output.cursor <= output.data.Length &&
                               output.data[s] == 14 && output.data[s + 1] == 1
      modifies input`cursor, output`cursor, output.data
      ensures ok ==> old(input.cursor) <= input.cursor && Extended(output) && count >= 1
      ensures ok ==> input.Remaining() <= old(input.Remaining())
      ensures ok && output.flag ==>
        output.cursor == s + 6 + 9 * count <= output.data.Length &&
        output.data[s] == 14 && output.data[s + 1] == 1
    {
      count := 0;
      var c := code;
      while c == 0x62
        invariant old(input.cursor) <= input.cursor <= |input.data|
        invariant Extended(output)
        invariant output.flag ==>
          output.cursor == s + 6 + 9 * count <= output.data.Length &&
          output.data[s] == 14 && output.data[s + 1] == 1
        decreases input.Remaining(), if c == 0x62 then 1 else 0
      {
        var len;
        ok, len := input.ReadU16();
        if !ok {
          return;
        }
        ok := ByteChunk(len);
        if !ok {
          return;
        }
        ok, c := input.ReadU8();
        if !ok {
          return;
        }
        count := count + 1;
      }
      var len: nat;
      if c == 0x42 {
        ok, len := input.ReadU16();
        if !ok {
          return;
        }
      } else if 0x20 <= c <= 0x2f {
        len := c as int - 0x20;
      } else {
        return false, count;
      }
      ok := ByteChunk(len);
      count := count + 1;
    }

    /**
     * `read_type`: an optional type name. 't' and a 16-bit length skip the
     * name; 'T' or 'u' are followed by a type reference, read as an int
     * (and pushed, unless the caller has stopped output); anything else is
     * not consumed.
     */
    method ReadType() returns (ok: bool, found: bool)
      requires |input.data| <= Harness.MAX_U32
      modifies input`cursor, output`cursor, output.data
      ensures ok ==> old(input.cursor) < |input.data| && old(input.cursor) <= input.cursor <= |input.data| &&
                     Extended(output)
      ensures ok ==> (found <==> input.data[old(input.cursor)] in {0x74, 0x54, 0x75})
      ensures ok && !found ==>
        input.cursor == old(input.cursor) && output.cursor == old(output.cursor) &&
        output.data[..] == old(output.data[..])
      ensures old(input.cursor) < |input.data| && input.data[old(input.cursor)] !in {0x74, 0x54, 0x75} ==> ok
    {
      var pos := input.cursor;
      var code;
      ok, code := input.ReadU8();
      if !ok {
        return false, false;
      }
      if code == 0x74 {
        var len;
        ok, len := input.ReadU16();
        if !ok {
          return false, false;
        }
        input.Skip(len);
        return true, true;
      } else if code == 0x54 || code == 0x75 {
        ghost var out0 := output.data[..];
        var v;
        ok, v := ReadInt();
        if ok {
          PushedPrefix(out0, old(output.cursor), output.flag, output.data[..], output.cursor, ok, RecordBytes(IntRec(v)));
        }
        return ok, true;
      } else {
        input.SetRpos(pos);
        return true, false;
      }
    }

    /**
     * `read_map_key`: classifies the key at the cursor. Null, bool, int
     * and long keys are consumed here and give their texts; a string,
     * object or reference key is left in place for the caller. Arrays and
     * maps are not hashable, and any other code is invalid.
     */
    method ReadMapKey() returns (ok: bool, key: MapKey)
      modifies input`cursor
      ensures ok ==> old(input.cursor) < |input.data|
      ensures ok && (key.KeyString? || key.KeySpec?) ==> input.cursor == old(input.cursor)
      ensures ok && key.KeyString? ==> IsStringCode(input.data[old(input.cursor)])
      ensures ok && key.KeySpec? ==> IsObjectCode(input.data[old(input.cursor)]) || IsRefCode(input.data[old(input.cursor)])
      ensures ok && !(key.KeyString? || key.KeySpec?) ==> old(input.cursor) < input.cursor <= |input.data|
      ensures ok && key.KeyInt? ==>
        IntValue(input.data, old(input.cursor)).Ok? &&
        key.text == Decimal(IntValue(input.data, old(input.cursor)).value.0)
      ensures ok && key.KeyLong? ==>
        LongValue(input.data, old(input.cursor)).Ok? &&
        key.text == Decimal(LongValue(input.data, old(input.cursor)).value.0)
      ensures old(input.cursor) < |input.data| && IsArrayCode(input.data[old(input.cursor)]) ==> !ok
      ensures old(input.cursor) < |input.data| && input.data[old(input.cursor)] in {0x48, 0x4d} ==> !ok
    {
      var code;
      ok, code := PeekU8();
      if !ok {
        return false, KeyNull;
      }
      if code == 0x4e {
        var b;
        ok, b := ExpectLabel([0x4e]);
        key := KeyNull;
      } else if code == 0x54 || code == 0x46 {
        var b;
        ok, b := ReadBoolValue();
        key := if b then KeyTrue else KeyFalse;
      } else if IsIntCode(code) {
        var v;
        ok, v := ReadIntValue();
        key := KeyInt(Decimal(v));
      } else if IsLongCode(code) {
        var v;
        ok, v := ReadLongValue();
        key := KeyLong(Decimal(v));
      } else if IsStringCode(code) {
        key := KeyString;
      } else if IsObjectCode(code) || IsRefCode(code) {
        key := KeySpec;
      } else {
        return false, KeyNull;
      }
    }

    /**
     * `gen_cls_info`: reads `len` field names (with output stopped) and
     * builds the class record: the positions of "this$" fields are the
     * skip list, every other name goes into the signature registered as an
     * object shape, and the byte length of the names is kept so that a
     * later hit can skip them. The signature is turned into a Rust
     * `String` with `unwrap()` before the shape is registered, so one that
     * is not well-formed UTF-8 (a name holding the coding of a lone
     * surrogate) fails with nothing registered.
     */
    method GenClsInfo(len: nat) returns (ok: bool, info: ClassInfo, ghost fieldNames: seq<seq<byte>>)
      requires Valid() && input.cursor <= |input.data|
      modifies input`cursor, output`cursor, output.data, output`flag, latin1`cursor, latin1.data,
               ucs2`cursor, ucs2.data, shapes
      ensures Valid()
      ensures shapes.mapShapeCache == old(shapes.mapShapeCache)
      ensures old(shapes.objectShapeCache) <= shapes.objectShapeCache
      ensures !ok ==> shapes.objectShapeCache == old(shapes.objectShapeCache)
      ensures ok ==>
        output.flag == old(output.flag) && output.cursor == old(output.cursor) &&
        output.data[..] == old(output.data[..]) && input.Remaining() <= old(input.Remaining())
      ensures ok ==>
        info.len == len && SkipIdxOk(info) && |fieldNames| == len &&
        (forall i :: 0 <= i < len ==> (i in info.skipIdx <==> IsOuterRef(fieldNames[i]))) &&
        WellFormed(Harness.Signature(KeptFields(fieldNames))) &&
        info.bytelen == input.cursor - old(input.cursor) && info.bytelen <= Harness.MAX_U32 &&
        info.cacheIdx == |old(shapes.objectShapeCache)| &&
        Harness.BuildShape(Harness.Signature(KeptFields(fieldNames)), |KeptFields(fieldNames)|).Ok? &&
        shapes.objectShapeCache == old(shapes.objectShapeCache) +
          [Harness.BuildShape(Harness.Signature(KeptFields(fieldNames)), |KeptFields(fieldNames)|).value]
    {
      var start := input.cursor;
      info := ClassInfo(len, 0, [], 0);
      var skip, fields, count;
      ok, fieldNames, skip, fields, count := ReadFieldNames(len);
      if !ok {
        return;
      }
      if !WellFormed(fields) {
        return false, info, fieldNames;
      }
      var idx := shapes.SetCache(fields, count, false);
      if idx.Err? {
        return false, info, fieldNames;
      }
      info := ClassInfo(len, input.cursor - start, skip, idx.value);
      SkipPositionsOk(fieldNames);
    }

    /** The loop of `gen_cls_info`: the field names, the skip list and the signature of the kept names. */
    method ReadFieldNames(len: nat)
      returns (ok: bool, fieldNames: seq<seq<byte>>, skip: seq<nat>, fields: seq<byte>, count: nat)
      requires Valid() && input.cursor <= |input.data|
      modifies input`cursor, output`cursor, output.data, output`flag, latin1`cursor, latin1.data, ucs2`cursor, ucs2.data
      ensures Valid()
      ensures ok ==>
        output.flag == old(output.flag) && output.cursor == old(output.cursor) &&
        output.data[..] == old(output.data[..]) && old(input.cursor) <= input.cursor <= |input.data|
      ensures ok ==>
        |fieldNames| == len && skip == SkipPositions(fieldNames) &&
        fields == Harness.Signature(KeptFields(fieldNames)) && count == |KeptFields(fieldNames)|
    {
      fields, skip, count, fieldNames := [], [], 0, [];
      var i: nat := 0;
      while i < len
        invariant i <= len && |fieldNames| == i
        invariant Valid()
        invariant old(input.cursor) <= input.cursor <= |input.data|
        invariant output.flag == old(output.flag) && output.cursor == old(output.cursor)
        invariant output.data[..] == old(output.data[..])
        invariant skip == SkipPositions(fieldNames)
        invariant fields == Harness.Signature(KeptFields(fieldNames)) && count == |KeptFields(fieldNames)|
      {
        var name;
        ok, name := ReadFieldName();
        if !ok {
          return;
        }
        var next := fieldNames + [name];
        FieldSnoc(fieldNames, name);
        if IsOuterRef(name) {
          skip := skip + [i];
        } else {
          fields := fields + name + [Harness.SEPARATOR];
          count := count + 1;
        }
        fieldNames := next;
        i := i + 1;
      }
      ok := true;
    }

    /** One field name, read with output stopped; the name is its raw input bytes. */
    method ReadFieldName() returns (ok: bool, name: seq<byte>)
      requires Valid()
      modifies input`cursor, output`cursor, output.data, output`flag, latin1`cursor, latin1.data, ucs2`cursor, ucs2.data
      ensures Valid()
      ensures ok ==>
        output.flag == old(output.flag) && output.cursor == old(output.cursor) &&
        output.data[..] == old(output.data[..]) && old(input.cursor) < input.cursor <= |input.data|
    {
      var f := output.flag;
      output.Disable();
      var ks, ke;
      ok, ks, ke := ReadStringKey();
      output.SetFlag(f);
      if !ok {
        return false, [];
      }
      name := input.data[ks..ke];
    }

    /**
     * `read_object_def`, run with output stopped as its caller does: the
     * class name and the field count. A variant cached for that name and
     * count is reused and its field names skipped by their byte length;
     * otherwise the names are read and a new variant is registered. Either
     * way the variant becomes the next class definition.
     */
    method ReadObjectDef() returns (ok: bool, ghost clsName: seq<byte>, ghost len: nat, ghost hit: bool,
                                    ghost info: ClassInfo)
      requires Valid() && CachesOk()
      modifies this, input`cursor, output`cursor, output.data, output`flag, latin1`cursor, latin1.data,
               ucs2`cursor, ucs2.data, shapes
      ensures Valid() && CachesOk() && Grown()
      ensures names == old(names) && shapes.mapShapeCache == old(shapes.mapShapeCache)
      ensures ok ==>
        output.flag == old(output.flag) && output.cursor == old(output.cursor) &&
        output.data[..] == old(output.data[..]) && input.Remaining() < old(input.Remaining())
      ensures ok ==> definitions == old(definitions) + [info] && info.len == len && len < TWO32
      ensures ok && hit ==>
        state == old(state) && shapes.objectShapeCache == old(shapes.objectShapeCache) &&
        FindVariant(Variants(old(state), clsName), len).Some? &&
        info == Variants(old(state), clsName)[FindVariant(Variants(old(state), clsName), len).value]
      ensures ok && !hit ==>
        FindVariant(Variants(old(state), clsName), len).None? &&
        state == old(state).(classShapeCache := old(state).classShapeCache[clsName := Variants(old(state), clsName) + [info]]) &&
        info.cacheIdx == |old(shapes.objectShapeCache)| && |shapes.objectShapeCache| == |old(shapes.objectShapeCache)| + 1
    {
      clsName, len, hit, info := [], 0, false, ClassInfo(0, 0, [], 0);
      var name, n;
      ok, name, n := ReadClassHead();
      if !ok {
        return;
      }
      clsName, len := name, n;
      var variants := Variants(state, name);
      var found := FindVariant(variants, n);
      var def: ClassInfo;
      if found.Some? {
        hit := true;
        def := SkipCachedFields(name, n);
      } else {
        ok, def := RegisterClass(name, n);
        if !ok {
          return;
        }
      }
      CoherentAddDef(state, definitions, shapes.mapShapeCache, |shapes.objectShapeCache|, def);
      definitions := definitions + [def];
      info := def;
    }

    /** A cache hit: the cached variant, with the input moved past its field names. */
    method SkipCachedFields(name: seq<byte>, n: nat) returns (def: ClassInfo)
      requires CachesOk() && input.cursor <= |input.data| <= Harness.MAX_U32
      requires FindVariant(Variants(state, name), n).Some?
      modifies input`cursor
      ensures def == Variants(state, name)[FindVariant(Variants(state, name), n).value]
      ensures InfosOk([def], |shapes.objectShapeCache|)
      ensures input.Remaining() <= old(input.Remaining())
    {
      var i := FindVariant(Variants(state, name), n).value;
      def := Variants(state, name)[i];
      CoherentVariant(state, definitions, shapes.mapShapeCache, |shapes.objectShapeCache|, name, i);
      input.Skip(def.bytelen);
    }

    /** A cache miss: reads the field names and registers the new variant under the class name. */
    method RegisterClass(name: seq<byte>, n: nat) returns (ok: bool, def: ClassInfo)
      requires Valid() && CachesOk() && input.cursor <= |input.data| && FindVariant(Variants(state, name), n).None?
      modifies this`state, input`cursor, output`cursor, output.data, output`flag, latin1`cursor, latin1.data,
               ucs2`cursor, ucs2.data, shapes
      ensures Valid() && CachesOk() && state.maxMapShapeCacheLen == old(state.maxMapShapeCacheLen)
      ensures shapes.mapShapeCache == old(shapes.mapShapeCache) && old(shapes.objectShapeCache) <= shapes.objectShapeCache
      ensures ok ==>
        output.flag == old(output.flag) && output.cursor == old(output.cursor) &&
        output.data[..] == old(output.data[..]) && input.Remaining() <= old(input.Remaining())
      ensures ok ==>
        def.len == n && def.cacheIdx == |old(shapes.objectShapeCache)| &&
        |shapes.objectShapeCache| == |old(shapes.objectShapeCache)| + 1 &&
        InfosOk([def], |shapes.objectShapeCache|) &&
        state == old(state).(classShapeCache := old(state).classShapeCache[name := Variants(old(state), name) + [def]])
    {
      var variants := Variants(state, name);
      ghost var fieldNames;
      ok, def, fieldNames := GenClsInfo(n);
      if !ok {
        return;
      }
      AddVariantOk(variants, def);
      CoherentGrow(state, definitions, shapes.mapShapeCache, |old(shapes.objectShapeCache)|,
                   shapes.mapShapeCache, |shapes.objectShapeCache|);
      CoherentAddClass(state, definitions, shapes.mapShapeCache, |shapes.objectShapeCache|, name, def);
      state := state.(classShapeCache := state.classShapeCache[name := variants + [def]]);
    }

    /** The class name and field count of a definition, read with output stopped. */
    method ReadClassHead() returns (ok: bool, name: seq<byte>, n: nat)
      requires Valid()
      modifies input`cursor, output`cursor, output.data, output`flag, latin1`cursor, latin1.data, ucs2`cursor, ucs2.data
      ensures Valid()
      ensures ok ==>
        output.flag == old(output.flag) && output.cursor == old(output.cursor) &&
        output.data[..] == old(output.data[..]) && old(input.cursor) < input.cursor <= |input.data|
      ensures ok ==> n < TWO32
    {
      var f := output.flag;
      output.Disable();
      var size, st, en, sz, lenV;
      name, n := [], 0;
      ok, size := ReadInt();
      if ok {
        ok, st, en, sz := ReadUtf8Str(Some(size % 0x10000));
        if ok {
          name := input.data[st..en];
          ok, lenV := ReadInt();
          n := lenV % TWO32;
        }
      }
      output.SetFlag(f);
    }

    /**
     * The cases of `read` for values without children: one of the leaf
     * readers, chosen by the code at the cursor.
     */
    method ReadScalar(code: byte) returns (ok: bool)
      requires Valid() && input.cursor < |input.data| && input.data[input.cursor] == code
      modifies input`cursor, output`cursor, output.data, latin1`cursor, latin1.data, ucs2`cursor, ucs2.data
      ensures Valid()
      ensures ok ==> Done() && input.Remaining() < old(input.Remaining())
      ensures !IsScalarCode(code) ==> !ok
    {
      ghost var d0, c0 := output.data[..], output.cursor;
      var v: int;
      if code == 0x4e {
        ok := ReadNull();
        if ok {
          PushedExt(d0, c0, output.flag, output.data[..], output.cursor, ok, RecordBytes(NullRec));
        }
      } else if code == 0x54 || code == 0x46 {
        ok := ReadBool();
      } else if IsIntCode(code) {
        ok, v := ReadInt();
        if ok {
          PushedExt(d0, c0, output.flag, output.data[..], output.cursor, ok, RecordBytes(IntRec(v)));
        }
      } else if IsLongCode(code) {
        ok, v := ReadLong();
        if ok {
          PushedExt(d0, c0, output.flag, output.data[..], output.cursor, ok, RecordBytes(LongRec(v)));
        }
      } else if IsDoubleCode(code) {
        var bits;
        ok, bits := ReadDouble();
        if ok {
          PushedExt(d0, c0, output.flag, output.data[..], output.cursor, ok, RecordBytes(DoubleRec(bits)));
        }
      } else if code == 0x64 {
        var ms;
        ok, ms := ReadDate();
        if ok {
          PushedExt(d0, c0, output.flag, output.data[..], output.cursor, ok, RecordBytes(DateRec(ms)));
        }
      } else if IsBytesCode(code) {
        var count;
        ok, count := ReadBytes();
      } else if IsStringCode(code) {
        var count;
        ok, count := ReadString();
      } else if IsRefCode(code) {
        var id;
        ok, id := ReadRef();
        if ok {
          PushedExt(d0, c0, output.flag, output.data[..], output.cursor, ok, RecordBytes(RefRec(id)));
        }
      } else {
        ok := false;
      }
    }

    /**
     * `read`: one value, dispatched on the code at the cursor (which it does
     * not consume); an unknown code is an error.
     */
    method Read() returns (ok: bool)
      requires Valid() && CachesOk()
      modifies this, input`cursor, output`cursor, output.data, output`flag, latin1`cursor, latin1.data,
               ucs2`cursor, ucs2.data, shapes
      ensures Valid() && CachesOk() && Grown()
      ensures ok ==> Done() && names == old(names) && input.Remaining() < old(input.Remaining())
      ensures ok ==> old(input.cursor) < |input.data| && IsValueCode(input.data[old(input.cursor)])
      decreases input.Remaining(), 6
    {
      var code;
      ok, code := PeekU8();
      if !ok {
        return;
      }
      if IsObjectCode(code) {
        ghost var def, body, starts, snaps, marks;
        ok, def, body, starts, snaps, marks := ReadObject();
      } else if IsArrayCode(code) {
        ghost var len, at, body, end, starts, snaps, marks;
        ok, len, at, body, end, starts, snaps, marks := ReadArray();
      } else if code == 0x48 {
        ghost var keys, t;
        ok, keys, t := ReadHashmap();
      } else if code == 0x4d {
        ghost var keys, t;
        ok, keys, t := ReadRealMap();
      } else {
        ok := ReadScalar(code);
      }
    }

    /**
     * `read_object`: any number of class definitions ('O'), then an
     * instance ('o') of one of the definitions met so far, whose fields
     * begin at `body` in the input.
     */
    method ReadObject() returns (ok: bool, ghost def: ClassInfo, ghost body: nat, ghost starts: seq<nat>,
                                 ghost snaps: seq<seq<byte>>, ghost marks: seq<nat>)
      requires Valid() && CachesOk()
      modifies this, input`cursor, output`cursor, output.data, output`flag, latin1`cursor, latin1.data,
               ucs2`cursor, ucs2.data, shapes
      ensures Valid() && CachesOk() && Grown()
      ensures ok ==> Done() && names == old(names) && input.Remaining() < old(input.Remaining())
      ensures ok ==> old(input.cursor) < |input.data| && IsObjectCode(input.data[old(input.cursor)])
      ensures ok ==> def in definitions
      ensures ok && output.flag ==> HeadAt(output.data[..], old(output.cursor), output.cursor, RecordBytes(ObjectHead(def.cacheIdx)))
      ensures ok ==> old(input.cursor) < body && |starts| == def.len && ValuesRead(input.data, starts, body, input.cursor)
      ensures ok ==> ValuesLaid(snaps, marks, def.skipIdx, output.flag, def.len) &&
                     snaps[def.len] == output.data[..] && marks[def.len] == output.cursor &&
                     marks[0] == old(output.cursor) + (if output.flag then |RecordBytes(ObjectHead(def.cacheIdx))| else 0)
      decreases input.Remaining(), 5
    {
      def, body, starts, snaps, marks := ClassInfo(0, 0, [], 0), 0, [], [], [];
      var code;
      ok, code := input.ReadU8();
      if !ok {
        return;
      }
      if code == 0x4f {
        ghost var name, len, hit, info;
        ok, name, len, hit, info := ReadObjectDef();
        if !ok {
          return;
        }
        ok, def, body, starts, snaps, marks := ReadObject();
      } else if code == 0x6f {
        ok, def, starts, snaps, marks := ReadInstance(old(input.Remaining()));
        if ok {
          body := IntValue(input.data, old(input.cursor) + 1).value.1;
        }
      } else {
        ok := false;
      }
    }

    /**
     * The 'o' form: a class reference (read with output stopped) that must
     * name a definition, an object header carrying that class's shape index,
     * then the fields, those at a skip position read with output stopped.
     */
    method ReadInstance(ghost bound: nat)
      returns (ok: bool, ghost def: ClassInfo, ghost starts: seq<nat>, ghost snaps: seq<seq<byte>>, ghost marks: seq<nat>)
      requires Valid() && CachesOk() && input.Remaining() < bound
      modifies this, input`cursor, output`cursor, output.data, output`flag, latin1`cursor, latin1.data,
               ucs2`cursor, ucs2.data, shapes
      ensures Valid() && CachesOk() && Grown()
      ensures ok ==> Done() && names == old(names) && input.Remaining() <= old(input.Remaining())
      ensures ok ==> ClassRefAt(input.data, old(input.cursor), old(definitions), def) && def in old(definitions)
      ensures ok && output.flag ==> HeadAt(output.data[..], old(output.cursor), output.cursor, RecordBytes(ObjectHead(def.cacheIdx)))
      ensures ok ==> |starts| == def.len &&
                     ValuesRead(input.data, starts, IntValue(input.data, old(input.cursor)).value.1, input.cursor)
      ensures ok ==> ValuesLaid(snaps, marks, def.skipIdx, output.flag, def.len) &&
                     snaps[def.len] == output.data[..] && marks[def.len] == output.cursor &&
                     marks[0] == old(output.cursor) + (if output.flag then |RecordBytes(ObjectHead(def.cacheIdx))| else 0)
      decreases bound, 4
    {
      def, starts, snaps, marks := ClassInfo(0, 0, [], 0), [], [], [];
      var f := output.flag;
      output.Disable();
      var classRef;
      ok, classRef := ReadInt();
      output.SetFlag(f);
      if !ok || !(0 <= classRef < |definitions|) {
        return false, def, starts, snaps, marks;
      }
      var d := definitions[classRef];
      def := d;
      ghost var d0, c0 := output.data[..], output.cursor;
      ok := output.PushObjectHead(d.cacheIdx);
      if !ok {
        return;
      }
      ghost var d1, c1 := output.data[..], output.cursor;
      PushedFacts(d0, c0, f, d1, c1, true, RecordBytes(ObjectHead(d.cacheIdx)));
      ok, starts, snaps, marks := ReadValues(d.len, d.skipIdx, bound);
      if !ok {
        return;
      }
      HeadKeptAt(d0, c0, f, d1, c1, output.data[..], output.cursor, RecordBytes(ObjectHead(d.cacheIdx)));
    }

    /**
     * `count` values in a row; the one at each position in `skip` is read
     * with output stopped. `starts` are where the values begin in the
     * input, `snaps` and `marks` the output before and after each.
     */
    method ReadValues(count: nat, skip: seq<nat>, ghost bound: nat)
      returns (ok: bool, ghost starts: seq<nat>, ghost snaps: seq<seq<byte>>, ghost marks: seq<nat>)
      requires Valid() && CachesOk() && input.Remaining() < bound
      modifies this, input`cursor, output`cursor, output.data, output`flag, latin1`cursor, latin1.data,
               ucs2`cursor, ucs2.data, shapes
      ensures Valid() && CachesOk() && Grown()
      ensures ok ==> Done() && names == old(names) && input.Remaining() <= old(input.Remaining())
      ensures ok ==> |starts| == count && ValuesRead(input.data, starts, old(input.cursor), input.cursor)
      ensures ok ==> ValuesLaid(snaps, marks, skip, output.flag, count) &&
                     snaps[0] == old(output.data[..]) && marks[0] == old(output.cursor) &&
                     snaps[count] == output.data[..] && marks[count] == output.cursor
      decreases bound, 1
    {
      hide ValuesRead, ValuesLaid;
      ghost var d0, c0 := output.data[..], output.cursor;
      var f := output.flag;
      starts, snaps, marks := [], [d0], [c0];
      ValuesStart(input.data, old(input.cursor), skip, f, d0, c0);
      var i: nat := 0;
      while i < count
        invariant Valid() && CachesOk() && Grown() && names == old(names)
        invariant output.flag == f && Ext(d0, c0, f, output.data[..], output.cursor)
        invariant input.Remaining() <= old(input.Remaining())
        invariant i <= count && |starts| == i && ValuesRead(input.data, starts, old(input.cursor), input.cursor)
        invariant |snaps| == i + 1 && |marks| == i + 1
        invariant ValuesLaid(snaps, marks, skip, f, i) && snaps[0] == d0 && marks[0] == c0
        invariant snaps[i] == output.data[..] && marks[i] == output.cursor
      {
        ghost var d1, c1, p1 := output.data[..], output.cursor, input.cursor;
        ok := ReadField(i in skip, bound);
        if !ok {
          return;
        }
        ExtTrans(d0, c0, f, d1, c1, output.data[..], output.cursor);
        ValuesReadSnoc(input.data, starts, old(input.cursor), p1, input.cursor);
        ValuesLaidSnoc(snaps, marks, skip, f, i, output.data[..], output.cursor);
        starts, snaps, marks := starts + [p1], snaps + [output.data[..]], marks + [output.cursor];
        i := i + 1;
      }
      ok := true;
    }

    /** One value of a run: read with output stopped when `skipped`, which then leaves the output as it was. */
    method ReadField(skipped: bool, ghost bound: nat) returns (ok: bool)
      requires Valid() && CachesOk() && input.Remaining() < bound
      modifies this, input`cursor, output`cursor, output.data, output`flag, latin1`cursor, latin1.data,
               ucs2`cursor, ucs2.data, shapes
      ensures Valid() && CachesOk() && Grown()
      ensures ok ==> Done() && names == old(names) && input.Remaining() < old(input.Remaining())
      ensures ok ==> old(input.cursor) < |input.data| && IsValueCode(input.data[old(input.cursor)])
      ensures ok && skipped ==> output.data[..] == old(output.data[..]) && output.cursor == old(output.cursor)
      decreases bound, 0
    {
      var f := output.flag;
      if skipped {
        ghost var d0, c0 := output.data[..], output.cursor;
        output.Disable();
        ok := Read();
        ghost var stayed := ok ==> output.data[..] == d0 && output.cursor == c0;
        assert stayed;
        output.SetFlag(f);
        assert stayed;
      } else {
        ok := Read();
      }
    }

    /**
     * `read_array`: the length (read with output stopped), an array header,
     * then that many values, from `body` to `end` in the input. A typed
     * list ('V') has an optional type, then 'n' and a byte or 'l' and a
     * 32-bit length (any other code means 0), and one byte after its values
     * is skipped unchecked; the other form has a type reference and an int
     * length.
     */
    method ReadArray() returns (ok: bool, ghost len: nat, ghost at: nat, ghost body: nat, ghost end: nat,
                                ghost starts: seq<nat>, ghost snaps: seq<seq<byte>>, ghost marks: seq<nat>)
      requires Valid() && CachesOk()
      modifies this, input`cursor, output`cursor, output.data, output`flag, latin1`cursor, latin1.data,
               ucs2`cursor, ucs2.data, shapes
      ensures Valid() && CachesOk() && Grown()
      ensures ok ==> Done() && names == old(names) && input.Remaining() < old(input.Remaining())
      ensures ok ==> old(input.cursor) < |input.data| && len < TWO32
      ensures ok && input.data[old(input.cursor)] == 0x56 ==>
        TypedLength(input.data, old(input.cursor) + 1, at, len) && body == TypedLengthEnd(input.data, at) &&
        input.cursor == Min(end + 1, |input.data|)
      ensures ok && input.data[old(input.cursor)] != 0x56 ==>
        ArrayIntLength(input.data, old(input.cursor) + 1, len, body) && input.cursor == end
      ensures ok && output.flag ==> HeadAt(output.data[..], old(output.cursor), output.cursor, RecordBytes(ArrayHead(len)))
      ensures ok ==> |starts| == len && ValuesRead(input.data, starts, body, end)
      ensures ok ==> ValuesLaid(snaps, marks, [], output.flag, len) &&
                     snaps[len] == output.data[..] && marks[len] == output.cursor &&
                     marks[0] == old(output.cursor) + (if output.flag then |RecordBytes(ArrayHead(len))| else 0)
      decreases input.Remaining(), 5
    {
      hide ValuesRead, ValuesLaid, TypedLength, ArrayIntLength, HeadAt;
      len, at, body, end, starts, snaps, marks := 0, 0, 0, 0, [], [], [];
      var code;
      ok, code := input.ReadU8();
      if !ok {
        return;
      }
      var n;
      ok, n, at := ReadArrayLength(code);
      if !ok {
        return;
      }
      len := n;
      body := input.cursor;
      ghost var lengthRead := if code == 0x56 then TypedLength(input.data, old(input.cursor) + 1, at, len) && body == TypedLengthEnd(input.data, at)
                              else ArrayIntLength(input.data, old(input.cursor) + 1, len, body);
      assert lengthRead;
      ok, starts, snaps, marks := ArrayBody(n, old(input.Remaining()));
      if !ok {
        return;
      }
      end := input.cursor;
      if code == 0x56 {
        input.SetRpos(input.cursor + 1);
        assert input.cursor == Min(end + 1, |input.data|);
      }
      assert lengthRead;
    }

    /** The array header of `read_array` and the `n` values after it. */
    method ArrayBody(n: nat, ghost bound: nat)
      returns (ok: bool, ghost starts: seq<nat>, ghost snaps: seq<seq<byte>>, ghost marks: seq<nat>)
      requires Valid() && CachesOk() && input.Remaining() < bound && n < TWO32
      modifies this, input`cursor, output`cursor, output.data, output`flag, latin1`cursor, latin1.data,
               ucs2`cursor, ucs2.data, shapes
      ensures Valid() && CachesOk() && Grown()
      ensures ok ==> Done() && names == old(names) && input.Remaining() <= old(input.Remaining())
      ensures ok && output.flag ==> HeadAt(output.data[..], old(output.cursor), output.cursor, RecordBytes(ArrayHead(n)))
      ensures ok ==> |starts| == n && ValuesRead(input.data, starts, old(input.cursor), input.cursor)
      ensures ok ==> ValuesLaid(snaps, marks, [], output.flag, n) &&
                     snaps[n] == output.data[..] && marks[n] == output.cursor &&
                     marks[0] == old(output.cursor) + (if output.flag then |RecordBytes(ArrayHead(n))| else 0)
      decreases bound, 2
    {
      starts, snaps, marks := [], [], [];
      var f := output.flag;
      ghost var d0, c0 := output.data[..], output.cursor;
      ok := output.PushArrayHead(n);
      if !ok {
        return;
      }
      ghost var d1, c1 := output.data[..], output.cursor;
      PushedFacts(d0, c0, f, d1, c1, true, RecordBytes(ArrayHead(n)));
      ok, starts, snaps, marks := ReadValues(n, [], bound);
      if !ok {
        return;
      }
      HeadKeptAt(d0, c0, f, d1, c1, output.data[..], output.cursor, RecordBytes(ArrayHead(n)));
    }

    /**
     * The length part of `read_array`, read with output stopped; `at` is
     * where a typed list's length code sits, and the cursor ends where the
     * values begin.
     */
    method ReadArrayLength(code: byte) returns (ok: bool, n: nat, ghost at: nat)
      requires |input.data| <= Harness.MAX_U32
      modifies input`cursor, output`cursor, output.data, output`flag
      ensures ok ==>
        output.flag == old(output.flag) && output.cursor == old(output.cursor) &&
        output.data[..] == old(output.data[..]) && input.Remaining() <= old(input.Remaining())
      ensures ok ==> n < TWO32
      ensures ok && code == 0x56 ==> TypedLength(input.data, old(input.cursor), at, n) &&
                                     input.cursor == TypedLengthEnd(input.data, at)
      ensures ok && code != 0x56 ==> ArrayIntLength(input.data, old(input.cursor), n, input.cursor)
    {
      var f := output.flag;
      output.Disable();
      n, at := 0, 0;
      if code == 0x56 {
        var found;
        ok, found := ReadType();
        if ok {
          ok, n, at := ReadTypedLength();
        }
      } else {
        var typeRef, v;
        ok, typeRef := ReadInt();
        if ok {
          ok, v := ReadInt();
          n := v % TWO32;
        }
      }
      output.SetFlag(f);
    }

    /** The length of a typed list: 'n' and a byte, 'l' and a 32-bit length, or 0 after any other code. */
    method ReadTypedLength() returns (ok: bool, n: nat, ghost at: nat)
      modifies input`cursor
      ensures ok ==> at == old(input.cursor) < input.cursor && n < TWO32 && TypedLength(input.data, at, at, n) &&
                     input.cursor == TypedLengthEnd(input.data, at)
    {
      at := input.cursor;
      n := 0;
      var c;
      ok, c := input.ReadU8();
      if ok && c == 0x6e {
        var b;
        ok, b := input.ReadU8();
        n := b as nat;
      } else if ok && c == 0x6c {
        var v;
        ok, v := input.ReadSigned(4);
        if ok {
          FromBEBound(input.data[at + 1..at + 5]);
          UnsignedOfSigned(FromBE(input.data[at + 1..at + 5]), 4);
        }
        n := v % TWO32;
      }
    }

    /** `read_hashmap`: 'H', then the entries of a map. */
    method ReadHashmap() returns (ok: bool, ghost keys: seq<seq<byte>>, ghost t: nat)
      requires Valid() && CachesOk()
      modifies this, input`cursor, output`cursor, output.data, output`flag, latin1`cursor, latin1.data,
               ucs2`cursor, ucs2.data, shapes
      ensures Valid() && CachesOk() && Grown()
      ensures ok ==> Done() && names == old(names) && input.Remaining() < old(input.Remaining())
      ensures ok ==> old(input.cursor) < |input.data| && input.data[old(input.cursor)] == 0x48
      ensures ok && output.flag ==> MapWritten(output.data[..], output.cursor, state, old(output.cursor), t, keys)
      decreases input.Remaining(), 5
    {
      var tagByte;
      ok, tagByte := ExpectLabel([0x48]);
      keys, t := [], 0;
      if !ok {
        return;
      }
      ok, keys, t := ReadMap(old(input.Remaining()));
    }

    /** `read_real_map`: 'M' and an optional type (read with output stopped), then the entries of a map. */
    method ReadRealMap() returns (ok: bool, ghost keys: seq<seq<byte>>, ghost t: nat)
      requires Valid() && CachesOk()
      modifies this, input`cursor, output`cursor, output.data, output`flag, latin1`cursor, latin1.data,
               ucs2`cursor, ucs2.data, shapes
      ensures Valid() && CachesOk() && Grown()
      ensures ok ==> Done() && names == old(names) && input.Remaining() < old(input.Remaining())
      ensures ok ==> old(input.cursor) < |input.data| && input.data[old(input.cursor)] == 0x4d
      ensures ok && output.flag ==> MapWritten(output.data[..], output.cursor, state, old(output.cursor), t, keys)
      decreases input.Remaining(), 5
    {
      var tagByte;
      ok, tagByte := ExpectLabel([0x4d]);
      keys, t := [], 0;
      if !ok {
        return;
      }
      var f := output.flag;
      output.Disable();
      var found;
      ok, found := ReadType();
      output.SetFlag(f);
      if !ok {
        return;
      }
      ok, keys, t := ReadMap(old(input.Remaining()));
    }

    /**
     * `read_map`: a map header with a provisional offset, then key and
     * value pairs up to 'z'. Each key's text goes on the names stack; at the
     * end the offset is backpatched, the signature of the keys becomes the
     * map's shape trailer, the names are popped and the 'z' is consumed.
     */
    method ReadMap(ghost bound: nat) returns (ok: bool, ghost keys: seq<seq<byte>>, ghost t: nat)
      requires Valid() && CachesOk() && input.Remaining() < bound
      modifies this, input`cursor, output`cursor, output.data, output`flag, latin1`cursor, latin1.data,
               ucs2`cursor, ucs2.data, shapes
      ensures Valid() && CachesOk() && Grown()
      ensures ok ==> Done() && names == old(names) && input.Remaining() < old(input.Remaining())
      ensures ok && output.flag ==> MapWritten(output.data[..], output.cursor, state, old(output.cursor), t, keys)
      decreases bound, 4
    {
      keys, t := [], 0;
      var f := output.flag;
      var s := output.cursor;
      ghost var d0 := output.data[..];
      ok := output.PushMapHead(0);
      if !ok {
        return;
      }
      ghost var d1, c1 := output.data[..], output.cursor;
      var namesStart := |names|;
      var count;
      ok, count, keys := ReadEntries(bound);
      if !ok {
        return;
      }
      HeadKept(d0, s, f, d1, c1, output.data[..], output.cursor);
      DropPrefix(old(names), Harness.Signature(keys));
      var tt;
      ok, tt := FinishMap(s, namesStart, count, keys);
      t := tt;
    }

    /** The entries of a map, up to (not including) the closing 'z'. */
    method ReadEntries(ghost bound: nat) returns (ok: bool, count: nat, ghost keys: seq<seq<byte>>)
      requires Valid() && CachesOk() && input.Remaining() < bound
      modifies this, input`cursor, output`cursor, output.data, output`flag, latin1`cursor, latin1.data,
               ucs2`cursor, ucs2.data, shapes
      ensures Valid() && CachesOk() && Grown()
      ensures ok ==>
        Done() && names == old(names) + Harness.Signature(keys) && count == |keys| &&
        input.cursor < |input.data| && input.data[input.cursor] == 0x7a
      decreases bound, 3
    {
      ghost var d0, c0 := output.data[..], output.cursor;
      var f := output.flag;
      count, keys := 0, [];
      var code;
      ok, code := PeekU8();
      while ok && code != 0x7a
        invariant Valid() && CachesOk() && Grown()
        invariant output.flag == f && Ext(d0, c0, f, output.data[..], output.cursor)
        invariant input.Remaining() <= old(input.Remaining())
        invariant names == old(names) + Harness.Signature(keys) && count == |keys|
        invariant ok ==> input.cursor < |input.data| && code == input.data[input.cursor]
        decreases input.Remaining(), if ok then 1 else 0
      {
        ghost var d1, c1, n1 := output.data[..], output.cursor, names;
        var key;
        ok, key := ReadMapEntry(bound);
        if !ok {
          return;
        }
        ExtTrans(d0, c0, f, d1, c1, output.data[..], output.cursor);
        NamesSnoc(old(names), n1, names, keys, key);
        keys := keys + [key];
        count := count + 1;
        ok, code := PeekU8();
      }
    }

    /**
     * One entry of `read_map`: the key's text (the raw bytes of a string
     * key, read with output stopped; the fixed or decimal text of the
     * others), then `push_kv`.
     */
    method ReadMapEntry(ghost bound: nat) returns (ok: bool, key: seq<byte>)
      requires Valid() && CachesOk() && input.Remaining() < bound
      modifies this, input`cursor, output`cursor, output.data, output`flag, latin1`cursor, latin1.data,
               ucs2`cursor, ucs2.data, shapes
      ensures Valid() && CachesOk() && Grown()
      ensures ok ==>
        Done() && names == old(names) + key + [Harness.SEPARATOR] && input.Remaining() < old(input.Remaining())
      decreases bound, 2
    {
      var k;
      ok, k := ReadMapKey();
      key := [];
      if !ok {
        return;
      }
      if k.KeyString? {
        var f := output.flag;
        output.Disable();
        var ks, ke;
        ok, ks, ke := ReadStringKey();
        output.SetFlag(f);
        if !ok {
          return;
        }
        key := input.data[ks..ke];
      } else {
        key := KeyText(k, []);
      }
      ok := PushKv(key, k.KeySpec?, bound);
    }

    /** `push_kv`: the key's text and a separator go on the names stack; then the key object, if any, and the value. */
    method PushKv(key: seq<byte>, objectKey: bool, ghost bound: nat) returns (ok: bool)
      requires Valid() && CachesOk() && input.Remaining() < bound
      modifies this, input`cursor, output`cursor, output.data, output`flag, latin1`cursor, latin1.data,
               ucs2`cursor, ucs2.data, shapes
      ensures Valid() && CachesOk() && Grown()
      ensures ok ==>
        Done() && names == old(names) + key + [Harness.SEPARATOR] && input.Remaining() < old(input.Remaining())
      decreases bound, 1
    {
      names := names + key + [Harness.SEPARATOR];
      var f := output.flag;
      ghost var d0, c0 := output.data[..], output.cursor;
      if objectKey {
        ok := Read();
        if !ok {
          return;
        }
      }
      ghost var d1, c1 := output.data[..], output.cursor;
      ok := Read();
      if ok && objectKey {
        ExtTrans(d0, c0, f, d1, c1, output.data[..], output.cursor);
      }
    }

    /**
     * The end of `read_map`: the header at `s` gets the offset of the
     * trailer, the trailer is written, the names of this map are popped and
     * the closing 'z' consumed.
     */
    method FinishMap(s: nat, namesStart: nat, count: nat, ghost keys: seq<seq<byte>>) returns (ok: bool, t: nat)
      requires Valid() && CachesOk() && namesStart <= |names| && names[namesStart..] == Harness.Signature(keys) && count == |keys|
      requires output.flag ==> s + 5 <= output.cursor && s < output.data.Length && output.data[s] == Code(Map)
      requires input.cursor < |input.data| && input.data[input.cursor] == 0x7a
      modifies this`state, this`names, input`cursor, output`cursor, output.data, shapes
      ensures Valid() && CachesOk() && Grown() && definitions == old(definitions)
      ensures ok ==>
        old(output.cursor) <= output.cursor && SamePrefix(old(output.data[..]), output.data[..], s) &&
        (!output.flag ==> output.cursor == old(output.cursor) && output.data[..] == old(output.data[..])) &&
        names == old(names)[..namesStart] && input.cursor == old(input.cursor) + 1
      ensures ok && output.flag ==> t == old(output.cursor) && MapWritten(output.data[..], output.cursor, state, s, t, keys)
    {
      t := output.cursor;
      ok := PatchMapHead(s);
      if !ok {
        return;
      }
      ghost var d1 := output.data[..];
      ok := WriteShape(names[namesStart..], count);
      if !ok {
        return;
      }
      if output.flag {
        SamePrefixSlice(d1, output.data[..], t, s, s + 5);
        SamePrefixTrans(old(output.data[..]), d1, output.data[..], s, t);
        assert MapWritten(output.data[..], output.cursor, state, s, t, keys);
      }
      names := names[..namesStart];
      var z;
      ok, z := input.ReadU8();
    }

    /** The backpatch of a map header: the offset from `s` to the cursor. */
    method PatchMapHead(s: nat) returns (ok: bool)
      requires output.flag ==> s + 5 <= output.cursor && s < output.data.Length && output.data[s] == Code(Map)
      modifies output.data
      ensures !output.flag ==> ok && output.data[..] == old(output.data[..])
      ensures ok && output.flag ==>
        s + 5 <= output.data.Length && SamePrefix(old(output.data[..]), output.data[..], s) &&
        output.data[s..s + 5] == RecordBytes(MapHead(output.cursor - s))
    {
      ghost var d0 := output.data[..];
      ok := output.SetU32(s + 1, output.cursor - s);
      if ok && output.flag {
        PatchFacts(d0, output.data[..], s, output.cursor - s);
      }
    }

    /**
     * `push_map_type` on the signature of this map, and the new state: a
     * signature registered with the reader's cache is remembered under the
     * new index.
     */
    method WriteShape(sig: seq<byte>, count: nat) returns (ok: bool)
      requires Valid() && CachesOk()
      modifies this`state, output`cursor, output.data, shapes
      ensures Valid() && CachesOk() && Grown() && definitions == old(definitions)
      ensures ok ==> Ext(old(output.data[..]), old(output.cursor), output.flag, output.data[..], output.cursor)
      ensures ok && output.flag ==> TrailerWritten(output.data[..], old(output.cursor), output.cursor, state, sig, count)
    {
      var st';
      ghost var d0, c0, m0 := output.data[..], output.cursor, shapes.mapShapeCache;
      ok, st' := output.PushMapType(sig, count, state, shapes);
      ShapeWritten(d0, c0, output.flag, output.data[..], output.cursor, ok, state, st', m0, shapes.mapShapeCache, sig, count);
      ShapeCoherent(output.flag, ok, state, st', m0, shapes.mapShapeCache, sig, count, definitions, |shapes.objectShapeCache|);
      if ok {
        state := st';
      }
    }
  }

  /**
   * `from_byte_buffer`: one transcoding call. The input cursor starts at
   * `offset`, the scratch name buffer and definitions list start empty
   * (a fresh parser), one value is read, and the lengths of the two string
   * pools are returned together with the updated cache state. A failure
   * stands for the panic the binding catches; the caches keep whatever was
   * registered before it.
   */
  method FromByteBuffer(bytes: seq<byte>, output: ByteOutput, state: State, offset: nat, shapes: Harness.ShapeCache,
                        latin1: ByteOutput, ucs2: Ucs2Output)
    returns (ok: bool, state': State, latin1Len: nat, ucs2Len: nat)
    requires output != latin1 && output.data != latin1.data && ucs2.Valid() && |bytes| <= Harness.MAX_U32
    requires Coherent(state, [], shapes.mapShapeCache, |shapes.objectShapeCache|)
    modifies output, output.data, latin1, latin1.data, ucs2, ucs2.data, shapes
    ensures ucs2.Valid() && StateOk(state')
    ensures Coherent(state', [], shapes.mapShapeCache, |shapes.objectShapeCache|)
    ensures state'.maxMapShapeCacheLen == state.maxMapShapeCacheLen
    ensures old(shapes.mapShapeCache) <= shapes.mapShapeCache && old(shapes.objectShapeCache) <= shapes.objectShapeCache
    ensures ok ==> offset < |bytes| && IsValueCode(bytes[offset]) && output.flag == old(output.flag)
    ensures ok ==> latin1Len == latin1.cursor && ucs2Len == ucs2.cursor
  {
    var input := new Input(bytes, offset);
    var parser := new Parser(input, output, latin1, ucs2, shapes, state);
    ok := parser.Read();
    if ok {
      // the scratch name buffer is balanced: the source asserts it is empty here
      assert parser.names == [];
    }
    state' := parser.state;
    CoherentNoDefs(state', parser.definitions, shapes.mapShapeCache, |shapes.objectShapeCache|);
    CoherentStateOk(state', [], shapes.mapShapeCache, |shapes.objectShapeCache|);
    latin1Len, ucs2Len := latin1.cursor, ucs2.cursor;
  }

  /** Coherence does not depend on the definitions met in one call. */
  lemma CoherentNoDefs(st: State, defs: seq<ClassInfo>, m: seq<Harness.Shape>, n: nat)
    requires Coherent(st, defs, m, n)
    ensures Coherent(st, [], m, n)
  {
  }
}
