/**
 * Byte-level helpers shared by every codec: bytes, fixed-width big- and
 * little-endian integers and two's-complement reinterpretation.
 */
module Bytes {

  type byte = x: int | 0 <= x < 256

  const TWO32: nat := 0x1_0000_0000
  const TWO64: nat := 0x1_0000_0000_0000_0000

  function Pow256(n: nat): (r: nat)
    ensures r >= 1
  {
    if n == 0 then 1 else 256 * Pow256(n - 1)
  }

  /** `v` reduced modulo 256^n and written as `n` little-endian bytes. */
  function LE(v: int, n: nat): (r: seq<byte>)
    ensures |r| == n
    decreases n
  {
    if n == 0 then [] else [v % 256] + LE(v / 256, n - 1)
  }

  /** `v` reduced modulo 256^n and written as `n` big-endian bytes. */
  function BE(v: int, n: nat): (r: seq<byte>)
    ensures |r| == n
    decreases n
  {
    if n == 0 then [] else BE(v / 256, n - 1) + [v % 256]
  }

  function FromLE(s: seq<byte>): nat
  {
    if s == [] then 0 else s[0] + 256 * FromLE(s[1..])
  }

  function FromBE(s: seq<byte>): nat
  {
    if s == [] then 0 else FromBE(s[..|s| - 1]) * 256 + s[|s| - 1]
  }

  /** Two's-complement reading of an unsigned `n`-byte value. */
  function Signed(u: int, n: nat): int
  {
    if u >= Pow256(n) / 2 then u - Pow256(n) else u
  }

  predicate InSigned(v: int, n: nat)
  {
    -(Pow256(n) / 2) <= v < Pow256(n) / 2
  }

  lemma DivModUnique(v: int, m: int, q: int, r: int)
    requires m > 0 && 0 <= r < m && v == m * q + r
    ensures v / m == q && v % m == r
  {
    var q', r' := v / m, v % m;
    assert m * (q - q') == r' - r;
    if q > q' {
      MulAtLeast(m, q - q');
    } else if q < q' {
      MulAtLeast(m, q' - q);
    }
  }

  /** Cutting a two's-complement reading back to `n` bytes gives the unsigned value again. */
  lemma UnsignedOfSigned(u: int, n: nat)
    requires 0 <= u < Pow256(n)
    ensures Signed(u, n) % Pow256(n) == u
  {
    if u >= Pow256(n) / 2 {
      DivModUnique(u - Pow256(n), Pow256(n), -1, u);
    } else {
      DivModUnique(u, Pow256(n), 0, u);
    }
  }

  lemma MulAtLeast(m: int, k: int)
    requires m > 0 && k >= 1
    ensures m * k >= m
  {
  }

  lemma {:induction false} ModSplit(v: int, p: nat)
    requires p >= 1
    ensures v % (256 * p) == v % 256 + 256 * ((v / 256) % p)
  {
    var q, r := v / 256, v % 256;
    var a, b := q / p, q % p;
    assert v == 256 * q + r;
    assert q == p * a + b;
    assert v == (256 * p) * a + (256 * b + r);
    DivModUnique(v, 256 * p, a, 256 * b + r);
  }

  /** Reading back `n` little-endian bytes gives the value modulo 256^n. */
  lemma {:induction false} FromLEOfLE(v: int, n: nat)
    ensures FromLE(LE(v, n)) == v % Pow256(n)
    decreases n
  {
    if n > 0 {
      FromLEOfLE(v / 256, n - 1);
      assert LE(v, n)[1..] == LE(v / 256, n - 1);
      ModSplit(v, Pow256(n - 1));
    }
  }

  /** Reading back `n` big-endian bytes gives the value modulo 256^n. */
  lemma {:induction false} FromBEOfBE(v: int, n: nat)
    ensures FromBE(BE(v, n)) == v % Pow256(n)
    decreases n
  {
    if n > 0 {
      FromBEOfBE(v / 256, n - 1);
      assert BE(v, n)[..n - 1] == BE(v / 256, n - 1);
      ModSplit(v, Pow256(n - 1));
    }
  }

  /** Two's complement round trip: writing a signed value and reading it back as signed. */
  lemma SignedOfMod(v: int, n: nat)
    requires InSigned(v, n)
    ensures Signed(v % Pow256(n), n) == v
  {
    var p := Pow256(n);
    if v >= 0 {
      DivModUnique(v, p, 0, v);
    } else {
      DivModUnique(v, p, -1, v + p);
    }
  }

  /** A signed `n`-byte value survives the big-endian encoding. */
  lemma SignedBE(v: int, n: nat)
    requires InSigned(v, n)
    ensures Signed(FromBE(BE(v, n)), n) == v
  {
    FromBEOfBE(v, n);
    SignedOfMod(v, n);
  }

  /** An unsigned value below 256^n survives the big-endian encoding. */
  lemma UnsignedBE(v: int, n: nat)
    requires 0 <= v < Pow256(n)
    ensures FromBE(BE(v, n)) == v
  {
    FromBEOfBE(v, n);
    DivModUnique(v, Pow256(n), 0, v);
  }

  /** An unsigned value below 256^n survives the little-endian encoding. */
  lemma UnsignedLE(v: int, n: nat)
    requires 0 <= v < Pow256(n)
    ensures FromLE(LE(v, n)) == v
  {
    FromLEOfLE(v, n);
    DivModUnique(v, Pow256(n), 0, v);
  }

  /** The two's-complement reading of an `n`-byte value lies in the signed range. */
  lemma SignedRange(u: int, n: nat)
    requires n >= 1 && 0 <= u < Pow256(n)
    ensures InSigned(Signed(u, n), n)
  {
    assert Pow256(n) == 256 * Pow256(n - 1);
  }

  lemma Pow256Values()
    ensures Pow256(1) == 256 && Pow256(2) == 0x1_0000 && Pow256(4) == TWO32 && Pow256(8) == TWO64
  {
  }

  lemma {:induction false} FromBEBound(s: seq<byte>)
    ensures FromBE(s) < Pow256(|s|)
  {
    if s != [] {
      FromBEBound(s[..|s| - 1]);
    }
  }

  lemma {:induction false} FromLEBound(s: seq<byte>)
    ensures FromLE(s) < Pow256(|s|)
  {
    if s != [] {
      FromLEBound(s[1..]);
    }
  }

  /** A window of `data` that holds `r`, made of `e` and then `t`, holds `e` and then `t`. */
  lemma SliceSplit(data: seq<byte>, pos: nat, r: seq<byte>, e: seq<byte>, t: seq<byte>)
    requires r == e + t && pos + |r| <= |data| && data[pos..pos + |r|] == r
    ensures |r| == |e| + |t|
    ensures data[pos..pos + |e|] == e
    ensures data[pos + |e|..pos + |r|] == t
  {
    var window := data[pos..pos + |r|];
    assert data[pos..pos + |e|] == window[..|e|];
    assert data[pos + |e|..pos + |r|] == window[|e|..];
  }
}
