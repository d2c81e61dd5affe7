/**
 * The read cursor over the Hessian input (`Input`): big-endian fixed-width
 * reads, a clamping seek, and the string classifier that sends every string
 * to exactly one of three outputs (the single-byte pool, the UTF-16 pool,
 * or a raw input range).
 */
module InputBuf {
  import opened Bytes
  import opened Wrappers
  import opened Types
  import opened Utf8
  import opened Output

  function Min(a: int, b: int): int { if a <= b then a else b }

  /** The SIMD block widths, widest first. */
  const BLOCKS: seq<nat> := [64, 32, 16, 8]

  class Input {
    const data: seq<byte>
    var cursor: nat

    /** `from_bytes`, followed by the caller's assignment of the start offset. */
    constructor (bytes: seq<byte>, offset: nat)
      ensures data == bytes && cursor == offset
    {
      data := bytes;
      cursor := offset;
    }

    /** Bytes left before the end; 0 once the cursor is at or past it. */
    function Remaining(): nat
      reads this
    {
      if cursor <= |data| then |data| - cursor else 0
    }

    /** Moves the cursor, never past the end of the input. */
    method SetRpos(rpos: int)
      modifies this`cursor
      ensures cursor == Min(if rpos < 0 then 0 else rpos, |data|)
      ensures cursor <= |data|
    {
      cursor := if rpos < 0 then 0 else if rpos <= |data| then rpos else |data|;
    }

    /**
     * Advances by `len` through the clamping seek. The 32-bit argument is
     * widened to 64 bits and added with wrap-around, so a negative `len`
     * moves the cursor back.
     */
    method Skip(len: int)
      requires -0x8000_0000 <= len < 0x8000_0000
      modifies this`cursor
      ensures cursor == Min((old(cursor) + len % TWO64) % TWO64, |data|)
      ensures 0 <= len && old(cursor) + len < TWO64 ==> cursor == Min(old(cursor) + len, |data|)
    {
      var target := (cursor + len % TWO64) % TWO64;
      if 0 <= len && cursor + len < TWO64 {
        DivModUnique(len, TWO64, 0, len);
        DivModUnique(cursor + len, TWO64, 0, cursor + len);
      }
      SetRpos(target);
    }

    /**
     * Reads one byte and advances. The source reads it unchecked; a read
     * past the end is undefined there and fails here.
     */
    method ReadU8() returns (ok: bool, v: byte)
      modifies this`cursor
      ensures ok == (old(cursor) < |data|)
      ensures ok ==> v == data[old(cursor)] && cursor == old(cursor) + 1
      ensures !ok ==> cursor == old(cursor)
    {
      if cursor >= |data| {
        return false, 0;
      }
      v := data[cursor];
      cursor := cursor + 1;
      return true, v;
    }

    /** A big-endian unsigned read of `n` bytes; fails (a slice panic) when they are not all there. */
    method ReadBE(n: nat) returns (ok: bool, v: nat)
      modifies this`cursor
      ensures ok == (old(cursor) + n <= |data|)
      ensures ok ==> v == FromBE(data[old(cursor)..old(cursor) + n]) && cursor == old(cursor) + n
      ensures ok ==> v < Pow256(n)
      ensures !ok ==> cursor == old(cursor)
    {
      if cursor + n > |data| {
        return false, 0;
      }
      v := FromBE(data[cursor..cursor + n]);
      FromBEBound(data[cursor..cursor + n]);
      cursor := cursor + n;
      return true, v;
    }

    method ReadU16() returns (ok: bool, v: nat)
      modifies this`cursor
      ensures ok == (old(cursor) + 2 <= |data|)
      ensures ok ==> v == FromBE(data[old(cursor)..old(cursor) + 2]) && v < 0x1_0000 && cursor == old(cursor) + 2
      ensures !ok ==> cursor == old(cursor)
    {
      ok, v := ReadBE(2);
      Pow256Values();
    }

    method ReadU32() returns (ok: bool, v: nat)
      modifies this`cursor
      ensures ok == (old(cursor) + 4 <= |data|)
      ensures ok ==> v == FromBE(data[old(cursor)..old(cursor) + 4]) && v < TWO32 && cursor == old(cursor) + 4
      ensures !ok ==> cursor == old(cursor)
    {
      ok, v := ReadBE(4);
      Pow256Values();
    }

    method ReadU64() returns (ok: bool, v: nat)
      modifies this`cursor
      ensures ok == (old(cursor) + 8 <= |data|)
      ensures ok ==> v == FromBE(data[old(cursor)..old(cursor) + 8]) && v < TWO64 && cursor == old(cursor) + 8
      ensures !ok ==> cursor == old(cursor)
    {
      ok, v := ReadBE(8);
      Pow256Values();
    }

    /** The `as i8` / `as i16` / `as i32` / `as i64` reinterpretations of the unsigned reads. */
    method ReadSigned(n: nat) returns (ok: bool, v: int)
      requires n >= 1
      modifies this`cursor
      ensures ok == (old(cursor) + n <= |data|)
      ensures ok ==> v == Signed(FromBE(data[old(cursor)..old(cursor) + n]), n) && InSigned(v, n) &&
                     cursor == old(cursor) + n
      ensures !ok ==> cursor == old(cursor)
    {
      var u;
      ok, u := ReadBE(n);
      v := Signed(u, n);
      if ok {
        SignedRange(u, n);
      }
    }

    /**
     * The block scan that guesses the single-byte prefix of a string of
     * `len` characters at `start`: blocks of 64, then 32, 16 and 8 bytes are
     * taken while each lies within the string and holds only bytes below
     * 0x80; the first block that does not stops the whole scan. A block
     * that runs past the input is a slice panic.
     */
    method Latin1Prefix(start: nat, len: nat) returns (ok: bool, used: nat)
      ensures start + len <= |data| ==> ok
      ensures ok ==> used <= len && used % 8 == 0
      ensures ok ==> AllAscii(data, start, start + used)
      ensures ok && AllAscii(data, start, start + len) ==> used == len - len % 8
    {
      used := 0;
      var b := 0;
      while b < |BLOCKS|
        invariant b <= |BLOCKS| && BlockScan(data, start, len, b, used)
      {
        var w := BLOCKS[b];
        while len - used >= w
          invariant BlockScan(data, start, len, b, used)
        {
          if start + used + w > |data| {
            return false, used;
          }
          if !AllAscii(data, start + used, start + used + w) {
            ghost var i :| start + used <= i < start + used + w && data[i] >= 0x80;
            return true, used;
          }
          BlockTaken(data, start, len, b, used, used + w);
          used := used + w;
        }
        b := b + 1;
      }
      BlockScanDone(data, start, len, used);
      return true, used;
    }

    /**
     * The classification pass of `read_utf8`: the block scan, then one
     * character at a time for the rest, reading only lead bytes, plus the
     * two continuation bytes of a three-byte sequence while no surrogate
     * has been seen. A lead byte of no known form aborts, as does a read
     * past the input (unchecked, hence undefined, in the source).
     */
    method ScanChars(start: nat, size: nat) returns (ok: bool, used: nat, hasSurrogate: bool)
      requires start + size <= |data|
      ensures ok == Scan(data, start, size, false).Ok?
      ensures ok ==> used == Scan(data, start, size, false).value.0
      ensures ok ==> hasSurrogate == Scan(data, start, size, false).value.1
    {
      var simdOk: bool;
      simdOk, used := Latin1Prefix(start, size);
      ScanAsciiPrefix(data, start, used, size, false);
      var remain: nat := size - used;
      hasSurrogate := false;
      while remain > 0
        invariant ScanLoop(data, start, size, remain, hasSurrogate, used)
      {
        var at: nat := start + used;
        if at >= |data| || LeadWidth(data[at]) == 0 || (LeadWidth(data[at]) == 3 && !hasSurrogate && at + 2 >= |data|) {
          ScanStopped(data, start, size, remain, hasSurrogate, used);
          return false, used, hasSurrogate;
        }
        var w := LeadWidth(data[at]);
        var sur := hasSurrogate || (w == 3 && IsSurrogate(Unit3(data[at], data[at + 1], data[at + 2])));
        ghost var (sur0, used0, remain0) := (hasSurrogate, used, remain);
        hasSurrogate := sur;
        used := used + w;
        remain := remain - 1;
        ScanAdvanced(data, start, size, remain0, sur0, used0, remain, hasSurrogate, used);
      }
      ScanEnded(data, start, size, hasSurrogate, used);
      return true, used, hasSurrogate;
    }

    /**
     * Reads a string of `size` characters at the cursor and emits exactly
     * one string record (tag 17, 16 or 4) through `output`; see `Utf8Result`.
     */
    method ReadUtf8(size: nat, output: ByteOutput, latin1: ByteOutput, ucs2: Ucs2Output) returns (ok: bool)
      requires output != latin1 && output.data != latin1.data
      requires ucs2.Valid()
      modifies this`cursor, output`cursor, output.data, latin1`cursor, latin1.data, ucs2`cursor, ucs2.data
      ensures ucs2.Valid()
      ensures Utf8Result(data, old(cursor), size, cursor, ok,
                         output.flag, old(output.data[..]), old(output.cursor), output.data[..], output.cursor,
                         old(latin1.data[..]), old(latin1.cursor), latin1.data[..], latin1.cursor,
                         old(ucs2.data[..]), old(ucs2.cursor), ucs2.data[..], ucs2.cursor)
    {
      var start: nat := cursor;
      if start + size > |data| {
        return false;
      }
      var scanned, used, hasSurrogate := ScanChars(start, size);
      if !scanned {
        return false;
      }
      if size == used {
        SetRpos(start + used);
        ok := EmitLatin1(start, size, output, latin1);
      } else if hasSurrogate {
        SetRpos(start + used);
        ok := output.PushString(Code(Utf8SurrogateString), start, cursor);
      } else {
        ok := ReadUcs2(size, output, ucs2);
      }
    }

    /** The single-byte branch of `read_utf8`: copies the bytes to the pool and names the pool range. */
    method EmitLatin1(start: nat, size: nat, output: ByteOutput, latin1: ByteOutput) returns (ok: bool)
      requires start + size <= |data|
      requires output != latin1 && output.data != latin1.data
      modifies output`cursor, output.data, latin1`cursor, latin1.data
      ensures Latin1Out(data, start, size, ok,
                        output.flag, old(output.data[..]), old(output.cursor), output.data[..], output.cursor,
                        old(latin1.data[..]), old(latin1.cursor), latin1.data[..], latin1.cursor)
    {
      var lc := latin1.cursor;
      ok := latin1.Write(data[start..start + size]);
      if !ok {
        return;
      }
      ok := output.PushString(Code(Latin1String), lc, latin1.cursor);
    }

    /**
     * Decodes `size` characters at the cursor into the UTF-16 pool, every
     * byte read checked, then emits a tag-4 record for the pool range.
     */
    method ReadUcs2(size: nat, output: ByteOutput, ucs2: Ucs2Output) returns (ok: bool)
      requires ucs2.Valid()
      modifies this`cursor, output`cursor, output.data, ucs2`cursor, ucs2.data
      ensures ucs2.Valid()
      ensures Ucs2Result(data, old(cursor), size, cursor, ok,
                         output.flag, old(output.data[..]), old(output.cursor), output.data[..], output.cursor,
                         old(ucs2.data[..]), old(ucs2.cursor), ucs2.data[..], ucs2.cursor)
    {
      var c0: nat := ucs2.cursor;
      var decoded, cur := DecodeToPool(cursor, size, ucs2);
      if !decoded {
        return false;
      }
      SetRpos(cur);
      ok := output.PushString(Code(Ucs2String), c0, c0 + size);
    }

    /**
     * The loop of `read_ucs2`: decodes `size` characters from `start`,
     * storing each code unit in the pool as it goes, and returns the
     * position after the last one.
     */
    method DecodeToPool(start: nat, size: nat, ucs2: Ucs2Output) returns (ok: bool, cur: nat)
      requires ucs2.Valid()
      modifies ucs2`cursor, ucs2.data
      ensures ucs2.Valid()
      ensures PoolDecoded(data, start, size, old(ucs2.data[..]), old(ucs2.cursor), ucs2.data[..], ucs2.cursor, ok, cur)
    {
      var c0: nat := ucs2.cursor;
      ghost var p0 := ucs2.data[..];
      cur := start;
      var i := 0;
      ghost var written: seq<unit16> := [];
      ghost var d := DecodeUnits(data, start, size);
      assert d.Ok? ==> [] + d.value.0 == d.value.0;
      while i < size
        invariant ucs2.Valid()
        invariant PoolLoop(data, start, size, p0, c0, i, cur, written, ucs2.data[..], ucs2.cursor)
      {
        if cur >= |data| || LeadWidth(data[cur]) == 0 || cur + LeadWidth(data[cur]) > |data| {
          PoolBadInput(data, start, size, p0, c0, i, cur, written, ucs2.data[..], ucs2.cursor);
          return false, cur;
        }
        var w := LeadWidth(data[cur]);
        var u := UnitOf(data, cur, w);
        ghost var (p1, c1, cur1, written1) := (ucs2.data[..], ucs2.cursor, cur, written);
        var room := ucs2.WriteU16(u);
        if !room {
          PoolFull(data, start, size, p0, c0, i, cur, written, ucs2.data[..], ucs2.cursor);
          return false, cur;
        }
        written := written + [u];
        cur := cur + w;
        i := i + 1;
        PoolLoopStep(data, start, size, p0, c0, i - 1, cur1, written1, p1, c1, i, cur, written, ucs2.data[..], ucs2.cursor);
      }
      PoolDone(data, start, size, p0, c0, i, cur, written, ucs2.data[..], ucs2.cursor);
      return true, cur;
    }
  }

  /**
   * Loop state of the character scan of `size` characters from `start`:
   * `used` bytes are behind it, `remain` characters are to go, and the
   * whole scan succeeds exactly when the rest does, adding the rest's bytes
   * to `used`.
   */
  ghost predicate ScanLoop(data: seq<byte>, start: nat, size: nat, remain: nat, sur: bool, used: nat)
  {
    var sc := Scan(data, start, size, false);
    var r := Scan(data, start + used, remain, sur);
    remain <= size && (sc.Ok? <==> r.Ok?) && (sc.Ok? ==> sc.value == (used + r.value.0, r.value.1))
  }

  /** Scanning one more character keeps the loop state. */
  lemma ScanAdvanced(data: seq<byte>, start: nat, size: nat, remain: nat, sur: bool, used: nat,
                     remain': nat, sur': bool, used': nat)
    requires ScanLoop(data, start, size, remain, sur, used)
    requires 0 < remain && start + used < |data| && LeadWidth(data[start + used]) != 0
    requires LeadWidth(data[start + used]) == 3 && !sur ==> start + used + 2 < |data|
    requires remain' == remain - 1 && used' == used + LeadWidth(data[start + used])
    requires sur' == (sur || (LeadWidth(data[start + used]) == 3 &&
                              IsSurrogate(Unit3(data[start + used], data[start + used + 1], data[start + used + 2]))))
    ensures ScanLoop(data, start, size, remain', sur', used')
  {
    ScanStep(data, start + used, remain, sur);
  }

  /** The scan fails at a missing byte, a bad lead byte or a three-byte read past the input. */
  lemma ScanStopped(data: seq<byte>, start: nat, size: nat, remain: nat, sur: bool, used: nat)
    requires ScanLoop(data, start, size, remain, sur, used) && 0 < remain
    requires var pos := start + used;
      pos >= |data| || LeadWidth(data[pos]) == 0 || (LeadWidth(data[pos]) == 3 && !sur && pos + 2 >= |data|)
    ensures Scan(data, start, size, false).Err?
  {
  }

  /** With no characters left the whole scan is what the loop has. */
  lemma ScanEnded(data: seq<byte>, start: nat, size: nat, sur: bool, used: nat)
    requires ScanLoop(data, start, size, 0, sur, used)
    ensures Scan(data, start, size, false) == Ok((used, sur))
  {
  }

  /**
   * Loop state of the block scan at block width index `b`: the `used`
   * bytes so far are ASCII, a multiple of 8 and within `len`, and fewer
   * than the previous width are left.
   */
  ghost predicate BlockScan(data: seq<byte>, start: nat, len: nat, b: nat, used: nat)
  {
    used <= len && used % 8 == 0 && AllAscii(data, start, start + used) &&
    (0 < b <= |BLOCKS| ==> len - used < BLOCKS[b - 1])
  }

  /** Taking one more ASCII block of the current width keeps the loop state. */
  lemma BlockTaken(data: seq<byte>, start: nat, len: nat, b: nat, used: nat, used': nat)
    requires BlockScan(data, start, len, b, used) && b < |BLOCKS|
    requires used' == used + BLOCKS[b] && used' <= len
    requires AllAscii(data, start + used, start + used')
    ensures BlockScan(data, start, len, b, used')
  {
    AllAsciiJoin(data, start, start + used, start + used');
  }

  /** After the 8-byte blocks fewer than 8 bytes are left, so an all-ASCII run is taken down to a multiple of 8. */
  lemma BlockScanDone(data: seq<byte>, start: nat, len: nat, used: nat)
    requires BlockScan(data, start, len, |BLOCKS|, used)
    ensures AllAscii(data, start, start + len) ==> used == len - len % 8
  {
    DivModUnique(len, 8, used / 8, len - used);
  }

  /**
   * Loop state of `read_ucs2` after `i` characters: the pool `p` holds
   * their code units `written` after `c0`, and the input position `cur` is
   * past their bytes, so that the whole decode succeeds exactly when the
   * rest does.
   */
  ghost predicate PoolLoop(data: seq<byte>, start: nat, size: nat, p0: seq<int>, c0: nat,
                           i: nat, cur: nat, written: seq<unit16>, p: seq<int>, c: nat)
  {
    i == |written| && i <= size && PoolSoFar(p0, c0, written, p, c) &&
    DecodedSoFar(data, start, cur, size - i, written, DecodeUnits(data, start, size))
  }

  /** Decoding one more character into the pool keeps the loop state. */
  lemma PoolLoopStep(data: seq<byte>, start: nat, size: nat, p0: seq<int>, c0: nat,
                     i: nat, cur: nat, written: seq<unit16>, p: seq<int>, c: nat,
                     i': nat, cur': nat, written': seq<unit16>, p': seq<int>, c': nat)
    requires PoolLoop(data, start, size, p0, c0, i, cur, written, p, c) && i < size
    requires cur < |data| && LeadWidth(data[cur]) != 0 && cur + LeadWidth(data[cur]) <= |data| && c < |p|
    requires cur' == cur + LeadWidth(data[cur]) && written' == written + [UnitOf(data, cur, LeadWidth(data[cur]))]
    requires p' == p[c := UnitOf(data, cur, LeadWidth(data[cur]))] && c' == c + 1 && i' == i + 1
    ensures PoolLoop(data, start, size, p0, c0, i', cur', written', p', c')
  {
    PoolStep(p0, p, p', c0, written, UnitOf(data, cur, LeadWidth(data[cur])), written', c');
    DecodedStep(data, start, cur, size - i, written, DecodeUnits(data, start, size), cur', size - i', written');
  }

  /** The loop stops on a missing byte, a bad lead byte or a truncated sequence: the call fails. */
  lemma PoolBadInput(data: seq<byte>, start: nat, size: nat, p0: seq<int>, c0: nat,
                     i: nat, cur: nat, written: seq<unit16>, p: seq<int>, c: nat)
    requires PoolLoop(data, start, size, p0, c0, i, cur, written, p, c) && i < size
    requires cur >= |data| || LeadWidth(data[cur]) == 0 || cur + LeadWidth(data[cur]) > |data|
    ensures PoolDecoded(data, start, size, p0, c0, p, c, false, cur)
  {
    DecodeFails(data, cur, size - i);
  }

  /** The loop stops on a full pool before the last character: the call fails. */
  lemma PoolFull(data: seq<byte>, start: nat, size: nat, p0: seq<int>, c0: nat,
                 i: nat, cur: nat, written: seq<unit16>, p: seq<int>, c: nat)
    requires PoolLoop(data, start, size, p0, c0, i, cur, written, p, c) && i < size && c >= |p|
    ensures PoolDecoded(data, start, size, p0, c0, p, c, false, cur)
  {
  }

  /** The loop ran through all characters: the pool holds the whole decode. */
  lemma PoolDone(data: seq<byte>, start: nat, size: nat, p0: seq<int>, c0: nat,
                 i: nat, cur: nat, written: seq<unit16>, p: seq<int>, c: nat)
    requires PoolLoop(data, start, size, p0, c0, i, cur, written, p, c) && i >= size
    ensures PoolDecoded(data, start, size, p0, c0, p, c, true, cur)
  {
    DecodedAll(data, start, cur, written, DecodeUnits(data, start, size));
  }

  /**
   * The outcome of the decoding loop of `read_ucs2` from `start`: when the
   * characters decode and the pool (`p0`, cursor `c0`) has room, the pool
   * holds their code units after `c0`, its cursor has moved past them and
   * the input position `cur` is past their bytes; otherwise the call fails.
   */
  ghost predicate PoolDecoded(data: seq<byte>, start: nat, size: nat, p0: seq<int>, c0: nat, p1: seq<int>, c1: nat,
                              ok: bool, cur: nat)
  {
    var d := DecodeUnits(data, start, size);
    (ok ==> d.Ok? && c0 + size <= |p0|) &&
    (d.Ok? && c0 + size <= |p0| ==>
      ok && cur == start + d.value.1 && c1 == c0 + size &&
      p1 == p0[..c0] + d.value.0 + p0[c0 + size..])
  }

  /** The pool `p` holds `written` after `c0`, the rest as in `p0`, and its cursor is past them. */
  predicate PoolSoFar(p0: seq<int>, c0: nat, written: seq<int>, p: seq<int>, c: nat)
  {
    c == c0 + |written| && c <= |p0| && p == p0[..c0] + written + p0[c..]
  }

  /** Storing one more code unit at the pool cursor extends what was stored after `c0`. */
  lemma PoolStep(p0: seq<int>, p1: seq<int>, p2: seq<int>, c0: nat, written: seq<int>, u: int,
                 written': seq<int>, c2: nat)
    requires PoolSoFar(p0, c0, written, p1, c0 + |written|) && c0 + |written| < |p1|
    requires p2 == p1[c0 + |written| := u] && written' == written + [u] && c2 == c0 + |written| + 1
    ensures PoolSoFar(p0, c0, written', p2, c2)
  {
    assert forall k :: 0 <= k < |p2| ==> p2[k] == (p0[..c0] + (written + [u]) + p0[c0 + |written| + 1..])[k];
  }

  /**
   * What a successful string read guarantees its caller: the cursor stays
   * within the input, and with the flag on exactly one nine-byte record
   * follows what was already written.
   */
  lemma Utf8ResultFacts(data: seq<byte>, pos: nat, size: nat, cursor1: nat, ok: bool,
                        flag: bool, out0: seq<byte>, oc0: nat, out1: seq<byte>, oc1: nat,
                        lat0: seq<byte>, lc0: nat, lat1: seq<byte>, lc1: nat,
                        pool0: seq<int>, pc0: nat, pool1: seq<int>, pc1: nat)
    requires Utf8Result(data, pos, size, cursor1, ok, flag, out0, oc0, out1, oc1, lat0, lc0, lat1, lc1, pool0, pc0, pool1, pc1)
    ensures ok ==> pos <= cursor1 <= |data|
    ensures ok && !flag ==> out1 == out0 && oc1 == oc0
    ensures ok && flag ==> oc1 == oc0 + 9 <= |out0| && out1[..oc0] == out0[..oc0] && |out1| == |out0|
  {
    if ok {
      var rec := Utf8Pushed(data, pos, size, cursor1, flag, out0, oc0, out1, oc1, lat0, lc0, lat1, lc1, pool0, pc0, pool1, pc1);
      PushedFacts(out0, oc0, flag, out1, oc1, ok, rec);
    }
  }

  /** A successful string read pushed one nine-byte record and left the cursor within the input. */
  lemma Utf8Pushed(data: seq<byte>, pos: nat, size: nat, cursor1: nat,
                   flag: bool, out0: seq<byte>, oc0: nat, out1: seq<byte>, oc1: nat,
                   lat0: seq<byte>, lc0: nat, lat1: seq<byte>, lc1: nat,
                   pool0: seq<int>, pc0: nat, pool1: seq<int>, pc1: nat) returns (rec: seq<byte>)
    requires Utf8Result(data, pos, size, cursor1, true, flag, out0, oc0, out1, oc1, lat0, lc0, lat1, lc1, pool0, pc0, pool1, pc1)
    ensures pos <= cursor1 <= |data| && |rec| == 9 && Pushed(out0, oc0, flag, out1, oc1, true, rec)
  {
    var sc := Scan(data, pos, size, false);
    assert sc.Ok? && pos + size <= |data|;
    if sc.value.0 == size {
      assert Latin1Out(data, pos, size, true, flag, out0, oc0, out1, oc1, lat0, lc0, lat1, lc1);
      rec := RecordBytes(StringRec(Code(Latin1String), lc0, lc0 + size));
    } else if sc.value.1 {
      rec := RecordBytes(StringRec(Code(Utf8SurrogateString), pos, cursor1));
    } else {
      assert Ucs2Result(data, pos, size, cursor1, true, flag, out0, oc0, out1, oc1, pool0, pc0, pool1, pc1);
      rec := RecordBytes(StringRec(Code(Ucs2String), pc0, pc0 + size));
    }
  }

  /**
   * The outcome of `read_ucs2` from cursor `pos`: when the characters decode
   * and the pool has room, the pool holds them after its old cursor, the
   * input cursor has moved past their bytes, and one tag-4 record for the
   * pool range was pushed (failing only when it does not fit); otherwise the
   * call fails.
   */
  ghost predicate Ucs2Result(data: seq<byte>, pos: nat, size: nat, cursor1: nat, ok: bool,
                             flag: bool, out0: seq<byte>, oc0: nat, out1: seq<byte>, oc1: nat,
                             pool0: seq<int>, pc0: nat, pool1: seq<int>, pc1: nat)
  {
    var d := DecodeUnits(data, pos, size);
    (ok ==> d.Ok? && pc0 + size <= |pool0|) &&
    (d.Ok? && pc0 + size <= |pool0| ==>
      |pool1| == |pool0| && pool1 == pool0[..pc0] + d.value.0 + pool0[pc0 + size..] && pc1 == pc0 + size &&
      cursor1 == Min(pos + d.value.1, |data|) &&
      Pushed(out0, oc0, flag, out1, oc1, ok, RecordBytes(StringRec(Code(Ucs2String), pc0, pc0 + size))))
  }

  /**
   * The outcome of the single-byte branch: the characters' bytes are copied
   * to the pool at its cursor (cut short at its end) and one tag-17 record
   * names the pool range; a pool cursor already past the end fails.
   */
  ghost predicate Latin1Out(data: seq<byte>, pos: nat, size: nat, ok: bool,
                            flag: bool, out0: seq<byte>, oc0: nat, out1: seq<byte>, oc1: nat,
                            lat0: seq<byte>, lc0: nat, lat1: seq<byte>, lc1: nat)
    requires pos + size <= |data|
  {
    (ok ==> lc0 <= |lat0|) &&
    (lc0 <= |lat0| ==>
      lat1 == Overwrite(lat0, lc0, data[pos..pos + size]) && lc1 == lc0 + size &&
      Pushed(out0, oc0, flag, out1, oc1, ok, RecordBytes(StringRec(Code(Latin1String), lc0, lc0 + size))))
  }

  /**
   * The outcome of `read_utf8` from cursor `pos`, decided by the scan of the
   * `size` characters: all single-byte, they are copied to the single-byte
   * pool and a tag-17 record names the pool range; otherwise, if a
   * three-byte sequence is a surrogate, a tag-16 record names the raw input
   * range; otherwise the characters go through `read_ucs2`. A failed scan,
   * or characters running past the input, fail the call.
   */
  ghost predicate Utf8Result(data: seq<byte>, pos: nat, size: nat, cursor1: nat, ok: bool,
                             flag: bool, out0: seq<byte>, oc0: nat, out1: seq<byte>, oc1: nat,
                             lat0: seq<byte>, lc0: nat, lat1: seq<byte>, lc1: nat,
                             pool0: seq<int>, pc0: nat, pool1: seq<int>, pc1: nat)
  {
    var sc := Scan(data, pos, size, false);
    (ok ==> sc.Ok? && pos + size <= |data|) &&
    (sc.Ok? && pos + size <= |data| && sc.value.0 == size ==>
      cursor1 == pos + size && pool1 == pool0 && pc1 == pc0 &&
      Latin1Out(data, pos, size, ok, flag, out0, oc0, out1, oc1, lat0, lc0, lat1, lc1)) &&
    (sc.Ok? && pos + size <= |data| && sc.value.0 != size && sc.value.1 ==>
      cursor1 == Min(pos + sc.value.0, |data|) && pool1 == pool0 && pc1 == pc0 && lat1 == lat0 && lc1 == lc0 &&
      Pushed(out0, oc0, flag, out1, oc1, ok, RecordBytes(StringRec(Code(Utf8SurrogateString), pos, cursor1)))) &&
    (sc.Ok? && pos + size <= |data| && sc.value.0 != size && !sc.value.1 ==>
      lat1 == lat0 && lc1 == lc0 &&
      Ucs2Result(data, pos, size, cursor1, ok, flag, out0, oc0, out1, oc1, pool0, pc0, pool1, pc1))
  }
}
