/**
 * How the JavaScript reader meets what the transcoder wrote: the map
 * trailer the parser leaves after a map's entries is the one the reader
 * finds through the map header, and it names the same keys.
 */
module ReadBack {
  import opened Bytes
  import opened Wrappers
  import opened Types
  import opened Output
  import Harness
  import Parse
  import TagReader

  /** A five-byte record (tag and one word) at `at` gives its tag and its word back. */
  lemma WordRecordAt(d: seq<byte>, at: nat, rec: Record, w: int)
    requires rec == MapHead(w) || rec == TypingIdxRec(w)
    requires 0 <= w < TWO32 && at + 5 <= |d| && d[at..at + 5] == RecordBytes(rec)
    ensures d[at] == Tag(rec) && TagReader.U32At(d, at + 1) == Ok(w)
  {
    assert d[at] == d[at..at + 5][0];
    assert d[at + 1..at + 5] == d[at..at + 5][1..] == LE(w, 4);
    TagReader.Word4(d, at + 1, w);
  }

  /** The nine-byte head of a written-out shape: its tag, the key count and the signature length. */
  lemma TypingHeadAt(d: seq<byte>, at: nat, fieldLen: int, sig: seq<byte>)
    requires 0 <= fieldLen < TWO32 && |sig| < TWO32
    requires at + 9 <= |d| && d[at..at + 9] == RecordBytes(TypingRec(fieldLen, sig))[..9]
    ensures d[at] == Code(Typing) && TagReader.U32At(d, at + 1) == Ok(fieldLen)
    ensures FromLE(d[at + 5..at + 9]) == |sig|
  {
    var a := LE(fieldLen, 4);
    var b := LE(|sig|, 4);
    var rec := RecordBytes(TypingRec(fieldLen, sig));
    assert rec == [Code(Typing)] + (a + b + sig);
    var head := [Code(Typing)] + (a + b);
    assert rec[..9] == head;
    SliceSplit(d, at, head, [Code(Typing)], a + b);
    SliceSplit(d, at + 1, a + b, a, b);
    assert d[at] == d[at..at + 1][0];
    TagReader.Word4(d, at + 1, fieldLen);
    TagReader.Word4(d, at + 5, |sig|);
  }

  /**
   * A map the parser wrote at `s`, with its trailer at `t` and the cursor
   * `c` after it, is read back through its trailer: a cached shape gives
   * category 8 and the index of a shape with exactly these keys, and the
   * reader resumes at `c`; a written-out shape gives category 7 and the key
   * count, the length word puts the reader's resume point at `c`, and the
   * signature bytes name the keys in order.
   */
  lemma MapTrailerFound(d: seq<byte>, c: nat, st: State, s: nat, t: nat, keys: seq<seq<byte>>,
                        defs: seq<ClassInfo>, mapShapes: seq<Harness.Shape>, objectCount: nat)
    requires Parse.MapWritten(d, c, st, s, t, keys)
    requires Parse.Coherent(st, defs, mapShapes, objectCount)
    requires forall i :: 0 <= i < |keys| ==> keys[i] != [] && Harness.SEPARATOR !in keys[i]
    requires t - s < TWO32 && |mapShapes| <= TWO32 && |Harness.Signature(keys)| < TWO32
    ensures d[s] == Code(Map)
    ensures var sig := Harness.Signature(keys);
      sig in st.mapShapeCache ==>
        var idx := st.mapShapeCache[sig];
        TagReader.TrailerHead(d, s + 1).Ok? && TagReader.TrailerHead(d, s + 1).value == (8, idx, t) && c == t + 5 &&
        idx < |mapShapes| && mapShapes[idx].keys == keys
    ensures var sig := Harness.Signature(keys);
      sig !in st.mapShapeCache ==>
        TagReader.TrailerHead(d, s + 1).Ok? && TagReader.TrailerHead(d, s + 1).value == (7, |keys|, t) &&
        t + 9 <= |d| && c == t + 9 + FromLE(d[t + 5..t + 9]) &&
        (c <= |d| && d[t + 9..c] == sig ==> TagReader.KeysFrom(d[t + 9..c], 0) == keys)
  {
    var sig := Harness.Signature(keys);
    assert d[s..s + 5] == RecordBytes(MapHead(t - s));
    WordRecordAt(d, s, MapHead(t - s), t - s);
    assert |keys| < TWO32 by {
      SignatureLength(keys);
    }
    if sig in st.mapShapeCache {
      var idx := st.mapShapeCache[sig];
      assert idx < |mapShapes| && mapShapes[idx].keys == Harness.NonEmpty(Harness.Split(sig));
      Harness.SplitSignature(keys);
      CachedTrailer(d, s, t, idx);
    } else {
      WrittenTrailer(d, s, t, |keys|, sig);
      if c <= |d| && d[t + 9..c] == sig {
        TagReader.KeysOfSignature(keys);
      }
    }
  }

  /** The reader finds a shape index where the header points. */
  lemma CachedTrailer(d: seq<byte>, s: nat, t: nat, idx: nat)
    requires s < t && TagReader.U32At(d, s + 1) == Ok(t - s)
    requires idx < TWO32 && t + 5 <= |d| && d[t..t + 5] == RecordBytes(TypingIdxRec(idx))
    ensures TagReader.TrailerHead(d, s + 1).Ok? && TagReader.TrailerHead(d, s + 1).value == (8, idx, t)
  {
    WordRecordAt(d, t, TypingIdxRec(idx), idx);
    assert TagReader.U8At(d, t) == Ok(8);
  }

  /** The reader finds a written-out shape where the header points, with its key count. */
  lemma WrittenTrailer(d: seq<byte>, s: nat, t: nat, fieldLen: nat, sig: seq<byte>)
    requires s < t && TagReader.U32At(d, s + 1) == Ok(t - s)
    requires fieldLen < TWO32 && |sig| < TWO32
    requires t + 9 <= |d| && d[t..t + 9] == RecordBytes(TypingRec(fieldLen, sig))[..9]
    ensures TagReader.TrailerHead(d, s + 1).Ok? && TagReader.TrailerHead(d, s + 1).value == (7, fieldLen, t)
    ensures FromLE(d[t + 5..t + 9]) == |sig|
  {
    TypingHeadAt(d, t, fieldLen, sig);
    assert TagReader.U8At(d, t) == Ok(7);
  }

  /** A signature is at least as long as its key count: each key brings a separator. */
  lemma {:induction false} SignatureLength(keys: seq<seq<byte>>)
    ensures |keys| <= |Harness.Signature(keys)|
    decreases |keys|
  {
    if keys != [] {
      SignatureLength(keys[1..]);
    }
  }
}
