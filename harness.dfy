/**
 * The JavaScript side of the native transcoder: the shape cache that hands
 * out indices for the record shapes the parser reports, and the argument
 * checks made before a parse.
 */
module Harness {
  import opened Bytes
  import opened Wrappers

  const SEPARATOR: byte := 0x2c  // ','
  const QUOTE: byte := 0x22      // '"'
  /** The signature entry that stands for an object or reference key, "^||^". */
  const SPEC_KEY: seq<byte> := [0x5e, 0x7c, 0x7c, 0x5e]

  const KEY_COUNT_MISMATCH: string := "key count does not match the field count"
  const QUOTE_IN_KEY: string := "a key may not contain a quote"
  const CACHE_MISS: string := "cache must have value"

  /** String.prototype.split on ',': the pieces between separators, empty ones included. */
  function Split(s: seq<byte>): (r: seq<seq<byte>>)
    ensures |r| >= 1
    ensures forall i :: 0 <= i < |r| ==> SEPARATOR !in r[i]
  {
    if s == [] then [[]]
    else if s[0] == SEPARATOR then [[]] + Split(s[1..])
    else
      var rest := Split(s[1..]);
      [[s[0]] + rest[0]] + rest[1..]
  }

  /** Array.prototype.join with ','. */
  function Join(r: seq<seq<byte>>): seq<byte>
    requires |r| >= 1
  {
    if |r| == 1 then r[0] else r[0] + [SEPARATOR] + Join(r[1..])
  }

  /** Splitting loses nothing: joining the pieces back gives the input. */
  lemma {:induction false} JoinSplit(s: seq<byte>)
    ensures Join(Split(s)) == s
  {
    if s != [] {
      JoinSplit(s[1..]);
      var rest := Split(s[1..]);
      if s[0] == SEPARATOR {
        assert Split(s)[1..] == rest;
      } else {
        var r := Split(s);
        assert r[1..] == rest[1..];
        if |rest| == 1 {
          assert Join(r) == [s[0]] + rest[0];
        } else {
          assert Join(r) == [s[0]] + rest[0] + [SEPARATOR] + Join(rest[1..]);
          assert Join(rest) == rest[0] + [SEPARATOR] + Join(rest[1..]);
        }
      }
    }
  }

  /** Array.prototype.filter(Boolean) on strings: drops the empty ones. */
  function NonEmpty(r: seq<seq<byte>>): (k: seq<seq<byte>>)
    ensures |k| <= |r|
    ensures forall i :: 0 <= i < |k| ==> k[i] != [] && k[i] in r
    ensures forall i :: 0 <= i < |r| && r[i] != [] ==> r[i] in k
  {
    if r == [] then []
    else if r[0] == [] then NonEmpty(r[1..])
    else [r[0]] + NonEmpty(r[1..])
  }

  /** A record shape: the keys a map or object of that shape carries, in order. */
  datatype Shape = Shape(keys: seq<seq<byte>>)

  /**
   * The checks `buildShape` makes before it generates a record constructor:
   * the non-empty comma-separated keys must number `fieldLen`, and no key may
   * hold a quote (the key becomes part of generated source code).
   */
  function BuildShape(fields: seq<byte>, fieldLen: int): (r: Result<Shape>)
    ensures r.Ok? <==> |NonEmpty(Split(fields))| == fieldLen &&
                       forall i :: 0 <= i < fieldLen ==> QUOTE !in NonEmpty(Split(fields))[i]
    ensures r.Ok? ==> r.value.keys == NonEmpty(Split(fields))
  {
    var keys := NonEmpty(Split(fields));
    if |keys| != fieldLen then Err(KEY_COUNT_MISMATCH)
    else if exists i :: 0 <= i < |keys| && QUOTE in keys[i] then Err(QUOTE_IN_KEY)
    else Ok(Shape(keys))
  }

  /** The shape signature the parser builds: every key followed by ','. */
  function Signature(keys: seq<seq<byte>>): seq<byte>
  {
    if keys == [] then [] else keys[0] + [SEPARATOR] + Signature(keys[1..])
  }

  /** Appending a key to the list appends it, with its separator, to the signature. */
  lemma {:induction false} SignatureSnoc(keys: seq<seq<byte>>, k: seq<byte>)
    ensures Signature(keys + [k]) == Signature(keys) + k + [SEPARATOR]
    decreases |keys|
  {
    if keys == [] {
      assert Signature([k]) == k + [SEPARATOR] + Signature([]);
    } else {
      assert (keys + [k])[1..] == keys[1..] + [k];
      SignatureSnoc(keys[1..], k);
    }
  }

  /**
   * A signature of non-empty keys without separators or quotes passes the
   * checks, and the shape keeps exactly those keys.
   */
  lemma {:induction false} BuildShapeOfSignature(keys: seq<seq<byte>>)
    requires forall i :: 0 <= i < |keys| ==> keys[i] != [] && SEPARATOR !in keys[i] && QUOTE !in keys[i]
    ensures BuildShape(Signature(keys), |keys|) == Ok(Shape(keys))
  {
    SplitSignature(keys);
  }

  lemma {:induction false} SplitSignature(keys: seq<seq<byte>>)
    requires forall i :: 0 <= i < |keys| ==> keys[i] != [] && SEPARATOR !in keys[i]
    ensures NonEmpty(Split(Signature(keys))) == keys
    decreases |keys|
  {
    if keys != [] {
      SplitSignature(keys[1..]);
      SplitKey(keys[0], Signature(keys[1..]));
      assert Signature(keys) == keys[0] + [SEPARATOR] + Signature(keys[1..]);
      assert [keys[0]] + keys[1..] == keys;
    }
  }

  /** Splitting `k + "," + rest` for a key without separators. */
  lemma {:induction false} SplitKey(k: seq<byte>, rest: seq<byte>)
    requires SEPARATOR !in k
    ensures Split(k + [SEPARATOR] + rest) == [k] + Split(rest)
    decreases |k|
  {
    if k == [] {
      assert k + [SEPARATOR] + rest == [SEPARATOR] + rest;
    } else {
      SplitKey(k[1..], rest);
      assert (k + [SEPARATOR] + rest)[1..] == k[1..] + [SEPARATOR] + rest;
      assert [k[0]] + k[1..] == k;
    }
  }

  /**
   * The shape cache of the reader: shapes of maps and of objects, each
   * list indexed by the number the parser stores in its own cache.
   */
  class ShapeCache {
    const maxMapCacheLength: int
    var objectShapeCache: seq<Shape>
    var mapShapeCache: seq<Shape>

    constructor (maxMapCacheLength: int)
      ensures this.maxMapCacheLength == maxMapCacheLength
      ensures objectShapeCache == [] && mapShapeCache == []
    {
      this.maxMapCacheLength := maxMapCacheLength;
      objectShapeCache := [];
      mapShapeCache := [];
    }

    /** Whether the map list has reached its bound. */
    function IsCacheOverflow(): (r: bool)
      reads this
      ensures r <==> |mapShapeCache| >= maxMapCacheLength
    {
      |mapShapeCache| >= maxMapCacheLength
    }

    /** Forgets every shape. */
    method Clear()
      modifies this
      ensures objectShapeCache == [] && mapShapeCache == []
    {
      objectShapeCache := [];
      mapShapeCache := [];
    }

    /**
     * Registers a shape and returns its index: 0, 1, 2, ... in call order,
     * counted separately for maps and objects. A shape that fails the
     * checks is not registered and the call fails.
     */
    method SetCache(fields: seq<byte>, fieldsLen: int, isMap: bool) returns (r: Result<nat>)
      modifies this
      ensures BuildShape(fields, fieldsLen).Err? ==>
        r.Err? && mapShapeCache == old(mapShapeCache) && objectShapeCache == old(objectShapeCache)
      ensures BuildShape(fields, fieldsLen).Ok? && isMap ==>
        r == Ok(|old(mapShapeCache)|) &&
        mapShapeCache == old(mapShapeCache) + [BuildShape(fields, fieldsLen).value] &&
        objectShapeCache == old(objectShapeCache)
      ensures BuildShape(fields, fieldsLen).Ok? && !isMap ==>
        r == Ok(|old(objectShapeCache)|) &&
        objectShapeCache == old(objectShapeCache) + [BuildShape(fields, fieldsLen).value] &&
        mapShapeCache == old(mapShapeCache)
    {
      var shape := BuildShape(fields, fieldsLen);
      if shape.Err? {
        return Err(shape.msg);
      }
      if isMap {
        mapShapeCache := mapShapeCache + [shape.value];
        return Ok(|mapShapeCache| - 1);
      } else {
        objectShapeCache := objectShapeCache + [shape.value];
        return Ok(|objectShapeCache| - 1);
      }
    }
  }

  const MAX_U32: int := 0x7fff_ffff  // the harness calls 2^31 - 1 its "max u32"

  /** A JavaScript argument: a number, or some other value. */
  datatype JsArg = Num(n: int) | NotNumber

  /** The checks `build` makes on the configured map-cache bound (20 when not given). */
  function CheckBuild(maxCacheLength: Option<JsArg>): (r: Result<int>)
    ensures maxCacheLength.None? ==> r == Ok(20)
    ensures r.Ok? ==> r.value <= MAX_U32
    ensures maxCacheLength == Some(NotNumber) ==> r.Err?
    ensures (maxCacheLength.Some? && maxCacheLength.value.Num?) ==>
      (r.Ok? <==> maxCacheLength.value.n <= MAX_U32)
  {
    var v := if maxCacheLength.None? then Num(20) else maxCacheLength.value;
    if v.NotNumber? then Err("maxCacheLength must be number")
    else if v.n > MAX_U32 then Err("maxCacheLength too large")
    else Ok(v.n)
  }

  /**
   * The checks `preset` makes before a parse: the offset is a number, the
   * offset and the input length are at most MAX_U32, and the part of the
   * input to parse is at most 3/5 of the output buffer.
   */
  function CheckPreset(inputLength: nat, offset: JsArg, outputByteLength: nat): (r: Result<int>)
    ensures r.Ok? <==> offset.Num? && offset.n <= MAX_U32 && inputLength <= MAX_U32 &&
                       5 * (inputLength - offset.n) <= 3 * outputByteLength
    ensures r.Ok? ==> r.value == offset.n
  {
    if offset.NotNumber? then Err("offset must be number")
    else if offset.n > MAX_U32 then Err("offset too large")
    else if inputLength > MAX_U32 then Err("input too long")
    else if 5 * (inputLength - offset.n) > 3 * outputByteLength then Err("input too long for the output buffer")
    else Ok(offset.n)
  }
}
