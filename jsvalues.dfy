/**
 * The JavaScript values the pure-JS encoders write, the Java class names
 * they treat specially, and the key order of a hash map (`Object.keys(obj)
 * .sort()`, JavaScript's default order on strings).
 */
module JsValues {
  import opened Bytes
  import opened Utf8
  import opened Wrappers
  import Utils

  /** A JavaScript string: its UTF-16 code units. */
  type Text = seq<unit16>

  /** A non-empty class name that `write` sends to `writeObject`. */
  type ClassName = t: Text | |t| > 0 && ObjectClass(t) witness [0x41]

  /**
   * A value handed to `write`. Numbers are the integral ones (a double is
   * not part of this model); `id` is the identity of an object, the thing
   * `objects.indexOf` compares. `Plain` is an object without a string
   * `$class` and an own `$`, with its fields in `Object.keys` order (one
   * with a string `$class` and no `$` is written as null: `NullShaped`);
   * `Classed` is `{$class: className, $: {...}}`, `ClassedArray` is `{$class: cls,
   * $: [...]}` and `ClassedNull` is `{$class: cls, $: null}`, an object
   * too (`writeArray` registers it when `cls` starts with '[').
   */
  datatype JsValue =
    | Null
    | Bool(b: bool)
    | Number(n: int)
    | Str(s: Text)
    | LongObj(v: int)
    | Date(ms: int)
    | Buffer(bytes: seq<byte>)
    | Array(id: nat, items: seq<JsValue>)
    | Plain(id: nat, fields: seq<Field>)
    | Classed(id: nat, className: ClassName, fields: seq<Field>)
    | ClassedArray(id: nat, cls: Text, items: seq<JsValue>)
    | ClassedNull(id: nat, cls: Text)

  /** `getSerializer(cls)` is "writeArray": the class names an array type. */
  predicate ArrayClass(cls: Text)
  {
    Utils.GetSerializer(SerializerMap(), cls) == Utils.WRITE_ARRAY
  }

  /** One own property of an object. */
  datatype Field = Field(key: Text, value: JsValue)

  /** "java.util." */
  const JAVA_UTIL: Text := [0x6a, 0x61, 0x76, 0x61, 0x2e, 0x75, 0x74, 0x69, 0x6c, 0x2e]
  /** "java.util.HashMap", the default class of a map. */
  const HASH_MAP: Text := JAVA_UTIL + [0x48, 0x61, 0x73, 0x68, 0x4d, 0x61, 0x70]
  /** "java.util.Map". */
  const I_MAP: Text := JAVA_UTIL + [0x4d, 0x61, 0x70]
  /** "java.util.ArrayList", the default class of a list. */
  const ARRAY_LIST: Text := JAVA_UTIL + [0x41, 0x72, 0x72, 0x61, 0x79, 0x4c, 0x69, 0x73, 0x74]

  /** `Object.keys`: the keys of the fields, in order. */
  function Keys(fields: seq<Field>): (r: seq<Text>)
    ensures |r| == |fields|
    ensures forall i :: 0 <= i < |fields| ==> r[i] == fields[i].key
  {
    if fields == [] then [] else [fields[0].key] + Keys(fields[1..])
  }

  /** Where `obj[key]` is found: the first field with that key, or -1. */
  function FieldIndex(fields: seq<Field>, key: Text): (r: int)
    ensures -1 <= r < |fields|
    ensures r >= 0 ==> fields[r].key == key && forall j :: 0 <= j < r ==> fields[j].key != key
    ensures r == -1 ==> forall j :: 0 <= j < |fields| ==> fields[j].key != key
  {
    if fields == [] then -1
    else if fields[0].key == key then 0
    else
      var r := FieldIndex(fields[1..], key);
      if r == -1 then -1 else r + 1
  }

  /** "$class". */
  const CLASS_KEY: Text := [0x24, 0x63, 0x6c, 0x61, 0x73, 0x73]
  /** "$". */
  const VALUE_KEY: Text := [0x24]

  /**
   * `is.string(obj.$class) && is.nullOrUndefined(obj.$)`: the object test
   * with which `writeObject` writes null instead of a map.
   */
  predicate NullShaped(fields: seq<Field>)
  {
    var c := FieldIndex(fields, CLASS_KEY);
    var d := FieldIndex(fields, VALUE_KEY);
    c >= 0 && fields[c].value.Str? && (d == -1 || fields[d].value.Null?)
  }

  /**
   * The type `writeObject` writes a map under: none for a plain object or
   * the default map classes, the class name otherwise.
   */
  function MapType(v: JsValue): Text
    requires v.Plain? || v.Classed?
  {
    if v.Plain? || v.className == HASH_MAP || v.className == I_MAP then [] else v.className
  }

  /** Where `list.indexOf(x)` is found: the first equal element, or -1. */
  function IndexOf<T(==)>(list: seq<T>, x: T): (r: int)
    ensures -1 <= r < |list|
    ensures r >= 0 ==> list[r] == x && x !in list[..r]
    ensures r == -1 <==> x !in list
  {
    if list == [] then -1
    else if list[0] == x then 0
    else
      var r := IndexOf(list[1..], x);
      assert r >= 0 ==> list[..r + 1] == [list[0]] + list[1..][..r];
      if r == -1 then -1 else r + 1
  }

  // ---------------------------------------------------------------------
  // The serializer map
  // ---------------------------------------------------------------------

  /** The writer names the serializer map gives: `write` + the name is the method called. */
  const BOOL_WRITER: Text := [0x42, 0x6f, 0x6f, 0x6c]  // "Bool"
  const DOUBLE_WRITER: Text := [0x44, 0x6f, 0x75, 0x62, 0x6c, 0x65]  // "Double"
  const LONG_WRITER: Text := [0x4c, 0x6f, 0x6e, 0x67]  // "Long"
  const INT_WRITER: Text := [0x49, 0x6e, 0x74]  // "Int"
  const STRING_WRITER: Text := [0x53, 0x74, 0x72, 0x69, 0x6e, 0x67]  // "String"
  const DATE_WRITER: Text := [0x44, 0x61, 0x74, 0x65]  // "Date"

  /** `SERIALIZER_MAP`: the Java type names written by a scalar writer, and that writer's name. */
  function SerializerMap(): map<Text, Text>
  {
    map[
      // Bool
      [0x62, 0x6f, 0x6f, 0x6c, 0x65, 0x61, 0x6e] := BOOL_WRITER,  // boolean
      [0x6a, 0x61, 0x76, 0x61, 0x2e, 0x6c, 0x61, 0x6e, 0x67, 0x2e, 0x42, 0x6f, 0x6f, 0x6c, 0x65, 0x61, 0x6e] := BOOL_WRITER,  // java.lang.Boolean
      [0x62, 0x6f, 0x6f, 0x6c] := BOOL_WRITER,  // bool
      // Double
      [0x64, 0x6f, 0x75, 0x62, 0x6c, 0x65] := DOUBLE_WRITER,  // double
      [0x6a, 0x61, 0x76, 0x61, 0x2e, 0x6c, 0x61, 0x6e, 0x67, 0x2e, 0x44, 0x6f, 0x75, 0x62, 0x6c, 0x65] := DOUBLE_WRITER,  // java.lang.Double
      [0x66, 0x6c, 0x6f, 0x61, 0x74] := DOUBLE_WRITER,  // float
      [0x6a, 0x61, 0x76, 0x61, 0x2e, 0x6c, 0x61, 0x6e, 0x67, 0x2e, 0x46, 0x6c, 0x6f, 0x61, 0x74] := DOUBLE_WRITER,  // java.lang.Float
      // Long
      [0x6a, 0x61, 0x76, 0x61, 0x2e, 0x6c, 0x61, 0x6e, 0x67, 0x2e, 0x4c, 0x6f, 0x6e, 0x67] := LONG_WRITER,  // java.lang.Long
      [0x6c, 0x6f, 0x6e, 0x67] := LONG_WRITER,  // long
      // Int
      [0x73, 0x68, 0x6f, 0x72, 0x74] := INT_WRITER,  // short
      [0x6a, 0x61, 0x76, 0x61, 0x2e, 0x6c, 0x61, 0x6e, 0x67, 0x2e, 0x53, 0x68, 0x6f, 0x72, 0x74] := INT_WRITER,  // java.lang.Short
      [0x69, 0x6e, 0x74] := INT_WRITER,  // int
      [0x6a, 0x61, 0x76, 0x61, 0x2e, 0x6c, 0x61, 0x6e, 0x67, 0x2e, 0x49, 0x6e, 0x74, 0x65, 0x67, 0x65, 0x72] := INT_WRITER,  // java.lang.Integer
      [0x62, 0x79, 0x74, 0x65] := INT_WRITER,  // byte
      [0x6a, 0x61, 0x76, 0x61, 0x2e, 0x6c, 0x61, 0x6e, 0x67, 0x2e, 0x42, 0x79, 0x74, 0x65] := INT_WRITER,  // java.lang.Byte
      // String
      [0x6a, 0x61, 0x76, 0x61, 0x2e, 0x6c, 0x61, 0x6e, 0x67, 0x2e, 0x53, 0x74, 0x72, 0x69, 0x6e, 0x67] := STRING_WRITER,  // java.lang.String
      [0x53, 0x74, 0x72, 0x69, 0x6e, 0x67] := STRING_WRITER,  // String
      [0x73, 0x74, 0x72, 0x69, 0x6e, 0x67] := STRING_WRITER,  // string
      [0x63, 0x68, 0x61, 0x72] := STRING_WRITER,  // char
      [0x63, 0x68, 0x61, 0x72, 0x5b, 0x5d] := STRING_WRITER,  // char[]
      [0x6a, 0x61, 0x76, 0x61, 0x2e, 0x6c, 0x61, 0x6e, 0x67, 0x2e, 0x43, 0x68, 0x61, 0x72, 0x61, 0x63, 0x74, 0x65, 0x72] := STRING_WRITER,  // java.lang.Character
      // Date
      [0x6a, 0x61, 0x76, 0x61, 0x2e, 0x75, 0x74, 0x69, 0x6c, 0x2e, 0x44, 0x61, 0x74, 0x65] := DATE_WRITER  // java.util.Date
    ]
  }

  /**
   * A class `write` hands to `writeObject` with the object as it is:
   * `getSerializer` gives "writeObject" for it (no entry in the serializer
   * map, and no leading '[').
   */
  predicate ObjectClass(t: Text)
  {
    Utils.GetSerializer(SerializerMap(), t) == Utils.WRITE_OBJECT
  }

  /**
   * No entry of the serializer map starts with '[' and every writer it
   * names is a scalar one, so an array class is exactly one with a leading
   * '[', and `writeObject` gets exactly the other classes the map lacks.
   */
  lemma ClassKinds(cls: Text)
    ensures ArrayClass(cls) <==> |cls| > 0 && cls[0] == Utils.OPEN_BRACKET
    ensures ObjectClass(cls) <==> cls !in SerializerMap() && !(|cls| > 0 && cls[0] == Utils.OPEN_BRACKET)
  {
    var m := SerializerMap();
    assert Utils.WRITE_ARRAY[5] == 0x41 && Utils.WRITE_OBJECT[5] == 0x4f;
    if cls in m {
      var w := m[cls];
      assert w in {BOOL_WRITER, DOUBLE_WRITER, LONG_WRITER, INT_WRITER, STRING_WRITER, DATE_WRITER};
      assert (Utils.WRITE + w)[5] == w[0] && w[0] != 0x41 && w[0] != 0x4f;
      assert cls[0] != Utils.OPEN_BRACKET;
    } else {
      Utils.SerializerOfArrayTypes(m, cls);
    }
  }

  // ---------------------------------------------------------------------
  // String chunks
  // ---------------------------------------------------------------------

  predicate IsHighSurrogate(u: int)
  {
    0xd800 <= u <= 0xdbff
  }

  /**
   * The length of a non-final string chunk at the front of `s`: 0x8000
   * code units, one fewer when the last of them is a high surrogate, so a
   * chunk ends on a high surrogate only where `s` holds two of them in a row.
   */
  function ChunkLen(s: Text): (n: nat)
    requires |s| > Utils.MAX_CHAR_TRUNK_SIZE
    ensures n == Utils.MAX_CHAR_TRUNK_SIZE || n == Utils.MAX_CHAR_TRUNK_SIZE - 1
    ensures IsHighSurrogate(s[n - 1]) ==> n == Utils.MAX_CHAR_TRUNK_SIZE - 1 && IsHighSurrogate(s[n])
    ensures !IsHighSurrogate(s[Utils.MAX_CHAR_TRUNK_SIZE - 1]) ==> n == Utils.MAX_CHAR_TRUNK_SIZE
  {
    if IsHighSurrogate(s[Utils.MAX_CHAR_TRUNK_SIZE - 1]) then Utils.MAX_CHAR_TRUNK_SIZE - 1
    else Utils.MAX_CHAR_TRUNK_SIZE
  }

  // ---------------------------------------------------------------------
  // The default sort of keys
  // ---------------------------------------------------------------------

  /** Keys in ascending JavaScript string order. */
  predicate Sorted(keys: seq<Text>)
  {
    forall i, j :: 0 <= i < j < |keys| ==> Utils.StrLe(keys[i], keys[j])
  }

  /** Puts `k` before the first key not below it. */
  function Insert(k: Text, keys: seq<Text>): (r: seq<Text>)
    ensures multiset(r) == multiset(keys) + multiset{k}
    ensures |r| == |keys| + 1
  {
    if keys == [] || !Utils.StrLess(keys[0], k) then [k] + keys
    else
      assert keys == [keys[0]] + keys[1..];
      [keys[0]] + Insert(k, keys[1..])
  }

  /** `keys.sort()` with the default comparison, as an insertion sort. */
  function SortKeys(keys: seq<Text>): (r: seq<Text>)
    ensures multiset(r) == multiset(keys)
    ensures |r| == |keys|
  {
    if keys == [] then []
    else
      assert keys == [keys[0]] + keys[1..];
      Insert(keys[0], SortKeys(keys[1..]))
  }

  /** The sorted keys are in ascending order and are the same keys. */
  lemma {:induction false} SortKeysSorted(keys: seq<Text>)
    ensures Sorted(SortKeys(keys))
    ensures multiset(SortKeys(keys)) == multiset(keys)
  {
    if keys != [] {
      SortKeysSorted(keys[1..]);
      InsertSorted(keys[0], SortKeys(keys[1..]));
    }
  }

  /** Inserting into an ascending list keeps it ascending. */
  lemma {:induction false} InsertSorted(k: Text, keys: seq<Text>)
    requires Sorted(keys)
    ensures Sorted(Insert(k, keys))
  {
    if keys == [] || !Utils.StrLess(keys[0], k) {
      forall j | 0 <= j < |keys|
        ensures Utils.StrLe(k, keys[j])
      {
        if j > 0 {
          StrLeTrans(k, keys[0], keys[j]);
        }
      }
    } else {
      InsertSorted(k, keys[1..]);
      var r := Insert(k, keys[1..]);
      StrLessAsym(keys[0], k);
      forall j | 0 <= j < |r|
        ensures Utils.StrLe(keys[0], r[j])
      {
        InsertMember(k, keys[1..], j);
      }
    }
  }

  /** Every element of an insertion is the inserted key or one of the keys. */
  lemma {:induction false} InsertMember(k: Text, keys: seq<Text>, j: nat)
    requires j < |keys| + 1
    ensures Insert(k, keys)[j] == k || Insert(k, keys)[j] in keys
  {
    var r := Insert(k, keys);
    assert r[j] in multiset(r);
    assert r[j] in multiset(keys) || r[j] == k;
  }

  /** `<` on strings is asymmetric. */
  lemma {:induction false} StrLessAsym(a: Text, b: Text)
    ensures Utils.StrLess(a, b) ==> !Utils.StrLess(b, a)
    decreases |a|
  {
    if a != [] && b != [] && a[0] == b[0] {
      StrLessAsym(a[1..], b[1..]);
    }
  }

  /** `<` on strings is transitive. */
  lemma {:induction false} StrLessTrans(a: Text, b: Text, c: Text)
    requires Utils.StrLess(a, b) && Utils.StrLess(b, c)
    ensures Utils.StrLess(a, c)
    decreases |a|
  {
    if a != [] && a[0] == b[0] && b[0] == c[0] {
      StrLessTrans(a[1..], b[1..], c[1..]);
    }
  }

  /** Two different strings are ordered one way or the other. */
  lemma {:induction false} StrLessTotal(a: Text, b: Text)
    requires a != b
    ensures Utils.StrLess(a, b) || Utils.StrLess(b, a)
    decreases |a|
  {
    if a != [] && b != [] && a[0] == b[0] {
      assert a == [a[0]] + a[1..] && b == [b[0]] + b[1..];
      StrLessTotal(a[1..], b[1..]);
    }
  }

  /** `<=` on strings is transitive. */
  lemma StrLeTrans(a: Text, b: Text, c: Text)
    requires Utils.StrLe(a, b) && Utils.StrLe(b, c)
    ensures Utils.StrLe(a, c)
  {
    if Utils.StrLess(c, a) {
      if a != b {
        StrLessTotal(a, b);
        StrLessTrans(c, a, b);
      }
    }
  }

  // ---------------------------------------------------------------------
  // Decoded values
  // ---------------------------------------------------------------------

  /**
   * What a decoder gives back when type information is not kept. A long or
   * a date holds what `handleLong` made of the 64-bit value; a double holds
   * its eight raw bytes; `DType` is a class name that `read` met in value
   * position, as the bytes it is decoded from; `DMap` holds the properties
   * of the resulting object in insertion order.
   */
  datatype DValue =
    | DNull
    | DUndefined
    | DBool(b: bool)
    | DInt(n: int)
    | DLong(l: Utils.LongResult)
    | DDouble(raw: seq<byte>)
    | DDate(ms: Utils.LongResult)
    | DBytes(bytes: seq<byte>)
    | DStr(s: Text)
    | DType(typeBytes: seq<byte>)
    | DList(items: seq<DValue>)
    | DMap(entries: seq<Entry>)

  /** One property of a decoded object. */
  datatype Entry = Entry(key: DValue, value: DValue)

  /** `obj[key]`: the value stored under `key`, if any. */
  function Lookup(entries: seq<Entry>, key: DValue): (r: Option<DValue>)
    ensures r.None? <==> forall i :: 0 <= i < |entries| ==> entries[i].key != key
  {
    if entries == [] then None
    else if entries[0].key == key then Some(entries[0].value)
    else Lookup(entries[1..], key)
  }

  /**
   * `obj[key] = value`: a property already present keeps its place and
   * takes the new value; a new one goes at the end.
   */
  function Put(entries: seq<Entry>, key: DValue, value: DValue): (r: seq<Entry>)
    ensures Lookup(r, key) == Some(value)
    ensures forall k :: k != key ==> Lookup(r, k) == Lookup(entries, k)
    ensures |r| == if Lookup(entries, key).Some? then |entries| else |entries| + 1
  {
    if entries == [] then [Entry(key, value)]
    else if entries[0].key == key then [Entry(key, value)] + entries[1..]
    else [entries[0]] + Put(entries[1..], key, value)
  }
}
