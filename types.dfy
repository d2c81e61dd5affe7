/** Stock result and option wrappers used to model panics and thrown errors. */
module Wrappers {

  datatype Option<T> = None | Some(value: T)

  datatype Result<T> = Ok(value: T) | Err(msg: string)
  {
    predicate IsFailure() { Err? }

    function PropagateFailure<U>(): Result<U>
      requires Err?
    {
      Err(msg)
    }

    function Extract(): T
      requires Ok?
    {
      value
    }
  }
}

/**
 * The record kinds of the tagged output stream and the shape-cache state
 * that persists between parses.
 */
module Types {
  import opened Bytes
  import opened Wrappers

  /** The tag byte that opens every record of the output stream. */
  datatype MagicCode =
    | Object | Array | Null | Ucs2String | Bool | Int | Typing | TypingIdx | Double
    | Long | Date | Ref | Bytes | Chunk | Map | Utf8SurrogateString | Latin1String

  function Code(m: MagicCode): byte
  {
    match m
    case Object => 1
    case Array => 2
    case Null => 3
    case Ucs2String => 4
    case Bool => 5
    case Int => 6
    case Typing => 7
    case TypingIdx => 8
    case Double => 9
    case Long => 10
    case Date => 11
    case Ref => 12
    case Bytes => 13
    case Chunk => 14
    case Map => 15
    case Utf8SurrogateString => 16
    case Latin1String => 17
  }

  /** The tag a byte stands for, if any. */
  function FromCode(b: byte): (r: Option<MagicCode>)
    ensures r.Some? <==> 1 <= b <= 17
    ensures r.Some? ==> Code(r.value) == b
  {
    if b == 1 then Some(Object)
    else if b == 2 then Some(Array)
    else if b == 3 then Some(Null)
    else if b == 4 then Some(Ucs2String)
    else if b == 5 then Some(Bool)
    else if b == 6 then Some(Int)
    else if b == 7 then Some(Typing)
    else if b == 8 then Some(TypingIdx)
    else if b == 9 then Some(Double)
    else if b == 10 then Some(Long)
    else if b == 11 then Some(Date)
    else if b == 12 then Some(Ref)
    else if b == 13 then Some(Bytes)
    else if b == 14 then Some(Chunk)
    else if b == 15 then Some(Map)
    else if b == 16 then Some(Utf8SurrogateString)
    else if b == 17 then Some(Latin1String)
    else None
  }

  /** The 17 tags are pairwise distinct and occupy exactly the bytes 1..17. */
  lemma CodesDistinct(m: MagicCode, n: MagicCode)
    ensures 1 <= Code(m) <= 17
    ensures FromCode(Code(m)) == Some(m)
    ensures Code(m) == Code(n) ==> m == n
  {
  }

  /**
   * What the parser remembers about one class definition: the number of
   * fields, how many input bytes the field names take, which field
   * positions are compiler-generated outer references, and the index of the
   * shape the reader allocated for it.
   */
  datatype ClassInfo = ClassInfo(len: nat, bytelen: nat, skipIdx: seq<nat>, cacheIdx: nat)

  /** Shape caches kept across parses. */
  datatype State = State(
    mapShapeCache: map<seq<byte>, nat>,
    maxMapShapeCacheLen: nat,
    classShapeCache: map<seq<byte>, seq<ClassInfo>>)

  /** Positions of skipped fields are strictly increasing and below the field count. */
  predicate SkipIdxOk(c: ClassInfo)
  {
    (forall i :: 0 <= i < |c.skipIdx| ==> c.skipIdx[i] < c.len) &&
    (forall i, j :: 0 <= i < j < |c.skipIdx| ==> c.skipIdx[i] < c.skipIdx[j])
  }

  /** Within one class name, every variant has a different field count. */
  predicate VariantsOk(vs: seq<ClassInfo>)
  {
    (forall i, j :: 0 <= i < j < |vs| ==> vs[i].len != vs[j].len) &&
    (forall i :: 0 <= i < |vs| ==> SkipIdxOk(vs[i]))
  }

  predicate StateOk(st: State)
  {
    |st.mapShapeCache| <= st.maxMapShapeCacheLen &&
    forall name :: name in st.classShapeCache ==> VariantsOk(st.classShapeCache[name])
  }

  /** The state a fresh harness starts from (and that `drain` returns to). */
  function EmptyState(max: nat): (st: State)
    ensures StateOk(st)
    ensures st.mapShapeCache == map[] && st.classShapeCache == map[] && st.maxMapShapeCacheLen == max
  {
    State(map[], max, map[])
  }

  /** The variants cached for a class name; none when the name is new. */
  function Variants(st: State, name: seq<byte>): (vs: seq<ClassInfo>)
    ensures StateOk(st) ==> VariantsOk(vs)
    ensures name !in st.classShapeCache ==> vs == []
  {
    if name in st.classShapeCache then st.classShapeCache[name] else []
  }

  /** The variant registered for a class name with a given field count, if any. */
  function FindVariant(vs: seq<ClassInfo>, len: nat): (r: Option<nat>)
    ensures r.Some? ==> r.value < |vs| && vs[r.value].len == len
    ensures r.None? ==> forall i :: 0 <= i < |vs| ==> vs[i].len != len
  {
    if vs == [] then None
    else if vs[0].len == len then Some(0)
    else match FindVariant(vs[1..], len)
      case Some(i) => Some(i + 1)
      case None => None
  }

  /** Adding a variant for a field count that is not yet present keeps the variants distinct. */
  lemma AddVariantOk(vs: seq<ClassInfo>, c: ClassInfo)
    requires VariantsOk(vs) && SkipIdxOk(c)
    requires FindVariant(vs, c.len).None?
    ensures VariantsOk(vs + [c])
  {
  }
}
