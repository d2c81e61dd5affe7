# hessian.js transcoder core, modelled in Dafny

hessian.js reads and writes the Hessian binary serialization format used by
Java RPC frameworks. This project models the parts of it that turn values into
bytes and bytes back into values:

- **The Hessian 1.0 encoder and decoder** (`lib/v1/encoder.js`,
  `lib/v1/decoder.js`). Each is a class that appends to, or reads from, a
  byte buffer and keeps a table of objects already seen.
- **The Hessian 2.0 encoder and decoder** (`lib/v2/encoder.js`,
  `lib/v2/decoder.js`). These add the compact forms for ints, longs, strings
  and bytes, plus tables of types and class definitions.
- **`ByteV2`** (`lib/bytev2.js`). A cursor over a buffer, read through a
  DataView.
- **The helpers of `lib/utils.js`.** `handleLong` decides whether a 64-bit
  long fits a JavaScript number. `isSafeNumberString`, `getSerializer` and
  `addByteCodes` fill the decoders' dispatch tables.
- **The Rust transcoder** (`lib/v2rust/src/hessian`). It walks Hessian 2.0
  input and writes a flat *tag stream* into a shared output buffer:
  - `parse.rs` holds the reader;
  - `io.rs` holds the input cursor and the record writers;
  - `types.rs` holds the tags and the shape cache that lets repeated maps
    and classes be named by an index.
- **The JavaScript side of the transcoder** (`lib/v2rust/harness/index.js`).
  This is the `ShapeCache` and the tag reader `start`. The tag reader turns
  the tag stream back into JavaScript values.

Each source file has a module of its own:

| Module | Source | Form |
|---|---|---|
| `Bytes` | fixed-width integer codings | pure |
| `Utf8` | the one-unit-at-a-time UTF-8 coding | pure |
| `Wrappers` | `Option` and `Result` | pure |
| `Types` | `types.rs` | pure |
| `Output` | `OutPut` of `io.rs` | classes `ByteOutput` and `Ucs2Output` over arrays |
| `InputBuf` | `Input` of `io.rs` | class `Input` |
| `Parse` | `parse.rs` | class `Parser` |
| `Harness` | `ShapeCache` and `build` | class `ShapeCache` |
| `TagReader` | the closures of `start` | class `Reader` |
| `ReadBack` | how `Parse`'s output and `TagReader` fit together | pure |
| `ByteView` | `lib/bytev2.js` | class `ByteV2` |
| `Utils` | `lib/utils.js` | pure, plus class `ByteCodes` for `addByteCodes` |
| `JsValues` | the JavaScript values the encoders take | pure |
| `V1Encoder` | `lib/v1/encoder.js` | class `Encoder` |
| `V1Decoder` | `lib/v1/decoder.js` | class `Decoder` |
| `V1RoundTrip` | encoder-to-decoder properties of 1.0 | pure |
| `V2Encoder` | `lib/v2/encoder.js` | class `Encoder` |
| `V2Decoder` | `lib/v2/decoder.js` | class `Decoder` |
| `V2RoundTrip` | encoder-to-decoder properties of 2.0 | pure |

Every encoder and decoder class uses the same pattern:

- Each method is proved against a function of the old state. For example,
  `buf == old(buf) + Encode(v, old(Seen())).bytes`, or
  `Gives(r, pos, IntAt(data, old(pos)))`.
- The round-trip and invariant lemmas are stated about those functions.

A cursor past the end is undefined behaviour in Rust, or a RangeError in a
DataView. The model turns it into an `Err` or `ok == false` result, never into
a precondition.

**Two Hessian 2.0 dialects.** `lib/v2/encoder.js` and `parse.rs` write and
read the same dialect:

- `0x62`/`0x73` mark non-final byte and string chunks;
- `0x77` is a long in 32 bits;
- `0x4a`/`0x4b`/`0x52` mark back references.

`lib/v2/decoder.js`, as written, reads a different one:

- `0x41` and `0x52` are its non-final chunk codes;
- `0x4a`/`0x4b` are dates;
- `0x77` is a typed list;
- `0x59` is its 32-bit long.

`V2RoundTrip` proves the encoder/`parse.rs` round trips. It also proves where
the JavaScript 2.0 decoder agrees with the encoder: the compact forms. Finally,
it proves that the decoder fails, or dispatches elsewhere, on the forms where
the dialects part.

## Model

| member | source | states |
|---|---|---|
| Bytes.FromBEOfBE | lib/v2rust/src/hessian/io.rs:432-465 | reading back n big-endian bytes gives the value written modulo 256^n |
| Bytes.FromLEOfLE | lib/v2rust/src/hessian/io.rs:47-68 | reading back n little-endian bytes gives the value written modulo 256^n |
| Bytes.SignedBE | lib/v2rust/src/hessian/io.rs:451-465 | a signed n-byte value survives the big-endian encoding and the two's-complement reading (`read_i32`, `read_i64`) |
| Bytes.UnsignedBE | lib/v2rust/src/hessian/io.rs:432-460 | an unsigned value below 256^n survives the big-endian encoding |
| Bytes.UnsignedLE | lib/v2rust/src/hessian/io.rs:59-68 | an unsigned value below 256^n survives the little-endian encoding of the record writers |
| Bytes.SignedOfMod | lib/v2rust/src/hessian/io.rs:47-56 | writing a signed value as n bytes and reading it back as signed gives it back |
| Bytes.SignedRange | lib/v2rust/src/hessian/io.rs:439-465 | the two's-complement reading of n bytes lies in the signed n-byte range |
| Bytes.UnsignedOfSigned | lib/v2rust/src/hessian/io.rs:439-465 | cutting a signed reading back to n bytes gives the unsigned value again |
| Types.FromCode | lib/v2rust/src/hessian/types.rs:4-22 | a byte names a tag exactly when it is 1..17, and the tag's code is that byte |
| Types.CodesDistinct | lib/v2rust/src/hessian/types.rs:4-22 | the 17 tags are pairwise distinct and occupy exactly 1..17 |
| Types.EmptyState | lib/v2rust/src/hessian/types.rs:42-46 | a fresh cache state has no map or class shapes, keeps its bound, and satisfies the state invariant |
| Types.Variants | lib/v2rust/src/hessian/types.rs:42-46 | the variants cached for a class keep distinct field counts; a new class has none |
| Types.FindVariant | lib/v2rust/src/hessian/parse.rs:355-371 | the cached variant found has the field count looked for; none found means no variant has it |
| Types.AddVariantOk | lib/v2rust/src/hessian/parse.rs:374-388 | adding a variant for a field count not yet cached keeps the counts distinct |
| Output.RecordBytes | lib/v2rust/src/hessian/io.rs:101-203 | each record is its tag and then its fields in little-endian at their widths; a string record's word is start then end |
| Output.ByteOutput.Write | lib/v2rust/src/hessian/io.rs:85-88 | copies as much of `v` as fits at the cursor, moves the cursor by all of `v`, and fails only when the cursor is past the end |
| Output.ByteOutput.PushI32 | lib/v2rust/src/hessian/io.rs:101-107 | with the flag off nothing changes; otherwise the int record is written at the cursor, or the call fails and nothing changes |
| Output.ByteOutput.PushI64 | lib/v2rust/src/hessian/io.rs:108-115 | the long record, under the same flag and room rules |
| Output.ByteOutput.PushRef | lib/v2rust/src/hessian/io.rs:116-123 | the reference record, under the same rules |
| Output.ByteOutput.PushDate | lib/v2rust/src/hessian/io.rs:124-131 | the date record, under the same rules |
| Output.ByteOutput.PushF64 | lib/v2rust/src/hessian/io.rs:132-139 | the double record (its IEEE bits), under the same rules |
| Output.ByteOutput.PushNull | lib/v2rust/src/hessian/io.rs:140-146 | the null record, under the same rules |
| Output.ByteOutput.PushString | lib/v2rust/src/hessian/io.rs:147-154 | a string record: the mode, then start and end, under the same rules |
| Output.ByteOutput.PushBool | lib/v2rust/src/hessian/io.rs:155-161 | the bool record goes through the slice writer, so it can be cut short at the end of the buffer |
| Output.ByteOutput.PushMapHead | lib/v2rust/src/hessian/io.rs:162-169 | the map header with its offset word, under the same rules |
| Output.ByteOutput.PushObjectHead | lib/v2rust/src/hessian/io.rs:170-177 | the object header with its cache index, under the same rules |
| Output.ByteOutput.PushBytes | lib/v2rust/src/hessian/io.rs:178-186 | the bytes record: the start and length of an input slice |
| Output.ByteOutput.PushChunk | lib/v2rust/src/hessian/io.rs:187-195 | the chunk header: its kind and count |
| Output.ByteOutput.PushArrayHead | lib/v2rust/src/hessian/io.rs:196-203 | the array header with its length |
| Output.ByteOutput.SetU32 | lib/v2rust/src/hessian/io.rs:70-76 | with the flag off nothing changes; otherwise the four bytes at `start` are replaced by `v` in little-endian, and the call needs `start <= cursor` and four bytes of room |
| Output.ByteOutput.PushMapType | lib/v2rust/src/hessian/io.rs:205-237 | the trailer of a map: a known signature's index; else, when the cache is full, the written-out keys; else the shape registered with the reader and its new index remembered |
| Output.Ucs2Output.WriteU16 | lib/v2rust/src/hessian/io.rs:256-260 | stores one code unit at the cursor and advances; a full pool fails |
| InputBuf.Input.constructor | lib/v2rust/src/hessian/parse.rs:633-634 | the input holds the bytes with its cursor at the given offset |
| InputBuf.Input.SetRpos | lib/v2rust/src/hessian/io.rs:486-489 | the cursor moves to `rpos`, never past the end |
| InputBuf.Input.Skip | lib/v2rust/src/hessian/io.rs:414-417 | the cursor moves by `len`, widened with 64-bit wrap-around, so a negative `len` moves it back |
| InputBuf.Input.ReadU8 | lib/v2rust/src/hessian/io.rs:419-424 | reads one byte and advances exactly when a byte is there |
| InputBuf.Input.ReadBE | lib/v2rust/src/hessian/io.rs:431-460 | a big-endian unsigned read of n bytes, bounded by 256^n, exactly when the n bytes are there |
| InputBuf.Input.ReadU16 | lib/v2rust/src/hessian/io.rs:431-436 | the 16-bit big-endian read |
| InputBuf.Input.ReadU32 | lib/v2rust/src/hessian/io.rs:443-448 | the 32-bit big-endian read |
| InputBuf.Input.ReadU64 | lib/v2rust/src/hessian/io.rs:455-460 | the 64-bit big-endian read |
| InputBuf.Input.ReadSigned | lib/v2rust/src/hessian/io.rs:426-465 | the `as i8/i16/i32/i64` reinterpretation of the unsigned reads, within the signed range |
| InputBuf.Input.Latin1Prefix | lib/v2rust/src/hessian/io.rs:280-304 | the block scan takes only ASCII bytes, in whole 8-byte blocks, and over an all-ASCII run it takes all the whole blocks |
| InputBuf.Input.ScanChars | lib/v2rust/src/hessian/io.rs:359-388 | the character loop of `read_utf8` agrees with the reference scan `Utf8.Scan`: its byte count and whether a surrogate was seen |
| InputBuf.Input.ReadUtf8 | lib/v2rust/src/hessian/io.rs:352-412 | a string of `size` characters produces one string record: a Latin-1 pool range (tag 17) when every byte is ASCII, an input range (tag 16) when it holds a surrogate, else a UTF-16 pool range (tag 4) |
| InputBuf.Input.EmitLatin1 | lib/v2rust/src/hessian/io.rs:389-398 | copies the ASCII bytes to the Latin-1 pool and records its range |
| InputBuf.Input.ReadUcs2 | lib/v2rust/src/hessian/io.rs:307-349 | decodes the characters into the UTF-16 pool and records the pool range |
| InputBuf.Input.DecodeToPool | lib/v2rust/src/hessian/io.rs:316-345 | the pool holds exactly the checked decoding `Utf8.DecodeUnits` of the characters, and the cursor ends after them |
| InputBuf.Utf8ResultFacts | lib/v2rust/src/hessian/io.rs:352-412 | a successful string read stays within the input and appends exactly one nine-byte record |
| Parse.CodeFamiliesDisjoint | lib/v2rust/src/hessian/parse.rs:579-621 | the byte families `read` dispatches on are pairwise disjoint |
| Parse.IntValue | lib/v2rust/src/hessian/parse.rs:122-135 | `read_int_value`: succeeds exactly when the form's bytes are there; the value is a signed 32-bit int |
| Parse.LongValue | lib/v2rust/src/hessian/parse.rs:143-160 | `read_long_value`: a signed 64-bit value for a long code; any other code is the long error |
| Parse.RefIdValue | lib/v2rust/src/hessian/parse.rs:464-476 | `read_ref_id`: an unsigned 32-bit id for a reference code; any other code is an error |
| Parse.DecimalInjective | lib/v2rust/src/hessian/parse.rs:218-223 | distinct int and long keys get distinct key texts (`to_string`) |
| Parse.DecimalSign | lib/v2rust/src/hessian/parse.rs:218-223 | a key text starts with '-' exactly for a negative number, and the rest is its digits |
| Parse.KeptFields | lib/v2rust/src/hessian/parse.rs:311-340 | the field names an object shape keeps are the names not starting with `this$`, in order |
| Parse.SkipPositionsOk | lib/v2rust/src/hessian/parse.rs:311-340 | the skip list is strictly increasing and holds exactly the positions of the `this$` names |
| Parse.FieldSnoc | lib/v2rust/src/hessian/parse.rs:318-335 | one more field name extends the kept names, the skip list and the shape signature by at most that name |
| Parse.CoherentAddMap | lib/v2rust/src/hessian/io.rs:226-233 | registering a new map shape under the next index keeps every cached index pointing at its shape |
| Parse.CoherentAddClass | lib/v2rust/src/hessian/parse.rs:374-388 | registering a new class variant keeps the caches coherent |
| Parse.ShapeCoherent | lib/v2rust/src/hessian/io.rs:205-237 | `push_map_type` keeps the Rust and JavaScript caches coherent |
| Parse.ShapeWritten | lib/v2rust/src/hessian/io.rs:205-237 | `push_map_type` only extends the output, and leaves the trailer the tag reader looks for |
| Parse.ChunkPatched | lib/v2rust/src/hessian/parse.rs:258-288 | a chunk header, backpatched after its parts, is in place at its start |
| Parse.Parser.constructor | lib/v2rust/src/hessian/parse.rs:624-645 | a parser over the given input, output and caches, with no names and no definitions |
| Parse.Parser.PeekU8 | lib/v2rust/src/hessian/parse.rs:429-433 | `get_u8`: the byte at the cursor, not consumed |
| Parse.Parser.ExpectLabel | lib/v2rust/src/hessian/parse.rs:73-95 | `assert`: consumes one byte, which must be one of the labels |
| Parse.Parser.ReadBoolValue | lib/v2rust/src/hessian/parse.rs:98-101 | 'T' is true and 'F' false; anything else fails |
| Parse.Parser.ReadBool | lib/v2rust/src/hessian/parse.rs:104-111 | a bool record of 1 or 0 |
| Parse.Parser.ReadNull | lib/v2rust/src/hessian/parse.rs:113-120 | 'N' becomes a null record |
| Parse.Parser.ReadIntValue | lib/v2rust/src/hessian/parse.rs:122-135 | reads exactly what `IntValue` says, and moves past it |
| Parse.Parser.ReadInt | lib/v2rust/src/hessian/parse.rs:137-141 | the int record of `IntValue` |
| Parse.Parser.ReadLongValue | lib/v2rust/src/hessian/parse.rs:143-160 | reads exactly what `LongValue` says |
| Parse.Parser.ReadLong | lib/v2rust/src/hessian/parse.rs:162-165 | the long record of `LongValue` |
| Parse.Parser.ReadRefId | lib/v2rust/src/hessian/parse.rs:464-476 | reads exactly what `RefIdValue` says |
| Parse.Parser.ReadRef | lib/v2rust/src/hessian/parse.rs:479-482 | the reference record of `RefIdValue` |
| Parse.Parser.ReadDouble | lib/v2rust/src/hessian/parse.rs:167-185 | each double form consumes its width; 'D' yields its 64 bits, 0x67 is zero |
| Parse.Parser.ReadDate | lib/v2rust/src/hessian/parse.rs:187-191 | 'd' and 64 bits of milliseconds become a date record |
| Parse.Parser.ReadUtf8Str | lib/v2rust/src/hessian/parse.rs:193-201 | a string of the given count, or of a 16-bit count read first, returning the input range it spans |
| Parse.Parser.ReadStringKey | lib/v2rust/src/hessian/parse.rs:244-256 | a key name must be one final chunk (0x00..0x1f or 'S') |
| Parse.Parser.ReadString | lib/v2rust/src/hessian/parse.rs:258-288 | a final chunk is one string record; an 's' chain is a chunk header, with its count patched in, followed by one record per chunk |
| Parse.Parser.StringChunks | lib/v2rust/src/hessian/parse.rs:265-285 | the chunks after the header: `6 + 9 * count` bytes of output, headed by a kind-2 chunk header |
| Parse.Parser.ReadBytes | lib/v2rust/src/hessian/parse.rs:537-577 | a short chunk is one bytes record for its input slice; 'b'/'B' chains are a kind-1 chunk header and its counted parts |
| Parse.Parser.ByteChunk | lib/v2rust/src/hessian/parse.rs:551-560 | one chunk: a bytes record naming its input range, and the cursor moved past it |
| Parse.Parser.ReadType | lib/v2rust/src/hessian/parse.rs:290-308 | 't', 'T' and 'u' are a type (consumed); anything else is left in place and the output is unchanged |
| Parse.Parser.ReadMapKey | lib/v2rust/src/hessian/parse.rs:203-242 | a key is 'T'/'F'/'N' or a number, consumed into its fixed or decimal text; a string, object or reference key is left for the caller; arrays and maps fail |
| Parse.Parser.GenClsInfo | lib/v2rust/src/hessian/parse.rs:311-340 | reads the field names with output stopped; when the signature of the kept names is well-formed UTF-8 it registers that shape with the reader and records the skip list and byte length; otherwise (`from_utf8(...).unwrap()` panics) it fails with nothing registered |
| Parse.Parser.ReadObjectDef | lib/v2rust/src/hessian/parse.rs:345-395 | a cached variant with the same field count is reused and its names skipped; otherwise a new variant is registered; either way it becomes the next definition |
| Parse.Parser.Read | lib/v2rust/src/hessian/parse.rs:579-621 | one value per leading code; an unknown code fails; the caches only grow and stay coherent |
| Parse.Parser.ReadObject | lib/v2rust/src/hessian/parse.rs:407-426 | any number of definitions, then an instance of one met so far: an object header with its shape index, then exactly as many values as the definition has fields, read one after the other from the instance's body to the cursor, each extending the output, a field at a skip position leaving it as it was |
| Parse.Parser.ReadInstance | lib/v2rust/src/hessian/parse.rs:412-422 | the instance names a definition; after its header, one value per field of the definition, in input order after the class index; a field at a skip position is read with output stopped and leaves the output and its cursor unchanged |
| Parse.Parser.ReadValues | lib/v2rust/src/hessian/parse.rs:415-421 | `count` values read back to back, each starting with a value code where the previous one ended; each extends the output, and one at a skip position leaves it unchanged |
| Parse.Parser.ReadField | lib/v2rust/src/hessian/parse.rs:415-420 | one field value; at a skip position it is read with output stopped and leaves the output and its cursor as they were |
| Parse.LaidExtends | lib/v2rust/src/hessian/parse.rs:415-421 | values laid one after another only extend the output |
| Parse.SkippedRunSilent | lib/v2rust/src/hessian/parse.rs:415-419 | a run of values all at skip positions leaves the output and its cursor as they were |
| Parse.Parser.ReadArray | lib/v2rust/src/hessian/parse.rs:435-462 | the length is the one the input gives ('n' a byte, 'l' a 32-bit word, else 0, after a 'V' type; or the second int after two, cut to 32 bits); an array header with it, then exactly that many values read back to back from the end of the length; after a 'V' head one more byte is skipped |
| Parse.Parser.ArrayBody | lib/v2rust/src/hessian/parse.rs:453-456 | the array header, then `n` values laid after it |
| Parse.Parser.ReadHashmap | lib/v2rust/src/hessian/parse.rs:520-526 | 'H' and then a map whose header, entries and trailer are in place |
| Parse.Parser.ReadRealMap | lib/v2rust/src/hessian/parse.rs:528-535 | 'M', an optional type read with output stopped, then the map |
| Parse.Parser.ReadMap | lib/v2rust/src/hessian/parse.rs:485-518 | a map header whose offset points at the trailer, the entries, and the signature of the keys as the shape |
| Parse.Parser.ReadEntries | lib/v2rust/src/hessian/parse.rs:490-507 | the entries up to 'z', each key's text and a separator pushed on the names |
| Parse.Parser.PushKv | lib/v2rust/src/hessian/parse.rs:63-71 | `push_kv`: the key's text and a separator go on the names stack, then the key object if any, then the value |
| Parse.Parser.PatchMapHead | lib/v2rust/src/hessian/parse.rs:509-510 | the header at `s` gets the offset from `s` to the cursor |
| Parse.Parser.WriteShape | lib/v2rust/src/hessian/parse.rs:511-515 | the trailer is written and a newly registered signature is remembered under its index |
| Parse.FromByteBuffer | lib/v2rust/src/hessian/parse.rs:624-655 | one value from the offset; the caches stay coherent and only grow; the pool lengths are returned |
| Harness.Split | lib/v2rust/harness/index.js:93 | `split(',')` yields at least one piece, none holding a separator |
| Harness.JoinSplit | lib/v2rust/harness/index.js:93 | joining the pieces of a split gives the input back |
| Harness.NonEmpty | lib/v2rust/harness/index.js:93 | `filter(Boolean)` keeps exactly the non-empty pieces |
| Harness.BuildShape | lib/v2rust/harness/index.js:92-99 | a shape is built exactly when the non-empty keys number `fieldLen` and none holds a quote, and it keeps those keys |
| Harness.BuildShapeOfSignature | lib/v2rust/harness/index.js:92-99 | the signature the parser writes for non-empty keys passes the checks and gives back exactly those keys |
| Harness.ShapeCache.constructor | lib/v2rust/harness/index.js:57-62 | empty object and map lists under the given bound |
| Harness.ShapeCache.IsCacheOverflow | lib/v2rust/harness/index.js:136-138 | the map list has reached its bound |
| Harness.ShapeCache.Clear | lib/v2rust/harness/index.js:144-147 | both lists emptied |
| Harness.ShapeCache.SetCache | lib/v2rust/harness/index.js:154-167 | a shape that fails the checks is refused with nothing registered; else it is appended to its list and its index returned |
| Harness.CheckBuild | lib/v2rust/harness/index.js:525-533 | the bound is 20 by default, must be a number, and must not exceed `maxU32` |
| Harness.CheckPreset | lib/v2rust/harness/index.js:555-567 | the offset must be a number; the offset and input length at most `maxU32`; the input to parse at most 3/5 of the output |
| TagReader.Scalar | lib/v2rust/harness/index.js:309-400 | how each fixed-width record reads: its tag picks the reader, which reads its payload |
| TagReader.ScalarOfRecord | lib/v2rust/harness/index.js:309-400 | the tag reader inverts `Output.RecordBytes` for every fixed-width record |
| TagReader.ScalarOfInt | lib/v2rust/harness/index.js:371-375 | an int record reads back as its value |
| TagReader.ScalarOfLong | lib/v2rust/harness/index.js:376-380 | a long record reads back as its value |
| TagReader.ScalarOfDate | lib/v2rust/harness/index.js:386-390 | a date record reads back as its milliseconds |
| TagReader.ScalarOfRef | lib/v2rust/harness/index.js:391-395 | a reference record reads back as the pooled object |
| TagReader.ScalarOfBool | lib/v2rust/harness/index.js:309-314 | a bool record reads back as its truth value |
| TagReader.ScalarOfBytes | lib/v2rust/harness/index.js:396-401 | a bytes record reads back as its input slice |
| TagReader.ScalarOfString | lib/v2rust/harness/index.js:315-328 | a string record reads back as its pool substring |
| TagReader.RangeOfDecoded | lib/v2rust/harness/index.js:329-360 | the byte range the transcoder consumed for n characters decodes to the same code units |
| TagReader.RangeOfRaw | lib/v2rust/harness/index.js:329-360 | a string written one code unit at a time decodes back whole |
| TagReader.KeysOfSignature | lib/v2rust/harness/index.js:69-86 | the key loop, corrected, reads back the keys of a signature the parser wrote, in order |
| TagReader.Reader.constructor | lib/v2rust/harness/index.js:474-484 | `setState`: the cursor at 0 and an empty reference pool over one parse's output |
| TagReader.Reader.Read | lib/v2rust/harness/index.js:427-462 | each tag goes to its reader; an unknown tag throws |
| TagReader.Reader.ReadScalar | lib/v2rust/harness/index.js:309-400 | the fixed-width readers give `Scalar` and advance past the payload |
| TagReader.Reader.DecodeRange | lib/v2rust/harness/index.js:332-356 | the decoding loop agrees with the reference decode of the input range |
| TagReader.Reader.ReadArray | lib/v2rust/harness/index.js:361-370 | the element count, a pool slot for the list, then that many values |
| TagReader.Reader.ReadChunk | lib/v2rust/harness/index.js:402-426 | one part is returned as is; otherwise parts are concatenated (kind 1) or joined (kind 2); another kind throws |
| TagReader.Reader.ReadObject | lib/v2rust/harness/index.js:278-283 | the shape index names the record constructor; an index with no shape throws |
| TagReader.Reader.ReadShaped | lib/v2rust/harness/index.js:100-131 | the generated constructor: a pool slot, then one entry per key |
| TagReader.Reader.ReadMap | lib/v2rust/harness/index.js:284-308 | the trailer found through the header offset names a cached shape (8) or written-out keys (7); reading resumes after it |
| TagReader.Reader.ReadAnonymous | lib/v2rust/harness/index.js:63-91 | one entry per key, stepping through the keys with the corrected `NextStart`, then the check that the keys number `fieldLen` |
| ReadBack.MapTrailerFound | lib/v2rust/harness/index.js:284-300 | after the parser writes a map, the tag reader finds the trailer where the header points, and the resume point after it |
| ReadBack.CachedTrailer | lib/v2rust/harness/index.js:297-300 | a cached trailer gives the shape index the parser wrote |
| ReadBack.WrittenTrailer | lib/v2rust/harness/index.js:291-296 | a written-out trailer gives the key count and the signature the parser wrote |
| ByteView.ByteAt | lib/bytev2.js:14-19 | the byte at a position, or a range error past the end |
| ByteView.UInt16At | lib/bytev2.js:35-39 | `getUint16`: two big-endian bytes, below 2^16, exactly when they are there |
| ByteView.Int32At | lib/bytev2.js:49-53 | `getInt32`: a signed 32-bit big-endian value exactly when four bytes are there |
| ByteView.Int64At | lib/bytev2.js:21-25 | `getBigInt64`: a signed 64-bit big-endian value exactly when eight bytes are there |
| ByteView.Int32Written | lib/bytev2.js:49-53 | a signed 32-bit value written big-endian reads back as itself |
| ByteView.Int64Written | lib/bytev2.js:21-25 | a signed 64-bit value written big-endian reads back as itself |
| ByteView.ByteV2.constructor | lib/bytev2.js:8-12 | the reader holds the buffer's own bytes (the corrected view, `ByteView.ByteAt`) with its cursor at 0 |
| ByteView.ByteV2.Get | lib/bytev2.js:14-17 | the byte at the cursor; the cursor moves even when the read fails |
| ByteView.ByteV2.GetAt | lib/bytev2.js:18 | the byte at `cursor`; the reader's cursor stays |
| ByteView.ByteV2.GetChar | lib/bytev2.js:55-58 | the byte at the cursor as one code unit |
| ByteView.ByteV2.GetUInt16 | lib/bytev2.js:35-39 | `UInt16At` at the cursor, moving it by two on success |
| ByteView.ByteV2.GetInt | lib/bytev2.js:49-53 | `Int32At` at the cursor, moving it by four on success |
| ByteView.ByteV2.GetLong | lib/bytev2.js:21-25 | `Int64At` at the cursor, moving it by eight on success |
| ByteView.ByteV2.Position | lib/bytev2.js:41-43 | the cursor |
| ByteView.ByteV2.Skip | lib/bytev2.js:45-47 | the cursor moves by `len`, unchecked |
| ByteView.ByteV2.DecodeFrom | lib/bytev2.js:68-90 | the decoding loop succeeds exactly when the checked decoder `Utf8.DecodeUnits` does, with its result |
| ByteView.ByteV2.GetRawStringAt | lib/bytev2.js:60-93 | with an index: the decoded characters; the cursor stays |
| ByteView.ByteV2.GetRawString | lib/bytev2.js:60-93 | without an index: decodes at the cursor and moves it past the bytes used, only on success |
| ByteView.RawStringReadsBack | lib/bytev2.js:60-93 | a string written one code unit at a time decodes back whole, with its byte count |
| Utf8.DecodeRawString | lib/v1/decoder.js:231-239 | decoding the raw bytes of a string gives the string back, wherever it sits |
| Utf8.EncodeUnitDecodes | lib/bytev2.js:73-89 | each code unit's one-, two- or three-byte sequence decodes back to it |
| Utf8.DecodeFails | lib/bytev2.js:70-90 | the checked decoder fails at a missing byte, a bad lead byte or a truncated sequence |
| Utf8.Scan | lib/v2rust/src/hessian/io.rs:359-388 | the reference scan of `read_utf8`: the bytes used and whether a surrogate was seen |
| Utf8.ScanLatin1 | lib/v2rust/src/hessian/io.rs:359-389 | the scan uses one byte per character exactly when every character is ASCII |
| Utf8.ScanRawString | lib/v2rust/src/hessian/io.rs:359-388 | scanning a written string gives its byte length and whether it holds a surrogate |
| Utf8.RawAscii | lib/v2rust/src/hessian/io.rs:389-398 | a string takes one byte per character exactly when all its units are ASCII, and then those bytes |
| Utf8.EncodeUnitWellFormed | lib/v2rust/src/hessian/parse.rs:328-332 | a code unit's bytes followed by well-formed UTF-8 are well-formed exactly when the unit is not a surrogate |
| Utf8.RawStringWellFormed | lib/v2rust/src/hessian/parse.rs:328-332 | a string's raw bytes are well-formed UTF-8, as `String::from_utf8` demands, exactly when it holds no surrogate |
| Utf8.ClassifyRaw | lib/v2rust/src/hessian/io.rs:352-412 | a written string is classified as Latin-1 exactly when ASCII and as holding a surrogate exactly when it does, and the decoder gives it back |
| Utils.IsSafeNumberString | lib/utils.js:75-84 | after an optional '-', the text is shorter than "9007199254740991", or as long and not above it in string order |
| Utils.SafeNumberStringMeansSafe | lib/utils.js:66-84 | on the decimal text of an integer, the test holds exactly when the magnitude is at most 2^53 - 1 |
| Utils.DigitOrder | lib/utils.js:79-80 | on digit strings of one length, string order is numeric order |
| Utils.HandleLong | lib/utils.js:32-43 | a long is returned as a number only when it is within ±2^53, and otherwise as its decimal text (corrected test) |
| Utils.HandleLongAgrees | lib/utils.js:33-36 | away from a high word of ±2^21, the written test holds exactly when the value is beyond ±2^53 |
| Utils.HandleLongMatchesSafeText | lib/utils.js:32-84 | the corrected `handleLong` and `isSafeNumberString` draw the same line, except at ±2^53 |
| Utils.GetSerializer | lib/utils.js:15-26 | a registered type gets "write" + its entry; otherwise a type starting with '[' gets "writeArray" and every other type "writeObject" |
| Utils.SerializerOfArrayTypes | lib/utils.js:20-25 | with no entry, array types are written as arrays and other types as objects |
| Utils.RegisterAt | lib/utils.js:51-64 | after one call, each named code maps to the method, and every other code keeps its entry or absence |
| Utils.LaterCallWins | lib/utils.js:51-64 | a later call naming a code overrides an earlier one |
| Utils.ByteCodes.AddByteCodes | lib/utils.js:51-64 | the table after the loops is `Register` of the table before |
| Utils.ByteCodes.FillSpan | lib/utils.js:57-59 | the inner loop maps every code from start to end to the method |
| JsValues.Keys | lib/v2/encoder.js:495 | `Object.keys`: the keys of the fields, in order |
| JsValues.FieldIndex | lib/v2/encoder.js:512-515 | the first field with the key, or -1 when there is none |
| JsValues.IndexOf | lib/v1/encoder.js:238 | `indexOf`: the first equal element, or -1 when there is none |
| JsValues.ChunkLen | lib/v2/encoder.js:331-340 | a chunk takes 0x8000 units, one fewer when the last is a high surrogate, so a chunk never splits a surrogate pair |
| JsValues.SortKeysSorted | lib/v2/encoder.js:580 | `keys.sort()`: ascending, and a permutation of the keys |
| JsValues.ClassKinds | lib/utils.js:15-26 | with the library's serializer map, `getSerializer` gives "writeArray" exactly for a class starting with '[', and "writeObject" exactly for the other classes the map lacks |
| JsValues.Put | lib/v1/decoder.js:387-390 | `obj[key] = value`: an existing key keeps its place and takes the new value; a new key goes at the end |
| V1Encoder.Encoder.constructor | lib/v1/encoder.js:20-27 | an empty buffer and no objects seen |
| V1Encoder.Encoder.Reset | lib/v1/encoder.js:51-55 | an empty buffer and no objects seen |
| V1Encoder.Encoder.WriteNull | lib/v1/encoder.js:61-64 | appends 'N' |
| V1Encoder.Encoder.WriteBool | lib/v1/encoder.js:71-74 | appends 'T' or 'F' |
| V1Encoder.Encoder.WriteInt | lib/v1/encoder.js:80-86 | appends 'I' and 32 bits exactly when the value fits; otherwise refuses and writes nothing |
| V1Encoder.Encoder.WriteLong | lib/v1/encoder.js:93-98 | appends 'L' and 64 bits |
| V1Encoder.Encoder.WriteDate | lib/v1/encoder.js:117-127 | appends 'd' and 64 bits of milliseconds |
| V1Encoder.Encoder.WriteBytes | lib/v1/encoder.js:134-151 | appends 'b' chunks of 0x8000 while more remain, then the 'B' chunk |
| V1Encoder.Encoder.WriteString | lib/v1/encoder.js:158-191 | appends 's' chunks that never split a surrogate pair, then the 'S' chunk |
| V1Encoder.Encoder.WriteType | lib/v1/encoder.js:202-220 | appends 't', the 16-bit length and the raw name |
| V1Encoder.Encoder.WriteRef | lib/v1/encoder.js:229-235 | appends 'R' and the 32-bit id |
| V1Encoder.Encoder.CheckRef | lib/v1/encoder.js:237-249 | an object seen before is written as a reference to its first index; a new one is recorded and nothing is written |
| V1Encoder.Encoder.Write | lib/v1/encoder.js:432-512 | appends `Encode` of the value and records what it records: an array, list or object is checked against the objects seen, and so is a `{$class, $: null}` whose class `getSerializer` sends to `writeArray`; any other null-valued object, and a plain object with a string `$class` and no `$`, is 'N' with nothing recorded |
| V1Encoder.Encoder.WriteListBegin | lib/v1/encoder.js:344-354 | 'V', the type unless it is empty, then 'l' and the length |
| V1Encoder.Encoder.WriteArray | lib/v1/encoder.js:386-421 | a reference to a list seen before; otherwise the head, the items and 'z' |
| V1Encoder.Encoder.WriteNullArray | lib/v1/encoder.js:386-398 | `writeArray` of an object whose `$` is null: a reference when the object was seen before; otherwise it is recorded and 'N' written |
| V1Encoder.Encoder.WriteObject | lib/v1/encoder.js:309-340 | appends `EncodeWriteObject`: 'N' with nothing recorded for an object whose `$class` is a string and whose `$` is missing or null; otherwise `WriteMap` |
| V1Encoder.Encoder.WriteMap | lib/v1/encoder.js:318-340 | past the null check: a reference to an object seen before; otherwise it is recorded and written as a hash map (empty type) or a classed object |
| V1Encoder.PlainNullCheck | lib/v1/encoder.js:309-315 | a plain object is written as 'N', leaving the object list alone, exactly when it has a string `$class` and no `$`; any other is a reference or a map |
| V1Encoder.Encoder.WriteHashMap | lib/v1/encoder.js:257-283 | 'M', the empty type, the sorted keys with their values, 'z' |
| V1Encoder.Encoder.WriteClassed | lib/v1/encoder.js:286-300 | 'M', the class as a type, the keys in `Object.keys` order with their values, 'z' |
| V1Encoder.Encoder.WriteEntries | lib/v1/encoder.js:274-280 | each key as a string, then its value |
| V1Encoder.StringFormStep | lib/v1/encoder.js:164-180 | one full 's' chunk, then the form of the rest |
| V1Encoder.BytesFormStep | lib/v1/encoder.js:137-144 | one full 'b' chunk, then the form of the rest |
| V1Decoder.ReadNullAt | lib/v1/decoder.js:82-85 | 'N' is null; anything else is a label error |
| V1Decoder.ReadBoolAt | lib/v1/decoder.js:102-106 | 'T' is true and 'F' false |
| V1Decoder.ReadIntAt | lib/v1/decoder.js:123-127 | 'I' and a signed 32-bit word |
| V1Decoder.ReadLongAt | lib/v1/decoder.js:143-147 | 'L' and a signed 64-bit word, through the corrected `handleLong` (`Utils.HandleLong`) |
| V1Decoder.ReadDateAt | lib/v1/decoder.js:184-190 | 'd' and 64-bit milliseconds, through the corrected `handleLong` (`Utils.HandleLong`) |
| V1Decoder.ReadBytesAt | lib/v1/decoder.js:209-224 | 'b' chunks, then the 'B' chunk, concatenated |
| V1Decoder.ReadStringAt | lib/v1/decoder.js:253-271 | 's' chunks, then the 'S' chunk; any other code is an error |
| V1Decoder.ReadTypeAt | lib/v1/decoder.js:287-299 | 't', a 16-bit length and the name's bytes |
| V1Decoder.ReadLengthAt | lib/v1/decoder.js:305-310 | 'l' and an unsigned 32-bit word |
| V1Decoder.ReadRefIdAt | lib/v1/decoder.js:520-523 | 'R' and a signed 32-bit word |
| V1Decoder.DecodeAt | lib/v1/decoder.js:534-547 | `read`: the reader `BYTE_CODES` names; the reference list only grows |
| V1Decoder.ReadObjectAt | lib/v1/decoder.js:355-399 | an object registered in the reference list, and its fields until 'z' |
| V1Decoder.ReadArrayAt | lib/v1/decoder.js:449-490 | a list registered in the reference list; the length given, or values until 'z' |
| V1Decoder.DecodeLeaf | lib/v1/decoder.js:534-547 | a scalar's leading byte goes to that scalar's reader, and nothing is registered |
| V1Decoder.DecodeNode | lib/v1/decoder.js:534-547 | 'M', 'V' and 'R' go to the object, list and reference readers |
| V1Decoder.RegisteredIsTable | lib/v1/decoder.js:87-527 | the `addByteCodes` calls build exactly the dispatch table used by `read` |
| V1Decoder.Decoder.constructor | lib/v1/decoder.js:12-17 | reads the buffer from the start with no references |
| V1Decoder.Decoder.Init | lib/v1/decoder.js:37-40 | reads a new buffer from the start; the references are kept |
| V1Decoder.Decoder.Clean | lib/v1/decoder.js:45-50 | an empty buffer and no references |
| V1Decoder.Decoder.AddRef | lib/v1/decoder.js:29-31 | the object takes the next reference number |
| V1Decoder.Decoder.CheckLabel | lib/v1/decoder.js:58-66 | consumes one byte, which must be one of the labels |
| V1Decoder.Decoder.ReadNull | lib/v1/decoder.js:82-85 | gives `ReadNullAt` and moves past it |
| V1Decoder.Decoder.ReadBool | lib/v1/decoder.js:102-106 | gives `ReadBoolAt` |
| V1Decoder.Decoder.ReadInt | lib/v1/decoder.js:123-127 | gives `ReadIntAt` |
| V1Decoder.Decoder.ReadLong | lib/v1/decoder.js:143-147 | gives `ReadLongAt` |
| V1Decoder.Decoder.ReadDouble | lib/v1/decoder.js:163-167 | gives `ReadDoubleAt` |
| V1Decoder.Decoder.ReadDate | lib/v1/decoder.js:184-190 | gives `ReadDateAt` |
| V1Decoder.Decoder.ReadBytes | lib/v1/decoder.js:209-224 | the chunk loop gives `BytesFrom` |
| V1Decoder.Decoder.ReadUtf8String | lib/v1/decoder.js:231-239 | a count, then that many code units decoded |
| V1Decoder.Decoder.ReadString | lib/v1/decoder.js:253-271 | the chunk loop gives `StringFrom` |
| V1Decoder.Decoder.ReadType | lib/v1/decoder.js:287-299 | the type name, or "" when skipped |
| V1Decoder.Decoder.ReadLength | lib/v1/decoder.js:305-310 | gives `ReadLengthAt` |
| V1Decoder.Decoder.ReadRefId | lib/v1/decoder.js:520-523 | gives `ReadRefIdAt` |
| V1Decoder.Decoder.ReadRef | lib/v1/decoder.js:503-510 | the object registered under the id read |
| V1Decoder.Decoder.Read | lib/v1/decoder.js:534-547 | gives `DecodeAt` and the references it leaves |
| V1Decoder.Decoder.ReadObject | lib/v1/decoder.js:355-399 | gives `ReadObjectAt` |
| V1Decoder.Decoder.ReadSparseObject | lib/v1/decoder.js:320-342 | pairs until 'z', nothing registered |
| V1Decoder.Decoder.ReadArray | lib/v1/decoder.js:449-490 | gives `ReadArrayAt` |
| V1Decoder.Decoder.ReadNoLengthArray | lib/v1/decoder.js:422-436 | values until 'z', nothing registered |
| V1RoundTrip.NullReadsBack | lib/v1/encoder.js:61-64 | 'N' reads back as null through `readNull` |
| V1RoundTrip.BoolReadsBack | lib/v1/encoder.js:71-74 | a boolean reads back as itself |
| V1RoundTrip.IntReadsBack | lib/v1/encoder.js:80-86 | an int that fits 32 bits reads back as itself |
| V1RoundTrip.LongReadsBack | lib/v1/encoder.js:93-98 | a long reads back through `handleLong` |
| V1RoundTrip.DateReadsBack | lib/v1/encoder.js:117-127 | a date reads back as its milliseconds, through `handleLong` |
| V1RoundTrip.RefReadsBack | lib/v1/encoder.js:229-235 | a reference reads back as the id written |
| V1RoundTrip.BytesReadsBack | lib/v1/encoder.js:134-151 | `writeBytes` reads back through `readBytes` |
| V1RoundTrip.StringReadsBack | lib/v1/encoder.js:158-191 | `writeString` reads back through `readString` |
| V1RoundTrip.TypeReadsBack | lib/v1/encoder.js:202-220 | an ASCII type name reads back through `readType` |
| V1RoundTrip.TypeCountMismatch | lib/v1/encoder.js:211-215 | a non-ASCII type name is written with its character count but its UTF-8 bytes |
| V1RoundTrip.FlatReadsBack | lib/v1/encoder.js:432-512 | every flat value written by `write` is read back by `read` as the expected value, with nothing registered |
| V1RoundTrip.LengthReadsBack | lib/v1/encoder.js:351-352 | a 32-bit length after 'l' reads back as itself |
| V1RoundTrip.ItemsReadBack | lib/v1/encoder.js:412-418 | the items of a list read back in order, and the list takes its slot |
| V1RoundTrip.ListReadsBack | lib/v1/encoder.js:386-421 | a new list of flat items reads back as those items, registered as the next reference |
| V1RoundTrip.RepeatReadsBack | lib/v1/encoder.js:237-249 | a list, map or object written a second time (not one that `writeObject` writes as null) is a reference that reads back as the object first read |
| V2Encoder.ObjectBegin | lib/v2/encoder.js:457-482 | the class is defined and recorded; only the class tables change, and they only grow |
| V2Encoder.Encode | lib/v1/encoder.js:432-512 | what `write` appends keeps the tables valid and only grows them |
| V2Encoder.EncodeList | lib/v1/encoder.js:386-421 | the same for lists |
| V2Encoder.EncodeWriteObject | lib/v1/encoder.js:309-340 | the same for `writeObject`, null check included |
| V2Encoder.EncodeMap | lib/v1/encoder.js:318-340 | the same for `writeObject` past its null check: a reference, a hash map or a classed object |
| V2Encoder.PlainNullCheck | lib/v1/encoder.js:309-315 | in 2.0 too, a plain object is 'N', the tables unchanged, exactly when it has a string `$class` and no `$`; any other is a reference or a map |
| V2Encoder.BytesFormFinal | lib/v2/encoder.js:263-292 | up to 15 bytes are written in the short form; otherwise 'B', the length and the bytes |
| V2Encoder.StringFormFinal | lib/v2/encoder.js:323-362 | up to 31 units are written in the short form; otherwise 'S', the length and the units |
| V2Encoder.BytesFormHead | lib/v2/encoder.js:263-292 | a bytes form starts with 'b' before a full chunk, else with the final chunk's code |
| V2Encoder.StringFormHead | lib/v2/encoder.js:323-362 | a string form starts with 's' before a full chunk, else with the final chunk's code |
| V2Encoder.TypeOutTwice | lib/v2/encoder.js:385-412 | a new type is written in full and recorded; written again it is its index |
| V2Encoder.ListHeadCases | lib/v2/encoder.js:528-548 | an untyped list is 'V' and the length; a known type is 'v', its index and the length; a new type is 'V', the type and the length |
| V2Encoder.ObjectBeginTwice | lib/v2/encoder.js:457-482 | a new class is defined with ref -1 and recorded with its fields; a class defined before is 'o' and its index |
| V2Encoder.Encoder.constructor | lib/v2/encoder.js:14-20 | an empty buffer and empty object, type and class tables |
| V2Encoder.Encoder.Reset | lib/v2/encoder.js:29-35 | an empty buffer and empty tables |
| V2Encoder.Encoder.WriteNull | lib/v1/encoder.js:61-64 | appends 'N' |
| V2Encoder.Encoder.WriteBool | lib/v1/encoder.js:71-74 | appends 'T' or 'F' |
| V2Encoder.Encoder.WriteDate | lib/v1/encoder.js:117-127 | appends 'd' and 64 bits |
| V2Encoder.Encoder.WriteInt | lib/v2/encoder.js:65-83 | appends the compact int form exactly when the value fits 32 bits; otherwise refuses and writes nothing |
| V2Encoder.Encoder.PutInt | lib/v2/encoder.js:65-83 | appends the compact int form |
| V2Encoder.Encoder.WriteLong | lib/v2/encoder.js:130-165 | appends the compact long form |
| V2Encoder.Encoder.WriteLongObj | lib/v2/encoder.js:137-139 | a `Long` object is written in the same form |
| V2Encoder.Encoder.WriteBytes | lib/v2/encoder.js:263-292 | appends `BytesForm` |
| V2Encoder.Encoder.WriteString | lib/v2/encoder.js:323-362 | appends `StringForm` |
| V2Encoder.Encoder.WriteType | lib/v2/encoder.js:385-412 | appends `TypeOut` and records the new type |
| V2Encoder.Encoder.WriteRef | lib/v2/encoder.js:432-453 | appends `RefForm` |
| V2Encoder.Encoder.CheckRef | lib/v1/encoder.js:237-249 | an object seen before is a reference to its first index; a new one is recorded and nothing is written |
| V2Encoder.Encoder.WriteObjectBegin | lib/v2/encoder.js:457-482 | appends `ObjectBegin` and moves to its tables |
| V2Encoder.Encoder.WriteListBegin | lib/v2/encoder.js:528-548 | appends `ListHead` and records the new type |
| V2Encoder.Encoder.WriteLength | lib/v2/encoder.js:540-546 | 'n' and one byte, or 'l' and four |
| V2Encoder.Encoder.Write | lib/v1/encoder.js:432-512 | appends `Encode` of the value and moves to its tables; a `{$class, $: null}` of an array class takes an object slot as in 1.0, and a plain object with a string `$class` and no `$` is 'N' |
| V2Encoder.Encoder.WriteArray | lib/v1/encoder.js:386-421 | appends `EncodeList` |
| V2Encoder.EncodeNullList | lib/v1/encoder.js:386-398 | the null-valued array object keeps the tables valid and only grows them |
| V2Encoder.Encoder.WriteNullArray | lib/v1/encoder.js:386-398 | appends `EncodeNullList`: a 2.0 reference when the object was seen before, else 'N' with the object recorded |
| V2Encoder.Encoder.WriteObject | lib/v1/encoder.js:309-340 | appends `EncodeWriteObject`: 'N' for a string `$class` without `$`, else `WriteMap` |
| V2Encoder.Encoder.WriteMap | lib/v1/encoder.js:318-340 | appends `EncodeMap` and moves to its tables |
| V2Encoder.Encoder.WriteHashMap | lib/v2/encoder.js:562-589 | 'M', the sorted keys with their values, 'z' |
| V2Encoder.Encoder.WriteClassed | lib/v2/encoder.js:490-518 | appends `EncodeObject`: the class begun, then the value of each of its fields |
| V2Encoder.Encoder.WriteNames | lib/v2/encoder.js:499-503 | each field name with `writeString` |
| V2Encoder.Encoder.WriteEntries | lib/v2/encoder.js:580-585 | each key as a string, then its value |
| V2Encoder.Encoder.WriteValues | lib/v2/encoder.js:509-515 | the value of each field, in the order given |
| V2Decoder.Units | lib/v1/decoder.js:231-239 | `len` code units; none when `len` is 0 |
| V2Decoder.IntAt | lib/v2/decoder.js:97-122 | `readInt`: a signed 32-bit value from a form of at most five bytes |
| V2Decoder.IntRanges | lib/v2/decoder.js:97-122 | each compact int form's value lies in that form's range |
| V2Decoder.LongAt | lib/v2/decoder.js:174-203 | `readLong`: a number from a form of at most nine bytes; the 'L' form through the corrected `handleLong` (`Utils.HandleLong`) |
| V2Decoder.DoubleAt | lib/v2/decoder.js:251-274 | `readDouble`: each form consumes its width |
| V2Decoder.DateAt | lib/v2/decoder.js:299-309 | `readDate`: 'J' and 64-bit milliseconds through the corrected `handleLong` (`Utils.HandleLong`), or 'K' and 32-bit minutes |
| V2Decoder.BytesAt | lib/v2/decoder.js:340-372 | `readBytes`: the chunks, concatenated |
| V2Decoder.StringAt | lib/v2/decoder.js:411-462 | `readString`: the chunks, joined |
| V2Decoder.TypeAt | lib/v2/decoder.js:481-511 | a string is a new type, appended; an int names a type read before |
| V2Decoder.RefIdAt | lib/v2/decoder.js:620-627 | 'Q' and an int |
| V2Decoder.DefinitionAt | lib/v2/decoder.js:513-526 | the class name, the field count and the field names |
| V2Decoder.DecodeAt | lib/v1/decoder.js:534-547 | `read`, inherited from the 1.0 decoder over the 2.0 table: the reader `BYTE_CODES` names; the reference, type and class lists only grow |
| V2Decoder.RefTarget | lib/v1/decoder.js:503-510 | `readRef` without type information: the registered object, or its `$` when it was registered bare and owns one; an unknown id gives undefined |
| V2Decoder.RefToHashMapReadsDollar | lib/v2/decoder.js:753-764 | a reference back to a hash map `{$: 1}` reads as 1: the list `58 92 48 01 24 91 5a 51 91` reads as `[{$: 1}, 1]` |
| V2Decoder.ObjectAt | lib/v2/decoder.js:561-599 | `readObject`: definitions, then an instance registered in its slot |
| V2Decoder.FieldValuesDropOuter | lib/v2/decoder.js:585-592 | a `this$<digits>` field never becomes a property |
| V2Decoder.ObjectHasNoOuterRef | lib/v2/decoder.js:561-599 | an object read holds no `this$<digits>` property |
| V2Decoder.ArrayAt | lib/v2/decoder.js:668-706 | `readArray`: the head, a list registered as a reference, then its items |
| V2Decoder.ArrayLength | lib/v2/decoder.js:668-706 | a list holds exactly as many values as its head says |
| V2Decoder.HashMapAt | lib/v2/decoder.js:753-764 | `readHashMap`: 'H', the object itself registered as a reference, then its pairs |
| V2Decoder.MapAt | lib/v2/decoder.js:794-823 | `readMap`: 'M', a type, an object registered as a reference (the object itself when the type is empty), then its pairs |
| V2Decoder.RegisteredIsTable | lib/v2/decoder.js:47-827 | the `addByteCodes` calls build exactly the table `ReaderOf` describes |
| V2Decoder.Decoder.constructor | lib/v2/decoder.js:26-33 | reads the buffer from the start with empty lists |
| V2Decoder.Decoder.Clean | lib/v2/decoder.js:39-44 | an empty buffer and empty lists |
| V2Decoder.Decoder.AddRef | lib/v1/decoder.js:29-31 | the object takes the next reference number |
| V2Decoder.Decoder.ReadInt | lib/v2/decoder.js:97-122 | gives `IntAt`, state unchanged |
| V2Decoder.Decoder.ReadLong | lib/v2/decoder.js:174-203 | gives `LongAt`, state unchanged |
| V2Decoder.Decoder.ReadDouble | lib/v2/decoder.js:251-274 | gives `DoubleAt` |
| V2Decoder.Decoder.ReadDate | lib/v2/decoder.js:299-309 | gives `DateAt` |
| V2Decoder.Decoder.ReadBytes | lib/v2/decoder.js:340-372 | the chunk loop gives `BytesAt` |
| V2Decoder.Decoder.ReadString | lib/v2/decoder.js:411-462 | the chunk loop gives `StringAt` |
| V2Decoder.Decoder.ReadType | lib/v2/decoder.js:481-511 | gives `TypeAt` and its type list |
| V2Decoder.Decoder.ReadObjectDefinition | lib/v2/decoder.js:513-526 | gives `DefinitionAt`; the class is appended |
| V2Decoder.Decoder.ReadRefId | lib/v2/decoder.js:620-627 | gives `RefIdAt` |
| V2Decoder.Decoder.ReadRef | lib/v1/decoder.js:503-510 | gives `RefTarget` of the id read: the registered object, or the `$` of a bare one that owns it |
| V2Decoder.Decoder.Read | lib/v1/decoder.js:534-547 | gives `DecodeAt` and its lists, a reference read through `RefTarget` |
| V2Decoder.Decoder.ReadObject | lib/v2/decoder.js:561-599 | gives `ObjectAt` |
| V2Decoder.Decoder.ReadArray | lib/v2/decoder.js:668-706 | gives `ArrayAt` |
| V2Decoder.Decoder.ReadItems | lib/v2/decoder.js:633-637 | `_readFixedLengthItems`: n values, then the list takes its slot |
| V2Decoder.Decoder.ReadMapBody | lib/v2/decoder.js:715-744 | `_readMap`: pairs until 'Z', then the object takes its slot |
| V2Decoder.Decoder.ReadHashMap | lib/v2/decoder.js:753-764 | gives `HashMapAt` |
| V2Decoder.Decoder.ReadMap | lib/v2/decoder.js:794-823 | gives `MapAt` |
| V2RoundTrip.BytesValue | lib/v2rust/src/hessian/parse.rs:537-577 | the payloads `read_bytes` collects: 'b' chunks go on, a 'B' or short chunk ends |
| V2RoundTrip.StringValue | lib/v2rust/src/hessian/parse.rs:258-288 | the code units `read_string` collects: 's' chunks go on, an 'S' or short chunk ends |
| V2RoundTrip.IntFormReadsBack | lib/v2/encoder.js:65-83 | `writeInt` reads back through `read_int_value` and through the 2.0 decoder's `readInt` |
| V2RoundTrip.CompactLongReadsBack | lib/v2/encoder.js:130-165 | the one-, two- and three-byte forms of `writeLong` read back through `read_long_value` |
| V2RoundTrip.WordLongReadsBack | lib/v2/encoder.js:152-157 | the 0x77 and 'L' forms of `writeLong` read back through `read_long_value` |
| V2RoundTrip.LongFormReadsBack | lib/v2/encoder.js:130-165 | every form of `writeLong` reads back through `read_long_value` |
| V2RoundTrip.CompactLongInDecoder | lib/v2/decoder.js:174-203 | the 2.0 decoder reads back the compact forms of `writeLong` |
| V2RoundTrip.WideLongInDecoder | lib/v2/decoder.js:174-203 | the 2.0 decoder reads back the 'L' form through `handleLong` |
| V2RoundTrip.Long32InDecoder | lib/v2/decoder.js:174-203 | the 0x77 form is refused by `readLong`, and `read` sends it to the typed-list reader |
| V2RoundTrip.RefFormReadsBack | lib/v2rust/src/hessian/parse.rs:464-476 | `writeRef` reads back through `read_ref_id` |
| V2RoundTrip.RefFormInDecoder | lib/v2/decoder.js:311-314 | the 2.0 decoder takes the first byte of a reference for a date (ids below 2^16) or a string |
| V2RoundTrip.BytesFormReadsBack | lib/v2/encoder.js:263-292 | what `read_bytes` collects from `writeBytes` is the array written |
| V2RoundTrip.StringFormReadsBack | lib/v2/encoder.js:323-362 | what `read_string` collects from `writeString` is the string written |
| V2RoundTrip.ShortBytesInDecoder | lib/v2/decoder.js:340-372 | the 2.0 decoder reads back arrays of up to 0x8000 bytes |
| V2RoundTrip.LongBytesInDecoder | lib/v2/decoder.js:340-372 | the 2.0 decoder refuses the 'b' chunk of a longer array |
| V2RoundTrip.ShortStringInDecoder | lib/v2/decoder.js:411-462 | the 2.0 decoder reads back strings of up to 0x8000 code units |
| V2RoundTrip.LongStringInDecoder | lib/v2/decoder.js:411-462 | the 2.0 decoder refuses the 's' chunk of a longer string |
| ByteView.StoreByteAt | lib/bytev2.js:11-18 | what the DataView over the whole backing store reads at a cursor: the store's byte there |
| ByteView.StoreViewAtStart | lib/bytev2.js:11-18 | for a buffer at the start of its store, the two views agree |
| ByteView.StoreViewMisreads | lib/bytev2.js:11-18 | for a buffer that starts later in its store, the store view reads another byte and reads past the buffer's end |
| Utils.HandleLongKeepsUnsafeNumber | lib/utils.js:33-36 | the written test lets 2^53 + 2^31 + 1 through as a number |
| Utils.HandleLongTextsSafeNumber | lib/utils.js:33-36 | the written test turns the safe integer -2^53 + 2^32 - 1 into text |
| TagReader.AnonymousLoopStalls | lib/v2rust/harness/index.js:69-72 | as written, a last key without a trailing separator sends the key loop back to the start, so it reads later records until `read` throws at the end; the parser never writes such fields |
| TagReader.NextStart | lib/v2rust/harness/index.js:69-72 | the corrected loop always moves forward: past the separator, or to the end when there is none |

## Left out

- V2Encoder.Encoder.PutInt: does not model the TypeError `_assertType` raises for a value outside the int32 range; such a value gets the 0x49 form. The encoder only calls it with indices and lengths.
- V1RoundTrip.TypeReadsBack: stated for type names of one byte per character only; a longer UTF-8 name changes the byte count the 16-bit length prefix describes.
- V1RoundTrip.FlatReadsBack: stated for flat values (no nested lists, maps or objects, and no null-valued object of an array class, which takes an object slot); nested values are covered per form by the other read-back lemmas.
- V1Encoder.Encoder.Write: the typed scalar form `{$class: 'long', $: 123}` (a class the serializer map names, written by that scalar writer) is not an input, nor is an object of a '[' class whose `$` is an object, which `writeArray` refuses with a TypeError; `Classed` takes only the classes `getSerializer` sends to `writeObject` (`JsValues.ClassKinds`).
- V2Encoder.Encoder.Write: the same two forms are left out of the 2.0 encoder, which inherits `write` and `writeArray`.
- V1Encoder.Encoder.WriteObject: a plain object whose `$class` is truthy but not a string and whose `$` is truthy goes, in `writeObject`, to `_writeObject` with that non-string value as the type; the model writes it as a hash map. `V2Encoder.Encoder.WriteObject` shares this.
- TagReader.Reader.ReadAnonymous: steps with the corrected `NextStart`, so a last key without a trailing ',' ends the loop; as written (index.js:69-72, `TagReader.AnonymousLoopStalls`) the loop starts again at 0 and reads on until `read` throws. The parser ends every key with ',', so the two agree on every output it writes.
- V1Decoder.ReadLongAt: reads 'L' through the corrected `Utils.HandleLong`, not the high/low test of lib/utils.js:33-36 that `readLong` calls; they differ only on the inputs `Utils.HandleLongAgrees` excludes (a high word of ±2^21), e.g. 2^53 + 2^31 + 1 is text here and a Number in the source.
- V1Decoder.ReadDateAt: the same corrected `Utils.HandleLong` for the milliseconds after 'd', differing from the source on the same inputs.
- V2Decoder.LongAt: the 'L' form goes through the corrected `Utils.HandleLong`, differing from lib/v2/decoder.js:199 on the same inputs; the compact forms do not call it.
- V2Decoder.DateAt: the 'J' form goes through the corrected `Utils.HandleLong`, differing from lib/v2/decoder.js:302 on the same inputs.
- ByteView.ByteV2.constructor: holds the buffer's own bytes, the corrected view; as written (lib/bytev2.js:11, `ByteView.StoreByteAt`) the DataView spans the whole backing store from 0, which reads other bytes when the buffer starts later in its store (`ByteView.StoreViewMisreads`).
- TagReader.Reader.ReadChunk: a kind-2 part that is not a string, null or undefined fails (`TagReader.JoinStrings`), whereas `strs.join("")` (index.js:421) turns it into text (output `0e 02 02000000 06 01000000 06 02000000` reads as "12"); the parser writes only string records inside a kind-2 chunk, and JavaScript's number-to-text conversion is not modelled.
- V1Decoder.ReadObjectAt: the object's reference slot holds `DMap([])` until its 'z' and the finished map after it, so a reference to the object from inside its own fields reads `{}`, whereas `readObject` registers the object itself before its fields (lib/v1/decoder.js:367-372) and the reference shares it; decoded values are trees here, so a cycle cannot be built.
- V1Decoder.ReadArrayAt: the same `DList([])` placeholder for a list that refers to itself from among its items.
- V2Decoder.ObjectAt: the same placeholder while an instance's fields are read, where `readObject` registers the instance first.
- V2Decoder.ArrayAt: the same `DList([])` placeholder for a list that refers to itself.
- V2Decoder.HashMapAt: the same `DMap([])` placeholder; `48 91 51 90 5a`, a map whose value at key 1 refers to the map, reads as `{1: {}}` here and as the self-referencing object in the source.
- V2Decoder.MapAt: the same placeholder for a map that refers to itself.
- V2RoundTrip.BytesValue: a chunk whose length runs past the end of the input is an error here, whereas `read_bytes` records the length without checking it.
- Parse.Parser.ReadDouble: the conversions of the compact double forms to `f64` are not modelled; each form is recorded by its tag and byte width.
- V2Decoder.DoubleAt: gives the width each double form consumes, not the floating-point value it denotes.
- InputBuf.Input.ReadU8: a read past the end, undefined behaviour in the Rust code, is modelled as a failed read.
- Floating point: `push_f64`, `writeDouble`, the 0x5f ×0.001 form and every Number conversion of a 64-bit long; doubles are modelled by tag and width.
- `writeLong` on strings and `Long` objects from the `long` library: only integers are modelled.
- `withType`, `JavaExceptionError` and the host `Error` objects of `lib/object.js`: they build host objects, not bytes.
- `Map` instances as encoder input, key coercion to strings, and aliasing between live JavaScript objects: objects are values with an identity number.
- Cycles in the value graph: encoder inputs are finite trees whose repeated objects are named by identity.
- The module-level byte caches `_typecache` (both encoders) and `_classcache` (2.0 encoder): they replay bytes the model computes directly from the type or class.
- The text of error messages, including the hex suffix of "unexpect code" errors: an error is modelled as a failure with its kind.
- `lib.rs`, the native binding: buffer marshalling, pool length headers and its diagnostics; `drain` therefore clears only the JavaScript shape cache (`Harness.ShapeCache.Clear`), since the Rust `State` it also clears sits behind that binding.
- The SIMD block scan of `lation1_bytelen_simd`: modelled as a byte loop with the same result.
- `debug`, `dump`, `usage` and `reportCacheOverflow`: diagnostics with no effect on the output.
- `new Function` code generation in `buildShape`: the generated record constructor is modelled by `TagReader.Reader.ReadShaped`.
- `ByteV2.getDouble`: floating point.
- `ByteV2.readRawString`: it decodes `length` bytes (not characters) with the buffer's own UTF-8 `toString`; its one caller here, the 1.0 `readType`, is modelled by `V1Decoder.ReadTypeAt`, which keeps the name as those raw bytes.
- The `byte` buffer library used by the JavaScript codecs: modelled as a growing byte sequence with a cursor.

## Findings

| source | as written | input that shows it | evidently intended | confidence | as-written member | corrected member |
|---|---|---|---|---|---|---|
| lib/v2rust/harness/index.js:69-72 | the key loop restarts from 0 when no separator follows the last key | fields `"a"` (one key, no trailing comma): the loop reads on through the later records until `read` throws at the end of the output; the parser ends every key with ',' (parse.rs:66, 322-323), so only a hand-built output shows it | move to the end of the fields when no separator remains | not executed | TagReader.AnonymousLoopStalls | TagReader.NextStart |
| lib/utils.js:33-36 | the high/low test treats a high word of ±2^21 by the sign of the low word | 2^53 + 2^31 + 1 stays a number; -2^53 + 2^32 - 1 becomes text | text exactly when the value is beyond ±2^53 | not executed | Utils.HandleLongKeepsUnsafeNumber | Utils.HandleLong |
| lib/bytev2.js:11 | the DataView spans the whole backing store and ignores the buffer's byteOffset | a pooled buffer that starts at byte 8 of its store | a view over the buffer's own bytes | not executed | ByteView.StoreViewMisreads | ByteView.ByteAt |
