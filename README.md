# lnx block store, document layout, type casts and authorization — a Dafny model

This project models five pieces of the lnx search server:

- **Segment keys and naming** (`file_key.dfy`):
  - `FileKey` and its `"{timestamp}-{shard_id}"` text form, with `from_str`.
  - The 12-byte big-endian buffer that `to_hash` feeds to the metastore's hash.
  - `get_new_segment`, which names a new segment file `"{key}.blocks"` inside a base directory.
  - Rust's integer `Display` and `str::parse` are modelled in `decimal.dfy`.
- **The block-store writer** (`writers.dfy`):
  - `BlockStoreWriter` is a class. It holds a segment writer, the metastore and a writer id.
  - `open`, `write_all`, `flush` and `set_commit_checkpoint` are methods on it.
  - The `SegmentWriter` contract is a class over an in-memory segment. It separates the bytes written from the prefix flushed to disk.
  - The metastore's checkpoint map is a class of its own.
- **The document layout** (`document.dfy`):
  - `FieldType` with its `u16` tags, `OffsetInfo`, `Document` and `DocumentBlock`.
  - A well-formedness predicate that says how the offset directory indexes the per-type value arrays.
- **Type casts** (`type_cast.dfy`, with lemmas in `cast_properties.dfy`):
  - Every `try_cast_*` function of `TypeCast`, and `type_name`.
  - The `DateTimeParser` builder, `supported_formats`, `try_parse_str`, `try_parse_json`, `try_parse_typed` and `try_convert_timestamp`.
  - The JSON and typed value trees are in `values.dfy`.
  - Library routines the casts call are fields of a `Primitives` value. These are float text, base64, IP text, the `time` crate's parsers and RFC 3339 rendering, and `DateTime::from_*`. Every lemma holds for every choice of them.
- **Authorization** (`auth.dfy`):
  - `AuthFlags` and `Op`.
  - The `AuthManager` token cache as a class: `connect`, `create_token`, `revoke_all`, `revoke_token` and `modify_permissions`.
  - The two `authorize` functions, as functions from the request's `Authorization` header to a decision.

## Model

| member | source | states |
|---|---|---|
| Decimal.ParseUnsigned | lnx-block-store/src/lib.rs:39-40 | an unsigned parse that succeeds yields a value no larger than the type's maximum |
| Decimal.ParseSigned | lnx-transforms/src/type_cast.rs:177-180 | a signed parse that succeeds yields a value within the type's range |
| Decimal.NatToStringDigits | lnx-block-store/src/lib.rs:51 | the decimal text of a number is a non-empty run of digits whose value is that number |
| Decimal.NatToStringNoLeadingZero | lnx-block-store/src/lib.rs:51 | the decimal text has no leading zero unless the number is 0 |
| Decimal.ParseUnsignedRoundTrip | lnx-block-store/src/lib.rs:39-40 | parsing the text of an in-range value gives the value back |
| Decimal.ParseUnsignedOverflow | lnx-block-store/src/lib.rs:39-40 | parsing the text of a value above the maximum fails |
| Decimal.ParseSignedRoundTrip | lnx-transforms/src/type_cast.rs:270-273 | parsing the text of an in-range signed value, negative ones included, gives it back |
| Decimal.ParseUnsignedRejectsDash | lnx-transforms/src/type_cast.rs:173-176 | an unsigned parse fails on every string containing `-` |
| Decimal.LeadingZeroIgnored | lnx-block-store/src/lib.rs:39-40 | a leading `0` does not change the parsed value |
| FileKeys.FindFirst | lnx-block-store/src/lib.rs:35-37 | `split_once` finds the first occurrence: the result indexes the separator, nothing before it is one, and `None` means there is none |
| FileKeys.FormatRoundTrip | lnx-block-store/src/lib.rs:34-53 | `from_str` of `"{timestamp}-{shard_id}"` gives back the same key |
| FileKeys.FormatShape | lnx-block-store/src/lib.rs:49-53 | a key's text is its decimal timestamp, one `-`, then its decimal shard id, with every other character a digit |
| FileKeys.FormatInjective | lnx-block-store/src/lib.rs:49-53 | distinct keys have distinct text forms |
| FileKeys.FromStrMissingSeparator | lnx-block-store/src/lib.rs:35-37 | a string without `-` is rejected as missing its separator |
| FileKeys.FromStrSplitsAtFirstSeparator | lnx-block-store/src/lib.rs:34-46 | a string is split at its first `-`; the key's fields are the parses of the two sides, and it fails when either side fails |
| FileKeys.FromStrRejectsSecondSeparator | lnx-block-store/src/lib.rs:35-40 | a second `-` ends up in the shard part, which then fails to parse |
| FileKeys.FromStrRejectsEmptySide | lnx-block-store/src/lib.rs:39-40 | an empty timestamp or an empty shard id is rejected |
| FileKeys.FromStrRejectsOutOfRange | lnx-block-store/src/lib.rs:39-40 | a timestamp or shard id above `u64::MAX` is rejected |
| FileKeys.FromStrNotInjective | lnx-block-store/src/lib.rs:34-46 | two different strings (`"07-1"` and `"7-1"`) parse to the same key |
| FileKeys.BigEndianRoundTrip | lnx-block-store/src/lib.rs:59-60 | `to_be_bytes` of a value below 256^n gives n bytes that read back to the value |
| FileKeys.HashBuffer | lnx-block-store/src/lib.rs:56-61 | the buffer filled in place is the 12-byte hash input of the key |
| FileKeys.HashInputLayout | lnx-block-store/src/lib.rs:57-60 | the hash input is 12 bytes: the timestamp big-endian in 8 bytes, then the shard id truncated to `u32`, big-endian in 4 |
| FileKeys.HashInputCollision | lnx-block-store/src/lib.rs:55-63 | two keys have the same hash input exactly when their timestamps are equal and their shard ids agree modulo 2^32 |
| FileKeys.JoinPathRelative | lnx-block-store/src/lib.rs:22 | joining a relative name gives the base, a separator only where needed, then the name |
| FileKeys.GetNewSegmentNaming | lnx-block-store/src/lib.rs:16-23 | a new segment's key has the requested shard and the current unix second, and its path ends in `"{key}.blocks"`, whose stem parses back to the key |
| FileKeys.SegmentPathsDistinct | lnx-block-store/src/lib.rs:22 | distinct keys give distinct segment paths in one directory |
| FileKeys.NewSegmentsOrderedAndDistinct | lnx-block-store/src/lib.rs:16-23 | later segments never carry an earlier timestamp, and segments created in different seconds get different paths |
| FileKeys.AsWrittenSegmentsCollide | lnx-block-store/src/lib.rs:66-69 | with the timestamp as written, any two calls whose two clock reads each lie less than a second apart give the shard the key `0-{shard}` and the same path |
| Writers.Metastore.SetCheckpoint | lnx-block-store/src/writers/mod.rs:51-53 | records the position under the writer id and leaves every other writer's checkpoint as it was |
| Writers.MemorySegmentWriter.Open | lnx-block-store/src/writers/mod.rs:57-61 | an existing segment is continued at its end with all its bytes durable; a missing one starts empty at 0 |
| Writers.MemorySegmentWriter.WriteAll | lnx-block-store/src/writers/mod.rs:63-64 | appends the bytes, returns the offset where they start and leaves the durable prefix unchanged |
| Writers.MemorySegmentWriter.Flush | lnx-block-store/src/writers/mod.rs:66-69 | makes every written byte durable without changing any |
| Writers.BlockStoreWriter.Open | lnx-block-store/src/writers/mod.rs:18-30 | opens the segment at its end and keeps the given metastore and writer id, with the metastore unchanged |
| Writers.BlockStoreWriter.WriteAll | lnx-block-store/src/writers/mod.rs:32-38 | the bytes go at the cursor, their offset is returned, and the metastore is not touched |
| Writers.BlockStoreWriter.Flush | lnx-block-store/src/writers/mod.rs:40-47 | afterwards every written byte is durable, and nothing else changes |
| Writers.BlockStoreWriter.SetCommitCheckpoint | lnx-block-store/src/writers/mod.rs:49-53 | stores the position under this writer's id only, and leaves the segment alone |
| Writers.WriteTwice | lnx-block-store/src/writers/mod.rs:32-38 | consecutive writes get contiguous offsets, and the segment holds both in order |
| Writers.WriteAndCommit | lnx-block-store/src/writers/mod.rs:32-53 | after write, flush and checkpoint, the checkpoint is the end of the write, everything before it is durable, and other writers' checkpoints are untouched |
| Documents.TagRoundTrip | lnx-document/src/lib.rs:26-43 | each field type reads back from its `u16` tag; tags 7 and above are no type |
| Documents.TypeCountAppend | lnx-document/src/lib.rs:14-24 | the per-type value counts of a directory add up over a split |
| Documents.EntryWithinArray | lnx-document/src/lib.rs:58-79 | in a well-formed document each directory entry's values lie inside its type's array, and later entries of that type start after them |
| Documents.TypeCountBound | lnx-document/src/lib.rs:17-18 | with `u16` lengths, a type holds at most 65535 values per directory entry |
| Documents.DefaultsValid | lnx-document/src/lib.rs:45-79 | the default document and block are well formed |
| Documents.ExampleBlockValid | lnx-document/src/lib.rs:45-79 | a two-field block is well formed, and its entries read back the stored string and `u64` |
| TypedValue.Ipv4MappedRoundTrip | lnx-transforms/src/type_cast.rs:193-194 | an IPv4 address mapped into IPv6 is recognised as mapped and gives back the same address |
| TypeCasts.FormatNames | lnx-transforms/src/type_cast.rs:453-455 | one name per string format, in order |
| TypeCasts.SupportedFormats | lnx-transforms/src/type_cast.rs:446-458 | the loop builds the resolution's name, then every format's name, joined by commas |
| TypeCasts.WithTimestampResolution | lnx-transforms/src/type_cast.rs:432-435 | sets the resolution and keeps the formats |
| TypeCasts.WithFormat | lnx-transforms/src/type_cast.rs:437-444 | appends the format after the existing ones and keeps the resolution |
| TypeCasts.ParseFirst | lnx-transforms/src/type_cast.rs:486-497 | a failure is always "no matching format" |
| TypeCasts.TryParseStr | lnx-transforms/src/type_cast.rs:486-497 | the loop with early return yields the first format's parse that succeeds |
| TypeCasts.JsonErrorPropagates | lnx-transforms/src/type_cast.rs:62-76 | an element that fails, or that is a nested array or object, fails the whole JSON array with that element's error |
| TypeCasts.JsonElementsStep | lnx-transforms/src/type_cast.rs:64-74 | casting one more JSON element extends the prefix's result by that element's cast |
| TypeCasts.TryCastJson | lnx-transforms/src/type_cast.rs:50-79 | the recursive method with its element loop computes `CastJson` |
| TypeCasts.TypedErrorPropagates | lnx-transforms/src/type_cast.rs:96-114 | an element that fails, or that is a nested array or object, fails the whole typed array with that element's error |
| TypeCasts.TypedElementsStep | lnx-transforms/src/type_cast.rs:98-112 | casting one more typed element extends the prefix's result by that element's cast |
| TypeCasts.TryCastTyped | lnx-transforms/src/type_cast.rs:82-117 | the recursive method with its element loop computes `CastTyped` |
| CastProperties.U64ToI64 | lnx-transforms/src/type_cast.rs:222-230 | a `u64` becomes the same `i64` exactly when it is at most `i64::MAX`; otherwise it is "not representable" |
| CastProperties.I64ToU64 | lnx-transforms/src/type_cast.rs:260-268 | an `i64` becomes the same `u64` exactly when it is non-negative; otherwise it is "not representable" |
| CastProperties.U64StringRoundTrip | lnx-transforms/src/type_cast.rs:232-235 | a `u64` cast to a string and back is the same `u64` |
| CastProperties.I64StringRoundTrip | lnx-transforms/src/type_cast.rs:270-273 | an `i64` cast to a string and back is the same `i64` |
| CastProperties.NegativeStringToU64Fails | lnx-transforms/src/type_cast.rs:173-176 | a string containing `-` is an invalid `u64` |
| CastProperties.BoolStringRoundTrip | lnx-transforms/src/type_cast.rs:308-311 | booleans render as `"true"` and `"false"` and parse back |
| CastProperties.StringToBoolExact | lnx-transforms/src/type_cast.rs:185-188 | a string casts to `bool` exactly when it is `"true"` or `"false"` |
| CastProperties.IdentityCasts | lnx-transforms/src/type_cast.rs:87-95 | every value cast to its own type is unchanged, and null casts to null for every target |
| CastProperties.UnsupportedPairs | lnx-transforms/src/type_cast.rs:248-249 | the source's unsupported pairs (numbers to bytes or ip, floats to integers, and so on) fail with "unsupported" |
| CastProperties.UnsupportedExactly | lnx-transforms/src/type_cast.rs:82-117 | a scalar cast reports "unsupported" exactly for the source/target pairs without a rule |
| CastProperties.Ipv4StringRoundTrip | lnx-transforms/src/type_cast.rs:341-347 | a mapped IPv4 address renders as IPv4 text, and when that text parses back to the address, the string casts back to the same mapped address |
| CastProperties.IpStringOrder | lnx-transforms/src/type_cast.rs:192-202 | IPv4 is tried before IPv6, and the cast fails only when the string is neither |
| CastProperties.ParseFirstSucceedsIff | lnx-transforms/src/type_cast.rs:486-497 | string parsing succeeds exactly when some format parses, so an empty list always fails |
| CastProperties.ParseFirstIsFirstMatch | lnx-transforms/src/type_cast.rs:487-491 | the result is the parse of the first format in order that parses |
| CastProperties.ParseFirstAppend | lnx-transforms/src/type_cast.rs:437-440 | adding a format never changes an existing successful parse; it only rescues strings that failed |
| CastProperties.DateTimeParseAgreesWithCast | lnx-transforms/src/type_cast.rs:470-476 | `try_parse_typed`, `TryParseStr` and the string and `i64` casts agree |
| CastProperties.NoResolutionRejectsTimestamps | lnx-transforms/src/type_cast.rs:502-510 | without a resolution no integer becomes a date-time |
| CastProperties.LargeU64ToDateTimeFails | lnx-transforms/src/type_cast.rs:237-246 | a `u64` above `i64::MAX` is "not representable" before any resolution is consulted |
| CastProperties.U64TimestampAsI64 | lnx-transforms/src/type_cast.rs:237-246 | a `u64` within `i64` range converts exactly as the same `i64` does |
| CastProperties.SupportedFormatsEmptyIff | lnx-transforms/src/type_cast.rs:446-458 | the format list is empty exactly when the parser has no resolution and no formats |
| CastProperties.WithFormatExtendsNames | lnx-transforms/src/type_cast.rs:437-458 | `with_format` appends the new name, after a comma when the list was not empty |
| CastProperties.DefaultTypeName | lnx-transforms/src/type_cast.rs:40-42 | the default parser's target is named `datetime<>` |
| CastProperties.MillisTypeName | lnx-transforms/src/type_cast.rs:360-367 | a millisecond parser's target is named `datetime<unix_millis>` |
| CastProperties.TwoFormatsTypeName | lnx-transforms/src/type_cast.rs:393-401 | the names of two formats are listed in the order they were added |
| CastProperties.CustomFormatName | lnx-transforms/src/type_cast.rs:398 | a custom format shows its description quoted |
| CastProperties.MillisOverflowExample | lnx-transforms/src/type_cast.rs:719-724 | casting `u64::MAX` to a millisecond date-time fails as not representable, and the error names `datetime<unix_millis>` |
| CastProperties.TypedElementsSucceed | lnx-transforms/src/type_cast.rs:96-114 | an array cast succeeds exactly when every element is a scalar that casts, and the result is the elementwise casts |
| CastProperties.TypedFirstFailure | lnx-transforms/src/type_cast.rs:98-111 | when element k is the first to fail, the array fails with element k's error |
| CastProperties.ArrayCast | lnx-transforms/src/type_cast.rs:96-114 | casting an array value as a whole succeeds exactly when all its elements cast |
| CastProperties.ScalarCastIdempotent | lnx-transforms/src/type_cast.rs:87-95 | a successful scalar cast, to anything but bytes, gives a value the same cast leaves unchanged |
| CastProperties.CastIdempotent | lnx-transforms/src/type_cast.rs:82-117 | for every target but bytes, casting a successful result again gives it back, arrays included |
| CastProperties.BytesRecastFails | lnx-transforms/src/type_cast.rs:203-210 | bytes decoded from base64 do not cast to bytes again |
| CastProperties.JsonScalarAgrees | lnx-transforms/src/type_cast.rs:55-61 | a JSON scalar casts as its typed counterpart does |
| CastProperties.JsonElementsAgree | lnx-transforms/src/type_cast.rs:62-76 | JSON array elements cast as their typed counterparts do |
| CastProperties.JsonCastAgreesWithTyped | lnx-transforms/src/type_cast.rs:50-79 | `try_cast_json` is `try_cast_typed` on the same value read as a typed value |
| AuthFlags.ValueIsU32 | src/auth.rs:15-26 | every mask's value is below 2^32, and distinct masks have distinct values |
| AuthFlags.FlagsAreSingleBits | src/auth.rs:17-25 | `SEARCH`, `MODIFY_DOCUMENTS` and `MODIFY_INDEXES` are 1, 2 and 4, pairwise disjoint, together 7 |
| AuthFlags.ApplyOpBits | src/auth.rs:199-206 | `Set` removes exactly the given bits and `Unset` adds exactly them |
| AuthFlags.ApplyOpIdempotent | src/auth.rs:199-206 | each operation is idempotent, and `Set` after `Unset` of the same bits is `Set` alone |
| Auth.RowsToMapEntries | src/auth.rs:93-99 | after loading, a token is cached exactly when some row holds it; a token held by one row only gets that row's user and mask (a repeated token resolves to its last row) |
| Auth.AuthManager.Connect | src/auth.rs:83-104 | the loop leaves the cache equal to `RowsToMap` of the stored rows: every row's token is cached, with its own user and mask when the token is not repeated |
| Auth.AuthManager.CreateToken | src/auth.rs:108-131 | a token not yet cached is cached with its user and mask and returned, and no other entry changes |
| Auth.AuthManager.RevokeAll | src/auth.rs:146-163 | the cache is emptied |
| Auth.AuthManager.RevokeToken | src/auth.rs:166-184 | only the given token leaves the cache |
| Auth.AuthManager.ModifyPermissions | src/auth.rs:188-217 | an unknown token is an error and changes nothing; a known one keeps its user and gets the combined mask |
| Auth.DisabledAdmitsAll | src/auth.rs:281-284 | a disabled layer admits every request |
| Auth.UserAuthorizeIff | src/auth.rs:281-314 | admitted exactly when the header is present, its text from index 7 on is a cached token, and that token's mask shares a bit with the requirement; a header shorter than 7 panics |
| Auth.AnySharedBitAdmits | src/auth.rs:303-306 | one shared bit is enough to be admitted |
| Auth.SchemeNotChecked | src/auth.rs:291-293 | any seven leading characters serve as well as `"Bearer "` |
| Auth.SuperUserAuthorizeIff | src/auth.rs:356-366 | the super-user check admits exactly the header `"Bearer {key}"`, so a lower-case scheme fails |
| Auth.CreatedTokenAuthorization | src/auth.rs:127-131 | a created token is admitted exactly for the requirements its mask overlaps |
| Auth.RevokedTokenRefused | src/auth.rs:146-184 | a revoked token is refused for every requirement, and after `revoke_all` every well-formed header is |
| Auth.SetRevokesAccess | src/auth.rs:199-202 | `Set` with every required bit takes the token's access to that requirement away |
| Auth.TokenLifecycle | src/auth.rs:108-184 | a token created with `SEARCH` is admitted for searches, refused after `Set` of `SEARCH` removes the bit, admitted again after `Unset` restores it, and refused once revoked |

## Left out

- Reading an existing segment file, and I/O errors from open, write and flush. The segment is in memory and these operations always succeed.
- `AutoWriter` itself. Its body is not written, so the `SegmentWriter` contract is modelled by `MemorySegmentWriter`.
- Writers.BlockStoreWriter.SetCommitCheckpoint: a metastore write error is not modelled, so it always succeeds.
- Writers.MemorySegmentWriter.WriteAll: positions are unbounded naturals, so a `u64` position overflow is not modelled. `WriteAndCommit` requires the end position to fit in a `u64`.
- The hash applied to the 12-byte buffer in `to_hash` belongs to the metastore crate. `HashBuffer` stops at the buffer.
- The system clock. `get_new_segment` takes the clock reading as a parameter in nanoseconds since the epoch.
- The reader, service, shard and metastore modules are not part of this model.
- `rkyv` archiving and the `Text`, `Bytes` and wrapper types of the document crate. Values are sequences. `ValidDocument` is this model's reading of how the directory indexes the arrays; the source checks none of it.
- Float text (`ryu`, `str::parse::<f64>`), base64, IP text, the `time` crate's date-time parsers and RFC 3339 rendering, and `DateTime::from_secs` and its siblings are not modelled. They are fields of `Primitives`, and the lemmas hold for any such functions.
- The `expect` in `DateTimeFormat::parse`, which panics when a parsed date-time has no microsecond form, is not modelled. The primitive parser returns `None` for "does not parse".
- `keys_history` and the exact text of error messages. Errors are a `CastError` datatype that keeps the source type and the target's `type_name`.
- `Cow` borrowing. `try_cast_str` and `try_cast_cow` behave alike and are one function, `CastString`.
- Debug escaping of a custom format's description covers the common escapes only. Unicode escapes are not modelled.
- TypeCasts.WithFormat: `add_string` pushes in place on a `&mut` parser. It is modelled by the same value function as `with_format`.
- Auth: the SQLite table and the order of the database and cache writes are not modelled. The same goes for the evmap read handles, `refresh` and locking, logging, the JSON body of a refusal, and `unauthorized_response`.
- Auth.AuthManager.CreateToken: the random 64-character token is a parameter that must not be cached yet. A collision with a cached token, which would give that token a second value in the evmap, is not modelled; nor is a database error before the cache update.
- Auth.AuthManager.Connect: the cache is a plain map. evmap's `insert` keeps every value inserted under a token and `get_one` returns any one of them, so for a token held by several rows the source may answer with any of those rows; the model resolves it to the last row.
- Auth.RowsToMapEntries: the last-row entry it states for a repeated token is the model's resolution, not evmap's multi-value behaviour; for a token held by one row it is exact.
- Auth.UserAuthorize: the header is a string of characters. Its raw bytes and `from_utf8_lossy` are not modelled, and a cut through a multi-byte character is not modelled either.
- Auth.SuperUserAuthorize: the panic of `HeaderValue::from_str(..).unwrap()` for a key that is not a valid header value is not modelled.
- AuthFlags: a `u32` mask is modelled as the set of its bit positions below 32. `ValueIsU32` ties each set to its `u32` value.

## Notes on the source

- `Op::Set` is documented as adding permissions and `Op::Unset` as removing them. The code does the reverse: `Set` computes `existing & !permissions` and `Unset` computes `existing | permissions`. The model follows the code (`ApplyOp`, `ApplyOpBits`).
- A typed `Bytes` value has no arm in `try_cast_typed`, so it cannot be cast again, not even to `bytes`. The model keeps this (`BytesRecastFails`), and idempotence is proved for every other target.
- The `SegmentWriter::flush` doc-comment speaks of returning a position, but the method returns `()`. The model follows the signature.
- `timestamp()` is documented as the current unix timestamp in seconds, but it computes `SystemTime::now().elapsed()`; see Findings.

## Findings

| source | as written | input that shows it | evidently intended | confidence | as-written member | corrected member |
|---|---|---|---|---|---|---|
| lnx-block-store/src/lib.rs:66-69 | `timestamp()` returns `SystemTime::now().elapsed()` in seconds, which is the time between two clock reads, almost always 0 | any two calls of `get_new_segment` for one shard within a second of their own clock reads, e.g. at unix times 1000 s and 2000 s: both keys are `0-{shard}` and both paths are `"0-{shard}.blocks"` | seconds since the unix epoch (`duration_since(UNIX_EPOCH)`), as its doc-comment says | not executed | FileKeys.AsWrittenSegmentsCollide | FileKeys.NewSegmentsOrderedAndDistinct |
