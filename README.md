# MultiRequestParams, modelled in Dafny

This project models `MultiRequestParams` from android-async-http. It is the
parameter bag an `AsyncHttpClient` request carries. It holds three Guava hash
multimaps:

- `urlParams`: scalar string parameters.
- `urlParamsWithArray`: array parameters. Each entry is a whole list of values under one name.
- `fileParams`: file uploads. Each entry is a stream with an optional file name and content type.

The bag fills these through null-guarded `put` overloads and empties them with
two `remove` forms. It renders them in three ways:

- A debug string (`toString`).
- A flat list of form fields (`getParamsList`).
- A request body (`getEntity`). This is URL-encoded when there is no file entry and multipart otherwise.

Layout, one module per concern:

- `wrappers.dfy` (`Wrappers`): `Option` stands for a nullable Java reference and `Result` for a call that may throw.
- `entries.dfy` (`Entries`): entry types; `FileWrapper`, a class with constant fields compared by identity; `NameValuePair`; `Part`, one `addPart` call on the multipart writer; `Entity`, the request body.
- `pairs.dfy` (`Pairs`): the `getParamsList` specification and its lemmas.
- `debug_text.dfy` (`DebugText`): the `toString` specification. It includes a reference definition of the result as pieces joined by `&`.
- `parts.dfy` (`Parts`): the `getEntity` specification. This covers the multipart part plan and the choice between the two bodies.
- `request_params.dfy` (`RequestParams`): the class `MultiRequestParams`. Its constructors and mutators change the three fields in place. Its rendering methods loop like the source and are proved equal to the specification functions.

How the multimaps are modelled:

- Each multimap is a `seq` field with no duplicates. A hash multimap holds a (key, value) pair at most once.
  - Putting an identical scalar pair twice stores it once.
  - An equal list under the same key also collapses, because `ArrayList` compares by contents.
  - Every stream `put` creates a new `FileWrapper` object, and wrappers compare by identity, so every stream `put` adds an entry.
- The order of a sequence stands for the multimap's iteration order, which is unspecified.
  - The mutators promise only what the set of entries becomes (`Scalars`, `Arrays`, `Files`), never where a new entry goes.
  - `ParamsListOrderIndependent` shows that any listing of the same entries sends the same fields.
- The code uses hash multimaps, so serialisation follows iteration order, not insertion order. The model follows the code.

## Model

| member | source | states |
|---|---|---|
| `Entries.FileWrapper.constructor` | src/com/loopj/android/http/MultiRequestParams.java:365-370 | a wrapper keeps the stream, file name and content type it was given |
| `Entries.FileWrapper.GetFileName` | src/com/loopj/android/http/MultiRequestParams.java:372-378 | the upload's own file name, or "nofilename" when it has none |
| `RequestParams.ValueOf` | src/com/loopj/android/http/MultiRequestParams.java:123-124 | `String.valueOf`: an object's string form, and "null" for null |
| `RequestParams.KeyValuePairs` | src/com/loopj/android/http/MultiRequestParams.java:116-127 | an odd argument count fails with IllegalArgumentException; an even one yields one pair per two items, item 2i as key and 2i+1 as value, each through `ValueOf` |
| `RequestParams.PairsFrom` | src/com/loopj/android/http/MultiRequestParams.java:122-126 | the loop over an even-length list: exactly half as many pairs as items, pair i being (`ValueOf` of item 2i, `ValueOf` of item 2i+1) |
| `RequestParams.KeyValuePairsExample` | src/com/loopj/android/http/MultiRequestParams.java:116-127 | ("a", "1", "b", "2") stands for the pairs a=1 and b=2 |
| `RequestParams.MultiRequestParams.constructor` | src/com/loopj/android/http/MultiRequestParams.java:72-74 | a new bag has three empty multimaps |
| `RequestParams.MultiRequestParams.Of` | src/com/loopj/android/http/MultiRequestParams.java:100-104 | the bag holds the one pair, or nothing when key or value is null |
| `RequestParams.MultiRequestParams.FromMap` | src/com/loopj/android/http/MultiRequestParams.java:83-89 | the scalar entries are exactly the map's entries whose key and value are non-null; nothing else is stored |
| `RequestParams.MultiRequestParams.OfKeysAndValues` | src/com/loopj/android/http/MultiRequestParams.java:116-127 | fails exactly on an odd count and then builds no bag; otherwise the scalar entries are exactly the pairs of `KeyValuePairs`, and the other multimaps are empty (every item's string form is non-null here; see Left out) |
| `RequestParams.MultiRequestParams.Put` | src/com/loopj/android/http/MultiRequestParams.java:137-141 | adds (key, value) to the scalar entries exactly when both are non-null; otherwise nothing changes; the array and file multimaps are never touched |
| `RequestParams.MultiRequestParams.PutArray` | src/com/loopj/android/http/MultiRequestParams.java:163-167 | adds the whole list as one array entry when key and list are non-null; otherwise nothing changes; the other multimaps are untouched |
| `RequestParams.MultiRequestParams.PutStreamWithType` | src/com/loopj/android/http/MultiRequestParams.java:207-212 | when key and stream are non-null, exactly one new file entry is added, a fresh wrapper of the three arguments, and all old entries stay; otherwise nothing changes |
| `RequestParams.MultiRequestParams.PutStreamWithName` | src/com/loopj/android/http/MultiRequestParams.java:191-193 | as `PutStreamWithType` with a null content type |
| `RequestParams.MultiRequestParams.PutStream` | src/com/loopj/android/http/MultiRequestParams.java:177-179 | as `PutStreamWithType` with a null file name and a null content type |
| `RequestParams.MultiRequestParams.Remove` | src/com/loopj/android/http/MultiRequestParams.java:220-224 | no entry under the key is left in any of the three multimaps, and every entry under another key stays |
| `RequestParams.MultiRequestParams.RemovePair` | src/com/loopj/android/http/MultiRequestParams.java:232-236 | removes only the scalar pair (key, val); the array and file multimaps are unchanged, since a string never equals a list or a wrapper |
| `RequestParams.MultiRequestParams.ToString` | src/com/loopj/android/http/MultiRequestParams.java:239-275 | returns `DebugString` of the current entries |
| `RequestParams.MultiRequestParams.AppendScalarEntries` | src/com/loopj/android/http/MultiRequestParams.java:242-249 | the scalar loop appends `key=value` per entry, with a `&` first whenever the text is non-empty |
| `RequestParams.MultiRequestParams.AppendFileEntries` | src/com/loopj/android/http/MultiRequestParams.java:251-258 | the file loop appends `key=FILE` per entry, with a `&` first whenever the text is non-empty |
| `RequestParams.MultiRequestParams.AppendArrayEntries` | src/com/loopj/android/http/MultiRequestParams.java:260-272 | the array loop appends a `&` when the text is non-empty, then the list's values |
| `RequestParams.MultiRequestParams.AppendValues` | src/com/loopj/android/http/MultiRequestParams.java:265-271 | one list's values as `key=v`, with a `&` before every value but the first |
| `RequestParams.MultiRequestParams.GetParamsList` | src/com/loopj/android/http/MultiRequestParams.java:339-354 | returns `ParamsList` of the current entries |
| `RequestParams.MultiRequestParams.GetEntity` | src/com/loopj/android/http/MultiRequestParams.java:280-328 | returns `EntityOf` of the current entries; the body is multipart exactly when there is a file entry |
| `RequestParams.MultiRequestParams.AddScalarFields` | src/com/loopj/android/http/MultiRequestParams.java:286-289 | one `addPart(key, value)` per scalar entry, in iteration order |
| `RequestParams.MultiRequestParams.AddArrayFields` | src/com/loopj/android/http/MultiRequestParams.java:291-297 | one `addPart(key, value)` per value of each array entry, in list order |
| `RequestParams.MultiRequestParams.AddValueFields` | src/com/loopj/android/http/MultiRequestParams.java:294-296 | one `addPart(key, value)` per value of one list |
| `RequestParams.MultiRequestParams.AddFileParts` | src/com/loopj/android/http/MultiRequestParams.java:299-316 | the counted file loop: each entry with a stream gives one file part, flagged last when the counter equals size - 1, in the content-type form when it has a content type |
| `Entries.Filter` | src/com/loopj/android/http/MultiRequestParams.java:220-236 | the multimap removals keep exactly the entries that pass the test, in both directions, never add a duplicate and never grow |
| `RequestParams.RemovedKeyNotRendered` | src/com/loopj/android/http/MultiRequestParams.java:220-224 | once no entry carries a key, as `remove(key)` leaves it, neither body sends a field or a part under that key |
| `Pairs.ListPairs` | src/com/loopj/android/http/MultiRequestParams.java:346-351 | one field per list value, in list order, each under the list's name |
| `Pairs.ScalarPairs` | src/com/loopj/android/http/MultiRequestParams.java:342-344 | one field per scalar entry, the i-th from the i-th entry |
| `Pairs.ExpandArrays` | src/com/loopj/android/http/MultiRequestParams.java:346-351 | the array entries give as many fields as their lists hold values altogether |
| `Pairs.ParamsList` | src/com/loopj/android/http/MultiRequestParams.java:339-354 | length is the number of scalar entries plus the total list length, and the scalar fields come first, in order |
| `Pairs.ListPairsMembers` | src/com/loopj/android/http/MultiRequestParams.java:346-351 | a field comes from a list exactly when it has the list's name and one of its values |
| `Pairs.ExpandArraysMembers` | src/com/loopj/android/http/MultiRequestParams.java:346-351 | a field of the expanded arrays is exactly a value of some array entry under that entry's name |
| `Pairs.ParamsListMembers` | src/com/loopj/android/http/MultiRequestParams.java:339-354 | the URL-encoded fields are exactly the scalar pairs and the array values under their names; file entries never appear |
| `Pairs.ParamsListWithoutName` | src/com/loopj/android/http/MultiRequestParams.java:339-354 | when no scalar or array entry carries a name, no field does |
| `Pairs.ParamsListOrderIndependent` | src/com/loopj/android/http/MultiRequestParams.java:334-336 | any two iteration orders of the same multimap entries give the same fields up to order |
| `DebugText.AppendScalars` | src/com/loopj/android/http/MultiRequestParams.java:242-249 | the scalar loop keeps the text it started from as a prefix, and the result is empty exactly when that text was empty and there is no scalar entry |
| `DebugText.AppendFiles` | src/com/loopj/android/http/MultiRequestParams.java:251-258 | the file loop keeps the text it started from as a prefix, and the result is empty exactly when that text was empty and there is no file entry |
| `DebugText.AppendList` | src/com/loopj/android/http/MultiRequestParams.java:264-271 | one list's loop keeps the text it started from as a prefix, and the result is empty exactly when that text was empty and the list is empty |
| `DebugText.AppendArrays` | src/com/loopj/android/http/MultiRequestParams.java:260-272 | the array loop keeps the text it started from as a prefix, and the result is empty exactly when that text was empty and the lists hold no value altogether |
| `DebugText.DebugString` | src/com/loopj/android/http/MultiRequestParams.java:239-275 | the debug string is empty exactly when there is no scalar entry, no file entry and no list value |
| `DebugText.DebugStringJoinsPieces` | src/com/loopj/android/http/MultiRequestParams.java:239-275 | with no empty array list, the debug string is the scalar `key=value` pieces, then one `key=FILE` per file, then every array value as `key=v`, separated by single `&`s |
| `DebugText.AppendScalarsJoins` | src/com/loopj/android/http/MultiRequestParams.java:242-249 | the scalar loop joins its pieces onto the text with `&` |
| `DebugText.AppendFilesJoins` | src/com/loopj/android/http/MultiRequestParams.java:251-258 | the file loop joins its `key=FILE` pieces onto the text with `&` |
| `DebugText.AppendListJoins` | src/com/loopj/android/http/MultiRequestParams.java:264-271 | a non-empty list after the separator joins its pieces onto the text with `&` |
| `DebugText.AppendArraysJoins` | src/com/loopj/android/http/MultiRequestParams.java:260-272 | with no empty list, the array loop joins every value's piece onto the text with `&` |
| `DebugText.DebugStringOfEmpty` | src/com/loopj/android/http/MultiRequestParams.java:239-275 | an empty bag renders as "" |
| `DebugText.DebugStringEmptyList` | src/com/loopj/android/http/MultiRequestParams.java:260-272 | an empty array list adds nothing to an empty text and a lone `&` after earlier content |
| `DebugText.DebugStringOfTags` | src/com/loopj/android/http/MultiRequestParams.java:260-272 | the list ["x", "y"] under "tags" renders as `tags=x&tags=y` |
| `Parts.StringPartsAt` | src/com/loopj/android/http/MultiRequestParams.java:286-297 | the i-th multipart field is the i-th form field |
| `Parts.FilePartsOnePerEntry` | src/com/loopj/android/http/MultiRequestParams.java:299-316 | with every stream present, the file loop gives exactly one part per file entry, the i-th from the i-th entry |
| `Parts.FilePartShape` | src/com/loopj/android/http/MultiRequestParams.java:300-316 | file part i has the entry's name, its file name or "nofilename", and its stream; it uses the content-type form exactly when the content type is non-null, and isLast exactly when i is the last index |
| `Parts.MultipartLastFlag` | src/com/loopj/android/http/MultiRequestParams.java:299-316 | the multipart plan has one field per form field plus one part per file entry, and exactly one part, the final one, has isLast set |
| `Parts.MultipartFieldsArePairs` | src/com/loopj/android/http/MultiRequestParams.java:286-297 | the multipart fields are the URL-encoded fields in the same order |
| `Parts.EntityOf` | src/com/loopj/android/http/MultiRequestParams.java:283-325 | the body is multipart exactly when the file multimap is non-empty; the URL-encoded body carries `ParamsList` |
| `Parts.PartPlan` | src/com/loopj/android/http/MultiRequestParams.java:283-316 | the multipart path makes at least one call per form field and at most one more per file entry |
| `Parts.FileParts` | src/com/loopj/android/http/MultiRequestParams.java:299-316 | the file loop makes at most one call per file entry, and each one is a file part, never a plain field |
| `Parts.FilePartAt` | src/com/loopj/android/http/MultiRequestParams.java:302-315 | an entry with a null stream gives no part (the skip at line 304); otherwise exactly one part with the entry's name and stream, in the content-type form exactly when the content type is non-null, and flagged last exactly when its index is size - 1 |
| `Parts.PartPlanWithoutName` | src/com/loopj/android/http/MultiRequestParams.java:283-316 | when no entry carries a name, no multipart part does |

## Left out

- `put(String, File)` (line 151) opens a `FileInputStream`. That is file-system I/O that may throw `FileNotFoundException`. All it adds beyond that is a call to `PutStreamWithName` with the file's base name.
- `UrlEncodedFormEntity`, `URLEncodedUtils.format` (`getParamString`) and the `ENCODING` constant are Apache HttpClient calls. Their URL encoding is not visible here. The URL-encoded body is modelled as the list of pairs handed to them.
- The swallowed `UnsupportedEncodingException` (lines 322-324) is not modelled. It depends on the runtime's charset set, and with "UTF-8" it does not occur.
- `SimpleMultipartEntity` is not part of this model. Its framing, boundaries and stream copying are left out. The multipart body is the sequence of `addPart` calls made on it.
- Streams are opaque handles. Reading them, and the fact that rendering a multipart body consumes them, are left out.
- The superclass `RequestParams` is not part of this model.
- Hash codes and the concrete iteration order of `HashMultimap` are left out. Iteration order is the (unconstrained) order of each sequence.
- `null` elements inside an `ArrayList` are left out. List values are non-null strings.
- The bag keeps a reference to the caller's `ArrayList`. A later change to that list through the caller (aliasing) is not modelled. An array entry is the list's contents at the time of `put`.
- Objects passed to the key/value-list constructor are given as their `toString()` results. Their classes' `toString` is foreign code.
- DebugText.DebugStringJoinsPieces: states the joined form only when no array list is empty; `DebugStringEmptyList` covers an empty list separately.
- Parts.MultipartLastFlag: requires every file entry to have a stream, which every `put` guarantees (`Valid`). The source's own null-stream check is modelled in `FilePartAt`, and with a null stream in the last entry no part would be flagged last.
- RequestParams.MultiRequestParams.FromMap: a null map is not modelled. The source throws a NullPointerException at `source.entrySet()` (line 86), but the map parameter here is never null.
- RequestParams.MultiRequestParams.OfKeysAndValues: a null argument array is not modelled. The source throws a NullPointerException at `keysAndValues.length` (line 118), but the sequence parameter here is never null.
- RequestParams.MultiRequestParams.OfKeysAndValues: an object whose `toString()` returns null is not modelled. `String.valueOf` (lines 123-124) then returns null, and `put` (line 138) skips that pair. An item here is either null, giving "null", or a non-null string form, so no pair is ever skipped.
- RequestParams.RemovedKeyNotRendered: covers both request bodies but not substring occurrences of the key in the debug string.
- RequestParams.MultiRequestParams.Put: re-putting a pair that is already present changes nothing, so a rendering then holds that pair once, not once more.
