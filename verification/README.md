# nwscript-formatter, modelled in Dafny

nwscript-formatter is a Visual Studio Code extension that formats NWScript
documents by running `clang-format` (or a wrapper of it) on the document
text and applying the edits the formatter reports. The repository carries
two revisions of the formatting provider, `src/extension.ts` and
`src/NWScriptFormatter.ts`, which share this logic:

- choosing the executable and resolving it against the file system and
  `PATH`, with a per-session cache (`src/clangPath.ts`);
- skipping documents under configured ignored paths
  (`src/utils/isIgnoredFile.ts`, also inlined in `src/extension.ts`);
- building the command line: `-output-replacements-xml`, the style and,
  for a range, its UTF-8 byte offset and length;
- deciding, when the process closes, between rejecting and parsing its
  output;
- turning the `<replacements>` XML, event by event, into edits. Each
  replacement's byte offset and length become UTF-16 code-unit offsets
  through the translator of `src/byteToOffset.ts`. That translator keeps
  a module-level cache of the last byte/code-unit pair and decodes forward
  from it.

The model is split into these modules:

- `JsString` (`jsstring.dfy`): JS strings as sequences of UTF-16 code
  units, plus `substr`, `substring`, `includes` and `trim`.
- `Utf8` (`utf8.dfy`): what Node's `Buffer` does here. It encodes a JS
  string to UTF-8, with lone surrogates becoming U+FFFD. It decodes a byte
  slice back and counts the UTF-16 units: an ill-formed sequence gives one
  U+FFFD, following the maximal-subpart rule of the WHATWG Encoding
  Standard.
- `ByteToOffset` (`bytetooffset.dfy`): the translator. The cache and the
  edit record are classes updated in place.
- `Replacements` (`replacements.dfy`): the `getEdits` parser callbacks.
  They are a class whose methods update the pending edit, the edit list
  and the promise. They are specified by a pure fold, `Process`, over the
  parser's events.
- `ClangPath` (`clangpath.dfy`): `getBinPath`, `correctBinname` and the
  path cache.
- `IgnoredFile` (`ignoredfile.dfy`): the ignore matcher.
- `Driver` (`driver.dfy`): what both revisions share, namely the close
  decision and the working directory. It also holds the `substr` range
  conversion of `src/extension.ts` (`RangeArgs`, specified by `ByteRange`);
  `src/NWScriptFormatter.ts` has its own, `NWScriptFormatter.RangeArgsAsWritten`.
- `Extension` (`extension.dfy`) and `NWScriptFormatter`
  (`nwscriptformatter.dfy`): the two `doFormatDocument`s with their
  settings readers.

## Model

| member | source | states |
|---|---|---|
| JsString.Substr | src/extension.ts:258-260 | `substr(start, length)` with in-range arguments is exactly the `length` units from `start`; never longer than the string |
| JsString.Substring | src/NWScriptFormatter.ts:195-197 | `substring(a, b)` is the text between the two indices in increasing order, whichever argument is larger; its second argument is an end index, not a length |
| JsString.TrimStart | src/extension.ts:126-127 | drops a whitespace-only prefix: the result is a suffix of the input and does not start with whitespace |
| JsString.TrimEnd | src/extension.ts:126-127 | drops a whitespace-only suffix: the result is a prefix of the input and does not end with whitespace |
| JsString.Trim | src/extension.ts:126-127 | `trim()` is never longer than its input and has no whitespace at either end |
| JsString.TrimSpec | src/extension.ts:126-127 | `trim()` keeps one contiguous piece with only whitespace cut on either side, and is empty exactly when the input is all whitespace |
| Utf8.Utf8Bytes | src/byteToOffset.ts:10 | `new Buffer(s)` takes at least one and at most three bytes per code unit of `s` |
| Utf8.EncodedSize | src/byteToOffset.ts:10 | the same bounds, code point by code point: a surrogate pair takes four bytes for its two units, any other code point at most three for its one |
| Utf8.ByteLength | src/extension.ts:258-260 | `Buffer.byteLength(s)` lies between `s.length` and three times it, and is 0 exactly for the empty string |
| Utf8.Lead | src/byteToOffset.ts:18-19 | a byte read by an idle decoder: ASCII emits one code unit at once; exactly C2 to F4 start a sequence awaiting one to three continuations; any other byte emits U+FFFD. Either way it accounts for exactly one code unit, emitted or still owed |
| Utf8.Step | src/byteToOffset.ts:18-19 | one byte emits at most one code unit beyond what the decoder owed before it, and the continuation that completes a sequence emits the sequence's UTF-16 width and idles the decoder |
| Utf8.RunBound | src/byteToOffset.ts:18-19 | `Run`, the left fold of `Step` over bytes, emits at most one code unit per byte, plus what it owed at the start |
| Utf8.DecodedAtMostBytes | src/byteToOffset.ts:18-30 | `DecodedLength`, the `toString("utf8").length` of a byte slice (the fold from idle, with U+FFFD for a truncated tail), is never more than the slice's byte count |
| Utf8.Slice | src/byteToOffset.ts:18 | `buf.slice(start, end)` is the byte range when both ends are in bounds, and empty when the end is not after the start |
| Utf8.RunAppend | src/byteToOffset.ts:18-19 | decoding `x + y` is decoding `x`, then `y` from the state `x` left |
| Utf8.DecodeScalar | src/byteToOffset.ts:18-19 | the UTF-8 bytes of one code point decode to its UTF-16 width (1 or 2) and leave the decoder idle |
| Utf8.DecodeTwoBytes | src/byteToOffset.ts:18-19 | a two-byte sequence decodes to one code unit |
| Utf8.DecodeThreeBytes | src/byteToOffset.ts:18-19 | a three-byte sequence decodes to one code unit |
| Utf8.DecodeFourBytes | src/byteToOffset.ts:18-19 | a four-byte sequence decodes to two code units |
| Utf8.DecodeEncode | src/byteToOffset.ts:18-19 | decoding the encoding of any code-point sequence gives back its UTF-16 length |
| Utf8.EncodeAppend | src/extension.ts:258-260 | the UTF-8 encoding of concatenated code points is the concatenation of their encodings |
| Utf8.Utf16LengthAppend | src/byteToOffset.ts:18-19 | UTF-16 length is additive over code-point concatenation |
| Utf8.CodePointsWidth | src/byteToOffset.ts:10 | a JS string's code points take exactly its `.length` in UTF-16 units; lone surrogates count one each |
| Utf8.DecodedLengthOfBuffer | src/byteToOffset.ts:10 | `new Buffer(s).toString("utf8").length == s.length`, lone surrogates included |
| Utf8.DecodedLengthAfterPrefix | src/byteToOffset.ts:18-19 | complete code points before a byte suffix add their UTF-16 length, and the suffix is decoded from scratch |
| Utf8.AsciiBytes | src/extension.ts:258-260 | ASCII text is its own UTF-8 encoding |
| Utf8.AsciiDecodedLength | src/byteToOffset.ts:18-19 | every ASCII byte decodes to one code unit |
| ByteToOffset.EditInfo.constructor | src/extension.ts:161-165 | a new edit record holds the parsed offset and length and an empty text |
| ByteToOffset.OffsetCache.constructor | src/byteToOffset.ts:1-4 | the cache starts at byte 0, code unit 0 |
| ByteToOffset.OffsetCache.Translate | src/byteToOffset.ts:6-33 | rewrites the record's offset: forward from the cached pair when the offset is not before it, else from the buffer start. Rewrites the length by decoding the byte range. Stores (byte offset, new offset) in the cache and returns the same record |
| ByteToOffset.FastPathAgrees | src/byteToOffset.ts:15-25 | with a cache entry that is right for the text, the forward path gives the same offset as decoding from the start |
| ByteToOffset.TranslateKeepsAnchor | src/byteToOffset.ts:20-25 | translating a boundary offset from a right entry leaves a right entry, whatever the order of offsets |
| ByteToOffset.StartIsAnchored | src/byteToOffset.ts:1-4 | the initial cache entry is right for every text |
| ByteToOffset.PrefixAtBoundary | src/byteToOffset.ts:15-19 | a byte prefix ending past a code-point boundary decodes to the UTF-16 length before the boundary plus the rest |
| ByteToOffset.CodePointsAppend | src/extension.ts:258-260 | cutting a JS string anywhere but inside a surrogate pair cuts its code points |
| ByteToOffset.CodePointsSplit | src/extension.ts:258-260 | cutting a JS string anywhere but inside a surrogate pair cuts its code points in two |
| ByteToOffset.TwoWaySplit | src/extension.ts:258-260 | such a cut also splits its UTF-8 bytes |
| ByteToOffset.ThreeWaySplit | src/extension.ts:258-260 | cutting at the two ends of a range splits the bytes into before, inside and after |
| ByteToOffset.RoundTrip | src/byteToOffset.ts:6-33 | the byte offset and length the driver sends for a range translate back to the range's code-unit start and length, from any right cache entry |
| ByteToOffset.RoundTripOffset | src/byteToOffset.ts:15-25 | the offset half of the round trip |
| ByteToOffset.RoundTripLength | src/byteToOffset.ts:28-30 | the length half of the round trip |
| ByteToOffset.AsciiIsIdentity | src/byteToOffset.ts:6-33 | on ASCII text with an entry whose byte and code-unit halves agree, offset and length come back unchanged |
| ByteToOffset.TranslateBounds | src/byteToOffset.ts:15-30 | `TranslateOffset`, at or after the cached byte, adds to the cached code unit at most the bytes skipped; before it, it gives at most the byte offset itself; `TranslateLength` gives at most the byte length |
| ByteToOffset.ExampleEncoding | src/byteToOffset.ts:10 | "aé b" is the five bytes 61 C3 A9 20 62 |
| ByteToOffset.MixedWidthExample | src/byteToOffset.ts:15-21 | in "aé b", byte 3 is code unit 2, and byte 4 translated next from the entry (3, 2) is code unit 3 |
| ByteToOffset.StaleAnchorCounterexample | src/byteToOffset.ts:1-4 | after "a" leaves the entry (1, 1), byte 2 of "éa" (C3 A9 61) translates to code unit 2, where decoding from the start gives 1 |
| Replacements.OpenTagEffect | src/extension.ts:151-172 | `onopentag` pushes no edit and never unsettles the promise; with an edit pending it rejects as malformed; a tag other than the two known ones rejects; `replacement` starts an empty edit and moves the cache entry to its byte offset; other tags keep the pending edit and the entry |
| Replacements.TextAndCloseEffect | src/extension.ts:174-196 | `ontext` changes only the pending edit's text; `onclosetag` appends the pending edit, unchanged, after the edits already pushed and clears it, and without one changes nothing |
| Replacements.HandleKeepsHistory | src/extension.ts:147-200 | `Handle`, one callback: the edits already pushed stay in front, a settled promise stays settled the same way, and the end of input resolves and a parser error rejects an unsettled one |
| Replacements.ProcessKeepsHistory | src/extension.ts:147-200 | `Process`, the fold of `Handle` over events: the edits pushed before stay in front, and a settled promise keeps its settlement |
| Replacements.ObserveReflectsSettlement | src/extension.ts:147-149 | `Observe`: the consumer waits exactly while the promise is unsettled, receives the edit list exactly when it resolved, and the reason when it rejected |
| Replacements.ProcessSnoc | src/extension.ts:147-200 | handling one more event is one more callback on the state so far |
| Replacements.ProcessOne | src/extension.ts:147-200 | a single event is a single callback |
| Replacements.ProcessAppend | src/extension.ts:147-200 | handling two event runs in a row is handling the second from where the first left off |
| Replacements.Collector.constructor | src/extension.ts:144-145 | the callbacks start with no pending edit, no edits and an unsettled promise, and share the translator cache |
| Replacements.Collector.HandleOpenTag | src/extension.ts:151-172 | `onopentag`: a pending edit rejects with "Malformed output." and carries on. `replacements` does nothing more; `replacement` starts a new translated edit; any other tag rejects with "Unexpected tag" |
| Replacements.Collector.HandleText | src/extension.ts:174-180 | `ontext` replaces the pending edit's text, and is ignored without one |
| Replacements.Collector.HandleCloseTag | src/extension.ts:182-196 | `onclosetag` pushes the pending edit as an edit from its offset to offset plus length, whatever the tag, and clears it |
| Replacements.Collector.HandleSettle | src/extension.ts:147-149 | `onend` resolves and `onerror` rejects, and only the first settlement counts |
| Replacements.GetEdits | src/extension.ts:133-205 | feeding the parser's events to the callbacks ends in the outcome and cache entry that the fold `Process` gives from the cache's old entry |
| Replacements.FirstSettlementWins | src/extension.ts:147-200 | once settled, no later event changes the settlement |
| Replacements.OpenWhilePendingRejects | src/extension.ts:152-154 | opening any tag with an edit pending rejects with "Malformed output.", for good |
| Replacements.UnknownTagRejects | src/NWScriptFormatter.ts:131-132 | an unknown tag rejects with "Unexpected tag NAME.", for good |
| Replacements.NestedReplacementFails | src/NWScriptFormatter.ts:113-134 | a replacement nested in another fails with "Malformed output." |
| Replacements.LastTextWins | src/extension.ts:174-180 | after several text events the pending edit holds the last text only |
| Replacements.StrayEventsIgnored | src/NWScriptFormatter.ts:136-147 | text and close events without a pending edit change nothing |
| Replacements.EmptyDocumentResolvesEmpty | src/extension.ts:151-200 | `<replacements></replacements>` resolves to no edits |
| Replacements.ExpectedAll | src/extension.ts:187-194 | one expected edit per replacement |
| Replacements.ElementPushesOneEdit | src/extension.ts:160-196 | from a right cache entry, one element at a boundary pushes exactly its expected edit and leaves a right entry |
| Replacements.ElementAfterOpen | src/extension.ts:174-196 | after the open tag, the rest of an element fills in its text and pushes the edit |
| Replacements.ElementBody | src/NWScriptFormatter.ts:136-156 | an optional text event then a close tag turn the pending edit into one edit with that text |
| Replacements.OnBoundariesAll | src/extension.ts:160-167 | replacements that each start on a character boundary satisfy the recursive boundary condition |
| Replacements.ProcessElementsSnoc | src/extension.ts:147-200 | the events of one more element are handled after those of the earlier ones |
| Replacements.ElementsPushEdits | src/extension.ts:160-196 | a run of elements pushes their expected edits in document order |
| Replacements.WellFormedOutputResolves | src/extension.ts:133-205 | well-formed output on boundaries, from a right cache entry, resolves to exactly the expected edits in order |
| Replacements.OneEmptyElement | src/extension.ts:151-200 | a document with one empty replacement resolves to one empty edit at the translated offset |
| Replacements.SharedCacheMisplacesEdit | src/byteToOffset.ts:1-4 | with the cache left by an earlier run on "a", an empty edit at byte 2 of "éa" lands at code unit 2 (after "a") instead of 1 (between "é" and "a"), where a fresh cache puts it |
| Replacements.GetEditsScoped | src/NWScriptFormatter.ts:99-165 | `getEdits` with a fresh cache: the outcome is the fold from the initial entry, a function of the text and the events only |
| Replacements.ScopedCacheIsExact | src/NWScriptFormatter.ts:99-165 | with a fresh cache, well-formed output on boundaries resolves to exactly the expected edits |
| ClangPath.CorrectBinname | src/clangPath.ts:40-46 | on win32 the four candidates are the name with `.exe`, `.bat`, `.cmd`, in that order, then the bare name; elsewhere only the bare name. The bare name is last and every candidate extends it |
| ClangPath.SearchOrder | src/clangPath.ts:14-33 | the paths tried, in order: nothing to try exactly when there are no candidates, and the first try is the first candidate as given |
| ClangPath.Joined | src/clangPath.ts:24-25 | one joined path per directory of the search path |
| ClangPath.FirstExisting | src/clangPath.ts:14-33 | the answer exists and no path before it does; there is none exactly when no path exists |
| ClangPath.Resolve | src/clangPath.ts:14-37 | a cache miss answers an existing path in search order, or the bare name when none exists |
| ClangPath.Cached | src/clangPath.ts:10-12 | a cache entry counts only when present and non-empty |
| ClangPath.Lookup | src/clangPath.ts:9-38 | `getBinPath` answers an existing path, the bare name or the cached entry |
| ClangPath.SearchDirs | src/clangPath.ts:21-32 | the inner loop finds the first directory of the search path holding the candidate |
| ClangPath.SearchCandidates | src/clangPath.ts:14-33 | the outer loop finds the first existing path in search order |
| ClangPath.BinPathCache.constructor | src/clangPath.ts:7 | the path cache starts empty |
| ClangPath.BinPathCache.GetBinPath | src/clangPath.ts:9-38 | a hit answers the cached path and leaves the cache alone. A miss answers `Resolve` and stores the answer, found path or bare name, under the requested name |
| ClangPath.SearchOrderAppend | src/clangPath.ts:14-33 | the search order of concatenated candidate lists is the concatenation |
| ClangPath.SearchOrderSnoc | src/clangPath.ts:14-33 | one more candidate adds its own paths at the end |
| ClangPath.SearchOrderLength | src/clangPath.ts:14-33 | each candidate is tried `1 + |PATH|` times |
| ClangPath.SearchOrderAt | src/clangPath.ts:14-33 | position `k*(n+1)` tries candidate `k` as given, and the next `n` positions try it in each directory in order |
| ClangPath.SearchOrderAround | src/clangPath.ts:14-33 | the search order is: earlier candidates, this candidate's paths, later candidates |
| ClangPath.NoneExistsSnoc | src/clangPath.ts:16-30 | a missing path extends a run of missing paths |
| ClangPath.NoneExistsAppend | src/clangPath.ts:14-33 | two runs of missing paths make one |
| ClangPath.JoinedAround | src/clangPath.ts:24-25 | the joined paths around directory `j` |
| ClangPath.FoundCandidate | src/clangPath.ts:16-19 | a candidate that exists, after nothing earlier did, is the answer |
| ClangPath.FoundInDirs | src/clangPath.ts:24-30 | a path found in the search path after nothing earlier existed is the answer |
| ClangPath.FirstExistingAppend | src/clangPath.ts:14-33 | the first hit in two lists is the first list's, if any, else the second's |
| ClangPath.FirstAfterNone | src/clangPath.ts:14-33 | an existing path after only missing ones is the first hit |
| ClangPath.ResolveOffWindows | src/clangPath.ts:40-46 | off win32 the answer is the bare name or the bare name in a directory of the search path |
| JsString.Includes | src/utils/isIgnoredFile.ts:19 | `includes`: the empty string and the string itself are included, and an included string is never longer than the one including it |
| IgnoredFile.Matches | src/utils/isIgnoredFile.ts:14-22 | one entry matches only when its joined path exists; a match that is not a directory is the document's own path; an existing joined path equal to the document's path always matches |
| IgnoredFile.AnyMatches | src/utils/isIgnoredFile.ts:13-23 | `some` holds exactly when one configured entry matches |
| IgnoredFile.IsIgnoredFile | src/utils/isIgnoredFile.ts:6-24 | no workspace root or no `ignoredPaths` means not ignored. Otherwise the document is ignored exactly when some entry, joined to the root, exists and is a directory contained in the document's path or the path itself |
| IgnoredFile.OrderIrrelevant | src/utils/isIgnoredFile.ts:13 | only which entries are configured matters: neither their order nor repeated entries change the answer |
| IgnoredFile.DirectoryMatchesAnywhere | src/utils/isIgnoredFile.ts:19 | an existing ignored directory matches a path containing it anywhere, not only as a prefix |
| IgnoredFile.MissingEntriesNeverMatch | src/utils/isIgnoredFile.ts:16 | entries whose joined path does not exist never ignore anything |
| IgnoredFile.FileEntryMatchesOnlyItself | src/utils/isIgnoredFile.ts:19 | an existing non-directory entry matches exactly its own path |
| Driver.OnClose | src/extension.ts:283-300 | anything on stderr rejects with "Cannot format due to syntax errors."; otherwise any exit code but 0 rejects; only a clean exit is parsed |
| Driver.Respond | src/NWScriptFormatter.ts:222-239 | the promise carries the parse outcome exactly when the close handler parses |
| Driver.WorkingPath | src/NWScriptFormatter.ts:178-179 | the workspace root for an untitled document in an open workspace, the document's directory otherwise |
| Driver.RangeArgs | src/extension.ts:253-263 | the range becomes the byte length of the text before it and of the text in it, which is the pair `ByteRange` specifies |
| Driver.RangeArgsCover | src/extension.ts:253-263 | offset plus length is the byte length of everything up to the range's end |
| Driver.RangeArgsRoundTrip | src/extension.ts:253-263 | the bytes sent translate back, through a fresh cache, to the range's start and length |
| Driver.ByteRange | src/extension.ts:253-263 | a byte range is sent exactly when a range is given |
| Driver.FormatArgs | src/extension.ts:248-263 | `-output-replacements-xml`, the style, then for a range the offset and the length |
| Extension.PlatformString | src/extension.ts:26-37 | win32, linux and darwin map to "windows", "linux" and "osx"; anything else to "unknown" |
| Extension.PlatformExecutable | src/extension.ts:98 | the `executable.<platform>` setting is found exactly when that key is configured, and is its value |
| Extension.ExecutableSetting | src/extension.ts:98-100 | the platform setting if non-empty, else the generic one if non-empty, else none |
| Extension.ExecutablePath | src/extension.ts:94-119 | no setting gives "nwscript-formatter", returned before any substitution. A setting is expanded only when the root and the workspace folder are both known |
| Extension.Style | src/extension.ts:121-131 | the trimmed style when something is left after trimming, else "file" |
| Extension.StyleIsTrimmed | src/extension.ts:121-131 | the style sent is never blank nor padded, and is "file" for an unset or blank setting |
| Extension.WorkingPathOf | src/extension.ts:214-218 | the reassigning computation agrees with `WorkingPath` |
| Extension.FormatDocument | src/extension.ts:207-309 | ignored exactly when no process starts, and then it resolves to null with the path cache unchanged. Otherwise the process gets the looked-up executable, the arguments (range converted with `substr`) and the working path; the path cache keeps a hit and stores a miss under the executable path; the close decision and parsed output settle the answer |
| NWScriptFormatter.ExecutablePath | src/NWScriptFormatter.ts:69-87 | the setting or "clang-format", either expanded when the root and the workspace folder are both known |
| NWScriptFormatter.RangeArgsAsWritten | src/NWScriptFormatter.ts:190-200 | the length sent is the byte length between `start` and `end - start`, whichever is smaller first; the pair is the one `ByteRangeAsWritten` specifies |
| NWScriptFormatter.ByteRangeAsWritten | src/NWScriptFormatter.ts:190-200 | a byte range is sent exactly when a range is given, and its offset is the correct one |
| NWScriptFormatter.AsWrittenAgreesWhen | src/NWScriptFormatter.ts:195 | a definitional step: the two definitions share the offset, so the as-written and intended pairs agree exactly when the text between `start` and `end - start` has as many bytes as the selection |
| NWScriptFormatter.AsciiSliceBytes | src/NWScriptFormatter.ts:195-197 | on ASCII text a slice's byte length is its length |
| NWScriptFormatter.AsWrittenLengthOnAscii | src/NWScriptFormatter.ts:195 | on ASCII text the length sent is right exactly when the range starts at 0 or at twice its own length |
| NWScriptFormatter.SubstringRangeCounterexample | src/NWScriptFormatter.ts:195 | selecting "e" in "abcdef" sends length 3 instead of 1 |
| NWScriptFormatter.FormatDocument | src/NWScriptFormatter.ts:167-248 | disabled or ignored means no process and null, with the path cache unchanged. Otherwise the process gets the looked-up executable, `-output-replacements-xml`, the JSON style and, for a range, the byte range as written with `substring`, and the working path; the path cache keeps a hit and stores a miss; the close decision and parsed output settle the answer |

## Left out

- Spawning the process, its streams, the `error` handler (ENOENT resolves
  to null, other errors reject) and cancellation. They are I/O, so the
  process's stderr, exit code and parsed stdout are inputs
  (`Completion`).
- The `sax` parser. Its output is the event sequence it reports. Text may
  arrive in several `ontext` calls; each overwrites the last, as
  `LastTextWins` states. `parseInt` of the attributes is taken as the
  number it reads. Missing or non-numeric attributes, and the exception
  they raise inside a callback, are not modelled.
- `document.positionAt` is the identity on code-unit offsets. Its
  clamping to the document and its line/column form are not modelled.
- The `${workspaceRoot}`, `${workspaceFolder}`, `${cwd}` and `${env.X}`
  substitution is the `expand` parameter, and the workspace folder
  lookup with its warnings is the `workspaceFolder` parameter.
- `JSON.stringify` of the object style setting and the default style
  object of `src/defaultConfiguration.ts` are left out. The JSON text is
  the `styleJson` setting.
- `existsSync`, `lstatSync().isDirectory()`, `path.join`, `dirname` and
  the splitting of `PATH` are parameters: sets of paths, a join function,
  the document's directory and the list of directories.
- `binPathCache` is a plain object, so keys such as `constructor` hit
  inherited properties. The model is a map and does not capture that.
- `Replacements.WellFormedOutputResolves`: the boundary requirement is
  stated with the recursive `OnBoundaries`; `OnBoundariesAll` derives it
  from the per-replacement form.
- `Extension.FormatDocument` and `NWScriptFormatter.FormatDocument` parse
  with a cache created for the run (`GetEditsScoped`), the corrected
  behaviour from "Findings". `GetEdits` keeps the shared cache as
  written.
- `ClangPath.BinPathCache.GetBinPath`: the two nested loops of
  `getBinPath` are the methods `SearchCandidates` and `SearchDirs`, and
  their early returns are a returned `Option`.
- Logging to the output channel and the information and warning messages
  are left out.
- Registration of the providers (`activate`) is left out.

## Findings

| source | as written | input that shows it | evidently intended | confidence | as-written member | corrected member |
|---|---|---|---|---|---|---|
| src/NWScriptFormatter.ts:195 | `codeContent.substring(offset, length)` reads the length as an end index | "abcdef", range from 4 to 5: sends `-length=3` (the bytes of "bcd") | the byte length of the selected text, as `substr` in src/extension.ts:258 gives | not executed | NWScriptFormatter.SubstringRangeCounterexample | Driver.RangeArgs |
| src/byteToOffset.ts:1-4 | the module-level cache survives from one document and formatting run to the next | format "a" with an edit at byte 1, then "éa" (C3 A9 61) with an edit at byte 2: the edit lands at code unit 2 (after "a") instead of 1 (between "é" and "a") | offsets translated from the start of each document's own buffer | not executed | Replacements.SharedCacheMisplacesEdit | Replacements.ScopedCacheIsExact |
