# electron-pan-clip clipboard core in Dafny

electron-pan-clip is a native Node.js addon. It copies lists of file paths to
the operating system clipboard and reads the clipboard back as file paths,
text or raw bytes. This project models its Rust core and proves what each
part promises.

- **JavaScript entry points** (`src/lib.rs`):
  - `write_clipboard_file_paths` treats an empty list as success and never calls the platform in that case.
  - `read_clipboard_results` merges a path read and a text read into one `{file_paths, text}` record. A text-read error means either "no text" or a real failure.
  - `read_clipboard_readable` describes raw clipboard bytes: a hex view, a text view, a MIME guess, the size and a printable preview.
  - The platform adapter's answers are parameters.
- **Windows, canonicalising writer** (`src/platforms/windows.rs`):
  - It writes a CF_HDROP block: a 20-byte DROPFILES header, then NUL-terminated UTF-16 paths, then one more NUL.
  - The block is built step by step into a global memory `array`.
  - The Win32 API is a class (`Win32.Win32Clipboard`) with a clipboard-open flag, a block life cycle (unlocked, locked, freed, handed over) and a fixed set of failing calls.
  - The readers are the NUL scan of CF_UNICODETEXT and the count-then-fetch loop over `DragQueryFileW`.
- **Windows, zero-initialised writer** (`src/platforms/windows/mod.rs`): the second writer, modelled on its own.
- **Linux** (`src/platforms/linux.rs`):
  - `xclip` is given a `text/uri-list` of `file://` URIs, one per line.
  - The readers take its output as text, as bytes, or as a URI list to parse back into paths.
  - How the helper ran (its exit status, stdout and stderr) is a parameter.
- **macOS, Option-returning wrappers** (`src/platforms/macos/api.rs`, over `wrapper.rs`):
  - The writer is strict: one failed path fails the write.
  - The readers take the first non-empty value from a fixed list of pasteboard types, then from the advertised types.
- **macOS, direct Cocoa messaging** (`src/platforms/macos.rs`):
  - The writer is lenient: it writes the paths that became URLs.
  - Its autorelease pool is drained once on every way out.
  - Each reader looks at one type.
  - The test-only variant with an injected clipboard is also modelled.

Cocoa is a class (`Cocoa.CocoaEnv`) holding:

- the general pasteboard: advertised types, strings and data per type, and URL objects;
- a history of pasteboard changes (clear, declare, write);
- the live autorelease pools and the `drain` messages sent;
- a `Runtime` value saying which object creations return nil, which calls report failure, and which strings and data a successful `writeObjects:` adds beside the URL objects.

Each writer's outcome is also a function into an `Effect` (result, changes made, pasteboard left). The methods are proved equal to these functions, and the protocol lemmas are stated about the functions.

Path canonicalisation (`Path::canonicalize` then `to_str`) is a total function from input strings to `Resolved`, `NotUnicode` or `Unresolvable` (module `Paths`). UTF-8 and UTF-16 are modelled in full (module `Unicode`):

- encoding;
- strict UTF-8 decoding;
- lossy decoding with replacement characters.

Text helpers such as `trim` and `join` are in module `Text`.

## Model

| member | source | states |
|---|---|---|
| Errors.PlatformErrorToNapi | src/lib.rs:29-31 | The napi reason is the OS name, " clipboard error: " and the error message; the message is its suffix. |
| ClipboardApi.ClassifyTextRead | src/lib.rs:163-175 | `Ok(s)` becomes `Ok(Some(s))`. An error becomes `Ok(None)` exactly when it is `NotFound` or its message contains "No text" or "empty". Any other error becomes the mapped napi error. |
| ClipboardApi.NoTextIsAbsentEverywhere | src/lib.rs:163-175 | The error each of the four platform text readers gives for a clipboard without text classifies as absent, not as a failure. |
| ClipboardApi.OpenFailureIsNotAbsence | src/lib.rs:166-168 | "Failed to open clipboard" is a real failure: it is not `NotFound` and contains neither "No text" nor "empty". |
| ClipboardApi.NamesNoAbsence | src/lib.rs:166-168 | A message with no `N` and no `y` contains neither "No text" nor "empty", so only its kind can make it an absence. |
| ClipboardApi.BothFailedNamesBoth | src/lib.rs:194-202 | The combined error's reason contains the path-read reason and the text-read reason. |
| ClipboardApi.RawText | src/lib.rs:213-224 | Raw bytes yield text only when they are valid UTF-8 and the decoded text is not blank. Non-empty bytes yield nothing only when they are invalid UTF-8 or blank. |
| ClipboardApi.ReadClipboardResults | src/lib.rs:154-245 | As written: fails exactly when the path read fails and the classified text read fails, naming both reasons. Otherwise `file_paths` is the path-read result or empty, and `text` is the read text or None. The raw read is never consulted. |
| ClipboardApi.ReadClipboardResultsWithFallback | src/lib.rs:205-237 | Corrected: raw bytes are consulted exactly when the path read failed and no text was read. The call fails only when the path read fails, the text read really fails and the raw bytes give no text. Otherwise the record is filled as in the code. |
| ClipboardApi.FallbackCounterexample | src/lib.rs:194-232 | The path read fails, the text read fails with "Failed to open clipboard", and the raw bytes are "hi". The code as written fails; the corrected reconciler returns text "hi" with no paths. |
| ClipboardApi.WriteClipboardFilePaths | src/lib.rs:101-119 | The platform writer is called exactly when the list is non-empty. An empty list gives `Ok`. Otherwise the call succeeds exactly when the platform writer does, and a failure is mapped to napi. |
| ClipboardApi.ReadClipboardReadable | src/lib.rs:249-286 | Fails exactly when the raw read fails, with the mapped error. `size` is the length truncated to 32 bits. The hex view is present exactly for non-empty data and parses back to the first min(n, 100) bytes. The text view, MIME type (by the sniffer as written) and preview are those of the bytes. |
| RawInspect.DetectMimeType | src/lib.rs:289-311 | As written: None exactly for empty data; otherwise one of pdf, jpeg, png, html, text/plain or octet-stream. |
| RawInspect.RealPngIsOctetStream | src/lib.rs:299 | Every input starting with the PNG signature whose lossy decoding lacks the HTML doctype (the bare signature among them) is classified as `application/octet-stream`, not `image/png`. |
| RawInspect.ShortBadLeadIsOctetStream | src/lib.rs:289-311 | Short data whose first byte matches no magic number and cannot start UTF-8 is `application/octet-stream`. |
| RawInspect.DetectMimeTypeCorrected | src/lib.rs:289-311 | The sniffer with the PNG test on the real signature: None exactly for empty data, otherwise one of the six types. |
| RawInspect.PngSignatureRecognised | src/lib.rs:298-300 | Every input starting with the 8-byte PNG signature is `image/png` for the corrected sniffer. |
| RawInspect.SniffersAgreeOffPng | src/lib.rs:289-311 | The two sniffers agree on every input that starts with neither `PNG\r\n` nor the PNG signature. |
| RawInspect.ShortTextIsPlain | src/lib.rs:304-308 | UTF-8 text of at most 1000 bytes, with no magic prefix and no HTML doctype, is `text/plain`. |
| RawInspect.PreviewChar | src/lib.rs:324-330 | A preview character is always printable ASCII (32 to 126). |
| RawInspect.GeneratePreview | src/lib.rs:314-335 | None exactly for empty data; otherwise min(n, 20) printable ASCII characters. |
| RawInspect.PreviewOfPrintableText | src/lib.rs:314-335 | The preview of printable ASCII text of at most 20 characters is the text itself. |
| RawInspect.PreviewShowsBytes | src/lib.rs:324-330 | Within the first 20 bytes, the preview's i-th character is byte i as a character when it is printable ASCII (32 to 126), and `.` otherwise. |
| RawInspect.PreviewReadsPrefix | src/lib.rs:319-320 | The preview depends only on the first 20 bytes. |
| RawInspect.HexViewRoundTrip | src/lib.rs:261-270 | The hex view parses back to the bytes it shows. It is 3n - 1 characters long for n bytes. |
| DropFiles.Header | src/platforms/windows.rs:26-32 | The DROPFILES header is 20 bytes. |
| DropFiles.HeaderFields | src/platforms/windows.rs:113-118 | Read back from a block: pFiles = 20, pt = (0, 0), fNC = FALSE, fWide = TRUE. |
| DropFiles.ToWideNull | src/platforms/windows.rs:35-37 | The wide form of a path ends with a NUL unit. |
| DropFiles.BlockSize | src/platforms/windows.rs:58-88 | The block is 20 + 2 + 2·Σ(UTF-16 length of each path + 1) bytes, the size the writer allocates. |
| DropFiles.NulCount | src/platforms/windows.rs:121-127 | For n NUL-free paths, the list after the header holds exactly n + 1 NUL units. |
| DropFiles.DropFilesRoundTrip | src/platforms/windows.rs:113-127 | The file names `DragQueryFileW` reports for a written block are the UTF-16 forms of the paths, in order, when each path is non-empty and NUL-free. |
| DropFiles.StoreList | src/platforms/windows.rs:120-127 | After the copy loop and the closing store, the bytes after the header are the concatenated wide paths and one NUL unit. The header bytes are untouched. |
| DropFiles.StoreU32 | src/platforms/windows.rs:115-118 | A field store writes the value little-endian at its offset and nothing else. |
| DropFiles.StoreUnits | src/platforms/windows.rs:123 | `copy_nonoverlapping` writes the units little-endian at the destination and nothing else. |
| Windows.ToWideNullBmp | src/platforms/windows.rs:35-37 | For text in the Basic Multilingual Plane, `to_wide_null` has length n + 1, ends in NUL and holds each character's code. |
| Windows.StoreHeader | src/platforms/windows.rs:113-118 | The header stores leave exactly the DROPFILES header in the first 20 bytes. |
| Windows.CopyFilesToClipboard | src/platforms/windows.rs:39-147 | The clipboard is closed on every exit. The result is `Ok` exactly when open, empty, canonicalisation of every path, alloc, lock and set all succeed; then CF_HDROP holds the block of the canonical paths. Each failure gives its own error, including the first failing path. The block is freed exactly when a failure comes after allocation, and is handed to the clipboard exactly on success. |
| Windows.WidenCanonical | src/platforms/windows.rs:58-90 | The loop stops at the first path that fails to canonicalise. Otherwise it yields the wide canonical paths and the allocation size. |
| Windows.FillBlock | src/platforms/windows.rs:113-127 | The locked block ends up as the header followed by the wide paths and the closing NUL. |
| Windows.NulLength | src/platforms/windows.rs:190-194 | The scan returns the number of units before the first NUL. |
| Windows.TextBlockRoundTrip | src/platforms/windows.rs:188-197 | Text stored as NUL-terminated UTF-16 is read back unchanged when it holds no NUL. |
| Windows.ReadClipboardText | src/platforms/windows.rs:150-207 | The clipboard is closed on every exit, and the content is unchanged. The errors are: open failure; "No text available in clipboard" when the format is absent; get failure; lock failure. Otherwise the result is the units before the first NUL, decoded with replacement. |
| Windows.ReadClipboardRaw | src/platforms/windows.rs:210-269 | The clipboard is closed on every exit, and the content is unchanged. A missing format and a failed get give the same error. An empty block is an error; otherwise the result is the block's bytes. |
| Windows.QueryPaths | src/platforms/windows.rs:302-324 | The fetch loop returns the block's file names, empty ones skipped, decoded in order. |
| Windows.ReadClipboardFilePaths | src/platforms/windows.rs:272-337 | The clipboard is closed on every exit. The errors are: open failure; a missing CF_HDROP; get failure. Otherwise the result is the listed non-empty names, or "No valid file paths found in clipboard" when there are none. |
| Windows.HdropRoundTrip | src/platforms/windows.rs:300-326 | The reader returns exactly the paths the writer stored, when each is non-empty and NUL-free. |
| WindowsZeroInit.CopyFilesToClipboard | src/platforms/windows/mod.rs:17-82 | Paths are encoded as given. The block is freed exactly on failure and handed over exactly on success. Success needs lock, open and set to succeed; every error is the last OS error. A failed empty is ignored: the set data joins the previous content. The clipboard is closed on every exit. |
| WindowsZeroInit.SizeOfList | src/platforms/windows/mod.rs:19-27 | The size loop gives 20 + 2·Σ(wide length), before the terminator is added. |
| WindowsZeroInit.FillZeroedBlock | src/platforms/windows/mod.rs:46-58 | In a zeroed block the pFiles and fWide stores and the list copy give the full DROPFILES block. |
| Linux.Uris | src/platforms/linux.rs:12-27 | One `file://` URI per path, in order, made from the canonical path's display form. |
| Linux.CopyFilesToClipboard | src/platforms/linux.rs:8-67 | The helper is given input exactly when every path canonicalises; its input is the UTF-8 URI list and its outcome is the result. Otherwise the error is `InvalidInput` naming the first failing path and the OS error. |
| Linux.ReadClipboardText | src/platforms/linux.rs:70-92 | Succeeds exactly on successful non-empty output, which is decoded with replacement. A spawn failure is passed on. |
| Linux.TextRoundTrip | src/platforms/linux.rs:70-92 | Non-empty text the helper prints is read back unchanged. |
| Linux.ReadClipboardRaw | src/platforms/linux.rs:95-116 | Succeeds exactly on successful non-empty output, returned byte for byte. A spawn failure is passed on. |
| Linux.LinePath | src/platforms/linux.rs:142-156 | A line contributes a path exactly when, trimmed, it starts with `file://`, and the path no longer starts with `file://`. |
| Linux.PathsOfLines | src/platforms/linux.rs:142-156 | The line loop yields the paths of the `file://` lines, in order; blank lines and comments are skipped. |
| Linux.ReadClipboardFilePaths | src/platforms/linux.rs:119-173 | Errors: a spawn failure; a failed exit, which carries stderr; empty output; a list naming no path. Otherwise the result is the paths of the URI list. |
| Linux.FileUriLine | src/platforms/linux.rs:24-26 | The URI of a plain path is one line, and the parser maps it back to the path. |
| Linux.UriListRoundTrip | src/platforms/linux.rs:29-30 | Parsing the newline-joined URIs of plain paths gives the paths back, in order. |
| Linux.WriteReadRoundTrip | src/platforms/linux.rs:8-173 | For canonical paths that are plain, reading back what the writer gives the helper yields the canonical paths. |
| MacPaths.PathOutcome | src/platforms/macos/api.rs:110-129 | A path yields a URL exactly when it canonicalises to valid Unicode and Cocoa makes its `NSString` and `NSURL`. The URL is made from the canonical path. |
| MacPaths.Outcomes | src/platforms/macos/api.rs:110-129 | Every path is processed, in input order. |
| MacPaths.OksErrsPartition | src/platforms/macos/api.rs:107-129 | Each path lands in exactly one of the URL list and the error list. |
| MacPaths.NoErrsIffAllOk | src/platforms/macos/api.rs:131-137 | No error is collected exactly when every path yields a URL. The URLs are then the outcomes in order. |
| MacPaths.NoOksIffNoneOk | src/platforms/macos.rs:206-213 | No URL is made exactly when every path yields an error. |
| MacPaths.OksWordingFree | src/platforms/macos.rs:172-204 | The URLs made do not depend on how the error messages are worded. |
| MacPaths.AllOkIffResolved | src/platforms/macos/api.rs:110-137 | Every path yields a URL exactly when all canonicalise and no Cocoa creation fails. The URLs are then the canonical paths. |
| MacPaths.NoErrsCanonical | src/platforms/macos/api.rs:110-137 | With no error collected, every path canonicalised and the URLs are the canonical paths in order. |
| MacPaths.CollectUrls | src/platforms/macos/api.rs:107-129 | The resolution loop fills `urls` and `errors` with the successes and the messages, in input order. |
| MacosApi.WriteClipboardFilePaths | src/platforms/macos/api.rs:90-183 | Result, pasteboard changes and pasteboard left are those of the write effect. The pool is released, and `drain` is sent once when the pool was made for a non-empty list. |
| MacosApi.ClearAndWrite | src/platforms/macos/api.rs:104-182 | Clearing, resolving and writing have the effect of the resolved paths. |
| MacosApi.DeclareAndWrite | src/platforms/macos/api.rs:139-182 | On the cleared pasteboard, declaring and writing have the declare effect. |
| MacosApi.WriteOkIff | src/platforms/macos/api.rs:90-183 | The write succeeds exactly for an empty list, or when every path becomes a URL and every Cocoa step succeeds. |
| MacosApi.WriteStrict | src/platforms/macos/api.rs:104-137 | One failed path fails the write with `InvalidInput` naming every failed path, after clearing the pasteboard and nothing else. |
| MacosApi.ResolvedProtocol | src/platforms/macos/api.rs:131-182 | The changes run clear, declare, write. The write happens only after a successful declaration with no failed path. Success leaves the declared types, the file URLs, and the strings and data `writeObjects:` adds (`Runtime.writtenStrings`/`writtenData`); under `Cocoa.WritesOnlyUrls`, nothing else. |
| MacosApi.DeclareProtocol | src/platforms/macos/api.rs:154-182 | The declaration comes first; the write happens only after it succeeded. The types are advertised exactly when the declaration was sent, even if its answer reads as failure. Success leaves the declared types, the file URLs, and the strings and data `writeObjects:` adds (`Runtime.writtenStrings`/`writtenData`). |
| MacosApi.WriteProtocol | src/platforms/macos/api.rs:90-183 | The changes run clear, declare, write. What is written are the canonical paths, in input order. |
| MacosApi.PriorityText | src/platforms/macos/api.rs:195-217 | The strings of the four priority text types, in order. |
| MacosApi.AdvertisedText | src/platforms/macos/api.rs:220-233 | The string behind each advertised type, in order. |
| MacosApi.TextCandidates | src/platforms/macos/api.rs:195-233 | The text read looks at the priority types first. |
| MacosApi.ReadClipboardText | src/platforms/macos/api.rs:186-239 | The read returns the text-read function's value and changes nothing on the pasteboard. |
| MacosApi.ScanPriorityText | src/platforms/macos/api.rs:203-217 | The first loop finds the first non-empty priority string. |
| MacosApi.ScanAdvertisedText | src/platforms/macos/api.rs:220-233 | The second loop finds the first non-empty advertised string. |
| MacosApi.TextIsFirstNonEmpty | src/platforms/macos/api.rs:186-239 | The read returns `s` exactly when `s` is the first non-empty candidate. It returns `NotFound` exactly when no candidate is non-empty. |
| MacosApi.PlainTextFirst | src/platforms/macos/api.rs:195-217 | Non-empty `public.utf8-plain-text` text is what the read returns. |
| MacosApi.PriorityData | src/platforms/macos/api.rs:263-285 | The data of the four priority raw types, in order. |
| MacosApi.AdvertisedData | src/platforms/macos/api.rs:300-312 | The data behind each advertised type, in order. |
| MacosApi.RawCandidates | src/platforms/macos/api.rs:263-312 | The raw candidates: the priority data, then the plain text as UTF-8, then the advertised data. |
| MacosApi.ReadClipboardRaw | src/platforms/macos/api.rs:242-330 | The read returns the raw-read function's value and changes nothing on the pasteboard. |
| MacosApi.ScanRawCandidates | src/platforms/macos/api.rs:271-312 | The three lookup loops find the first non-empty candidate. |
| MacosApi.ScanPriorityData | src/platforms/macos/api.rs:271-285 | The first loop finds the first non-empty priority data. |
| MacosApi.ScanAdvertisedData | src/platforms/macos/api.rs:300-312 | The last loop finds the first non-empty advertised data. |
| MacosApi.ReadClipboardFilePaths | src/platforms/macos/api.rs:333-371 | The read returns the path-read function's value and changes nothing on the pasteboard. |
| MacosApi.WriteLeavesUrls | src/platforms/macos/api.rs:154-182 | A successful non-empty write leaves the declared types, the canonical paths' file URLs, and the strings and data `writeObjects:` adds (`Runtime.writtenStrings`/`writtenData`); under `Cocoa.WritesOnlyUrls`, nothing else. |
| MacosApi.ReadBackFileUrls | src/platforms/macos/api.rs:353-370 | The path read of file URLs of NUL-free paths gives those paths. |
| MacosApi.ReadAfterWrite | src/platforms/macos/api.rs:333-371 | The path read of the pasteboard a write leaves gives the canonical paths. |
| MacosApi.WriteThenReadPaths | src/platforms/macos/api.rs:90-371 | A successful write reads back as the canonical paths, in order. |
| MacosApi.NoDataNoCandidate | src/platforms/macos/api.rs:263-312 | A pasteboard with no strings or data offers no raw candidate. |
| MacosApi.ReadRawFileUrls | src/platforms/macos/api.rs:314-320 | When `writeObjects:` adds nothing beside the URL objects, the raw read of the written pasteboard gives the paths joined by newlines. |
| MacosApi.ReadRawAfterWrite | src/platforms/macos/api.rs:242-330 | When `writeObjects:` adds nothing beside the URL objects, no type has data, so the raw read of the pasteboard a write leaves falls through to the canonical paths joined by newlines. |
| MacosApi.WriteThenReadRaw | src/platforms/macos/api.rs:242-330 | When `writeObjects:` adds nothing beside the URL objects, the raw read after a successful write falls through to the canonical paths joined by newlines. |
| Macos.CopyFilesToClipboard | src/platforms/macos.rs:151-300 | Result, pasteboard changes and pasteboard left are those of the copy effect. The pool is drained exactly once. |
| Macos.ClearAndCopy | src/platforms/macos.rs:166-221 | Clearing and resolving, then declaring and writing the successes, have the lenient effect. |
| Macos.DeclareAndCopy | src/platforms/macos.rs:223-299 | On the cleared pasteboard, the type, array, declare and write steps have the types effect. |
| Macos.SomeUrlMadeIff | src/platforms/macos.rs:172-213 | The URL list is non-empty exactly when some path canonicalises and gets its `NSString` and `NSURL`. |
| Macos.CopyOkIff | src/platforms/macos.rs:151-300 | The write succeeds exactly when the pasteboard is there, some path becomes a URL and every later Cocoa step succeeds. |
| Macos.CopyInvalidInputIff | src/platforms/macos.rs:166-213 | The write fails with `InvalidInput` exactly when the pasteboard is there and no path becomes a URL. The message then names every path, and the pasteboard is left cleared. |
| Macos.CopyEmptyFails | src/platforms/macos.rs:206-213 | An empty list fails with `InvalidInput` here, while the strict writer accepts it. |
| Macos.CopiedUrls | src/platforms/macos.rs:172-204 | The URLs written are those of the paths that resolved and whose Cocoa objects were made, and only those. |
| Macos.CopyProtocol | src/platforms/macos.rs:151-300 | Without the pasteboard nothing changes. Otherwise the changes run clear, declare, write: the clear always happens, and the write happens only after a successful declaration. The successes are written in order, and success leaves the declared types, their file URLs, and the strings and data `writeObjects:` adds (`Runtime.writtenStrings`/`writtenData`); under `Cocoa.WritesOnlyUrls`, nothing else. |
| Macos.LenientProtocol | src/platforms/macos.rs:166-299 | After clearing, only the case without a single URL fails with `InvalidInput`. The declaration precedes the write. |
| Macos.TypesProtocol | src/platforms/macos.rs:223-299 | The declaration comes first, and the write happens only after it succeeded. The types are advertised exactly when the declaration was sent, even if its answer reads as failure. Every failure here is of kind `Other`. |
| Macos.StrictOkMeansSameEffect | src/platforms/macos.rs:151-300 | Wherever the strict writer succeeds on a non-empty list, this writer has the same result, changes and pasteboard. |
| Macos.SameDeclareEffect | src/platforms/macos.rs:223-299 | Where the strict writer's declare and write steps succeed, this writer's steps do the same. |
| Macos.ReadClipboardText | src/platforms/macos.rs:303-363 | The read returns the text-read function's value, changes nothing and drains the pool once. |
| Macos.TextOkIff | src/platforms/macos.rs:330-358 | Succeeds exactly when the plain-text string is there with a UTF-8 form. It then returns that string, even an empty one. |
| Macos.TextAgreesWithApi | src/platforms/macos.rs:303-363 | Where this reader finds non-empty text, the reader of `api.rs` returns the same text. |
| Macos.ReadClipboardRaw | src/platforms/macos.rs:366-428 | The read returns the raw-read function's value, changes nothing and drains the pool once. |
| Macos.RawFirstTypeOnly | src/platforms/macos.rs:386-398 | Only the first advertised type matters. |
| Macos.RawOkIff | src/platforms/macos.rs:366-428 | Succeeds exactly when the first advertised type has data. The result is that data's bytes. |
| Macos.ReadClipboardFilePaths | src/platforms/macos.rs:431-507 | The read returns the path-read function's value, changes nothing and drains the pool once. |
| Macos.FileUrlPaths | src/platforms/macos.rs:458-494 | The loop keeps the paths of the file URLs with a UTF-8 path, in order. |
| Macos.PathsAgreeWithApi | src/platforms/macos.rs:498-506 | This reader succeeds with exactly the non-empty results of the `api.rs` path reader. |
| Macos.ReadBackCopied | src/platforms/macos.rs:431-507 | The path read of file URLs of a non-empty NUL-free list gives that list. |
| Macos.CopyThenReadPaths | src/platforms/macos.rs:431-507 | A successful write reads back as the paths that became URLs, in input order. |
| Macos.CopyThenReadText | src/platforms/macos.rs:303-363 | After a successful write, the text read sees only the strings `writeObjects:` added; without a plain-text one it reports no plain text. |
| Macos.CopyThenReadRaw | src/platforms/macos.rs:366-428 | After a successful write the first type is `public.file-url`: the raw read fails for it when `writeObjects:` added no data under it, and otherwise gives that data or nothing; there is no fallback to the paths. |
| Macos.CopyFilesToClipboardWithImpl | src/platforms/macos.rs:81-148 | The result is the variant's function: no pasteboard change, and the pool is drained once. |
| Macos.WithImplOkIff | src/platforms/macos.rs:69-147 | Succeeds exactly when some path becomes a URL and the mock is set to succeed. Once a URL exists, the mock's failure is returned unchanged. |
| Macos.WithImplInvalidInputIff | src/platforms/macos.rs:81-148 | Fails with `InvalidInput` exactly when no path becomes a URL, as the real writer does once it reaches the pasteboard. |
| Cocoa.ToRustString | src/platforms/macos/wrapper.rs:74-86 | `to_rust_string` gives a string exactly when `UTF8String` is non-NULL, never longer than its bytes. |
| Cocoa.RustStringOfNsString | src/platforms/macos/wrapper.rs:56-86 | An `NSString` made from a NUL-free string reads back as that string. |
| Cocoa.PathOfItem | src/platforms/macos/api.rs:357-366 | A URL element yields a path only when it is a file URL with a path. |
| Cocoa.FileUrlsRoundTrip | src/platforms/macos/wrapper.rs:96-135 | File URLs made from NUL-free paths give those paths back through `is_file_url` and `get_path`. |
| Cocoa.FirstCandidate | src/platforms/macos/api.rs:203-233 | The candidate found is the first present and non-empty one; none is found exactly when there is none. |

## Left out

- Native calls: Win32, Cocoa `msg_send` and `xclip` process calls are oracles. What they do is fixed per operation by the `Win32Clipboard` fields, the Cocoa `Runtime` value and the Linux helper outcome, not modelled from the operating system.
- The OS name in error reasons (`std::env::consts::OS`) is a parameter. An `io::Error` is rendered by its message alone.
- `println!`/`eprintln!` logging (including the lenient writer's warning about skipped paths) and `hello_world` are not modelled. The napi attributes and `read_clipboard_raw` in `src/lib.rs` are not modelled either: it only maps the platform error.
- Concurrency and other processes changing the clipboard between calls are not modelled.
- The `RealClipboard` implementations of `ClipboardOperations` in both macOS files are not modelled. No modelled operation calls them.
- `ObjcString::from_str` and the `initWithUTF8String:` calls in `macos.rs` pass the address of Rust string bytes that have no NUL terminator. The model assumes Cocoa reads exactly the string: it models the nil or non-nil outcome only, not the memory read past the end.
- The type name in the `macos.rs` raw read's error is the `UTF8String` of the first type. The model uses the type string itself, and a NULL there (undefined behaviour in the source) is not modelled.
- `NSArray` elements are a sequence of optional values. `from_vec` on an empty list and `objectAtIndex:` out of range are not separate cases, because the loops stay within `count`.
- WindowsZeroInit.CopyFilesToClipboard: requires the allocation to succeed, because `src/platforms/windows/mod.rs:34` unwraps it and a failed allocation panics.
- Windows.ReadClipboardText: requires the CF_UNICODETEXT block to hold a NUL unit, because the source scans for one with no bound.
- `DragQueryFileW` is modelled on wide (`fWide` = TRUE) lists only: ANSI lists are not produced by these writers. The 32-bit file count and the `u32` lengths are unbounded integers.
- Linux `str::lines` is a split at `\n`. A trailing `\r` and a final empty line are removed by the trim and the blank-line skip anyway.
- The stale expectation in the Linux test (`src/platforms/linux.rs:220-222`, a message the code never produces) is not encoded.
- What NSURL's own pasteboard writing adds beside the URL objects is not modelled: it is the `Runtime` fields `writtenStrings` and `writtenData`, an input like the other Cocoa outcomes. `Cocoa.Written` keeps the advertised types, so `writeObjects:` is assumed not to change them; Macos.CopyThenReadRaw's first type `public.file-url` rests on that.
- MacosApi.ReadRawFileUrls: holds only when `writeObjects:` adds no strings and no data (`Cocoa.WritesOnlyUrls`); otherwise the raw read may return those bytes instead of the paths.
- MacosApi.ReadRawAfterWrite: holds only when `writeObjects:` adds no strings and no data, as for MacosApi.ReadRawFileUrls.
- MacosApi.WriteThenReadRaw: holds only when `writeObjects:` adds no strings and no data, as for MacosApi.ReadRawFileUrls.
- ClipboardApi.ReadClipboardResults keeps the unreachable raw fallback as the code does. The reachable version is `ClipboardApi.ReadClipboardResultsWithFallback` (see Findings).
- The macOS readers drain their pool after computing the result. The model records the drain, not its order relative to the return, which cannot be observed.
- Macos.CopyEmptyFails: states the error kind only, not the full message text.
- Module layout: `macos.rs` sits beside `macos/mod.rs`, and `windows.rs` beside `windows/mod.rs`. `macos/mod.rs` re-exports a `copy_files_to_clipboard` that `api.rs` names `write_clipboard_file_paths`. Each variant is modelled on its own; which one is compiled is not decided.
- The JavaScript/TypeScript tests, `scripts/verify-binaries.js` and `examples/basic.js` are host-side and not modelled.

## Findings

| source | as written | input that shows it | evidently intended | confidence | as-written member | corrected member |
|---|---|---|---|---|---|---|
| src/lib.rs:299 | The PNG test checks for the prefix `PNG\r\n` at offset 0 | A real PNG file, whose first bytes are 89 50 4E 47 0D 0A 1A 0A, is reported as `application/octet-stream` | Test for the 8-byte PNG signature 89 `PNG\r\n` 1A `\n` | high, not executed | RawInspect.RealPngIsOctetStream | RawInspect.PngSignatureRecognised |
| src/lib.rs:208-232 | The raw fallback is guarded by "text read failed" inside the "path read failed" branch, after the both-failed early return | The path read fails, the text read fails with "Failed to open clipboard", and the raw bytes are "hi": the call fails and the raw bytes are never read | Try the raw bytes as text when the path read failed and no text was obtained | medium, not executed | ClipboardApi.FallbackCounterexample | ClipboardApi.ReadClipboardResultsWithFallback |
