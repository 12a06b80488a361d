# Compressed local-file storage adapter — Dafny model

This project models the decision logic of `CompressedAdapter`, a storage adapter
for the Ghost publishing platform that keeps uploaded images on the local disk and
runs them through imagemin compression plugins before writing them. The model
covers:

- the constructor's choice of compression plugins from the adapter options
  (module `Plugins`);
- the public URL that `saveRaw` and `save` resolve to, with host path separators
  turned into `/`, and the trailing-separator strip in `read` (module `Paths`);
- the two error-translation tables: filesystem error codes in `read` and HTTP
  statuses in `serve` (module `Errors`);
- the operations `saveRaw`, `save`, `exists`, the error callback of `serve`,
  `delete` and `read` (module `Adapter`).

Everything the adapter calls but does not define is a parameter:

- `Paths.Host` holds `path.sep`, `path.join`, `path.dirname`, `path.relative`,
  `urlUtils.urlJoin`, `urlUtils.getSubdir()` and the static image prefix.
- `Adapter.Fs` holds the outcomes of `fs.mkdirs`, `fs.writeFile`, `fs.readFile`
  and `fs.stat`.
- `Adapter.Base` holds the base-class helpers `getTargetDir` and
  `getUniqueFileName`.
- `Adapter.Imagemin` is the compressor: the files it produced or the error it threw.

An operation is a pure function from these to how its promise settles
(`Wrappers.Result` / `Wrappers.Outcome`). `save` and `saveRaw` also report the
file write they issue.

The URL normalisation is also given an independent, segment-wise reading: split
the joined URL at the host separator and re-join with `/`.
`Paths.JoinSegmentsIsSubstitute` proves that this is exactly the global replace.
`Paths.SplitJoinRoundTrip` and `Paths.JoinSplitRoundTrip` prove that the split is
lossless.

The adapter is meant to be fail-open: a compression failure should still leave
the original upload stored under the returned URL. The model follows what the
code actually does:

- `save` does NOT substitute the original bytes when compression fails. Nothing
  is written and the URL is still returned (`Adapter.Save`). A variant that keeps
  the original upload is given separately; see "## Findings".
- `read` strips at most ONE trailing `/` or `\`, not all of them
  (`Paths.StripUndoesOneSeparator` shows that `p//` becomes `p/`).

## Model

| member | source | states |
|---|---|---|
| Plugins.BuildPlugins | index.js:19-51 | missing options give no plugins; a codec is in the list iff its entry is present with truthy `active`; each plugin carries its own entry; the list follows the fixed order jpegtran, mozjpeg, pngquant, optipng, gifsicle, giflossy, webp with no codec twice |
| Plugins.SelectSound | index.js:22-50 | the test-and-push sequence keeps exactly the active codecs, each with its own option entry, and never reorders them |
| Plugins.SelectAllActive | index.js:22-50 | when every tested codec is active, all are kept, in the order tested |
| Plugins.AllActiveGivesCanonicalOrder | index.js:23-50 | with all seven entries active the plugin list is the seven codecs in constructor order |
| Plugins.SelectionExample | index.js:23-50 | an inactive entry and absent entries are skipped; webp still comes after jpegtran |
| Adapter.New | index.js:15-52 | the adapter keeps the configured image path; its plugins are exactly the active codecs, in constructor order, each built from its own option entry, and none without options |
| Paths.Substitute | index.js:78 | the global replace changes every occurrence of the separator into `/`, leaves every other character in place and keeps the length; afterwards the separator no longer occurs unless it is `/` itself |
| Paths.SubstituteIdempotent | index.js:137 | normalising an already normalised URL changes nothing |
| Paths.JoinSegmentsIsSubstitute | index.js:137 | replacing every separator equals splitting into path segments and re-joining them with `/` |
| Paths.SplitJoinRoundTrip | index.js:137 | separator-free segments joined with the separator split back into the same segments |
| Paths.JoinSplitRoundTrip | index.js:137 | splitting a path at the separator and joining with it again gives the path back |
| Paths.PublicUrl | index.js:71-78 | the URL has the length of the urlJoin of "/", subdir, prefix and path; it agrees with it on every non-separator character; it contains no host separator when that is not `/`; it is the segment-wise re-join with `/`; re-normalising it is a no-op |
| Paths.StripTrailingSeparator | index.js:230 | an absent path becomes ""; the result is a prefix of the path and at most one character shorter; it is shorter exactly when the path ends in `/` or `\` |
| Paths.StripUndoesOneSeparator | index.js:230 | one appended separator is removed, a path without one is unchanged, and of two trailing separators only the last is removed |
| Errors.TranslateReadError | index.js:236-267 | ENOENT or ENOTDIR gives NotFound, ENAMETOOLONG gives BadRequest, EACCES gives NoPermission, each in both directions; the fs error is kept as cause; NotFound and the generic error carry a message naming the path, the other two carry no message |
| Errors.ReadTranslationMatchesTable | index.js:237-266 | the read translation is total and agrees with the code-to-kind table; a code is a generic error iff it is not in the table |
| Errors.TranslateServeError | index.js:183-203 | 404 gives NotFound with code STATIC_FILE_NOT_FOUND, property `err.path` and no cause; 400 gives BadRequest, 403 NoPermission, each in both directions; every other status gives the generic error wrapping the HTTP error |
| Errors.ServeTranslationMatchesTable | index.js:184-202 | the serve translation is total and agrees with the status-to-kind table; a status is a generic error iff it is not in the table |
| Adapter.ServeNext | index.js:182-206 | `next` is called without an argument iff the static server reported no error; otherwise with the error the status table gives, a 404 carrying STATIC_FILE_NOT_FOUND and the failed path |
| Adapter.SaveRaw | index.js:59-82 | resolves iff mkdirs of the parent directory and the write both succeed; the write is issued iff mkdirs succeeded, with the buffer unchanged; a failing mkdirs rejects with its error, and a failing write after it with the write's error; the URL is the public URL of the target path and has no host separator |
| Adapter.CompressedWrite | index.js:108-125 | a write is issued iff imagemin resolved with at least one file, and it writes the first file's bytes to the target; a thrown error or an empty result writes nothing |
| Adapter.Save | index.js:93-144 | the target directory is the given one if truthy, else the default; a failing unique-name lookup or mkdirs rejects with that error and writes nothing; otherwise it resolves to the public URL of the file relative to the storage path, whatever imagemin does; the compressed first file is written iff imagemin produced one |
| Adapter.SaveFailOpen | index.js:106-127 | two different compression outcomes lead to the same settled URL; a compression error never causes a write |
| Adapter.SaveResolvesWithoutWrite | index.js:108-140 | when imagemin throws after a successful name lookup and mkdirs, save resolves to a URL although no file was written |
| Adapter.SaveKeepingOriginal | index.js:93-144 | whenever the corrected save resolves, a file is written at the unique name: the compressed bytes if there are any, else the original upload; a failing name lookup or mkdirs rejects with its error; once compression produced a file it resolves; only when compression produced no file and the upload cannot be read does it reject, with the read error |
| Adapter.SaveKeepingOriginalAgreesWithSave | index.js:93-144 | when the name lookup or mkdirs fails, or compression produced a file, the corrected save settles and writes exactly as the code as written does |
| Adapter.Exists | index.js:146-157 | never rejects; true iff stat succeeds on the file name joined to the truthy target directory or else to the storage path |
| Adapter.Delete | index.js:214-217 | always rejects with "not implemented" and needs no filesystem |
| Adapter.Read | index.js:225-272 | resolves iff the file read succeeds, with its bytes unchanged; reads the stripped path under the storage path; a failure carries the fs error and the kind the code table gives; NotFound and generic errors name the stripped path |
| Adapter.ReadIgnoresTrailingSeparator | index.js:227-232 | a path with one trailing separator reads the same file with the same outcome as without it; an absent path behaves as "" |

## Left out

- I/O itself: `fs.mkdirs`, `writeFile`, `readFile` and `stat` are parameters that give the outcome of each call. Nothing models a file system that changes over time.
- The imagemin plugins and their byte transforms are foreign code. Compression is an opaque function from the source path and the plugin list to a result. A plugin is only its codec and option entry.
- `serveStatic` itself, its `maxAge` and `fallthrough` settings, and the `onEnd` timing log (index.js:170-181). These are HTTP plumbing and wall-clock behaviour. Only the error callback is modelled.
- The internals of `urlUtils.urlJoin`, `getSubdir`, `path.join`, `path.relative` and `path.dirname`, and the base-class helpers `getUniqueFileName` and `getTargetDir`. Their code is not part of this model, so they are parameters.
- Message texts from the i18n catalogue and all `console.log` / logging output. A message is modelled as its catalogue key and the image path it names. `BadRequestError` and `NoPermissionError` get no explicit message.
- Adapter.Save: the write after compression is fire-and-forget (index.js:115-121). The model records that the write was issued. A failed write is only logged and does not change how save settles. Its timing relative to the returned promise is not modelled.
- Promise scheduling and concurrent saves: each operation is modelled as one sequential call.
- Plugins.BuildPlugins: the truthiness of an entry's `active` field is modelled as a boolean, and an entry is either present (an object) or absent. Falsy non-object entries count as absent.
- Errors.TranslateReadError: an fs error without a `code` is modelled as one whose code is none of the four recognised strings, so it gets the generic error as in the source.
- Adapter.Read: `read` also writes the stripped path back into the caller's `options` object (index.js:230). That side effect is not modelled.
- The `require("imagemin")` call sits outside the try block (index.js:107). A failure to load the module would reject `save`, and this is not modelled.
- Adapter.New: each active codec's `require("imagemin-…")` in the constructor (index.js:24-48) could throw and abort construction. Module loading is not modelled, so construction always succeeds.
- Paths.Host: `sep` may be any character, while Node.js only uses `/` or `\`. For those two the separator pattern at index.js:78 and index.js:137 matches literally; other characters, for which the pattern would mean something else, are not modelled.

## Findings

| source | as written | input that shows it | evidently intended | confidence | as-written member | corrected member |
|---|---|---|---|---|---|---|
| index.js:108-140 | when imagemin throws, or yields no file, the error is logged, nothing is written, and `save` still resolves to the URL of the target file | a name lookup and mkdirs that succeed, and an imagemin call that throws (a crashing plugin) | fail-open: the upload succeeds with the original, uncompressed bytes stored under the returned URL | medium, not executed | Adapter.SaveResolvesWithoutWrite | Adapter.SaveKeepingOriginal |
