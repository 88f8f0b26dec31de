# neon-mind asset store and thumbnail pipeline, in Dafny

This project models the Rust back end of the neon-mind desktop app. It covers two commands of the asset store and the `thumb://` protocol handler, together with the file system they share:

- `save_temp_image` stores a pasted image in the app's temp directory under a content-addressed name and returns a virtual path `_temp/<hash>.png`.
- `commit_assets` turns a list of virtual paths into project paths. It moves temp files into `<project>/assets`, imports existing absolute files by copying them under their content hash, and passes everything else through.
- The `thumb://` handler parses the request URI and resolves the virtual path. It then serves the original image, a cached thumbnail, or a newly generated and cached one, with status 200, 404 or 500.

The file system is a map from path strings to byte sequences. Directories are only path prefixes. I/O failures come from an explicit oracle (`FileSystem.Faults`) that gives, for each path or each (source, destination) pair, the OS message the operation fails with.

External code is passed in as uninterpreted function values in `Host.Env`:

- SHA-256, returning 32 bytes;
- base64 decoding and percent-decoding;
- `mime_guess`;
- `Path::is_absolute` and `Path::extension`;
- the image-width probe;
- one function that decodes, resizes and PNG-encodes an image.

Modules:

- `Wrappers`: `Option` and `Result`.
- `Text`: splitting, decimal formatting, Rust's `u32` parsing, UTF-8.
- `Host`: the environment record and path joining.
- `Utils`: the cache directories and the hash file name.
- `FileSystem`: the value-level primitives and the `FileStore` class.
- `Assets`: the asset commands as functions from a file map to a new file map and a result.
- `AssetCommands`: the same commands as imperative methods on a `FileStore`, each proved equal to its function; `commit_assets` is a loop.
- `AssetLemmas`: properties of the asset commands.
- `Thumbs`: path resolution, query parsing, the thumbnail decision and response mapping, as functions.
- `ThumbCommands`: the query loop and the thumbnail handler as methods.
- `ThumbLemmas`: properties of the thumbnail pipeline.

## Model

| member | source | states |
|---|---|---|
| Text.Split | src-tauri/src/thumb_protocol.rs:166-170 | `str::split`: at least one piece, no piece contains the separator, and joining the pieces with it gives back the input |
| Text.SplitJoin | src-tauri/src/thumb_protocol.rs:166 | splitting what was joined from separator-free pieces gives back those pieces (the inverse of joining) |
| Text.SplitOnce | src-tauri/src/thumb_protocol.rs:171 | `split_once('=')`: `None` exactly when there is no `=`; otherwise key + `=` + value is the pair and the key has no `=` |
| Text.DecimalString | src-tauri/src/thumb_protocol.rs:57 | the `{}` formatting of a width: only digits, no leading zero, its value is the number |
| Text.DecimalStringInjective | src-tauri/src/thumb_protocol.rs:60 | different widths are formatted differently |
| Text.ParseU32 | src-tauri/src/thumb_protocol.rs:173 | `str::parse::<u32>`: a value exactly when the text is one or more digits, or `+` and one or more digits, with a value below 2^32; the value is those digits' value |
| Text.ParseFormattedU32 | src-tauri/src/thumb_protocol.rs:173 | parsing a formatted `u32` gives it back (round trip through DecimalString) |
| Text.Utf8 | src-tauri/src/thumb_protocol.rs:59 | `as_bytes`: the concatenated encodings of the characters: one character encodes as `CharUtf8` of it, at least one byte per character, and for ASCII text exactly the character codes |
| Text.CharUtf8 | src-tauri/src/thumb_protocol.rs:59 | one character's UTF-8 sequence: 1 to 4 bytes, one byte exactly below 0x80, the lead byte announcing the length for the matching range of code points, continuation bytes `10xxxxxx`, and the bytes decode back to the code point |
| Text.Utf8Append | src-tauri/src/thumb_protocol.rs:59 | the encoding of a concatenation is the concatenation of the encodings |
| Host.Join | src-tauri/src/utils.rs:8 | the joined path starts with the base and `/`, and what follows is the name |
| Utils.TempDir | src-tauri/src/utils.rs:7-9 | `get_temp_dir`: the cache root, `/`, then `temp_images` |
| Utils.ThumbCacheDir | src-tauri/src/utils.rs:12-14 | `get_thumb_cache_dir`: the cache root, `/`, then `thumbs` |
| Utils.CacheDirsDisjoint | src-tauri/src/utils.rs:7-14 | for one cache root, nothing under `temp_images/` is also under `thumbs/` |
| Utils.HexEncode | src-tauri/src/utils.rs:21 | `hex::encode`: two lower-case hex digits per byte |
| Utils.HexRoundTrip | src-tauri/src/utils.rs:21 | decoding the hex text gives the bytes back |
| Utils.HexInjective | src-tauri/src/utils.rs:21 | different byte strings have different hex encodings |
| Utils.HashFilename | src-tauri/src/utils.rs:17-22 | `get_hash_filename` depends only on the data and the extension: a 64-digit lower-case hex prefix that decodes to the SHA-256 of the data, then `.` and the extension |
| Utils.HashFilenameEndsWithExtension | src-tauri/src/utils.rs:21 | the name ends with `.` + extension |
| Utils.HashFilenameInjective | src-tauri/src/utils.rs:21 | equal names mean equal digests and equal extensions, so distinct digests give distinct names |
| FileSystem.FileStore.Read | src-tauri/src/lib.rs:54 | `fs::read`: the bytes stored at the path, the oracle's error, or "No such file or directory" |
| FileSystem.FileStore.Write | src-tauri/src/lib.rs:44 | `fs::write`: the path now holds the data and nothing else changed, or an error and no change |
| FileSystem.FileStore.Rename | src-tauri/src/lib.rs:100 | `fs::rename`: the destination holds the source's bytes and the source is gone, or an error and no change |
| FileSystem.FileStore.Copy | src-tauri/src/lib.rs:103 | `fs::copy`: the destination holds the source's bytes and the source stays, or an error and no change |
| FileSystem.FileStore.Remove | src-tauri/src/lib.rs:108 | `fs::remove_file`: the path is gone, or an error and no change |
| Assets.RawBase64 | src-tauri/src/lib.rs:24-25 | the payload is the whole text when it has no comma; otherwise it is the comma-free text right after the first comma, up to the next comma |
| Assets.AssetsDir | src-tauri/src/lib.rs:81 | the project root, `/`, then `assets` |
| Assets.ExtensionOrBin | src-tauri/src/lib.rs:57-60 | the path's extension when it has one, otherwise `bin` |
| Assets.SaveTempImage | src-tauri/src/lib.rs:20-49 | a decode error returns Err with the files unchanged. After a decode, the call succeeds exactly when the temp file already exists or its write does not fail. An existing file is kept as it is, a missing one is written with the decoded bytes, and success returns `_temp/` + hash name. A failed write returns the OS message and changes nothing |
| Assets.ImportExternalFile | src-tauri/src/lib.rs:52-72 | a read failure gives exactly "Read error: " + the OS message and changes nothing. After a read, a failure always starts with "Write error: " and changes nothing. Success returns `assets/<hash>.<ext or bin>`, the copy exists, it is written only when absent, and the source is never touched |
| Assets.CommitItem | src-tauri/src/lib.rs:89-130 | one loop step. A temp input gives `assets/<f>`. With an absent source nothing happens. With a free destination the source moves there; the step fails exactly when the rename fails and then the copy or the removal fails, with that error and the files that the failed fallback leaves. With a taken destination it is kept and the source is removed. An existing absolute input is imported and the original kept, and a failed import emits the input. Any other input passes through and changes nothing |
| Assets.CommitAll | src-tauri/src/lib.rs:87-133 | on success there is one output per input; with no rename faults it always succeeds (the order of the outputs is stated by `AssetLemmas.CommitElement`) |
| Assets.CommitAssets | src-tauri/src/lib.rs:75-134 | `commit_assets` with the temp directory of the cache root and the assets directory of the project root: one output per input on success, and always success with no rename faults |
| AssetCommands.SaveTempImage | src-tauri/src/lib.rs:20-49 | the imperative command leaves exactly the files and returns exactly the result of `Assets.SaveTempImage` |
| AssetCommands.ImportExternalFile | src-tauri/src/lib.rs:52-72 | the imperative helper agrees with `Assets.ImportExternalFile` |
| AssetCommands.CommitItem | src-tauri/src/lib.rs:89-130 | the imperative loop body (rename, then copy and remove, or the import) leaves exactly the files and returns exactly the result of `Assets.CommitItem` |
| AssetCommands.CommitAssets | src-tauri/src/lib.rs:75-134 | the loop over `runtime_paths` leaves exactly the files and returns exactly the list of `Assets.CommitAssets`, including the early return on a failed move |
| AssetLemmas.ErrorIsFinal | src-tauri/src/lib.rs:105 | once an item fails, the whole call returns that error and the files as they were at that point |
| AssetLemmas.CommitPrefix | src-tauri/src/lib.rs:87-133 | when the whole list succeeds, every prefix succeeds and its outputs are the prefix of the outputs |
| AssetLemmas.CommitElement | src-tauri/src/lib.rs:89-131 | output i is what the single-item step yields for input i on the files left by the first i items, and that step leaves the files of the first i+1 items: the list is mapped one to one and in order |
| AssetLemmas.CommitOutputs | src-tauri/src/lib.rs:91-129 | output i of a `_temp/<f>` input is `assets/<f>`; a relative input is returned unchanged; the list has the input's length |
| AssetLemmas.NoFaultsNoErrors | src-tauri/src/lib.rs:100-105 | without I/O failures the commit never returns Err |
| AssetLemmas.ItemFrame | src-tauri/src/lib.rs:89-131 | with no I/O faults and neither directory inside the other, one step changes nothing outside the temp and assets directories, adds nothing to the temp directory and removes nothing from the assets directory |
| AssetLemmas.RunFrame | src-tauri/src/lib.rs:89-131 | with no I/O faults and neither directory inside the other, the same frame holds between any two points of the loop |
| AssetLemmas.TempSourceGone | src-tauri/src/lib.rs:97-110 | with no I/O faults and neither directory inside the other, after the call the temp source of every `_temp/` input is gone |
| AssetLemmas.OutsideUnchanged | src-tauri/src/lib.rs:89-131 | with no I/O faults and neither directory inside the other, a file outside both directories is the same at every point of the loop (imports copy and never move) |
| AssetLemmas.ImportedCopyKept | src-tauri/src/lib.rs:116-119 | with no I/O faults and neither directory inside the other, after the call the asset copy of every existing absolute input that lies outside both directories exists |
| AssetLemmas.ReplayItem | src-tauri/src/lib.rs:89-133 | with no I/O faults, neither directory inside the other and input i a temp path, a relative path or outside both directories, running input i's step on the files the first call left changes nothing and gives output i again |
| AssetLemmas.SecondPass | src-tauri/src/lib.rs:89-133 | under the hypotheses of `ReplayItem` for every input, replaying any prefix of the inputs on the files the first call left changes nothing and reproduces the first call's outputs |
| AssetLemmas.CommitIsIdempotent | src-tauri/src/lib.rs:75-134 | a second call with the same inputs returns the same list and leaves the files as the first call left them |
| AssetLemmas.RawBase64OfDataUri | src-tauri/src/lib.rs:23-25 | `data:…;base64,<payload>` and the bare payload yield the same text to decode |
| AssetLemmas.SaveTempImageDeduplicates | src-tauri/src/lib.rs:42-45 | saving the same image again returns the same path and changes no file |
| AssetLemmas.SaveThenCommit | src-tauri/src/lib.rs:20-111 | with no I/O faults, distinct temp and assets directories and neither hashed file present beforehand, saving an image and committing the returned path yields `assets/<hash>.png`; that file holds the decoded bytes and the temp copy is gone |
| AssetLemmas.JoinSameNameInjective | src-tauri/src/lib.rs:93-94 | the temp source and the assets destination of one name differ when the directories differ |
| Thumbs.Classify | src-tauri/src/thumb_protocol.rs:134-143 | every path string is exactly one of temp, absolute or project-relative, and rendering the class gives the string back |
| Thumbs.ResolveRealPath | src-tauri/src/thumb_protocol.rs:129-148 | `_temp/<f>` resolves to the temp directory joined with `<f>`, whatever the root and the files. A relative path with a root resolves to the root joined with the path, without an existence check. Anything else resolves to itself exactly when it exists, and to None otherwise |
| Thumbs.ApplyPair | src-tauri/src/thumb_protocol.rs:171-180 | a `w=<v>` pair sets the width to `<v>` parsed as `u32`, or 0; a `root=<v>` pair whose value decodes sets the root to it; any other pair changes nothing |
| Thumbs.QueryParams | src-tauri/src/thumb_protocol.rs:163-181 | the fold of the pairs from the defaults: a width other than 0 comes from some `w` pair and a root from some decodable `root` pair |
| Thumbs.QueryPairs | src-tauri/src/thumb_protocol.rs:166-170 | no pairs without `?`; otherwise at least one pair, none containing `&`, and joined with `&` they are the text between the first and second `?` |
| Thumbs.DecodedPath | src-tauri/src/thumb_protocol.rs:193-195 | the percent-decoded path, or the path itself when decoding fails |
| Thumbs.RequestPath | src-tauri/src/thumb_protocol.rs:166-195 | the text before the first `?`, with the scheme prefix stripped, then decoded |
| Thumbs.StripScheme | src-tauri/src/thumb_protocol.rs:185-191 | `thumb://localhost/` is tried before `thumb://`; otherwise the path is unchanged |
| Thumbs.CacheKey | src-tauri/src/thumb_protocol.rs:57 | `<path>?w=<w>`: it starts with the path, then `?w=`, and the rest parses back to the width |
| Thumbs.ProbeWidth | src-tauri/src/thumb_protocol.rs:46-47 | `image_dimensions`: nothing when the source cannot be read, otherwise the probe of the source's bytes; a width implies the source reads back as its bytes |
| Thumbs.CacheFileName | src-tauri/src/thumb_protocol.rs:57-60 | 64 hex digits decoding to the SHA-256 of the UTF-8 of `<path>?w=<w>`, then `_<w>.png` |
| Thumbs.Thumbnail | src-tauri/src/thumb_protocol.rs:35-126 | a missing source gives "Source file not found" and a failed probe gives the width error, both changing nothing. Width 0 or a narrower source returns the original bytes and their MIME type, with no cache access; an equal width is not a passthrough. A cache hit returns the stored bytes and writes nothing, and an unreadable cache file gives its OS message. A miss returns the resizer's PNG and caches it, or gives the resizer's or the write's error and changes nothing. At most the cache file is written, and only with the bytes returned |
| Thumbs.Respond | src-tauri/src/thumb_protocol.rs:199-226 | 404 with "File not found" exactly when unresolved. 200 exactly on Ok, with the content type, `Access-Control-Allow-Origin: *` and `Cache-Control: public, max-age=31536000`. 500 with the message exactly on Err |
| Thumbs.Dispatch | src-tauri/src/thumb_protocol.rs:199-226 | for a resolved path or none and a width: 404 with "File not found", no headers and no file change exactly when unresolved. Otherwise the files the thumbnail step leaves, with 200, its bytes, its MIME type, `Access-Control-Allow-Origin: *` and the `Cache-Control` header exactly on success, and 500 with the UTF-8 of its message and no headers exactly on error |
| Thumbs.HandleRequest | src-tauri/src/thumb_protocol.rs:161-227 | the status is 200, 404 or 500. It is 404 exactly when the path does not resolve, and then the body is "File not found", there are no headers and no file changes. A resolved path is processed with the query width: the files are those the thumbnail step leaves. 200 exactly on success, with its bytes, its MIME type as content type, `Access-Control-Allow-Origin: *` and the `Cache-Control` header. 500 exactly on error, with the UTF-8 of its message and no headers |
| ThumbCommands.ParseQuery | src-tauri/src/thumb_protocol.rs:163-183 | the loop over the query pairs computes the width and root that `QueryParams` defines |
| ThumbCommands.ProcessThumbnail | src-tauri/src/thumb_protocol.rs:35-126 | the imperative thumbnail step leaves exactly the files and returns exactly the result of `Thumbs.Thumbnail` |
| ThumbCommands.HandleRequest | src-tauri/src/thumb_protocol.rs:156-227 | the imperative handler returns exactly the response of `Thumbs.HandleRequest` and leaves its files |
| ThumbLemmas.ClassifyRender | src-tauri/src/thumb_protocol.rs:134-143 | classifying a rendered well-formed virtual path gives it back (the inverse of Classify) |
| ThumbLemmas.IgnoredPairChangesNothing | src-tauri/src/thumb_protocol.rs:171-181 | a pair without `=`, with an unknown key or with an undecodable root can be inserted anywhere without changing the result |
| ThumbLemmas.LastWidthWins | src-tauri/src/thumb_protocol.rs:173 | the width is the parsed value of the last `w` pair, or 0 when that value is not a `u32` |
| ThumbLemmas.AbsentWidthIsZero | src-tauri/src/thumb_protocol.rs:163 | without a `w` pair the width is 0 |
| ThumbLemmas.LastRootWins | src-tauri/src/thumb_protocol.rs:174-178 | the root is the decoded value of the last `root` pair that decodes |
| ThumbLemmas.AbsentRootIsNone | src-tauri/src/thumb_protocol.rs:164 | without a decodable `root` pair there is no root |
| ThumbLemmas.QueryAfterFirstMark | src-tauri/src/thumb_protocol.rs:166-170 | the pairs are the text after the first `?`, split at `&` |
| ThumbLemmas.OnlyFirstQueryIsParsed | src-tauri/src/thumb_protocol.rs:166-170 | text after a second `?` is never parsed |
| ThumbLemmas.NoQueryMeansDefaults | src-tauri/src/thumb_protocol.rs:163-169 | a URI without `?` gives width 0 and no root |
| ThumbLemmas.RequestPathOfUri | src-tauri/src/thumb_protocol.rs:185-195 | the path of `thumb://localhost/<p>[?<q>]` is `<p>` percent-decoded, or `<p>` itself when decoding fails |
| ThumbLemmas.MalformedWidthIsZero | src-tauri/src/thumb_protocol.rs:173 | `?w=<v>` with a `<v>` that is not a `u32` (such as `abc`) gives width 0 |
| ThumbLemmas.CacheFileNameInjective | src-tauri/src/thumb_protocol.rs:57-60 | equal cache names mean equal widths and equal key digests |
| ThumbLemmas.CacheOutsideTempDir | src-tauri/src/thumb_protocol.rs:62-66 | a cache path is never a temp-image path |
| ThumbLemmas.RepeatedRequestIsCacheHit | src-tauri/src/thumb_protocol.rs:66-125 | repeating a successful request on the files it left returns the same bytes and MIME type and writes nothing |

## Left out

- SHA-256, base64 decoding, percent-decoding, `mime_guess`, `Path::extension`, the image-width probe, and decoding, resizing and PNG encoding are foreign library code. They are uninterpreted functions in `Host.Env`. SHA-256 returns 32 bytes.
- Thumbs.ProbeWidth: the probe and the resizer are functions of the file's bytes only, and the probe fails whenever the source cannot be read. The `image` crate also looks at the path to choose a decoder, and it can read only the header, so in the source a probe can succeed on a file that later fails to read in full. Because of this assumption, the "Failed to open image" error of `process_thumbnail` cannot occur in the model: a successful probe means the source reads.
- FileSystem.FileStore.Write: a failed write leaves the file map unchanged (`FileSystem.WriteFile` as well). In the OS, `fs::write` first creates or truncates the file and then writes it, so a failure after the create can leave an empty or partial file.
- FileSystem.FileStore.Copy: a failed copy leaves no destination file (`FileSystem.CopyFile` as well). In the OS, `fs::copy` also creates or truncates the destination first, so a failure can leave a partial one.
- Because of these two lines, the model does not capture what a partial file does to later calls, since the source takes a file's existence as proof that it is complete. The "a failure changes nothing" clauses of `Assets.SaveTempImage`, `Assets.ImportExternalFile`, `Assets.CommitItem` and `Thumbs.Thumbnail` rest on this. In the source:
  - after a failed `save_temp_image` write, the next save of the same image finds the name taken and returns Ok with the truncated file;
  - after a failed import write, later imports of the same content return Ok with the truncated copy;
  - after a failed cache write, later requests are cache hits on a truncated PNG;
  - after a commit that failed in the copy fallback, a retry finds the destination present and deletes the intact temp source.
- The text of `io::Error` messages comes from the fault oracle. The missing-file text is fixed as "No such file or directory (os error 2)".
- Directory creation (`create_dir_all`) is not modelled, and neither is its error in `save_temp_image` and `commit_assets`. Directories exist only as path prefixes.
- Directories are not files in the model: a path exists only when it holds bytes. In the source `Path::exists` is also true for a directory. So `thumb://localhost//tmp` resolves in the source, fails the width probe and gives 500, while the model does not resolve it and gives 404.
- Path strings are file identities: `.`, `..` and repeated `/` are not resolved, so two spellings of one OS file are two files in the model. In the OS, `_temp/../x.png` moves `<cache root>/x.png` out of the cache root, which the frame lemmas (`AssetLemmas.ItemFrame`, `AssetLemmas.OutsideUnchanged`) do not account for.
- `Path::join` is a plain `base + "/" + name` join. `is_absolute` is abstract. Windows drive letters and a join that replaces an absolute base are not modelled.
- The `http::Uri` normalisation done by `to_string` is not modelled. The URI is taken as the given string.
- The target-height computation in `f64` is left out. The resize function gets only the source bytes and the width.
- Panicking `unwrap()` calls are outside the model. This covers the app cache directory lookup, `decode()`, `pixel_type()`, the PNG encoder and `into_inner()`. A panic ends the worker without a response, and the model has no such outcome.
- The thread pool, `ThumbnailCacheState`, `run()`, plugin registration and the Tauri responder are host plumbing. The model is the sequential request-to-response mapping.
- Logging and timing (`Instant`, `println!`, `eprintln!`) have no effect on results and are left out.
- The `{:?}` rendering of the missing path in the "Source file not found" message quotes the path but does not escape quotes or backslashes inside it.
- AssetLemmas.CommitIsIdempotent: it is proved under stated hypotheses. No I/O fails. The temp and assets directories do not contain each other. No absolute input lies inside either directory. Without these, the second call can differ. One example is the inputs `<temp dir>/a.png` and `_temp/a.png`: the first call imports `<temp dir>/a.png` and then moves it away, so the second call no longer finds it and passes its path through unchanged, and output 0 differs.
- AssetLemmas.SaveThenCommit: it assumes that no I/O operation fails, that the temp and assets directories differ, and that neither the temp file nor the asset file exists beforehand.
- ThumbLemmas.RepeatedRequestIsCacheHit: it assumes that the cache file is not the source itself and can be read.
- Concurrent requests and check-then-act races between `exists` and `write` are not modelled, because every operation runs alone on one file map.
