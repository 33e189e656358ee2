# s3-uploader, modelled in Dafny

`uploader.py` is a command-line script that uploads one file, or every
regular file below a directory, to an S3-compatible bucket. This project
models the logic the script itself owns and proves properties of it:

- **Destination keys** (`keys.dfy`, module `Keys`). `--s3_path` is stripped of
  every leading and trailing `/` (`Strip`, Python's `str.strip('/')`, built
  from `TrimLeading` and `TrimTrailing`). When `--s3_root` is truthy (given and
  non-empty, `HasPrefix`), the root and a `/` go in front (`StoreAt`, the
  source's `store_at`). A key is then `store_at + "/" + name` (`Join`,
  `ObjectKey`). In single-file mode the name is the file's base name; in
  directory mode it is the file's POSIX path relative to the source directory.
- **Progress counter** (`progress.dfy`, module `Progress`). The `bytes_count`
  closure becomes class `ByteProgress`. Its field `transferred` is
  `bytes_transferred` and its field `position` is the progress bar's position.
  Each `Record(size)` adds `size` to the counter. It then advances the bar by
  the new cumulative counter value, not by `size`, exactly as the code does.
  `Total`, `RunningTotals` and `BarPosition` give the abstract state after a
  sequence of callbacks.
- **Command line** (`cli.dfy`, module `Cli`). `Visibility` covers the two
  allowed ACLs, and `ParseVisibility` implements the choice and its default.
  `PathObject` is `path_object`, and `ParseArgs` keeps the two validations
  `parse_args` performs. `Host` bundles the filesystem, path, mimetype and
  transfer services as oracles (function-valued fields).
- **Uploads** (`uploader.dfy`, module `Uploader`). An upload is the
  `UploadRequest` record the program hands to `client.upload_file`: file name,
  bucket, key, ACL and content type. `UploadDir` (`upload_dir`) and
  `UploadFile` (`upload_file`) are methods that return the requests they
  issue, in order, and how the run ends (`Outcome`). `UploadFile` also returns
  the counter and bar values reached through `ByteProgress`. `Run` is `main`:
  validate, then dispatch on `isDir`. The ghost predicates `DirTrace` and
  `FileTrace` state what each routine must issue. `DirFiles`/`RegularFiles`
  give the list of files found by the walk. `FirstUnguessable` gives the
  position of the first file with no content type.

Oracles, all fields of `Cli.Host`:
- `resolve`: `BASE_DIR.joinpath`
- `pathExists`, `isDir`, `isFile`: the filesystem tests
- `walk`: `rglob('*')`, in whatever order the filesystem yields
- `relativePosix`: `relative_to(...).as_posix()`
- `baseName`: `os.path.basename`
- `fileSize`: `os.stat(...).st_size`
- `guessType`: `mimetypes.guess_type(...)[0]`
- `callbackSizes`: the sizes the storage client passes to the progress
  callback while it transfers a file

Three behaviours of the code that a reader might not expect, all kept by
the model:
- The root prefix is used exactly as given. It is not stripped, so a root
  `a/` gives keys starting with `a//`.
- A destination path made only of slashes becomes empty. The key is then
  `"/" + name` without a root (`Keys.KeyLeadingSlash`), or
  `root + "//" + name` with one (what `Keys.StoreAtShape` gives for an empty
  stripped path).
- The bar receives cumulative totals. Its position after the callbacks is the
  sum of the running totals, not the number of bytes transferred
  (`Progress.BarMatchesCounterIffAllButLastEmpty`).

## Model

| member | source | states |
|---|---|---|
| Keys.TrimLeadingSpec | uploader.py:58 | the leading-strip result is a suffix of the input that does not start with `/`, and only slashes were dropped |
| Keys.TrimTrailingSpec | uploader.py:58 | the trailing-strip result is a prefix of the input that does not end with `/`, and only slashes were dropped |
| Keys.StripCut | uploader.py:58 | the stripped path is a contiguous piece of the input with only slashes around it, and it has no slash at either end; interior characters are unchanged |
| Keys.CutUnique | uploader.py:85 | there is only one way to cut the slash runs off a string |
| Keys.StripCharacterized | uploader.py:58 | a string is the strip of `s` if and only if it is that unique cut of `s` |
| Keys.StripIdempotent | uploader.py:85 | stripping twice gives the same result as stripping once |
| Keys.StripFixedPoints | uploader.py:58 | strip leaves a string unchanged exactly when it has no leading or trailing slash |
| Keys.StripIgnoresEdgeSlashes | uploader.py:85 | adding runs of slashes of any lengths before and after a path (either run may be empty) does not change its stripped form |
| Keys.StoreAtShape | uploader.py:57-60 | with no root or an empty root the prefix is exactly the stripped path; otherwise it is the root, unchanged, then `/`, then the stripped path |
| Keys.ObjectKeyShape | uploader.py:62 | a key is the prefix, a `/` and the name, with nothing else |
| Keys.KeyEndsWithName | uploader.py:62 | every key ends with `/` followed by the base name (or relative path) |
| Keys.KeyDeterminesName | uploader.py:92 | under one root and destination, two keys are equal if and only if their names are, so distinct names never share a key |
| Keys.KeyLeadingSlash | uploader.py:57-62 | without a root, a key starts with `/` if and only if the destination path consists only of slashes |
| Keys.KeyIgnoresEdgeSlashes | uploader.py:84-92 | extra slashes before and/or after `--s3_path`, in any number (`/store`, `store//`), never reach the key |
| Keys.StripStore | uploader.py:85 | example: the destination `store` is used as it is |
| Keys.DirectoryExampleKeys | uploader.py:84-92 | root `assets`, path `store`, names `a/b.txt` and `c.png` give `assets/store/a/b.txt` and `assets/store/c.png` |
| Keys.NoRootExampleKeys | uploader.py:57-62 | example: with no root and destination `/store/`, and with the empty root and destination `store`, file `c.png` gets the key `store/c.png` |
| Progress.RunningTotals | uploader.py:68-71 | the k-th value passed to `update` is the cumulative total of the first k sizes |
| Progress.BarPositionSumsRunningTotals | uploader.py:68-71 | the bar's position is the sum of the running totals handed to it, in order |
| Progress.ByteProgress.constructor | uploader.py:53-56 | the counter starts at 0, the bar starts at 0 and its total is the file size |
| Progress.ByteProgress.Record | uploader.py:68-71 | one callback adds `size` to the counter and then advances the bar by the new counter value, keeping counter = sum of sizes and bar = sum of running totals; with `size >= 0` the counter does not decrease |
| Progress.TotalPrefixMonotone | uploader.py:70 | with non-negative sizes the counter never decreases from one callback to a later one |
| Progress.RunningTotalsSorted | uploader.py:71 | with non-negative sizes the values passed to `update` are non-decreasing |
| Progress.TotalNonNegative | uploader.py:70 | non-negative sizes give a non-negative counter |
| Progress.BarPositionAtLeastTotal | uploader.py:68-71 | with non-negative sizes the bar never stands below the bytes transferred |
| Progress.BarPositionAtMostScaledTotal | uploader.py:68-71 | with non-negative sizes the bar stands at most at the bytes transferred times the number of callbacks |
| Progress.BarMatchesCounterIffAllButLastEmpty | uploader.py:68-71 | with non-negative sizes the bar ends at the bytes transferred if and only if every callback but the last reported 0 bytes |
| Progress.BarZeroIffTotalZero | uploader.py:68-71 | with non-negative sizes the bar is at 0 exactly when the counter is |
| Progress.ZeroTotalIffAllZero | uploader.py:70 | non-negative sizes sum to 0 exactly when all are 0 |
| Progress.ThreeCallbacksExample | uploader.py:68-71 | three 10-byte callbacks: counter 30, updates 10, 20, 30, bar at 60 |
| Cli.Visibility.Acl | uploader.py:10 | each visibility is sent as one of the allowed strings |
| Cli.ParseVisibility | uploader.py:31-35 | a missing flag gives `private`, the first allowed value; a given value is accepted if and only if it is allowed, and then its ACL string is that value; otherwise the error names it |
| Cli.VisibilityRoundTrip | uploader.py:10 | every visibility is accepted back from its ACL string |
| Cli.PathObject | uploader.py:13-18 | `path_object` succeeds if and only if the resolved path exists; it then returns the resolved path, and otherwise its error names the resolved path |
| Cli.ParseArgs | uploader.py:21-37 | the arguments are accepted if and only if the path exists and the visibility is allowed; fields are copied, the visibility defaults to `private`; the error says which check failed |
| Uploader.RegularFiles | uploader.py:89 | the filter keeps at most as many entries as the walk yields |
| Uploader.RegularFilesMembers | uploader.py:89 | a path is among the uploaded files if and only if the walk yields it and it is a regular file |
| Uploader.FirstUnguessable | uploader.py:91-96 | every file before the returned position has a guessable type, and the file at it (if any) has none |
| Uploader.UploadDir | uploader.py:82-103 | the issued requests are exactly one per file before the first file with no content type, in list order, each with key `store_at/relative path`, that file's type and the configured ACL; the run fails naming that file, or ends `Done` if there is none |
| Uploader.UploadFile | uploader.py:51-79 | with no content type nothing is issued and the run fails naming the file; otherwise exactly one request with key `store_at/basename` is issued, and counter and bar end at the total and the sum of running totals of the reported sizes |
| Uploader.Run | uploader.py:106-112 | invalid arguments issue nothing and fail; a directory goes to the directory routine and anything else to the single-file routine; every request's ACL is allowed and equals the given visibility, or `private` by default |
| Uploader.TraceAcls | uploader.py:73-103 | every issued request carries the configured visibility as its ACL, and that is always an allowed value |
| Uploader.DirTraceComplete | uploader.py:89-103 | a directory upload ends `Done` if and only if every file's type can be guessed; it then issues one request per file, in list order, with the file's key |
| Uploader.DirTraceStopsAtFirstUnguessable | uploader.py:91-96 | a failed directory upload names the first file with no content type; exactly the files before it were uploaded, in order |
| Uploader.FileTraceGuard | uploader.py:62-79 | a single-file upload issues its one request if and only if the type can be guessed, with that type and a key ending in `/basename`; otherwise it issues nothing and fails |
| Uploader.DirectoryScenario | uploader.py:84-103 | files `a/b.txt` (text/plain) and `c.png` (image/png) under root `assets` and path `store` give exactly the two requests `assets/store/a/b.txt` and `assets/store/c.png`, in that order |

## Left out

- The storage client: building it from the credentials, endpoint and region
  (uploader.py:40-48), and the transfer itself (uploader.py:73-79, 98-103).
  An upload is only the request record. Storage-side errors (authentication,
  network, missing bucket) are not modelled: every issued request is taken
  to succeed.
- How the client chunks a transfer. The sizes it reports to the progress
  callback come from the `callbackSizes` oracle.
- The progress bars' rendering, units and scaling. This includes the
  file-count bar of the directory upload (uploader.py:91). Only the byte
  bar's position and total are kept.
- The filesystem work of `os.stat`, `rglob`, `is_file`, `exists`, `is_dir` and
  the `BASE_DIR` resolution. These are the oracles of `Cli.Host`. The order of
  `rglob` is whatever the `walk` oracle yields.
- The extension table of `mimetypes.guess_type`, and the path rules of
  `os.path.basename` and `relative_to(...).as_posix()`. These are oracles too.
- argparse's generic behaviour for required flags, help text and exit codes.
  The `--s3_access_key`, `--s3_secret`, `--s3_endpoint` and `--s3_region`
  flags are not kept, because only the client uses them. When both `--path`
  and `--s3_visibility` are invalid, argparse reports whichever error it
  meets first; the model reports the path error.
- Concurrent progress callbacks. The callbacks are taken as one sequence,
  each running to completion before the next starts. A storage client that
  calls the callback from several worker threads during a multipart
  transfer could interleave the unlocked updates of uploader.py:68-71 (two
  callbacks passing the same total to `update`, or a lost increment). The
  counter and bar values that `ByteProgress.Record` and `UploadFile` promise
  hold only for sequential callbacks.
- The final `print('Done.')`. It is the `Done` outcome.
- RegularFiles: its contract states the length bound, and `RegularFilesMembers`
  states membership. It does not state that the walk's order is kept; that
  order comes from the definition, which keeps each regular file in place.
