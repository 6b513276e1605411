# Encryptyor, modelled in Dafny

Encryptyor is a small file encryption system with three layers:

- a browser client (`frontend/script.js`, class `EncryptyorFrontend`);
- a Node/Express server (`frontend/backend.js`) that stores the encryption key in its
  own environment, lists and previews files, and runs the C++ engine as a child process
  for every encryption request;
- the engine `encrypt_decrypt.exe` (`main.cpp`), which reads its command from `argv` or
  its task from stdin, queues tasks in a `ProcessManagement` object
  (`src/app/processes/ProcessManagement.cpp`) that launches one `cryption.exe` child per
  task and waits for them in batches of at most 64 handles, and reads its key through
  `ReadEnv` (`src/app/fileHandling/ReadEnv.cpp`).

The repository also carries a stand-alone Banker's algorithm safety check
(`frontend/file.c`).

The project has one module per source file, plus two more:

| module | file | models |
|---|---|---|
| `Text` | `text.dfy` | the string primitives the sources rely on: decimal rendering (`std::to_string`), ASCII `toLowerCase`, simplified `path.extname`/`path.basename` that split on '/' alone, `String.prototype.trim` |
| `ReadEnv` | `read_env.dfy` | the engine's one-time capture of `ENCRYPTION_KEY` |
| `Backend` | `backend.dfy` | the server: key store, child-process invoker, engine routes, upload naming, file listing, preview and raw-content handlers |
| `Frontend` | `frontend_client.dfy` | the client object (a class over the fields it updates) and its pure classifiers |
| `Processes` | `process_management.dfy` | the task queue and the child-process pool (a class over `taskQueue` and `processHandles`) |
| `Engine` | `engine_main.dfy` | `main` and its three batch commands plus the interactive path |
| `Bankers` | `bankers.dfy` | the safety check, on arrays, proved against a functional specification; its verdict is proved sound and (for non-negative allocations) complete |
| `Protocol` | `protocol.dfy` | how server and engine fit together: the argument and stdin text each route hands to the engine, and the key the engine ends up with |

Everything outside the programs is a parameter of the model. This covers:

- filesystem probes and reads, stat results and directory listings;
- spawn and `CreateProcessA` outcomes and `WaitForMultipleObjects` failures;
- fetch answers, clock readings and base64 text;
- the serialisation of a task (`Task::toString`).

The model states what the code does for every value these can take.

## Model

| member | source | states |
|---|---|---|
| `Text.ExtnameShape` | frontend/backend.js:245 | the extension is empty or starts with its only '.', and is a suffix of the name's last path segment |
| `Text.TrimSlice` | frontend/script.js:123 | the trimmed key is a slice of the input with only ECMAScript white space cut off either side, and neither of its ends is white space |
| `Text.TrimIdempotent` | frontend/script.js:123 | trimming twice is trimming once |
| `Text.ParseNatToString` | main.cpp:19 | parsing the decimal rendering gives back the number |
| `Text.NatToStringInjective` | main.cpp:37 | distinct numbers render differently |
| `ReadEnv.Capture` | src/app/fileHandling/ReadEnv.cpp:5-15 | a present variable is kept verbatim (even when empty); only an absent one yields "default-encryption-key" |
| `ReadEnv.GetEnv` | src/app/fileHandling/ReadEnv.cpp:17-19 | returns the captured text unchanged |
| `ReadEnv.KeyDecidedByPresence` | src/app/fileHandling/ReadEnv.cpp:6-11 | the default appears exactly when the variable is absent or equals the default; an empty value stays empty |
| `ReadEnv.CaptureDeterminedByEnvironment` | src/app/fileHandling/ReadEnv.cpp:5-19 | two present values give the same key exactly when they are equal |
| `Backend.SetKeyReply` | frontend/backend.js:99-107 | success exactly for a non-empty string key (200, "Key set successfully"), otherwise 400 "Key must be a valid string" |
| `Backend.KeyAfterRequest` | frontend/backend.js:52-55 | an accepted key replaces the stored one; a rejected request leaves it unchanged |
| `Backend.ChildKeyOf` | frontend/backend.js:62 | the child key is never empty: the stored key when it is non-empty, "5" otherwise |
| `Backend.LastAcceptedKey` | frontend/backend.js:101 | the last request that passed validation, always non-empty |
| `Backend.ChildSeesLastAcceptedKey` | frontend/backend.js:99-107 | after any series of set-key requests, every child gets the last accepted key, or the starting key (or "5") when none was accepted |
| `Backend.StdinWritten` | frontend/backend.js:88-92 | stdin is written (and closed) exactly for a non-empty input, with that input |
| `Backend.Accumulate` | frontend/backend.js:65-74 | the collected output is the concatenation of the data chunks in arrival order |
| `Backend.SettleOutcome` | frontend/backend.js:76-86 | resolves exactly on exit code 0 with both streams; a non-zero exit rejects with "Process exited with code " ending in stderr; a spawn error rejects with its own message |
| `Backend.PlanShape` | frontend/backend.js:110-173 | single-file routes refuse a missing path with 404 and spawn nothing, otherwise send "path\nencrypt\n" or "path\ndecrypt\n" on stdin with an empty argument; batch routes send a fixed argument and no stdin |
| `Backend.RouteOutcome` | frontend/backend.js:110-173 | a route succeeds exactly when it spawned the engine and the engine exited with 0, replying with its stdout; failures are 404 or 500 |
| `Backend.Server.constructor` | frontend/backend.js:62 | the server starts with the key of its own environment |
| `Backend.Server.SetKey` | frontend/backend.js:99-107 | the reply is `SetKeyReply` and the stored key becomes `KeyAfterRequest` of the old one |
| `Backend.Server.Execute` | frontend/backend.js:58-94 | spawns the engine with the single argument, the current child key and the stdin rule; settles as `Settle` |
| `Backend.Server.Handle` | frontend/backend.js:120-135 | spawns at most once, exactly when the plan exists, always with the current key; the reply is the route's reply |
| `Backend.Sanitize` | frontend/backend.js:23 | same length; characters in [a-zA-Z0-9.-] kept in place, every other character replaced by '_' |
| `Backend.SanitizeIdempotent` | frontend/backend.js:23 | sanitising a sanitised name changes nothing |
| `Backend.UploadStaysInRoot` | frontend/backend.js:182 | the returned path is "uploads/" followed by a stored name that holds no '/' and is the path's basename |
| `Backend.DistinctTimestampsDistinctNames` | frontend/backend.js:22-24 | uploads at different milliseconds never share a stored name |
| `Backend.SameMillisecondCollision` | frontend/backend.js:21-24 | two uploads in the same millisecond can share a stored name ("a b.txt" and "a_b.txt") |
| `Backend.FileTypeShape` | frontend/backend.js:221 | the type is the lower-cased extension without its dot, or "unknown"; never empty and dot-free |
| `Backend.ExtensionTypeShape` | frontend/backend.js:221 | for any extension text (empty, or a dot and no further dot) the derived type is never empty and holds no dot; it is "unknown" when nothing follows the dot, and otherwise the lower-cased text after the dot |
| `Backend.RootRecords` | frontend/backend.js:212-224 | each record's path is root/name and its type is derived from the name; no more records than entries |
| `Backend.ListingAppend` | frontend/backend.js:207 | the listing of concatenated roots is the concatenation of their listings |
| `Backend.TwoRootListing` | frontend/backend.js:205-229 | the test root's files come before the uploads root's; a missing or unreadable root contributes nothing |
| `Backend.FilesOf` | frontend/backend.js:215 | only entries that stat as regular files are listed |
| `Backend.RootRecordsStopsAtThrow` | frontend/backend.js:210-227 | an entry whose stat throws ends the root: the records of the entries before it stay, and no entry after it is listed |
| `Backend.RootRecordsAllStatted` | frontend/backend.js:212-224 | when every stat succeeds, a root lists exactly its regular files in readdir order |
| `Backend.PushRootRecords` | frontend/backend.js:212-224 | the loop appends the root's records and stops at the first entry whose stat throws |
| `Backend.ScanRoots` | frontend/backend.js:207-229 | scanning the roots in order yields exactly the listing: each readable root contributes its regular files in directory order up to the first entry whose stat throws, a missing or unreadable root contributes nothing |
| `Backend.ListFiles` | frontend/backend.js:199-235 | the handler returns the test root's records followed by the uploads root's |
| `Backend.FormatOf` | frontend/backend.js:249-291 | the seven image extensions, .pdf and the four Office extensions are recognised, and nothing else; image MIME types start with "image/"; an Office file carries the kind and MIME type its extension selects |
| `Backend.ImageMime` | frontend/backend.js:254-259 | every image MIME type the chain can pick, including its fallback, starts with "image/" |
| `Backend.DocumentKind` | frontend/backend.js:291 | the kind is "ppt" or "doc", and "ppt" exactly for .ppt and .pptx |
| `Backend.PreviewMissing` | frontend/backend.js:241-243 | a missing path is 404 whatever its extension |
| `Backend.PreviewImage` | frontend/backend.js:249-266 | an image becomes a data URI with the MIME type its extension selects, so the URI starts with "data:image/" |
| `Backend.ImageDataUri` | frontend/backend.js:264 | a data URI built from an image MIME type starts with "data:image/" |
| `Backend.PreviewPdf` | frontend/backend.js:272-278 | a PDF answers with the requested path and size, without reading the file |
| `Backend.PreviewDocument` | frontend/backend.js:281-297 | Office files answer with kind, MIME type and data URI of that type |
| `Backend.PreviewUnsupported` | frontend/backend.js:302-307 | any other extension answers success false |
| `Backend.HundredthsOfKiB` | frontend/backend.js:334 | the size in hundredths of a KiB, rounded half up |
| `Backend.KiBFixed2Shape` | frontend/backend.js:334 | the rendered size has exactly two decimals and reads back as that rounded value |
| `Backend.ContentRule` | frontend/backend.js:314-344 | text comes back verbatim, flagged as text, exactly for the nine text extensions whose read succeeds; everything else that exists is a bracketed placeholder flagged binary; a missing path is 404 |
| `Frontend.StrengthLabelRule` | frontend/script.js:101-119 | each strength label, both directions: "" for an empty key, "Strong" for 16+ characters with upper, lower and digit, "Medium" for 8+ otherwise, "Weak" below 8 |
| `Frontend.LongKeyWithoutDigitIsMedium` | frontend/script.js:110-115 | a long key without a digit is only medium |
| `Frontend.Repeat` | frontend/script.js:159 | n copies of the character |
| `Frontend.MaskReveals` | frontend/script.js:154-164 | a key over 10 characters shows its first and last four around "..."; a shorter one only its length, in stars; the status says "No key set" exactly for the empty key |
| `Frontend.PushLogShape` | frontend/script.js:558-561 | the new entry is first, the old ones follow, at most 50 are kept |
| `Frontend.LogIsNewestFirst` | frontend/script.js:550-564 | after any series of log calls the log is the 50 most recent entries, newest first |
| `Frontend.TimesAreLatest` | frontend/script.js:327-330 | the timing window is always the last 100 durations, in arrival order |
| `Frontend.FilterFiles` | frontend/script.js:590-607 | a file is shown exactly when it is listed and passes the filter and the search query; never more files than listed |
| `Frontend.FilterAppend` | frontend/script.js:590 | filtering keeps the listing's order |
| `Frontend.FilteredListingKeepsRootOrder` | frontend/script.js:581-607 | the filtered list shows the test root's files before the uploads root's |
| `Frontend.ProgressLabel` | frontend/script.js:541-547 | "Ready" exactly at 0, "Processing..." for any non-zero value below 100 (negative values included), "Completed" at 100 and above |
| `Frontend.Client.constructor` | frontend/script.js:3-13 | no key, not processing, empty log, zero counters, empty timing window |
| `Frontend.Client.OnKeyInput` | frontend/script.js:29-32 | the typed text becomes the current key; nothing else changes |
| `Frontend.Client.LogOperation` | frontend/script.js:550-564 | the log becomes `PushLog` of the old log; nothing else changes |
| `Frontend.Client.UpdateStats` | frontend/script.js:320-332 | one more file of the given direction and in total; the duration enters the 100-entry window |
| `Frontend.Client.SetEncryptionKey` | frontend/script.js:121-152 | sends the trimmed key exactly when it is non-empty; adopts it only on a success answer; logs success or a thrown error, nothing for a refusal |
| `Frontend.Client.BeginOperation` | frontend/script.js:279-298 | refused, sending nothing, while another operation is in flight; otherwise raises the flag, logs the start and sends the file request |
| `Frontend.Client.FinishOperation` | frontend/script.js:300-317 | on success logs and counts the file; on failure logs the error and counts nothing; in every case lowers the flag |
| `Frontend.Client.BatchOperation` | frontend/script.js:186-277 | sends the batch request; logs start and end; a successful encrypt-all or decrypt-all counts 100 files of its direction |
| `Processes.CommandLineShape` | src/app/processes/ProcessManagement.cpp:85 | the task text sits unchanged between the quotes after build\cryption.exe |
| `Processes.CommandLines` | src/app/processes/ProcessManagement.cpp:30-40 | one command line per task, in queue order |
| `Processes.Launched` | src/app/processes/ProcessManagement.cpp:99-105 | the handles kept are those of the successful launches, in launch order |
| `Processes.LaunchedMembers` | src/app/processes/ProcessManagement.cpp:99-105 | a handle is kept exactly when some launch produced it |
| `Processes.NonNull` | src/app/processes/ProcessManagement.cpp:113-119 | cleanup closes no more handles than are stored |
| `Processes.NonNullMembers` | src/app/processes/ProcessManagement.cpp:114-118 | cleanup closes every non-NULL handle and nothing else |
| `Processes.AllLaunchedOnePerTask` | src/app/processes/ProcessManagement.cpp:105 | when every launch succeeds there is one handle per task |
| `Processes.BatchesFromLayout` | src/app/processes/ProcessManagement.cpp:46-68 | wait i starts 64·i handles in, holds 1 to 64 handles, and all but the last succeed |
| `Processes.OnlyLastBatchFails` | src/app/processes/ProcessManagement.cpp:51-68 | no wait but the last one reports WAIT_FAILED |
| `Processes.BatchesCoverUnlessFailed` | src/app/processes/ProcessManagement.cpp:51-68 | unless the last wait failed, the waits together cover every remaining handle |
| `Processes.WaitStep` | src/app/processes/ProcessManagement.cpp:51-67 | one wait appends its batch and leaves the batches still to come, none once it failed |
| `Processes.BatchesFromEnd` | src/app/processes/ProcessManagement.cpp:51-68 | only the last wait may fail; unless it does, the waits cover every handle |
| `Processes.WaitCoversAllHandles` | src/app/processes/ProcessManagement.cpp:46-68 | without failures the waits cover all n handles in ⌈n/64⌉ consecutive batches |
| `Processes.CoveredBound` | src/app/processes/ProcessManagement.cpp:52 | batches of at most 64 cover at most 64 handles each |
| `Processes.WaitStopsAtFailure` | src/app/processes/ProcessManagement.cpp:61-64 | a failed wait is the last one issued; later handles are never waited on |
| `Processes.ProcessManagement.constructor` | src/app/processes/ProcessManagement.cpp:7 | empty queue, no handles |
| `Processes.ProcessManagement.SubmitToQueue` | src/app/processes/ProcessManagement.cpp:13-16 | always accepts; the task joins the back of the queue |
| `Processes.ProcessManagement.ExecuteTasks` | src/app/processes/ProcessManagement.cpp:18-25 | each queued task is handed to the cryption routine once, in queue order; the queue ends empty |
| `Processes.ProcessManagement.CreateChildProcess` | src/app/processes/ProcessManagement.cpp:76-111 | builds the command line; succeeds exactly when the launch does, and only then stores the handle |
| `Processes.ProcessManagement.LaunchQueued` | src/app/processes/ProcessManagement.cpp:30-40 | one launch per queued task in order; the successful handles are appended; the queue ends empty |
| `Processes.WaitInBatches` | src/app/processes/ProcessManagement.cpp:46-68 | the loop issues exactly the batch layout for n handles: 64 at a time from the front, nothing after the first WAIT_FAILED |
| `Processes.ProcessManagement.WaitForChildren` | src/app/processes/ProcessManagement.cpp:43-71 | the waits issued are the batch layout for the stored handles |
| `Processes.ProcessManagement.CleanupProcesses` | src/app/processes/ProcessManagement.cpp:113-120 | closes the non-NULL handles and clears the list |
| `Processes.ProcessManagement.Dispose` | src/app/processes/ProcessManagement.cpp:9-11 | the destructor cleans up |
| `Processes.ProcessManagement.ExecuteTasksWithMultiprocessing` | src/app/processes/ProcessManagement.cpp:27-74 | launches every queued task, waits for the launched children in batches, closes their handles, and ends with an empty queue and no handles |
| `Engine.DispatchRule` | main.cpp:85-105 | each batch command exactly on its argument; anything else, or no argument, is the interactive path |
| `Engine.ActionOf` | main.cpp:124 | exactly "encrypt" encrypts; every other text decrypts |
| `Engine.Getline` | main.cpp:109 | the line holds no '\n'; the input is the line, the '\n' and the rest; without a '\n' the whole input is the line |
| `Engine.GetlineInverse` | main.cpp:109-112 | a line written with its terminator is read back unchanged, leaving what followed |
| `Engine.TestFileNamesDistinct` | main.cpp:19 | distinct indices name distinct test files |
| `Engine.QueuedTestFiles` | main.cpp:36-51 | at most one task per index |
| `Engine.QueuedTestFilesMembers` | main.cpp:36-51 | test file i is queued exactly when 1 ≤ i ≤ n and it exists, is not a directory and opens; every task carries the batch's action |
| `Engine.QueuedTestFilesAscending` | main.cpp:36 | tasks are queued in ascending file index |
| `Engine.QueuedIndexBound` | main.cpp:37 | every queued task names a test file with index 1 to n |
| `Engine.BuildBatch` | main.cpp:31-51 | the new queue is the queued test files, with no handles yet |
| `Engine.TestFileContentTail` | main.cpp:22-24 | the text streamed into test file i is 142 to 144 characters longer than its printed index and ends in its "Random data" line, whose digits read back as (i · 123) mod 1000, below 1000 |
| `Engine.TestFilesWritten` | main.cpp:18-27 | at most one file per index |
| `Engine.AllTestFilesWritten` | main.cpp:18-27 | when every stream opens, exactly n files are written, file i with its fixed streamed text |
| `Engine.CreateTestFiles` | main.cpp:12-29 | writes the test files 1 to 100 whose streams open |
| `Engine.Interactive` | main.cpp:107-137 | reads the file name and action lines; runs one task exactly when the file exists, is not a directory and opens |
| `Engine.Run` | main.cpp:85-143 | exit code 0 on every path; each command does exactly its own work and nothing else |
| `Bankers.InitialAvail` | frontend/file.c:28-34 | one available amount per resource |
| `Bankers.NeedMatrix` | frontend/file.c:36-40 | the need matrix has the claim matrix's shape |
| `Bankers.AddRow` | frontend/file.c:59-60 | releasing keeps the vector's length |
| `Bankers.CountTrueSet` | frontend/file.c:62-63 | finishing one more process raises the finished count by one |
| `Bankers.Select` | frontend/file.c:58-65 | selecting a process appends exactly one entry to the sequence and keeps the sizes |
| `Bankers.PassFrom` | frontend/file.c:50-67 | a sweep never removes a selected process |
| `Bankers.InitialReachable` | frontend/file.c:42-46 | the starting state (nothing finished, empty sequence) satisfies the sweep's invariant |
| `Bankers.SelectReachable` | frontend/file.c:58-65 | selecting a process whose need fits keeps the sequence distinct, safe and in step with avail and finish |
| `Bankers.PassFromBookkept` | frontend/file.c:50-67 | a sweep keeps the sequence distinct and finish marking exactly its processes |
| `Bankers.PassFromSafe` | frontend/file.c:50-67 | a sweep keeps work equal to avail plus what the sequence has released, and the sequence safe |
| `Bankers.PassFromReachable` | frontend/file.c:50-67 | a whole sweep keeps that invariant |
| `Bankers.PassFromNothing` | frontend/file.c:69-72 | a sweep that selects nothing changes nothing, and then no unfinished process fits |
| `Bankers.RunFulfilled` | frontend/file.c:48-75 | "can be fulfilled" comes with a sequence listing every process once, each fitting what the earlier ones released |
| `Bankers.RunUnfulfilled` | frontend/file.c:69-72 | "cannot be fulfilled" stops at a reachable state where some process is unfinished and none fits |
| `Bankers.BankerVerdict` | frontend/file.c:48-75 | the program's verdict is sound: a reported safe sequence is a permutation of the processes and is safe |
| `Bankers.UnfulfilledMeansUnsafe` | frontend/file.c:69-72 | when allocations are non-negative, "cannot be fulfilled" means no ordering of the processes is safe |
| `Bankers.BankerDecides` | frontend/file.c:28-75 | when allocations are non-negative, the verdict is "can be fulfilled" exactly when some ordering of the processes is safe |
| `Bankers.ComputeAvail` | frontend/file.c:28-34 | the avail array is total minus the column sums of alloc |
| `Bankers.ComputeNeed` | frontend/file.c:36-40 | need[i][j] = max[i][j] − alloc[i][j] |
| `Bankers.FitsNow` | frontend/file.c:52-56 | the scan ends early exactly when some need entry exceeds avail |
| `Bankers.Release` | frontend/file.c:59-60 | avail receives the process's allocation, entry by entry |
| `Bankers.Sweep` | frontend/file.c:50-67 | one pass of the outer loop's body over the arrays equals the specification sweep; found exactly when the count rose |
| `Bankers.Admit` | frontend/file.c:58-65 | the arrays after one selection equal the specification's selection |
| `Bankers.SafetyCheck` | frontend/file.c:28-75 | the whole check on arrays returns the specification's verdict |
| `Protocol.EngineArgv` | frontend/backend.js:60 | the engine's argv is its path and the one argument the server passes |
| `Protocol.InteractiveTask` | main.cpp:109-124 | the task read from stdin names a file without a line break, and encrypts exactly when the second line is "encrypt" |
| `Protocol.SingleFilePayload` | frontend/backend.js:129 | the stdin text "path\nencrypt\n" (or decrypt) is read back by the engine as exactly that file and direction |
| `Protocol.BatchRequestReachesEngine` | main.cpp:89-105 | the three batch routes select the engine command of the same name |
| `Protocol.SingleFileRequestReachesEngine` | frontend/backend.js:129-130 | a single-file route with an existing path reaches the engine's interactive path with the requested file and direction |
| `Protocol.EngineKeyAfterRequests` | frontend/backend.js:62 | the engine encrypts with the last accepted key (or the server's starting key, or "5"), never empty; its built-in default is used only when that very text was chosen |

## Left out

- Encryption itself (`Cryption.cpp`, OpenSSL) is not part of this model. The engine's calls into it are recorded as the task texts handed over.
- `Task.hpp` and the `IO` class are not part of this model. `Task::toString` is a function parameter, and opening a file stream is a filesystem probe.
- Console output of the engine, the server and the Banker's program is left out. This includes messages such as "All child processes completed successfully!", which `ProcessManagement.cpp:70` prints even after a failed wait. Exceptions caught in `main.cpp:138-140` are left out too.
- Windows calls (`GetFileAttributesA`, `CreateProcessA`, `WaitForMultipleObjects`, `CloseHandle`) are parameters. The order in which children finish, and concurrency in general, are not modelled.
- The DOM, notifications, loading overlays, theme, drag-and-drop, the file previews the client renders, `formatBytes`, the average-time display and all timers and simulations in `script.js` are left out, because they only produce presentation.
- Network transport (fetch, CORS, static file serving) and the 100 MiB upload limit enforced by multer are left out. Replies are modelled as values.
- Base64 encoding and the timestamp reading of `Date.now()` are inputs.
- `Text.ToLower`: lowers ASCII letters only. JavaScript's `toLowerCase` also lowers other scripts.
- `Text.Trim`: counts characters as Dafny characters. It does not model UTF-16 code units.
- `Frontend.StrengthLabelRule`: the 8- and 16-character thresholds count Dafny characters (Unicode scalar values), not the UTF-16 code units JavaScript's `length` counts. A key of four emoji is "Medium" in the browser but "Weak" in the model.
- `Frontend.MaskReveals`: the length test and the first-four and last-four slices count Dafny characters, not UTF-16 code units. In the browser, a key with characters outside the Basic Multilingual Plane is masked differently, and the slices can cut a surrogate pair, which a Dafny string cannot hold.
- `Text.Basename`, `Text.Extname`: split paths on '/' only. On Windows, where the server runs the engine, Node also splits on '\', so a preview of "test\a.docx" replies with the name "a.docx" there, while the model keeps the whole text.
- `Text.ExtnameShape`: the model takes the text after the last '/' as the last segment. Node's `path.basename` and `path.extname` first drop trailing separators. For a request such as `uploads/x.pdf/`, where `x.pdf` is a directory, Node gives the extension ".pdf" and the basename "x.pdf", so the preview route replies as for a PDF. The model gives "" for both and replies "Preview not available".
- `Backend.Sanitize`: works on Dafny characters (Unicode scalar values). JavaScript's `replace(/[^a-zA-Z0-9.-]/g, '_')` has no `u` flag, so it replaces each UTF-16 code unit, and a character outside the Basic Multilingual Plane becomes two underscores. An upload named "😀.txt" is stored as `<timestamp>___.txt` by the server but as `<timestamp>__.txt` by the model. The model's "same length" counts characters; the server keeps the length in UTF-16 code units instead.
- `Engine.TestFileContentTail`, `Engine.AllTestFilesWritten`: the model states the text streamed into each test file. `std::ofstream` opens in text mode, and on Windows each of the three '\n' reaches the disk as "\r\n". The file on disk is therefore 3 bytes longer than the streamed text: 145 to 147 bytes longer than the printed index.
- Path normalisation by `path.join` (resolving "..") is not modelled. Requested paths are used as given.
- `Backend.ContentRule`: a text read that fails takes the placeholder branch only on an I/O error. Node's UTF-8 decoding does not fail on malformed bytes.
- A JSON `filePath` that is not a string is not modelled; the single-file routes take a string.
- `Frontend.ProgressLabel`: takes a real number, so a NaN percentage is not covered.
- `Bankers.BankerDecides`: completeness assumes non-negative allocations, because with a negative allocation a process that finishes can shrink the available vector. Soundness (`Bankers.BankerVerdict`) holds for all inputs.
- `Bankers.SafetyCheck`: the `finish` array holds booleans rather than the ints 0 and 1. C `int` overflow is not modelled, because the integers are unbounded. Reading the input with `scanf` and printing the sequence are left out.
- `Engine.Run`: the exit code is 0 on every path, as in the code. A wait failure only ends the waits; it does not change the exit code.
- `Protocol.SingleFileRequestReachesEngine`: a path that contains a line break is split by the engine at that break. The lemma covers paths without one.

## Where the code and the description differ

The model follows the code in each of these cases:

- **Upload names.** Names are not collision-free. Two uploads in the same millisecond whose names sanitise alike get the same stored name (`Backend.SameMillisecondCollision`).
- **File listing.** When `fs.stat` throws in the middle of a root, the records already pushed from that root stay in the listing. The rest of that root is skipped (`Backend.RootRecordsStopsAtThrow`).
- **Current key in the client.** The client's `currentKey` changes on every keystroke (`Frontend.Client.OnKeyInput`), not only when the backend accepts a key.
