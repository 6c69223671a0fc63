# Answer card analyzer backend: broker, worker and tooling, modelled in Dafny

The system reads answer cards (OMR). It has three parts.

- **Broker** (`main_http.py`). It holds worker connections ("internal clients") and frontend connections. It forwards each HTTP job to a worker over a websocket. Files travel as base64 chunks of 204800 bytes. The broker drains the worker's per-task queue until the task ends, and evicts silent workers with a heartbeat.
- **Worker** (`main_processing_computer.py`). It reassembles incoming chunks into files and queues a FILE_RECEIVED notice per file. Each job waits until all its files have arrived, runs its handler and frees its state.
- **Tooling and helpers**:
  - the `KEY=VALUE` settings files that `set_debug_mode.py` and `build.py` read and rewrite;
  - the PyInstaller command line built by `build.py`;
  - the poppler download progress bar and archive dispatch in `setup_poppler.py`;
  - the crop arithmetic in `internal_calibrate.py`;
  - the text filter, rectangle check and MATRICULA row filter in `find_circles.py`.

Modules:

| module | models |
|---|---|
| `Common` | Option/Result, and `Filter` with its laws |
| `PyDict` | an insertion-ordered Python dict |
| `PyText` | ASCII `str.upper`/`str.lower` |
| `Protocol` | the message enums, frames and bytes; base64 as a wrapper whose decode inverts encode |
| `ChunkCodec` | the chunk frames both sides send |
| `Broker` | `main_http.py`: classes `InternalClient`, `TaskRun` (one `handle_internal_client_task`) and `Broker` (the dicts `internal_clients` and `clients`, plus an ordered log of every frame written) |
| `Worker` | the receive loop and the three module dicts of `main_processing_computer.py`, as class `ProcessingComputer` |
| `WorkerJobs` | `handle_job_received` as class `JobRun`, and the box order of `handle_find_circles` |
| `ConfigFormat`, `ConfigSave`, `ConfigFile` | `load_config` / `save_config` over a settings file |
| `RuntimeSettings` | the setters and the command line of `set_debug_mode.py` |
| `BuildCommand` | `build_pyinstaller_command` and the library lookup of `get_python_lib_info` |
| `FindCircles`, `InternalCalibrate`, `SetupPoppler` | the pure helpers |

Modelling choices:

- Network sends are appends to an outbox log.
- The asyncio handlers are atomic steps. The polling drain loops take one step per dequeued message.
- Where the Python code raises, the model returns None, an `ok`/`alive` flag of false, or an error value.

## Model

| member | source | states |
|---|---|---|
| ChunkCodec.SendsEveryChunk | main_http.py:108-122 | a non-empty payload gives ceil(n/204800) frames; frame k carries `data[k*204800 .. min(n, (k+1)*204800)]`; only the last is FINAL_CHUNK; the chunks concatenate back to the payload |
| ChunkCodec.FrameAt | main_http.py:110-117 | each frame is the base64 of its slice, FINAL_CHUNK exactly when its slice reaches the end |
| ChunkCodec.ChunkFramesFromCount | main_http.py:110 | frames from offset i number ceil((n-i)/204800), and 0 once i ≥ n |
| ChunkCodec.ChunkFramesFromAt | main_http.py:110-112 | frame k of the frames from offset i starts at i + k*204800, which lies inside the data |
| ChunkCodec.JoinedFrom | main_http.py:110-122 | the decoded chunks from offset i concatenate to `data[i..]` |
| ChunkCodec.LastStart | main_http.py:116 | the FINAL_CHUNK test `i + CHUNK_SIZE >= len` holds exactly for the last start offset |
| ChunkCodec.EmptyPayloadSendsNothing | main_http.py:110 | an empty payload sends no frame |
| ChunkCodec.SliceEnd | main_http.py:112-114 | the slice reaches the end of the data exactly when the FINAL_CHUNK test `i + CHUNK_SIZE >= len` holds, and for an offset inside the data it is non-empty, inside the data and at most 204800 bytes long |
| Broker.InternalClient.constructor | main_http.py:28-34 | a new worker has `jobs` 0, no queues, no callbacks, and its last pong is the connection time |
| Broker.InternalClient.ReceivedPong | main_http.py:40-42 | only `last_pong` changes, to the current time |
| Broker.WorkerIdOfHandshake | main_http.py:309-310 | a protocol `processing-computer-internal-<rest>` is recognised as a worker and registered under `<rest>` |
| Broker.RemoveAllAbsent | main_http.py:310 | `replace(marker, "")` leaves a string without the marker unchanged |
| Broker.RemoveAll | main_http.py:310 | `str.replace(pat, "")` never lengthens the string |
| Broker.AsWrittenNeverExpires | main_http.py:62 | as written, the eviction test never fires for a pong at or before now |
| Broker.SilentWorkerKept | main_http.py:62 | a worker silent for 1000 s is kept by the test as written |
| Broker.Expired | main_http.py:62 | the intended test: more than 120 s since the last pong |
| Broker.NoneStaleAsWritten | main_http.py:58-70 | with the test as written, a heartbeat round evicts nobody |
| Broker.StaleCorrected | main_http.py:58-70 | with the intended test, a round evicts exactly the workers silent for more than 120 s |
| Broker.Broker.PingRound | main_http.py:57-70 | afterwards the workers are the old ones minus exactly the stale ones (`Stale` over the snapshot's last pongs, `PongsOf`); each stale worker's queues become `WithDisconnectError` of the old ones (one disconnect ERROR frame each, when it had jobs) and every other worker's queues are unchanged; the frames written are `RoundLog`'s: for each worker in dict order, one PING, or, if it was evicted, one worker-count report to every frontend connection (`ConnsOf`) |
| Broker.Broker.Visit | main_http.py:62-70 | `gone` is the eviction test on the worker's last pong; an evicted worker is removed, its queues gain the disconnect ERROR frame when it had jobs, and every frontend is sent the new count; any other worker stays, keeps its queues and gets one PING |
| Broker.Broker.Turn | main_http.py:60-70 | within a round, a worker's turn evicts it exactly when it is expired, its queues then going from the kept ones to the ones with the ERROR frame while no other worker's queues change; an evicted worker's turn reports the new count, any other's writes one PING to it |
| Broker.Broker.TakeTurn | main_http.py:59-70 | after turn i+1 the evicted workers are the expired ones among the first i+1, the workers left are the snapshot minus them, and the frames written are those of the first i+1 turns |
| Broker.Broker.RoundStarts | main_http.py:58-59 | a round starts from the registered workers: none evicted, nothing written, every worker holding its own queues |
| Broker.Broker.RunRound | main_http.py:59-70 | the loop over the listing: after every worker's turn, the evicted workers are exactly the expired ones, the workers left are the snapshot minus them, each evicted worker holds its queues with the ERROR frame and every other its own, and the frames written are the whole round's |
| Broker.Broker.RoundEnds | main_http.py:57-70 | once every worker has had its turn, the workers left are the snapshot minus the expired ones, each expired worker's queues are its old ones with the disconnect ERROR frame and every other worker's are its old ones, and the log is the old log followed by the round's frames |
| Broker.TurnBookkeeping | main_http.py:60-70 | one turn, eviction or PING, carries the round's workers, evicted set, count and frame log from i turns to i+1 |
| Broker.BooksStart | main_http.py:58-59 | before the first turn the round has evicted nobody and written nothing |
| Broker.RoundLogPings | main_http.py:68 | when none of the first i workers is expired, their turns write exactly one PING each, in order |
| Broker.RoundLogLength | main_http.py:62-70 | a round whose first i turns evict e workers writes i - e PINGs and e rounds of one report per frontend |
| Broker.RoundEvictsExpired | main_http.py:58-70 | after a round over every worker, the evicted set equals the expired set |
| Broker.CoversAll | main_http.py:59 | a duplicate-free list of the snapshot as long as the snapshot lists every worker |
| Broker.Broker.constructor | main_http.py:97-98 | no workers, no frontends, nothing written |
| Broker.Broker.BroadcastWorkerCount | main_http.py:312-313 | the log grows by `Reports`: each frontend, in dict order, is sent one INTERNAL_CLIENT_REPORT with the worker count; nothing else changes |
| Broker.Broker.SendBytesInChunks | main_http.py:108-122 | the log grows by exactly the chunk frames of the payload, each `Tag`ged with that connection |
| Broker.Broker.SendFiles | main_http.py:139-140 | the log grows by each file's chunk frames, files in dict order |
| Broker.Broker.SendJob | main_http.py:124-140 | the task's queue becomes empty and `jobs` rises by exactly 1; the log grows by the job frame, then the files' chunks; an unknown worker id raises and nothing changes |
| Broker.Broker.Dispatch | main_http.py:144-241 | checked in this order: on `/read_to_images` an unknown session raises (500) before the worker check; then with no worker, 404; then with `/find_circles` data that is not a JSON object, or an unknown session, a 500; in all three nothing is sent or registered and the worker is unchanged; otherwise the session gets the "Sending job" PROGRESS frame, the callback is registered, the chosen worker's queue is emptied and its `jobs` rises by 1, and the job frame (carrying the client's fields only for `/find_circles`) and then the file's chunks are written to it |
| Broker.Broker.CallProgress | main_http.py:167 | a registered session gets one PROGRESS frame; an unknown session raises and nothing is written |
| Broker.TaskRun.Step | main_http.py:254-290 | an empty queue changes nothing; SENDING_CHUNK appends the decoded bytes to the file's buffer (created empty); FINAL_CHUNK also stores the base64 of the buffer and drops it; ERROR and COMPLETED_TASK end the task |
| Broker.TaskRun.TerminalExit | main_http.py:265-274 | the ERROR/COMPLETED response is returned, `jobs` drops by 2 (1 below its value before dispatch) and the callback is gone; if the callback was already missing, `jobs` drops by 3 and the handler raises |
| Broker.TaskRun.ExceptionExit | main_http.py:291-299 | `jobs` ends two below its value on entry, the task's callback is absent, the chunk buffers are empty, and the result is the error response when the callback was registered and an exception out of the handler when it was not |
| Broker.TaskRun.constructor | main_http.py:242-243 | the drain starts with empty `chunks_per_file` and `files_received` |
| Broker.AcceptFrom | main_http.py:276-290 | draining the frames from offset i appends `data[i..]` to the buffer and finishes the file |
| Broker.ReassemblesPayload | main_http.py:276-290 | draining a payload's frames stores the base64 of exactly the payload, drops its buffer and leaves every other file unchanged |
| Broker.TagAppend | main_http.py:108-122 | logging two frame lists on one connection is logging their concatenation |
| Broker.Broker.Accept | main_http.py:309-315 | a worker is registered under its id (replacing any of that id) and every frontend is sent the new count; any other socket is a frontend and is sent the count |
| Broker.Broker.RouteWorkerMessage | main_http.py:319-327 | PONG only refreshes `last_pong`; PROGRESS only calls the task's callback, if registered, and touches no queue; any other status is appended to that task's queue only; a missing queue raises |
| Broker.Broker.FrontendCommand | main_http.py:331-337 | `send_id` registers the session id to this socket; other commands change nothing |
| Broker.Broker.FrontendClosed | main_http.py:338-349 | the session id is removed if non-empty; the workers are untouched |
| Broker.Broker.Disconnect | main_http.py:353-362 | the worker is removed; if its `jobs` ≠ 0 each of its queues first gets exactly one ERROR "Internal client disconnected."; then each frontend is sent the remaining count |
| Broker.Broker.WorkerSocketClosed | main_http.py:338-351 | a worker with a non-empty registered id is disconnected; otherwise nothing changes |
| Worker.ProcessingComputer.constructor | main_processing_computer.py:58-60 | the three dicts start empty and nothing is written |
| Worker.ProcessingComputer.SendBytesInChunks | main_processing_computer.py:45-56 | the outbox grows by exactly the payload's chunk frames, with the same 204800-byte slicing and final-chunk rule |
| Worker.ProcessingComputer.Receive | main_processing_computer.py:318-359 | the new dicts, outbox, spawned job and whether the loop goes on are those of one receive-loop turn; the loop stops only on an ERROR frame that carries a top-level "error" member |
| Worker.ProcessingComputer.AppendChunk | main_processing_computer.py:335-355 | a chunk is appended to the file's buffer; a final chunk moves the buffer to `files_received`, queues one FILE_RECEIVED and reports the size |
| Worker.SendingChunkAppends | main_processing_computer.py:335-338 | SENDING_CHUNK appends the decoded chunk to the file's buffer (created empty) and changes no other map |
| Worker.FinalChunkMoves | main_processing_computer.py:341-355 | FINAL_CHUNK appends, moves the whole buffer to `files_received`, removes the buffer and queues exactly one FILE_RECEIVED on the task's queue |
| Worker.QueuesNeverReplaced | main_processing_computer.py:318-319 | a queue is created only for an unknown task id named by a dict message; an existing queue is never replaced |
| Worker.DispatchOnlyExtends | main_processing_computer.py:323-358 | apart from queue creation, a frame only appends to its task's queue |
| Worker.PingAnswered | main_processing_computer.py:329-331 | a PING gets one PONG and changes nothing |
| Worker.SpawnsOnlyJobs | main_processing_computer.py:323-328 | a job is spawned exactly for READ_TO_IMAGES and FIND_CIRCLES commands, with the command added to its data |
| Worker.EndsOnlyOnError | main_processing_computer.py:357-359 | the receive loop ends exactly on an ERROR status frame that has a top-level "error" member and whose data is not a dict lacking `task_id`; any other frame, or an exception, leaves the loop running |
| Worker.ErrorFrameKeepsLoop | main_processing_computer.py:357-359 | an ERROR frame in the shape the worker itself sends, its text inside `data`, leaves the loop running and only registers the task |
| Worker.ReactIntended | main_processing_computer.py:357-359 | as intended, an ERROR frame ends the loop whether or not it has a top-level "error" member; store, outbox and spawned job are those of the code as written |
| Worker.ReassemblesPayload | main_processing_computer.py:335-349 | receiving, in order, the frames of a non-empty payload leaves `files_received[file_id]` equal to the payload and no buffer for it |
| Worker.ReceiveFrom | main_processing_computer.py:335-349 | receiving the frames from offset i appends `data[i..]` and finishes the file |
| Worker.ReceiveCons | main_processing_computer.py:306-359 | receiving a list of frames is receiving its first one, then the rest |
| WorkerJobs.JobRun.constructor | main_processing_computer.py:63-69 | the ids to wait for are `file_ids` and the task's queue is created if absent; a missing `file_ids` fails with one ERROR |
| WorkerJobs.JobRun.Step | main_processing_computer.py:71-99 | one polling pass, as `Stepped` of the run before it; see StepTakesNotice, FinishedFreesJob and DrainNotices |
| WorkerJobs.JobRun.Fail | main_processing_computer.py:100-119 | one ERROR frame with the exception text, then the cleanup |
| WorkerJobs.JobRun.Release | main_processing_computer.py:113-119 | the files and buffers of every id in the list (its `Elements`) are deleted and so is the task's queue |
| WorkerJobs.StepTakesNotice | main_processing_computer.py:77-83 | a notice for an id not awaited sends one ERROR; otherwise it removes one occurrence and writes nothing until none is left, then announces the start |
| WorkerJobs.FinishedFreesJob | main_processing_computer.py:90-98 | on success or failure no file of the job, no buffer of it and no queue for its task is left |
| WorkerJobs.MissingFileIdsFails | main_processing_computer.py:65 | a job without `file_ids` fails at once with one ERROR and frees its queue |
| WorkerJobs.AwaitedCounts | main_processing_computer.py:77-81 | the notices are all accepted exactly when each id is announced at most as often as listed |
| WorkerJobs.AllArrived | main_processing_computer.py:77-83 | no file id is left awaited after a run of notices exactly when the notices announce each listed file once, in any order |
| WorkerJobs.DrainNotices | main_processing_computer.py:71-99 | polling a queue of notices writes nothing and keeps waiting while some listed file is still awaited, reports the start of the job (running its handler) once a non-empty run of notices has announced every listed file, and otherwise ends with the one ERROR of `list.remove` |
| WorkerJobs.RunsOnceAllArrive | main_processing_computer.py:71-88 | once the task queue holds one notice per listed file, in any order, polling it reports the start of the job and so runs its handler |
| WorkerJobs.RemoveFirstMultiset | main_processing_computer.py:78 | `list.remove` drops exactly one occurrence |
| WorkerJobs.ExemploFirstIsStableSort | main_processing_computer.py:212 | the sorted boxes are a permutation with every EXEMPLO_CIRCULO box first and each group in its original order |
| WorkerJobs.VisitBoxes | main_processing_computer.py:214-221 | the loop visits the sorted boxes that have rect, rect_type and name, in order |
| WorkerJobs.VisitedBoxes | main_processing_computer.py:212-221 | the boxes searched are exactly the usable ones, each once, EXEMPLO_CIRCULO boxes first |
| ConfigFormat.Lines | set_debug_mode.py:18-19 | iterating a file yields lines that keep their '\n' |
| ConfigFormat.LinesConcat | set_debug_mode.py:53-54 | writing well-split lines and reading them again gives the same lines |
| ConfigFormat.LinesShape | set_debug_mode.py:19 | the lines read are well split, and all are terminated when the text ends with '\n' |
| ConfigFormat.ParseSkips | set_debug_mode.py:20-21 | a line is skipped exactly when, stripped, it is empty, starts with '#' or has no '=' |
| ConfigFormat.ParseSplitsAtFirstEq | set_debug_mode.py:22-23 | a kept line splits at its first '=' into the stripped key and the stripped value |
| ConfigFormat.ParsedGet | set_debug_mode.py:19-23 | a key is loaded exactly when some kept line carries it, with the value of the last such line |
| ConfigFormat.FoldGet | set_debug_mode.py:23 | a later line for a key overrides an earlier one |
| ConfigFormat.FoldDistinct | set_debug_mode.py:23 | the loaded dict has distinct keys |
| ConfigFormat.ParsedClean | set_debug_mode.py:20-23 | every loaded key and value is stripped and free of '\n' |
| ConfigFormat.ParsedSnoc | set_debug_mode.py:19-23 | loading one more line sets its key or changes nothing |
| ConfigFormat.RenderParses | set_debug_mode.py:42 | a written `key=value` line loads back as that key and value |
| ConfigFormat.StripUnpadded | set_debug_mode.py:20 | `strip()` leaves no whitespace at either end |
| ConfigFormat.UnpaddedStrip | set_debug_mode.py:20 | a string without whitespace at its ends is its own strip |
| ConfigFormat.StripIdempotent | set_debug_mode.py:20 | stripping twice is stripping once |
| ConfigFormat.StripKeepsOut | set_debug_mode.py:20 | stripping adds no character |
| ConfigFormat.TrimStartSuffix | set_debug_mode.py:20 | `lstrip` returns a suffix |
| ConfigFormat.TrimEndPrefix | set_debug_mode.py:20 | `rstrip` returns a prefix |
| ConfigFormat.TrimStartSpaces | set_debug_mode.py:20 | `lstrip` removes only whitespace, and stops at a non-space |
| ConfigFormat.TrimEndSpaces | set_debug_mode.py:20 | `rstrip` removes only whitespace, and stops at a non-space |
| ConfigFormat.ParseNewline | set_debug_mode.py:37-38 | a line parses the same with or without its '\n' |
| ConfigFormat.IndexOfFirst | set_debug_mode.py:22 | the split position is the first '=' |
| ConfigFormat.LastValueAt | set_debug_mode.py:23 | the entry at i decides a key when no later entry has it |
| ConfigFormat.LastValueAppend | set_debug_mode.py:23 | in concatenated entries, the later part wins where it has the key |
| ConfigFormat.EntriesAppend | set_debug_mode.py:19 | the entries of concatenated lines are concatenated |
| ConfigSave.RewriteAt | set_debug_mode.py:36-47 | a written line is the old line unchanged, unless it is the first line of a key still in the dict, which becomes `key=value\n` |
| ConfigSave.RewriteRest | set_debug_mode.py:41-43 | after the first loop a key is left exactly when no line carried it, with its value unchanged |
| ConfigSave.RewriteKeyless | set_debug_mode.py:46-47 | a blank, comment or '='-less line is copied verbatim and leaves the dict as it was |
| ConfigSave.RewriteKeys | set_debug_mode.py:36-47 | each written line carries the key of the old line in its place and keeps its shape |
| ConfigSave.SavedShape | set_debug_mode.py:50-51 | the old lines are written first, one line each; then one line per key no line carried, in dict order, so the line count is the old count plus those keys |
| ConfigSave.AppendedSnoc | set_debug_mode.py:50-51 | one more remaining entry appends one line that loads back to that entry |
| ConfigSave.AppendedReadsBack | set_debug_mode.py:50-51 | the appended lines load back every remaining entry |
| ConfigSave.SavedWellSplit | set_debug_mode.py:53-54 | the written text reads back as the written lines when the old file ended with '\n' (or with the intended save) |
| ConfigSave.SavedReadsBack | set_debug_mode.py:28-54 | the written lines carry every key of the dict that at most one old line carried |
| ConfigSave.RewriteReadsBack | set_debug_mode.py:36-47 | the rewritten lines load a key back with its dict value when a line carried it, else not at all |
| ConfigSave.SaveThenLoad | set_debug_mode.py:28-54 | save then load reads back every dict key that at most one old line carried, given a final '\n' or the intended save |
| ConfigSave.SetThenLoad | set_debug_mode.py:57-61 | load, set one key, save and load again reads the new value, provided at most one line of the old file had that key and either the old file ended with '\n' or the save is the corrected one |
| ConfigSave.DuplicateKeyKeepsOld | set_debug_mode.py:36-47 | as written, with two lines for one key ("K=x\nK=y\n") setting K to v rewrites only the first line and keeps "K=y", so y is read back and not v |
| ConfigSave.ReadBackLost | set_debug_mode.py:45-51 | as written, the file "# settings" without '\n' loses DEBUG_MODE after `set_debug_mode(True)` |
| ConfigSave.CommentAppendLost | set_debug_mode.py:45-51 | as written, a setting appended after an unterminated comment line is glued onto it and lost |
| ConfigSave.GluedLines | set_debug_mode.py:19 | an unterminated first line and the next text read as one line |
| ConfigSave.CommentSkipped | set_debug_mode.py:21 | a line starting with '#' is skipped whatever follows |
| ConfigSave.Rows | set_debug_mode.py:36-40 | one row per old line, holding its parse |
| ConfigFile.SettingsFile.Load | build.py:186-199 | the dict is the parse of the file's lines; a missing file gives an empty dict |
| ConfigFile.SettingsFile.Save | set_debug_mode.py:28-54 | the file's new text is the saved lines; the dict left has the keys no old line carried |
| ConfigFile.SettingsFile.constructor | set_debug_mode.py:15 | the file starts with the given contents, or as missing |
| ConfigFile.RewriteLines | set_debug_mode.py:36-47 | the loop's lines and remaining dict are those of the first pass |
| RuntimeSettings.SetKey | set_debug_mode.py:59-61 | the file becomes the old one saved with the key set; the value reads back when at most one line had the key and the old file ended with '\n' |
| RuntimeSettings.SetDebugMode | set_debug_mode.py:57-61 | DEBUG_MODE becomes "true" or "false" and reads back under the same condition |
| RuntimeSettings.SetEnvironment | set_debug_mode.py:67-78 | accepted exactly when the upper-cased argument is DEV or PROD; otherwise nothing is written |
| RuntimeSettings.SetLogLevel | set_debug_mode.py:81-92 | accepted exactly when the upper-cased argument is DEBUG, INFO, WARNING or ERROR; otherwise nothing is written |
| RuntimeSettings.Run | set_debug_mode.py:131-174 | `main` runs the setter named by the command line; usage, help, show, a missing argument, an unknown command or a bad debug word write nothing |
| RuntimeSettings.DebugWordIgnoresCase | set_debug_mode.py:144-150 | on/true/1/enable and off/false/0/disable are read without regard to case |
| RuntimeSettings.CommandIgnoresCase | set_debug_mode.py:137 | the command word is read without regard to case |
| RuntimeSettings.KeysClean | set_debug_mode.py:60 | the keys the setters write are clean keys |
| RuntimeSettings.ValuesClean | set_debug_mode.py:60 | every value a setter writes is a clean value |
| PyText.LowerUpper | set_debug_mode.py:69 | lower-casing after upper-casing is lower-casing |
| PyText.UpperLower | set_debug_mode.py:83 | upper-casing after lower-casing is upper-casing |
| PyText.LowerIdempotent | set_debug_mode.py:137 | lower-casing twice is lower-casing once |
| PyText.Upper | set_debug_mode.py:69 | the result has the argument's length |
| PyText.Lower | set_debug_mode.py:137 | the result has the argument's length |
| PyText.UpperOnlyLetters | set_debug_mode.py:69 | no lowercase ASCII letter is left, and every other character is kept |
| PyText.LowerOnlyLetters | set_debug_mode.py:137 | no uppercase ASCII letter is left, and every other character is kept |
| BuildCommand.BuildPyInstallerCommand | build.py:310-346 | the list grown step by step is the command specified by `Command` |
| BuildCommand.AddPopplerBinaries | build.py:336-337 | the loop appends `--add-binary <bin>:poppler` per binary, in order |
| BuildCommand.CommandEnds | build.py:312-344 | the command starts with "pyinstaller", ends with "main_processing_computer.py", and "--log-level" is followed by LOG_LEVEL or "INFO" |
| BuildCommand.CommandLength | build.py:312-344 | the length is 8 + [onefile] + [clean] + 2·[logo] + 2·len(binaries) |
| BuildCommand.CommandOptions | build.py:315-333 | `--onefile` exactly when ONE_FILE is absent or "true" ignoring case, likewise `--clean`; `--icon` exactly when the logo exists; then the hidden import and `<lib>:.` |
| BuildCommand.CommandBinaries | build.py:336-337 | binary j is the pair `--add-binary`, `<bin>:poppler` right after the library, in input order |
| BuildCommand.PopplerArgs | build.py:336-337 | two words per binary |
| BuildCommand.PopplerArgsAt | build.py:336-337 | binary j sits at positions 2j and 2j+1 |
| BuildCommand.PopplerArgsSnoc | build.py:336-337 | one more binary appends one more pair |
| BuildCommand.GetPythonLibInfo | build.py:207-281 | `lib_path` is set exactly when `lib_dir` is truthy and `lib_name` is set, and joins the two; libpython<ver>.dylib on darwin, .so on linux; on Windows the first existing candidate DLL in `lib_dir`, or else the first in the interpreter's directory, which then becomes `lib_dir` |
| BuildCommand.FindLibrary | build.py:249-253 | the search loop finds the first candidate whose file exists |
| BuildCommand.FirstExistingFound | build.py:249-253 | a name is found only when its file exists, and always when one does |
| BuildCommand.FirstExistingFirst | build.py:249-253 | the name found is the first whose file exists |
| FindCircles.ReplaceAllNotUsed | find_circles.py:9-12 | the result is no longer than the text |
| FindCircles.ReplaceCounts | find_circles.py:10 | each of '0'-'9' and 'A'-'Z' keeps its count; every other character, lowercase letters included, is dropped |
| FindCircles.ReplaceProperties | find_circles.py:10 | the result is a subsequence of only allowed characters, unchanged by reapplying, and equal to the text when it holds only allowed characters |
| FindCircles.CheckRectangle | find_circles.py:62-65 | Ok exactly when all four values lie in [0, 1], and then the rectangle is unchanged; otherwise the ValueError |
| FindCircles.FirstNearRow | find_circles.py:219-224 | the row found is the first whose first circle is near the circle, or none |
| FindCircles.GroupRows | find_circles.py:215-226 | the rows are exactly those of `FirstFitRows`, the circles taken in order, each joining the first row whose first circle is near it or opening a new row; they partition the circles (as a multiset, none empty) and are first-fit |
| FindCircles.FirstNear | find_circles.py:219-224 | the index of the first row whose first circle is near the circle, or the row count when no row is |
| FindCircles.FirstFitRowsGroup | find_circles.py:215-226 | the rows built in order partition the circles and each circle sits in the first row it is near, or heads one |
| FindCircles.JoinRow | find_circles.py:221-224 | joining the first near row keeps the first-fit rows |
| FindCircles.OpenRow | find_circles.py:225-226 | opening a row when none is near keeps the first-fit rows |
| FindCircles.BagUpdate | find_circles.py:222 | appending to a row adds the circle to the rows' multiset |
| FindCircles.BagSnoc | find_circles.py:226 | a new row adds its circles to the rows' multiset |
| FindCircles.MostCommon | find_circles.py:236 | the size chosen is a row size with maximal count |
| FindCircles.MostCommonOf | find_circles.py:236 | among the candidate sizes, one with maximal count (the smallest on a tie) |
| FindCircles.Lengths | find_circles.py:236 | one size per row |
| FindCircles.CirclesToRemove | find_circles.py:241-246 | the loop collects the ids of the rows whose size differs from the most common by more than 1 |
| FindCircles.RemovedIdsMeaning | find_circles.py:241-246 | an id is removed exactly when some row of off size holds a circle with it |
| FindCircles.Survivors | find_circles.py:248 | no survivor has a removed id |
| FindCircles.SurvivorsInOrder | find_circles.py:248 | the survivors are a subsequence of the circles; a circle survives exactly when its id is not removed |
| FindCircles.SurvivesIffRowFits | find_circles.py:215-248 | each circle lies in some row, and it survives exactly when its row's size is within 1 of the most common |
| FindCircles.NoRowsNoCircles | find_circles.py:215-226 | there are no rows exactly when there are no circles |
| FindCircles.FilterCircles | find_circles.py:208-248 | without circle_size or outside MATRICULA the circles pass unchanged; otherwise the rows are `FirstFitRows` of the circles, no circles is the ValueError of `max` of an empty set, and the result keeps, in original order, the circles whose id is not in a row of a size other than the most common one |
| FindCircles.DistanceProperties | find_circles.py:29-30 | the distance is symmetric, non-negative and zero for equal points |
| InternalCalibrate.Padded | internal_calibrate.py:105-108 | x, y ≥ 0; x + w ≤ width and y + h ≤ height; w ≤ w0 + 2·padding_x; x = x0 − padding_x when x0 ≥ padding_x, else 0 (likewise for y) |
| InternalCalibrate.PaddedSize | internal_calibrate.py:107-108 | the size is cut only where the padded box would leave the image |
| InternalCalibrate.CropArea | internal_calibrate.py:111-130 | the original image is kept exactly when the padded w < width div 2 or h < height div 2; otherwise the crop is exactly the padded box's (x, y, x+w, y+h), inside the image and at least half its size |
| SetupPoppler.ReportProgress | setup_poppler.py:19-22 | the callback is called exactly when one is given and total_size > 0, with a value ≤ 100, and ≥ 0 for non-negative inputs |
| SetupPoppler.ProgressMonotone | setup_poppler.py:21 | reported progress never decreases as chunk_num grows |
| SetupPoppler.ProgressComplete | setup_poppler.py:21 | once chunk_num·chunk_size reaches the total, 100 is reported |
| SetupPoppler.BarCells | setup_poppler.py:67-70 | for progress in 0..100 the bar, two `Repeat`s, has 30 cells, cell i filled exactly when i < 30·p div 100 |
| SetupPoppler.BarEnds | setup_poppler.py:69-70 | progress 0 gives an all-empty bar and 100 an all-filled bar |
| SetupPoppler.BarNegative | setup_poppler.py:69-70 | a negative progress draws only empty cells, at least 30 of them |
| SetupPoppler.LastDot | setup_poppler.py:29 | the position found holds a '.' |
| SetupPoppler.LastDotIsLast | setup_poppler.py:29 | no '.' follows it |
| SetupPoppler.SuffixShape | setup_poppler.py:29 | the suffix is empty or a final '.' part of the name, holding no other '.' |
| SetupPoppler.ExtractArchiveAccepts | setup_poppler.py:27-45 | True exactly when the name does not end with ".7z" and its lower-cased suffix is .zip, .tar, .gz, .bz2 or .xz; a ".7z" name is left for manual extraction |
| PyDict.GetAfterSet | set_debug_mode.py:60 | after `d[k] = v`, k reads v and every other key reads as before |
| PyDict.GetAfterRemove | set_debug_mode.py:43 | after `del d[k]`, k is absent and every other key reads as before |
| PyDict.SetKeys | set_debug_mode.py:23 | setting a new key appends it to the key order; an existing key keeps its place |
| PyDict.GetFindsKeys | set_debug_mode.py:41 | a key reads a value exactly when it is in the dict |
| Common.FilterIsSubsequence | find_circles.py:248 | a list comprehension with a condition keeps a subsequence |
| Common.FilterMembers | find_circles.py:248 | an element is kept exactly when it is in the list and passes the condition |

## Left out

- Image processing, OpenCV/NumPy/PIL calls and floating-point geometry (circle normalisation, `circle_size`, `padding_percent`) are not modelled. Padding is an integer input to `InternalCalibrate.Padded`.
- `int(width * 0.5)` is modelled as `width / 2` on naturals. These agree for every width below 2^53; above that Python's float product rounds, which is not modelled.
- Network I/O, the asyncio scheduler and interleavings, `asyncio.sleep` polling, the reconnect loop and the HTTP framework are not modelled.
  - Sends are appends to a log. Each handler runs as an atomic step. The polling drain is one step per dequeued message.
  - The broker's route bodies outside the job hand-off (PDF encoding, the response format) are not modelled.
- Base64 is a wrapper whose decoding inverts encoding by construction. Text length and the padding alphabet are not modelled.
- `random.choice` of a worker, the random file ids and the clock are parameters.
- `Broker.TaskRun.Step` does not model the order of `files_received` in the response.
- `Broker.Broker.WorkerSocketClosed`: the un-awaited `handle_internal_client_disconnect` call in `finally` creates a coroutine that never runs, so it is modelled as doing nothing.
- The job handlers `handle_read_to_images` and `handle_find_circles` (beyond their box order) are opaque. A run supplies their frames and raised exception as a `HandlerOutcome`.
- `FindCircles.FilterCircles`: the sort of rows by y is not modelled. It only reorders rows, and up to the tie-break admitted under `FindCircles.MostCommon` neither the most common size nor the survivors depend on row order.
- `FindCircles.MostCommon`: on a tie in `max(set(...), key=count)`, CPython picks by set iteration order. The model picks the smallest size with maximal count; the contract only promises a size with maximal count.
- `FindCircles.SurvivesIffRowFits` assumes distinct circle ids. With duplicate ids, a circle can also be removed because another circle with its id sits in an off-size row.
- `FindCircles.DistanceProperties` proves "equal points give 0" but not the converse (zero only for equal points). The converse needs nonlinear real reasoning.
- `FindCircles.Near` abstracts the `distance < circle_size * 1.5` test over reals. Float rounding is not modelled.
- `show_current_config`, `print_usage` and the other `print` output of the scripts are not modelled.
- `PyText.Upper` and `PyText.Lower` change only ASCII letters. Python's Unicode case mapping is not modelled, and neither is `str.strip` on non-ASCII whitespace.
- The downloads, the package-manager calls and the actual extraction in `setup_poppler.py` are not modelled. `show_progress`'s printed line is modelled only as its bar string.
- `build.py`: `find_python_executable`, `find_poppler_path`, `get_poppler_binaries` and `main` probe the file system and run subprocesses, so they are not modelled. Whether the logo exists, the interpreter calls' output and the existing files are inputs.
- The worker's `monitor_memory`, `reset_script` and `start_and_monitor.py` manage processes, so they are not modelled.
- `ConfigFormat.Lines`: the settings text is taken after newline translation. In the model '\r' is an ordinary character. Python's text-mode read also ends a line at '\r' and '\r\n' and turns both into '\n', so a file with such line ends is parsed and rewritten differently by the code.
- `ConfigFormat.LinesConcat`: the write-then-read identity is about the translated text. Writing does not turn '\n' into `os.linesep`, and Python's own identity also needs lines free of '\r'.
- `BuildCommand.GetPythonLibInfo`: `Path(dir) / name` is modelled as the directory, one '/' and the name. The '\\' separator on Windows and `Path`'s normalisation (dropping a trailing separator, collapsing "//", removing "." parts) are not modelled.
- `WebsocketMessageCommand.PING`, `WebsocketMessageStatus.PONG` and `WebsocketMessageStatus.INTERNAL_CLIENT_REPORT` are not declared in websocket_types.py; the model assumes they exist. As written, each access raises AttributeError (main_http.py:38, 314, 320, 329 and 362; main_processing_computer.py:330). A frontend's handler then dies before reading any message, a worker's handler dies on its first frame and leaves the worker registered, and the worker logs an exception after every command frame. None of this is modelled.
- Malformed frames are not modelled: a frontend frame without "command" (a KeyError that ends that session, main_http.py:333), and frames the `Envelope` type cannot represent.
- `Broker.Broker.Dispatch`: the `/find_circles` data is an opaque JSON object assumed to hold none of the keys task_id, socket_id, filename and file_ids. In the code such a key overrides the route's value, and an overridden task_id would key the worker's queue and callback. The `filename` key of the job data is not modelled.
- `ConfigFile.SettingsFile.Load` models both `load_config` functions (set_debug_mode.py:12-25 and build.py:186-199), whose texts are identical.

## Findings

| source | as written | input that shows it | evidently intended | confidence | as-written member | corrected member |
|---|---|---|---|---|---|---|
| main_http.py:62 | `client.last_pong - now > 120`: the last pong minus the current time is never positive, so no worker is ever evicted | a worker whose last pong was at time 0, checked at time 1000 | evict when `now - last_pong > 120` | not executed | Broker.SilentWorkerKept | Broker.StaleCorrected |
| set_debug_mode.py:45-51 | an old line is copied without adding '\n', and new settings are appended right after it, so a file whose last line lacks '\n' gets the new setting glued onto that line | the file "# settings" (no final newline), then `set_debug_mode(True)`: DEBUG_MODE is not read back | end the last line with '\n' before appending | not executed | ConfigSave.ReadBackLost | ConfigSave.SaveThenLoad |
| main_processing_computer.py:357-359 | the ERROR branch logs `response['error']` before `break`; frames carry their error text inside `data`, so the lookup raises KeyError, the exception is logged and the loop goes on | the frame {"status": "error", "data": {"task_id": "t", "error": "boom"}}: the loop keeps running | stop the receive loop on an ERROR frame | not executed | Worker.ErrorFrameKeepsLoop | Worker.ReactIntended |
