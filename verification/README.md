# Download queue of the YouTube downloader, in Dafny

This project models the core of a small multi-user web downloader. The core
has two parts:

- The task store and queue controller of `app/queue_manager.py`. Each user
  has a `database.json` with a `queue` and a `history` of task records.
  Module-level functions add, update, pause, resume and delete tasks. An
  in-memory `task_queue` feeds worker threads. Each worker resolves the
  input to a URL, looks for a file that any user (the owner included)
  already downloaded, and copies it or downloads it. On success it appends
  a new completed record (eight keys, without user_id or progress) to the
  history and purges the task from the queue; otherwise it marks the
  task's queue entry "failed".
- The file-name helpers of `app/utils.py`. `sanitize_filename` applies a
  character replacement table and then collapses every run of non-ASCII
  characters into one `_`. `get_actual_filepath` does a case-insensitive
  lookup in a folder listing.

The files:

- `wrappers.dfy`: `Option`.
- `config.dfy`: the constants of `config.py` the core uses.
- `utils.dfy`: `Sanitize` is a per-character translation followed by run
  collapsing. `SanitizeFilename` is the loop over the table, proved equal
  to it. Lemmas prove safety, idempotence and the full-width cases. The
  module also holds the case-insensitive lookup.
- `downloads.dfy`: the cross-user dedup scan (`FindExistingFile`, proved
  against `FirstExisting`), the name `copy_file_to_user` returns, and the
  partial files `delete_task` removes.
- `tasks.dfy`: the task record, a database, the exceptions the code lets
  escape, and each loop over one queue as a function on sequences.
- `worker.dfy`: one iteration of `worker`, as a function (`WorkerRun`) of
  the dequeued task, the owner's database and what the collaborators
  return. `Attempted` gives how the `try` body ends from the task and the
  collaborators alone, and lemmas prove that every iteration ends as it
  says.
- `queue_manager.dfy`: class `Manager`. Its fields are `store`, a
  `map<string, Database>` that stands for all `database.json` files, and
  `fifo`, a `seq<Task>` that stands for `task_queue`. Each controller
  function is a method that loads one database, changes it step by step
  and saves it. `WorkerStep` is one worker iteration, built from those
  methods and proved equal to `WorkerRun`.

A record is `Task`, with one `Option` field per key the code reads or
writes; `None` means the key is absent. A queue element is `Dict(task)` or
`NonDict(typeName)`, because the code treats non-dict elements differently
in different places. Some skip them, some drop them, and some raise
`AttributeError` on them. An exception that escapes a function is
`Raised(e)`, with `e.Message()` standing for `str(e)`.

get_user_db and save_user_db are `Manager.Load` and the assignments to
`store`. A user without an entry reads as the empty database.

Some of the code's behaviour is not what one might expect of a task queue
(unique ids, clamped progress, an error cleared on retry). The model follows
the code:

- Task ids are `task-<milliseconds>`. Two tasks enqueued in the same
  millisecond get the same id (`Tasks.TaskIdDeterminesMillis`).
- Progress is stored as given, with no clamping (`Tasks.ProgressUpdated`,
  `Worker.CallbacksLastReportWins`).
- A task deleted from the queue after it was submitted is still fetched
  and recorded in the history, when what is left of the queue holds only
  dicts (`Worker.DeletedTaskStillRecorded`).
- The worker checks for "paused" only at pickup. Progress reports do not
  stop a task paused later.
- `error` is never cleared when the status changes.
- A failed download leaves progress at 100
  (`Worker.FailedDownloadShowsFullProgress`).
- `add_to_queue` sets only the id. It does not set a status or a progress.

## Model

| member | source | states |
|---|---|---|
| Utils.SanitizeFilename | app/utils.py:35-60 | The replacement loop followed by the run substitution returns `Sanitize(filename)`: each character translated by the table, then each maximal non-ASCII run replaced by one `_` |
| Utils.TableIsTranslate | app/utils.py:40-56 | Applying the 13-entry table in dict order (12 distinct keys; the repeated '：' keeps its first position and its last value ':') sends every character where `Translate` does: ' ', '/', '\\', ':', '*', '?', '"', '<', '>', '\|', '：' and '｜' become '_' and nothing else changes |
| Utils.CollapseOutput | app/utils.py:59 | The substitution never lengthens the string, leaves only ASCII, and each output character is '_' or a character of the input |
| Utils.CollapseKeepsAscii | app/utils.py:59 | An all-ASCII string is left unchanged by the substitution |
| Utils.CollapseSplits | app/utils.py:59 | The substitution works separately on both sides of an ASCII character |
| Utils.CollapseLeadingRun | app/utils.py:59 | A leading non-ASCII run becomes one '_' |
| Utils.RunContinues | app/utils.py:59 | Non-ASCII characters that continue a run add nothing |
| Utils.AppendAscii | app/utils.py:59 | Appending an ASCII character appends it to the output, in or out of a run |
| Utils.RunBeforeAscii | app/utils.py:59 | A non-ASCII run followed by an ASCII character or by the end becomes exactly one '_' |
| Utils.TranslatedAppend | app/utils.py:55-56 | The table acts character by character, so it distributes over concatenation |
| Utils.TranslatedAroundRun | app/utils.py:55-56 | Non-ASCII characters other than '：' and '｜' pass through the table unchanged |
| Utils.SanitizeIsSafe | app/utils.py:40-60 | The output is all ASCII, contains none of the ten ASCII characters the table replaces with '_' (' ', '/', '\\', ':', '*', '?', '"', '<', '>', '\|'), and is no longer than the input |
| Utils.SanitizeAsciiInPlace | app/utils.py:55-60 | On ASCII input the length is kept and each character is kept in place, except that a reserved character becomes '_' |
| Utils.SanitizeFixedPoint | app/utils.py:35-60 | A name is left unchanged exactly when it is already safe: all ASCII and without a reserved character |
| Utils.SanitizeIdempotent | app/utils.py:35-60 | Sanitising twice gives the same as sanitising once |
| Utils.SanitizeFullWidthStandsAlone | app/utils.py:40-59 | A full-width '：' or '｜' becomes its own '_', never merged with a neighbouring non-ASCII run: sanitize(p + c + q) = sanitize(p) + "_" + sanitize(q) |
| Utils.SanitizeCollapsesRun | app/utils.py:59 | A run of non-ASCII characters (other than the two full-width ones) between ASCII neighbours becomes exactly one '_' |
| Utils.Translate | app/utils.py:40-56 | One character through the table: it is kept or becomes '_', and the result is never one of the twelve replaced characters |
| Utils.CollapseRuns | app/utils.py:59 | The substitution gives the empty string only for the empty input, or for input that continues a run and has no ASCII character |
| Utils.Sanitize | app/utils.py:35-60 | sanitize_filename empties no name: the result is empty exactly when the input is |
| Utils.Lower | app/utils.py:71 | `str.lower()` on ASCII letters: same length, and no upper-case ASCII letter is left |
| Utils.FirstCaseless | app/utils.py:71 | The index of the first listing entry whose ASCII-lowercased form equals the name's, or none when there is no such entry |
| Utils.NamesDirectory | app/utils.py:65-67 | The names that exist in every folder without being listed: the empty name and one or two dots |
| Utils.GetActualFilepath | app/utils.py:62-76 | The name itself when it is in the listing or names the folder itself ("", "." or ".."). Otherwise the listing entry, with its own case, of the first entry whose lower-case form equals the name's. None exactly when the name names no folder and no entry matches caselessly |
| Downloads.FirstExistingIsFirstMatch | app/queue_manager.py:92-99 | The scan returns nothing exactly when no file contains the URL as a substring; otherwise it returns the path of the first such file, in user-folder order and then file order |
| Downloads.FindExistingFile | app/queue_manager.py:92-99 | The nested loops return `FirstExisting(dirs, url)` and ignore the audio flag and the quality |
| Downloads.FirstExisting | app/queue_manager.py:92-99 | A path the scan returns is the downloads path of a listed file, in some user folder, that contains the URL |
| Downloads.Basename | app/queue_manager.py:104 | The part of the path after its last '/': it contains no '/', it is a suffix of the path, and it follows a '/' when shorter than the path |
| Downloads.CopyFileToUser | app/queue_manager.py:101-118 | Both branches return `Sanitize(Basename(source))`, which is a safe name |
| Downloads.CopiedNameOfMatch | app/queue_manager.py:92-118 | A file found by the scan is copied under its own listing name, sanitised |
| Downloads.Stem | app/queue_manager.py:274 | `split('.')[0]`: a prefix of the name without '.', followed by '.' or by the end of the name |
| Downloads.PartialFiles | app/queue_manager.py:273-274 | A listing entry is selected exactly when it starts with the stem of the task's `file` |
| Downloads.DotFileMatchesEverything | app/queue_manager.py:273-274 | For a `file` that starts with '.', the stem is empty and every file in the user's folder is selected for removal |
| Tasks.DecimalString | app/queue_manager.py:47 | `str(n)`: a non-empty string of digits with no leading zero |
| Tasks.DecimalRoundTrip | app/queue_manager.py:47 | Parsing the decimal string of n gives back n |
| Tasks.TaskId | app/queue_manager.py:47 | The id is "task-" followed by the decimal digits of the millisecond |
| Tasks.TaskIdDeterminesMillis | app/queue_manager.py:47 | An id starts with "task-", and the millisecond can be read back from it, so ids from different milliseconds differ and ids from the same millisecond are equal |
| Tasks.FirstDictIndex | app/queue_manager.py:73-79 | The position where the loops of update_task_status and update_task_progress stop: the first dict entry with the id; non-dict entries are skipped |
| Tasks.FirstGetIndex | app/queue_manager.py:298-300 | The position where the loops of get_task_status and delete_task stop: the first entry that has the id or is not a dict |
| Tasks.StatusScan | app/queue_manager.py:240-246 | The first entry with the id and the wanted status. Otherwise the scan crashes at the first non-dict entry (AttributeError) or at an entry with the id and no status (KeyError), or it misses when every entry passes |
| Tasks.FirstNonDict | app/queue_manager.py:282 | The first non-dict entry, where `t.get` in delete_task's filter raises |
| Tasks.TaskStatus | app/queue_manager.py:296-301 | get_task_status on one queue: it can only raise AttributeError, and it returns None when every entry is a dict without the id |
| Tasks.TaskStatusAgainstUpdateScan | app/queue_manager.py:296-301 | get_task_status raises exactly when a non-dict entry comes before the first dict entry with the id. Otherwise it returns that entry's status, or None when there is no such entry |
| Tasks.StatusUpdated | app/queue_manager.py:66-83 | Only the first dict entry with the id changes. Its status is set. Its error is set when the given error is truthy and kept otherwise. An unknown id leaves the queue unchanged |
| Tasks.ProgressUpdated | app/queue_manager.py:287-293 | Only the first dict entry with the id changes, and its progress is the value as given. An unknown id leaves the queue unchanged |
| Tasks.Purged | app/queue_manager.py:60-64 | An entry survives remove_from_queue's filter exactly when it is a dict without the id |
| Tasks.PurgedAppend | app/queue_manager.py:63 | The filter keeps the order of the entries it keeps |
| Tasks.PurgedKeepsOthers | app/queue_manager.py:63 | A queue of dicts none of which has the id is kept whole |
| Tasks.ScanFindsSetEntry | app/queue_manager.py:248-257 | An entry given the wanted status is found by the scan when every entry before it passes |
| Tasks.WithStatus | app/queue_manager.py:243-252 | The in-place status write of pause_task and resume_task: the entry gets the status, its other fields and every other entry stay as they were |
| Tasks.PauseThenResume | app/queue_manager.py:238-257 | In a queue of dicts where every entry with the id has a status and none is already "paused", resume_task finds the entry pause_task paused. Resuming it leaves the queue as it was, with that entry's status now "queued" |
| Worker.SelectQuality | app/queue_manager.py:165-171 | The quality is always in the media type's list. It equals the requested quality exactly when the list contains it, and otherwise it is the configured default |
| Worker.IsDirectUrl | app/queue_manager.py:156-159 | The inputs the worker takes as the URL itself: an http:// or https:// prefix, or youtube.com or youtu.be anywhere inside |
| Worker.Resolve | app/queue_manager.py:156-163 | The URL the worker fetches: the input itself when it is a direct URL, and otherwise what the search returns |
| Worker.DirectUrlSkipsSearch | app/queue_manager.py:156-163 | For a direct URL the search plays no part: replacing the search changes nothing in how the try body ends, and a completed run fetched the input itself |
| Worker.IsAudio | app/queue_manager.py:166 | A task is audio exactly when its media_type is absent or "audio" |
| Worker.Reports | app/queue_manager.py:173-177 | A report passes only with status "downloading". A positive total_bytes passes exactly when the status is "downloading". A negative total_bytes hides the estimate and blocks the report. With total_bytes missing or 0, the report passes exactly when the estimate is positive |
| Worker.Callbacks | app/queue_manager.py:173-187 | The database after progress_callback has seen download_media's reports in order: the history is never touched |
| Worker.CompletedRecord | app/queue_manager.py:193-203 | The completed record has status "completed", no user_id and a non-empty type. Its quality is the requested one when that is non-empty, and "default" when it is empty |
| Worker.WorkerRun | app/queue_manager.py:124-216 | One iteration writes nothing exactly when the task lacks a truthy user_id or id, or get_task_status returns "paused" |
| Worker.Process | app/queue_manager.py:150-216 | From marking "processing" on, the history keeps its records and gains at most one |
| Worker.Fetch | app/queue_manager.py:181-216 | From the dedup scan on, the history keeps its records and gains at most one |
| Worker.Finish | app/queue_manager.py:190-216 | The history changes exactly when the file name is truthy, and then by one appended record |
| Worker.Attempted | app/queue_manager.py:150-216 | How the try body ends, from the task and the collaborators alone: "Task missing input", "No search results found", the scan's or the copy's error, "Download failed", or completion. Completion has a non-empty file and the URL the input resolves to |
| Worker.FetchAttempt | app/queue_manager.py:181-191 | The same from the dedup scan on: completion keeps the given URL and has a non-empty file |
| Worker.TouchedKeepsFirst | app/queue_manager.py:73-79 | Changing only the task's own entry, and in it only status, progress and error, keeps it the first dict entry with the id |
| Worker.TouchedTrans | app/queue_manager.py:73-79 | Successive updates of the task's own entry add up to one such change |
| Worker.AdvancedTrans | app/queue_manager.py:73-79 | Successive updates that keep the entry's error add up to one such update |
| Worker.CallbacksAdvance | app/queue_manager.py:173-179 | Progress reports change only the task's first dict entry, and in it only the progress; the history is never touched |
| Worker.CallbacksLastReportWins | app/queue_manager.py:173-179 | After the reports, the entry holds the percentage of the last report with status "downloading" and a positive total. That total is total_bytes, or the estimate when total_bytes is missing or 0. The value is unclamped. With no such report the entry keeps its progress |
| Worker.PurgedIgnoresTaskEntries | app/queue_manager.py:63 | Queues that differ only in entries with the id filter to the same queue |
| Worker.TouchedPurged | app/queue_manager.py:205-207 | The final removal undoes every earlier change to the task's own entry |
| Worker.FailedAfterAdvance | app/queue_manager.py:210-216 | After changes that kept the entry's error, the except clause leaves the history alone and marks the entry "failed", with the message as its error (an empty message keeps the old one). No other entry changes, and in the entry only the status, the error and the progress differ from before the iteration |
| Worker.FinishOutcome | app/queue_manager.py:190-216 | A truthy file name completes the run: the task leaves the queue and the history gains exactly `CompletedRecord` for this URL, file and time. A falsy one fails the run with "Download failed" as the entry's error and the history unchanged; in the entry only the status, the error and the progress change |
| Worker.FetchOutcome | app/queue_manager.py:181-216 | From the dedup scan on, the run completes or fails exactly as `FetchAttempt` says, with that file or that message. A failure changes only the task's entry, and in it only the status, the error and the progress |
| Worker.ProcessOutcome | app/queue_manager.py:150-216 | From marking "processing" on, the run completes with the URL and file `Attempted` gives, or fails with the message `Attempted` gives, exactly as `Attempted` says. A failure changes only the task's entry, and in it only the status, the error and the progress |
| Worker.WorkerOutcome | app/queue_manager.py:124-216 | An iteration writes nothing exactly when the task lacks a user_id or an id, or its entry is "paused" at pickup. Otherwise: when get_task_status raises, the run fails with that error's message; else it ends as `Attempted` says. Completion drops every entry with the id and every non-dict entry from the queue and appends exactly the completed record. Failure keeps the history and changes only the task's first dict entry, in it only the status, the error and the progress; the status is "failed" and the error the message. The history grows exactly when the status read succeeded and the try body completed |
| Worker.FailedKeepsCompletedOut | app/queue_manager.py:210-216 | A failed run adds no "completed" entry to the queue |
| Worker.WorkerKeepsCompletedOutOfQueue | app/queue_manager.py:190-216 | If no queue entry is "completed" before an iteration, none is after it: completed records go only to the history |
| Worker.DeletedTaskStillRecorded | app/queue_manager.py:141-207 | In a queue of dicts none of which has the id, the dequeued task is still processed on every path (URL or search, copy or download). The queue is left as it was. The history gains the completed record exactly when the try body completes, and is unchanged otherwise |
| Worker.NoSearchResultFails | app/queue_manager.py:155-163 | Input that is not a URL and gets no search result fails with "No search results found" as the entry's error |
| Worker.FailedDownloadShowsFullProgress | app/queue_manager.py:181-191 | For any resolved URL, direct or found by the search: when the scan finds no copy and the download returns no file name, the entry ends "failed" with "Download failed" and progress 100 |
| QueueManager.Manager.Load | app/queue_manager.py:18-30 | The user's stored database, or the empty one (no queue entries, no history) when the user has none |
| QueueManager.Manager.constructor | app/queue_manager.py:15-30 | No user has a database yet (each reads as empty), and task_queue is empty |
| QueueManager.Manager.AddToQueue | app/queue_manager.py:46-58 | The task gets id "task-<millis>" and is appended to its user's queue. The history and the other users' databases stay as they were |
| QueueManager.Manager.AddTaskToQueue | app/queue_manager.py:229-235 | Without a truthy user_id it raises ValueError("Missing user_id in task") and changes nothing. Otherwise the stored task goes to the end of the owner's queue and also to the end of task_queue |
| QueueManager.Manager.RemoveFromQueue | app/queue_manager.py:60-64 | The user's queue becomes `Purged(queue, id)`; the history is kept |
| QueueManager.Manager.AddToHistory | app/queue_manager.py:85-90 | The record is appended to the user's history; the queue is kept |
| QueueManager.Manager.UpdateTaskStatus | app/queue_manager.py:66-83 | The loop and save leave the user's queue as `StatusUpdated(queue, id, status, error)` and change no other user |
| QueueManager.Manager.UpdateTaskProgress | app/queue_manager.py:287-293 | The loop and save leave the user's queue as `ProgressUpdated(queue, id, progress)` |
| QueueManager.Manager.GetTaskStatus | app/queue_manager.py:296-301 | Returns `TaskStatus(queue, id)`, the status of the first entry with the id, or the AttributeError of a non-dict entry met first; writes nothing |
| QueueManager.Manager.PauseTask | app/queue_manager.py:238-246 | The first entry with the id and status "processing" becomes "paused" and True is returned. When there is none, False is returned and nothing is saved. A crash of the scan is raised and nothing is saved |
| QueueManager.Manager.ResumeTask | app/queue_manager.py:248-257 | The first entry with the id and status "paused" becomes "queued", with its other fields (progress included) kept, and is appended to task_queue. When there is none, False is returned and nothing is written. A crash of the scan is raised |
| QueueManager.Manager.DeleteTask | app/queue_manager.py:259-285 | Returns False and writes nothing when every entry is a dict without the id. A non-dict entry met before an entry with the id raises. A truthy `file` with no downloads folder raises the OSError of os.listdir. Otherwise it removes the partial files of the entry's `file`. If the queue holds a non-dict entry, the filter then raises and nothing is saved; otherwise every entry with the id is dropped, the history is kept, and True is returned |
| QueueManager.Manager.ProgressCallback | app/queue_manager.py:173-179 | A report that passes the guard stores its percentage; any other report writes nothing |
| QueueManager.Manager.Download | app/queue_manager.py:173-187 | Feeding download_media's reports to the callback in order leaves the owner's database as `Callbacks` describes |
| QueueManager.Manager.Complete | app/queue_manager.py:185-207 | Sets progress to 100. Then it fails the task with "Download failed", or it adds the completed record to the history and removes the task from the queue |
| QueueManager.Manager.DownloadAndComplete | app/queue_manager.py:186-207 | The download branch: reports, then completion, as `Finish` describes |
| QueueManager.Manager.FetchAndFinish | app/queue_manager.py:181-207 | From the dedup scan on, the owner's database ends as `Fetch` describes |
| QueueManager.Manager.RunTask | app/queue_manager.py:150-216 | The try body and its except clause leave the owner's database as `Process` describes |
| QueueManager.Manager.WorkerStep | app/queue_manager.py:121-218 | Removes the oldest task from task_queue. The owner's database then ends as `WorkerRun` says, whose outcomes `Worker.WorkerOutcome` lists. No other user's database changes, and nothing is written when the iteration writes nothing |
| QueueManager.DropTask | app/queue_manager.py:63 | The comprehension's loop returns `Purged(queue, id)` |
| QueueManager.DropTaskOrRaise | app/queue_manager.py:282 | The comprehension raises AttributeError at the first non-dict entry; on a queue of dicts it returns `Purged(queue, id)` |
| QueueManager.PurgedStep | app/queue_manager.py:63 | One more input entry adds that entry to the filter's output if it is kept, and nothing otherwise |

## Left out

- Threads: `threading.Thread`, the blocking `task_queue.get`, `task_done` (called twice on the paused path) and `start_workers` with `MAX_WORKERS`. One worker iteration is one call of `WorkerStep`, and iterations never interleave. `WorkerStep` requires a non-empty `fifo`, where the source would block.
- File and JSON I/O is not modelled. A read that fails or finds an empty file gives the empty database, as in the source. A failed save (for example a user without a folder) is not modelled: the model always saves.
- JSON values other than those the code writes are not modelled: a non-object database, a database without `queue` or `history`, ids or statuses that are not strings, and `null` (read as an absent key). Non-dict queue entries are modelled.
- `get_queue` and `get_history` are not modelled separately. They are `Load(user).queue` and `Load(user).history`.
- User ids are not checked for path components (`..`, `/`). The store is keyed by the id itself.
- `search_youtube` (app/search.py) and `download_media` (app/downloader.py) are not part of this model. Their results are oracle values in `Oracles`, and neither is modelled as raising. The renaming of the downloaded file is also left out.
- Worker.ProgressEvent: the percentage `int((downloaded / total) * 100)` is floating-point. Each event carries the integer it evaluates to, and only the guard is modelled.
- `time.time()` and `datetime.now()` become parameters (`millis`, `Oracles.now`).
- Downloads.FindExistingFile: `os.listdir` is given as a listing per user folder (empty when the folder has no `downloads`), or as the error it raised.
- Downloads.CopyFileToUser: only the returned name is modelled. The copy itself is not, and a failure of `os.makedirs` or `shutil.copy2` is one oracle value (`Oracles.copyError`).
- Manager.DeleteTask: `os.remove` is reported as the list `removed`. Its own failures are caught and logged in the source, so they do not change the outcome.
- Utils.Lower: `str.lower()` is modelled for ASCII letters only.
- Utils.GetActualFilepath: it returns the name found in the folder, not the joined path. Existence is membership in the listing, or one of "", "." and "..", which name the folder itself; names with '/' are not modelled. The caseless match goes through `Lower`, which lowers ASCII letters only, so a match that needs Unicode lowering (the Kelvin sign '\u212A' lowers to 'k') is found by the source and not by the model.
- The `isinstance(task, dict)` checks in `add_to_queue` and at the top of `worker` never fail for the tasks that reach them, so their error branches are not modelled.
- `app/auth.py`, the Flask routes (including `retry_task`), templates and the browser scripts are not part of this model.
