# PDF compression service — job pipeline model

This project models the core of an asynchronous PDF-compression service in Dafny. The HTTP API accepts
an upload and a quality level. It streams the upload into `in/<id>.pdf` under a byte ceiling, writes
a `queued` job record to `meta/<id>.json`, and enqueues the job. A worker then sweeps expired
artifacts and marks the record `processing`. It tries a `qpdf` pre-pass and falls back to the
original input if that fails. It runs Ghostscript with a preset chosen by the level. If Ghostscript
fails, it records `failed` (with the error) and re-raises at once, leaving its temporary file in
place. Otherwise it records `done` (with output size and ratio), removes its temporary file and
sweeps again. The status endpoint returns the stored record. The download endpoint serves
the output only when the record is `done` and the output file exists.

Modules:

- `Common`: bytes, `Option` and `Result`.
- `Text`: the Python string operations the code relies on: `lower`, `strip`, `endswith`, `join`, and
  integer rendering with a round-trip back to the integer.
- `Jobs`: the job record, the status and level enums, the lifecycle `queued → processing →
  done | failed`, and the queue entry.
- `Storage`: the data directory as a class `ArtifactStore` whose field `files` maps a path to a
  file (bytes or a job record, plus its modification time) or a directory. Its methods write,
  append, unlink and create directories.
- `Api`: `api/main.py`. Level normalisation, the size-bounded streaming save (a loop over chunks
  with a running counter), the submission's validation order and its initial record, and the
  decisions of the status and download endpoints.
- `Tasks`: `worker/tasks.py`. The `_run` exit-code contract, the Ghostscript preset, the TTL sweep
  (a function `Sweep` and the nested-loop method `CleanupOld` proved equal to it) and the job
  function. The job function is a specification function `RunJob` (in stages `Process` and
  `Finish`) plus the step-by-step method `CompressPdfJob`, which updates the store in place and
  is proved to end in the state `RunJob` describes. Every observable step of the job (a sweep, a
  record write, a command, the temp cleanup) is logged in a journal, so ordering properties
  can be stated.
- `Service`: how the two halves meet. A record that was just submitted survives the worker's first
  sweep. A completed job is downloadable. A failed job reports its error and answers 409. An
  expired job answers 404 on both endpoints.

The outside world is a parameter. The clock is `now` (first sweep and every write) and `later`
(second sweep). The set `undeletable` holds the files whose unlink raises. Each command ends as
`Exited(returncode, stderr)` or `Raised(message)`, the second for a timeout or a missing binary,
together with the bytes the command writes when it succeeds. The job id and the uploaded chunks
are inputs.

Where the intended behaviour and the code disagree, the model follows the code:

- The intended status lifecycle is monotonic: `queued`, then `processing`, then `done` or `failed`. The worker writes `processing` without
  looking at the status it read (worker/tasks.py:47-50). A job delivered again after it finished
  is therefore reopened. `Tasks.RedeliveryReopensFinishedJob` states this. `Tasks.JobFollowsLifecycle`
  proves the lifecycle for a record the worker reads as `queued`.
- The ceiling check uses a strict `>` after adding each chunk. An empty upload is therefore
  accepted whatever the ceiling, even a negative one, and yields a count of 0
  (`Api.WithinLimitIffTotal`).

## Model

| member | source | states |
|---|---|---|
| Text.StripLeft | api/main.py:48 | the result is a suffix of the input that starts with a non-space, and everything dropped is whitespace |
| Text.StripRight | api/main.py:48 | the result is a prefix of the input that ends with a non-space, and everything dropped is whitespace |
| Text.Strip | api/main.py:48 | `strip()` leaves no whitespace at either end, never lengthens the string, and leaves a string with no whitespace unchanged |
| Text.StripUnchanged | api/main.py:48 | a string that neither starts nor ends with whitespace is its own strip |
| Text.StripSurrounded | api/main.py:48 | `strip()` removes exactly the whitespace around a core, however much surrounds it |
| Text.StripIdempotent | api/main.py:48 | stripping twice gives the same string as stripping once |
| Text.LowerUnchanged | api/main.py:48 | lower-casing leaves a string without capital letters as it is |
| Text.DigitsRoundTrip | worker/tasks.py:19 | the decimal digits of a natural number parse back to that number |
| Text.DecimalRoundTrip | worker/tasks.py:19 | the rendering of any integer is nonempty, is an optional minus followed by digits, and parses back to the integer |
| Api.ArtifactKindsDistinct | api/main.py:89-91 | input, output and meta paths never coincide, whatever the two job ids |
| Api.JobPathsDistinct | api/main.py:89-91 | two different job ids never share an input, output or meta path |
| Api.SafeLevel | api/main.py:47-51 | accepts exactly when the lower-cased, stripped level (defaulting to "medium") is high, medium or low, and returns that level; otherwise fails with 400 and the fixed message |
| Api.SafeLevelDefault | api/main.py:48 | a missing or empty level becomes Medium |
| Api.SafeLevelAcceptsNames | api/main.py:49-51 | each of the three level names is accepted as itself |
| Api.SafeLevelNormalises | api/main.py:48-50 | " HiGh\t" is accepted as High; "ultra" is rejected with the 400 error |
| Api.Received | api/main.py:57-60 | the loop consumes a prefix of the upload made of nonempty chunks, and stops at the first empty read or at the end |
| Api.ConcatAppend | api/main.py:73 | appending chunk lists concatenates their bytes |
| Api.WithinLimitIffTotal | api/main.py:61-62 | the per-chunk check of the running counter passes exactly when the upload is empty or its total is at most the ceiling, so a total equal to the ceiling is accepted |
| Api.WithinLimitExtend | api/main.py:61-62 | one more chunk raises the counter by its length, and the check extends to it exactly when the new total is within the ceiling |
| Api.WithinPrefix | api/main.py:57-73 | the number of chunks accepted before the first one that takes the running counter past the ceiling: every chunk up to it stays within the ceiling and the next one breaks it |
| Api.KeptBytesWithinLimit | api/main.py:61-73 | the bytes a rejected upload leaves in an undeletable `dst` are a prefix of what was sent and, when any chunk was written, no more than the ceiling |
| Api.SaveUploadLimited | api/main.py:53-74 | succeeds exactly when the running counter never passes the ceiling; on success returns the total length and `dst` holds the concatenated chunks; otherwise fails with 413 and the ceiling in the message, having removed `dst`, or, when the unlink raises and is swallowed, leaving in `dst` the chunks written before the rejected one |
| Api.SavedCountWithinLimit | api/main.py:61-74 | a nonempty accepted upload's count is at most the ceiling |
| Api.CompressPdf | api/main.py:76-106 | a non-`.pdf` name fails with 400 before anything else and writes nothing; then a bad level fails with 400 and writes nothing; then an oversized upload fails with 413 and leaves no input file (or, when its unlink raises, the chunks written before the rejected one); otherwise the input and the `queued` record are written and the queue entry carries the level and the three paths derived from the job id |
| Api.JobStatus | api/main.py:124-130 | 404 exactly when the meta file is missing; an unhandled error when it exists but holds no readable record; success exactly when a record can be read, and the stored record is returned unchanged |
| Api.Download | api/main.py:132-147 | 404 exactly when the meta file is missing; an unhandled error when it exists but holds no readable record; 409 exactly when the record is not `done`; 404 "Output missing" exactly when it is `done` and the output is gone; served exactly when the record is `done` and its output exists, as that output under `compressed-<id>.pdf` |
| Api.SubmittedJobIsQueued | api/main.py:95-106 | right after submission the status endpoint returns the initial `queued` record and the download answers 409 |
| Storage.ArtifactStore.constructor | api/main.py:20-24 | start-up keeps every entry already in the data directory and adds exactly the artifact directories that are missing |
| Storage.ArtifactStore.Write | api/main.py:106 | writing replaces the entry at the path and changes nothing else |
| Storage.ArtifactStore.Append | api/main.py:73 | appending extends the file's bytes and changes nothing else |
| Storage.ArtifactStore.Remove | api/main.py:69 | unlinking removes the entry at the path, if any, and changes nothing else |
| Storage.ArtifactStore.MakeDir | worker/tasks.py:55 | creates a directory only when nothing is at the path |
| Tasks.Run | worker/tasks.py:8-19 | passes exactly when the command exited with 0; a raised completion fails with its own message; a non-zero exit fails with the "Command failed" text |
| Tasks.FailureMessageReports | worker/tasks.py:19 | the failure text starts with "Command failed (", the return code can be read back from it, and it ends with the stripped stderr |
| Tasks.GsSetting | worker/tasks.py:21-28 | "/prepress" exactly for "high", "/screen" exactly for "low", "/ebook" for every other value |
| Tasks.GsSettingForLevels | worker/tasks.py:21-28 | High, Medium and Low select /prepress, /ebook and /screen |
| Tasks.Sweep | worker/tasks.py:30-41 | deletes exactly the regular files directly inside an existing `in`, `out` or `meta` that are strictly older than the TTL and whose unlink succeeds; keeps every other entry unchanged |
| Tasks.SweepIdempotent | worker/tasks.py:30-41 | sweeping again with the same clock deletes nothing |
| Tasks.CleanupOld | worker/tasks.py:30-41 | the nested loop over sub-directories and their listings leaves the store exactly as `Sweep` describes |
| Tasks.JobStats | worker/tasks.py:84-90 | with both sizes readable, the output size and a ratio with ratio·input = output, which is absent exactly when the input is empty; both absent if either size cannot be read |
| Tasks.CompressPdfJob | worker/tasks.py:43-105 | the in-place job ends in the store, result and journal of `RunJob` |
| Tasks.ProcessJob | worker/tasks.py:47-105 | from the record just read, the in-place steps end as `Process` describes, extending the journal the caller passes in |
| Tasks.FinishJob | worker/tasks.py:84-105 | after Ghostscript succeeded, the in-place steps end as `Finish` describes |
| Tasks.JournalStages | worker/tasks.py:43-105 | an unreadable record ends the job after the sweep; otherwise the first four steps are the sweep, the `processing` write and the two commands, followed by the `failed` write alone or by the `done` write, the temp cleanup and the second sweep |
| Tasks.ProcessingPersistedFirst | worker/tasks.py:45-60 | the job starts with a sweep, and every command runs after `processing` has been written |
| Tasks.QpdfFallback | worker/tasks.py:57-77 | Ghostscript runs whatever qpdf does, on the intermediate file when qpdf passed and on the original input otherwise |
| Tasks.GhostscriptFailureRecorded | worker/tasks.py:78-82 | a Ghostscript failure is re-raised with its message, and the last write stores a `failed` record with that message; no `done` write, temp cleanup or second sweep follows |
| Tasks.SuccessRecorded | worker/tasks.py:92-104 | on success the record read at the start is rewritten `done` with the returned statistics and no error, keeping id, level, paths and input size; then come the temp cleanup and the second sweep |
| Tasks.SuccessStats | worker/tasks.py:84-90 | with distinct paths, the statistics come from the input as the first sweep left it and from Ghostscript's output; an unreadable input leaves both empty |
| Tasks.JobFollowsLifecycle | worker/tasks.py:49-96 | the statuses written are none (exactly when the record cannot be read), or `processing` then one terminal status; from `queued` each write is a lifecycle step |
| Tasks.RedeliveryReopensFinishedJob | worker/tasks.py:47-50 | a record already `done` or `failed` is rewritten `processing`, which breaks the lifecycle |
| Tasks.FinishKeepsArtifacts | worker/tasks.py:92-104 | after success, the `done` record and the output survive the temp cleanup and a second sweep that comes within the TTL |
| Tasks.SuccessKeepsArtifacts | worker/tasks.py:84-104 | the same for the whole job: on Ghostscript success the store ends with the `done` record and the output |
| Service.SubmittedRecordSurvivesSweep | worker/tasks.py:45-48 | a record written by the API within the TTL survives the worker's first sweep and is read back as `queued` |
| Service.ExpiredJobIsGone | api/main.py:132-136 | once the sweep deletes a job's record, status and download both answer 404 |
| Service.CompletedJobIsDownloadable | api/main.py:132-147 | a job whose Ghostscript run passes, with the second sweep inside the TTL, reports `done` without error and its output is served |
| Service.FailedJobIsNotDownloadable | api/main.py:138-139 | a job whose Ghostscript run fails reports `failed` with the command's message, and the download answers 409 |

## Left out

- FastAPI routing, CORS, the HTML page and `/health`: framework plumbing with no logic of its own.
- The Redis connection, the RQ enqueue and `worker/worker.py`: `Api.CompressPdf` returns the queue entry instead of enqueueing it, and the job function takes that entry as its argument.
- `uuid.uuid4`: the job id is an input; `Api.JobPathsDistinct` shows that distinct ids never share an artifact.
- Real subprocess execution, `qpdf` and Ghostscript behaviour, and timeouts: each command is an abstract completion, and a timeout is a `Raised` completion.
- Tasks.Process: a failing command is taken to write nothing, so a partial output left by a failing Ghostscript run is not modelled.
- JSON encoding and decoding of the meta file: the record is stored as a value under the meta path; a meta file that does not hold a record is what an unreadable one stands for (`Unhandled` in the API, `MetaUnreadable` in the worker).
- The float `ratio`: it is an exact `real`, so rounding is not modelled.
- Api.SafeLevel: lower-casing covers ASCII letters only, so non-ASCII case mappings of Python's `str.lower` are not modelled (the same holds for `Api.CompressPdf`'s extension check).
- `async` streaming, concurrent sweeps against running jobs and concurrent requests: all operations are sequential.
- Environment-variable configuration: the ceiling and the TTL are parameters (their defaults, 200 MiB and 21600 seconds, are constants).
- Paths are relative to the data directory; the worker's `data_dir`, derived from the meta path, is taken to be the store's root.
- Storage.StatSize: a `stat` on a directory or on a record file is treated as failing, although Python's would return a size.
- Storage.ArtifactStore.constructor: a regular file standing where an artifact directory should be is kept, whereas Python's `mkdir(exist_ok=True)` raises and start-up fails.
- Storage.ArtifactStore.MakeDir: creating `out/tmp` where a regular file already stands does not fail as Python's would; missing ancestors of `tmp` are not created.
- Every write of one job uses the same clock reading `now`; the sweep after the job uses `later`.
