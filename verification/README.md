# Multi-DL download core, modelled in Dafny

Multi-DL queues media downloads and shows their progress. Each download is a
`Download` job. The job runs the external retrieval engine (yt-dlp) once and
reports its status and progress by emitting `(key, value)` tuples on a Qt
signal. A `DownloadManager` creates jobs, hands each job's `download` method
to a thread pool, and records the jobs and their futures in two parallel
lists.

The model has three files:

- `wrappers.dfy`: `Option`, which stands for Python's `None` against a present value.
- `download.dfy` (module `DownloadJob`, from `multi_dl/download/download.py`): the status enum and the `Download` class.
  - The class holds the job's fields and an event log of every tuple the job emitted.
  - Its methods `SetStatus`, `ProgressHook`, `RunStep` (`_download`) and `Download` (`download()`) change that state step by step.
  - The engine configuration (`YtDlpOptions`) and the display string (`Str`) are functions of the job's fields.
  - The progress percentage (`Percent`, `HookResultOf`) is a function of the engine's report.
  - A status event `('Status', status.name)` is logged as the status itself. `NameInjective` shows that the name determines the status, so nothing is lost.
  - The class invariant `Valid()` says that the `status` field always equals the status of the last status event in the log, and is `IDLE` when there is none.
- `manager.dfy` (module `Manager`, from `multi_dl/download/manager.py`): the `DownloadManager` class and the `Executor` that stands for the thread pool.
  - `Valid()` says that `downloads` and `futures` have equal length.
  - It also says that the i-th future is the submission of the i-th job, and that the pool was handed the jobs in list order.
  - Each job was announced once on `download_added_signal`, and no job appears twice.

The engine, the two `os.makedirs` calls and the progress callbacks become one
`EngineRun` value. It says whether each directory was created, which progress
dictionaries the engine passed to the hook (in order), and whether the engine
call then returned normally. `RunStep` calls the hook once per report. A hook
call that raises (`total_bytes == 0` gives `ZeroDivisionError`) ends the
engine call with that exception. So an attempt fails when directory creation
fails, when the hook raises, or when the engine raises.

Behaviour of the code that the model keeps:

- The statuses are `IDLE`, `DOWNLOADING`, `PAUSED`, `COMPLETED` and `FAILED`.
- The default directory is `~/Downloads/Multi-DL/`.
- A job does not copy the manager's directories. It keeps `Download`'s own defaults.
- Progress is emitted whenever both byte counts are present and the total is non-zero, a zero downloaded count included. A zero total raises `ZeroDivisionError` and fails the attempt. There is no fallback to an estimated total, and there are no speed or ETA events.
- There is no worker-pool resizing and no reconfiguration: `manager.py` defines neither.

## Model

| member | source | states |
|---|---|---|
| `DownloadJob.NameInjective` | multi_dl/download/download.py:7-12 | distinct statuses have distinct names, so a status event identifies its status |
| `DownloadJob.Download.constructor` | multi_dl/download/download.py:23-35 | a new job has the given url and title, the default home and temp directories, status `IDLE`, an empty event log, and satisfies the invariant |
| `DownloadJob.Download.Download` | multi_dl/download/download.py:37-45 | `download()` always ends in a terminal status, `COMPLETED` exactly when no exception escaped the attempt; the log grows by exactly the attempt's trace (`RunTrace`); the invariant is kept; nothing is raised to the caller |
| `DownloadJob.FinalStatus` | multi_dl/download/download.py:39-45 | the outcome is terminal, and it is `COMPLETED` if and only if the attempt raised nothing |
| `DownloadJob.RunTraceIsAttemptTrace` | multi_dl/download/download.py:37-45 | an attempt emits `DOWNLOADING` first and `COMPLETED` or `FAILED` last, with only progress events in between |
| `DownloadJob.RunTraceProgressInRange` | multi_dl/download/download.py:37-45 | if every report either lacks a byte count or describes a download in progress, every progress event of the attempt lies in [0, 100] |
| `DownloadJob.Download.RunStep` | multi_dl/download/download.py:47-55 | `_download` raises exactly when a directory is not created, the hook raises or the engine raises; it emits exactly the hook's events for the delivered reports, and only if both directories exist |
| `DownloadJob.HookRaisesSnoc` | multi_dl/download/download.py:54-55 | while no hook call has raised, one more report makes the run raise exactly when its own hook call raises |
| `DownloadJob.HookTraceSnoc` | multi_dl/download/download.py:54-55 | while no hook call has raised, each further report appends exactly what its hook call emits |
| `DownloadJob.HookTraceAfterRaise` | multi_dl/download/download.py:54-55 | after a hook call raises, no later report is delivered and nothing more is emitted |
| `DownloadJob.HookTraceOnlyProgress` | multi_dl/download/download.py:73-79 | the hook emits only progress events, never a status event |
| `DownloadJob.HookTraceInRange` | multi_dl/download/download.py:73-79 | if every report either lacks a byte count or describes a download in progress, every percentage the hook emits is in [0, 100] |
| `DownloadJob.Download.YtDlpOptions` | multi_dl/download/download.py:57-71 | the options name the job's home and temp directories; `quiet` and `noprogress` are set; the only progress hook is this job's own hook; the template is `<title>.%(ext)s` for a truthy title, otherwise the engine default |
| `DownloadJob.OutputTemplate` | multi_dl/download/download.py:66 | every template ends in `.%(ext)s`; for a truthy title, the part before that suffix is the title; otherwise the template is `%(title)s.%(ext)s` |
| `DownloadJob.OutputTemplateInjective` | multi_dl/download/download.py:66 | two different truthy titles never give the same output template |
| `DownloadJob.HookResultOf` | multi_dl/download/download.py:73-79 | the hook emits nothing exactly when a byte count is missing; it raises exactly when the total is 0 and the downloaded count is present; otherwise it emits the percentage |
| `DownloadJob.Download.ProgressHook` | multi_dl/download/download.py:73-79 | `_progress_hook` appends the event `HookResultOf` gives, or nothing; it reports a raise exactly for a zero total; the invariant is kept |
| `DownloadJob.TruncDiv` | multi_dl/download/download.py:78 | the result is the quotient truncated toward zero: its magnitude is the floor of the magnitudes' quotient, and its sign follows the operands' signs |
| `DownloadJob.Percent` | multi_dl/download/download.py:78 | for a non-negative count and a positive total, the percentage is the floor of downloaded*100/total |
| `DownloadJob.PercentInRange` | multi_dl/download/download.py:78-79 | when 0 <= downloaded <= total and total > 0, the emitted percentage is in [0, 100] |
| `DownloadJob.PercentMonotone` | multi_dl/download/download.py:78 | for a fixed total, the percentage does not decrease as the downloaded count grows |
| `DownloadJob.PercentFullIff` | multi_dl/download/download.py:78 | for a download in progress, the percentage is 100 exactly when every byte has been downloaded |
| `DownloadJob.PercentExample` | multi_dl/download/download.py:78 | 512000 bytes of 1000000 give 51 |
| `DownloadJob.Download.SetStatus` | multi_dl/download/download.py:81-83 | `_set_status` sets the field and then appends one status event for that status, so the field matches the last status event |
| `DownloadJob.LastStatusFindsLast` | multi_dl/download/download.py:81-83 | `LastStatus` finds no status event exactly when the log holds only progress events; otherwise it returns the status of an event that only progress events follow |
| `DownloadJob.LastStatusSkipsProgress` | multi_dl/download/download.py:79 | appending progress events does not change which status was reported last |
| `DownloadJob.Download.Str` | multi_dl/download/download.py:85-86 | the display string is the title when it is truthy, otherwise the url; it is empty only when the title is not truthy and the url is empty |
| `DownloadJob.Download.TemplateNamesDisplay` | multi_dl/download/download.py:66 | a job with a truthy title saves to a file named after its display string; without one it displays its url and uses the engine default template |
| `Manager.Executor.constructor` | multi_dl/download/manager.py:20 | a new pool has the given worker bound and has been handed no work |
| `Manager.Executor.Submit` | multi_dl/download/manager.py:28 | submitting appends the job to the end of the pool's FIFO list and returns a future for that job |
| `Manager.DownloadManager.constructor` | multi_dl/download/manager.py:14-24 | a new manager has empty `downloads`, `futures` and announcement lists, a fresh pool of 5 workers and the default directories |
| `Manager.DownloadManager.AddDownload` | multi_dl/download/manager.py:26-31 | `downloads` grows by one and earlier entries are unchanged; the new last job is fresh, has the given url and title, `Download`'s default directories and status `IDLE`; it is announced exactly once; the invariant is kept; the manager's directories are unchanged |
| `Manager.DownloadManager.AddDownloads` | multi_dl/gui/multi_dl_gui.py:124-127 | a batch adds one job per record, in record order, after the existing jobs, which are unchanged |

## Left out

- Percent: uses exact integer arithmetic. The source computes `int(downloaded / total * 100)` in floating point, which can come out one lower. For example, 29 of 100 gives 28 there and 29 here.
- The engine and the filesystem are not modelled. `EngineRun` says what they did: directory creation, the reports passed to the hook, and the engine's own outcome.
- The model assumes an exception raised by the progress hook ends the engine call with that exception.
- The printed diagnostic message of a failed attempt (`download.py:42`) is console I/O.
- Concurrency is not modelled: the pool's worker threads, the `max_workers` bound in action, and future results.
  - Submitting only appends to the pool's list. A job stays `IDLE` until its `Download` method is called.
  - In the source a worker may already be running the job when `add_download` announces it.
- The default directories are kept as written, with `~` not expanded against the user's home.
- Titles are strings or `None`. The JSON batch loop passes `info['title']` unchanged, so a number or other JSON value could reach the job there. Python truthiness and `__str__` of such values are not modelled.
- The integer values of the `Status` enum are not modelled. No code reads them.
- `PAUSED` is in the datatype, but no operation sets it.
- The Qt machinery is not modelled: `QObject` set-up, and signal connection and delivery. Emission is an append to a log.
- The GUI (`multi_dl/gui/multi_dl_gui.py` apart from its batch loop), the settings dialog and `multi_dl/main.py` are presentation and start-up. The settings dialog's `get_settings` and `update_settings` have no definition in the manager.
