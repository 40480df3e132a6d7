# ququ speech-worker supervision, modelled in Dafny

ququ (蛐蛐) is a desktop dictation application. An Electron main process supervises a
Python speech worker: the FunASR server. The renderer windows record audio, show the
transcription, optionally polish it with a chat-completion API, paste it, and keep a
history in SQLite.

This project models the core of that system as pure Dafny functions over immutable
data, and proves what the code promises. The core has these parts:

- **The supervisor** (`Supervisor`, `ProcessRunner`, `Assets`, `PythonEnv`, `Pipeline`):
  - spawning the worker;
  - the two-line start-up handshake;
  - one-JSON-line commands;
  - timeouts, stop and restart;
  - the model-file probe and its cache;
  - the Python interpreter search and its environment.
- **The worker** (`Worker`): `funasr_server.py` — initialisation, transcription,
  and its read–dispatch–reply loop.
- **The model download** (`DownloadScript`, `DownloadClient`, `ModelStatus`, `StatusViews`):
  - `download_models.py`'s progress lines;
  - the main process's reading of them;
  - the renderer's status views.
- **JSON** (`Json`): values, serialisation in the JavaScript and Python styles, a strict
  parser, and the round trip between them.
- **Text helpers** (`Text`): JavaScript/Python trimming, `indexOf`, first-occurrence
  `replace`, `split`/`join`, and integer printing and parsing.
- **The renderer's decisions**:
  - recording and WAV encoding (`Recording`);
  - text processing (`TextProcessing`);
  - chat-completion requests (`AiRequests`);
  - hot keys (`HotkeyManager`, `IpcHotkeys`, `HotkeyHook`);
  - the float ball and its window (`FloatBall`, `WindowEdge`, `WindowDrag`);
  - the main window (`AppUi`);
  - the history views (`History`);
  - the settings window (`Settings`).
- **Persistence and configuration**:
  - the SQLite helper (`Database`), with the table as a sequence of rows;
  - environment configuration (`Environment`);
  - the production PATH set-up in `main.js` (`MainPath`).

The model replaces I/O with inputs and outputs:

- Processes, timers, the file system, HTTP answers, clipboard calls and window geometry
  are parameters, or events in a trace.
- Every operation returns its next state together with what it sends or shows.
- Line numbers below refer to the repository's files.

## Model

| member | source | states |
|---|---|---|
| Supervisor.StartServer | src/helpers/funasrManager.js:655-802 | a start that passes every precheck spawns exactly one worker, the newest generation, with a fresh handshake; a failed precheck changes nothing; readiness and the start promise are untouched |
| Supervisor.PreInit | src/helpers/funasrManager.js:645-653 | with a start promise set nothing happens; otherwise the promise is set and a start attempted; afterwards the promise is always set |
| Supervisor.ReadInit | src/helpers/funasrManager.js:717-745 | only the first result read after the sentinel resolves the start, and once a result was received later lines change nothing |
| Supervisor.HandshakeLine | src/helpers/funasrManager.js:710-763 | a line changes only that worker's handshake; readiness rises exactly when the line is an init result reporting success, and then the models flag is set and the probe cache cleared; otherwise both stay as they were |
| Supervisor.CommandLine | src/helpers/funasrManager.js:812-828 | a blank or non-JSON line changes nothing; a JSON line from a worker settles every command waiting on it and no other |
| Supervisor.Waiting | src/helpers/funasrManager.js:812-828 | the commands waiting on a worker are exactly the pending ones of its generation |
| Supervisor.Others | src/helpers/funasrManager.js:812-828 | the commands left pending are exactly those of other generations |
| Supervisor.Answers | src/helpers/funasrManager.js:822 | each settled command gets the same answer, in order |
| Supervisor.OnLine | src/helpers/funasrManager.js:710-763 | a line never changes the current worker or the start promise, nor spawns a worker |
| Supervisor.OnClose | src/helpers/funasrManager.js:767-776 | corrected half of the stale-close finding: the current worker's exit forgets it and clears both flags; an older worker's exit leaves handle and flags alone; the exit resolves a start still waiting |
| Supervisor.OnCloseAsWritten | src/helpers/funasrManager.js:767-776 | any worker's exit forgets the current handle and clears both flags, resolves that worker's start if it never reported, and touches no other worker, kill or pending command |
| Supervisor.OnError | src/helpers/funasrManager.js:778-786 | corrected half of the stale-close finding: only the current worker's error forgets it and clears readiness, never the models flag; an older worker's error changes neither |
| Supervisor.OnErrorAsWritten | src/helpers/funasrManager.js:778-786 | any worker's error forgets the current handle and clears readiness but not the models flag, and resolves that worker's start if it never reported |
| Supervisor.OnStartTimeout | src/helpers/funasrManager.js:788-797 | corrected half of the stale-timer finding: a timeout after the init result changes nothing; otherwise it resolves the start and kills the worker only when it is still the current one |
| Supervisor.OnStartTimeoutAsWritten | src/helpers/funasrManager.js:788-797 | a timeout after the init result changes nothing; otherwise it resolves the start and kills whatever worker the handle holds, if any, leaving handle and readiness alone |
| Supervisor.SendCommand | src/helpers/funasrManager.js:804-844 | without a ready worker the command is refused with the fixed message and nothing is written; otherwise exactly its compact JSON text and a newline is written to the current worker and the command waits on it |
| Supervisor.OnCommandTimeout | src/helpers/funasrManager.js:836-843 | for a command still pending, the timeout removes exactly its listeners and rejects it with the timeout message, or leaves it unsettled when no handle is held, because removing the listener then throws before the rejection; it never kills the worker or touches the handle; for a command no longer pending it changes nothing |
| Supervisor.WithoutId | src/helpers/funasrManager.js:836-843 | the commands left after a timeout are exactly the pending ones without that id |
| Supervisor.CheckFiles | src/helpers/funasrManager.js:275-378 | a probe changes only the cache: a fresh cached probe answers while the server is not ready and nothing changes; otherwise the filesystem's probe is returned and stored with the time only when it succeeded |
| Supervisor.Stop | src/helpers/funasrManager.js:846-860 | stopping without a worker changes nothing; otherwise the worker is forgotten and both flags cleared |
| Supervisor.Restart | src/helpers/funasrManager.js:577-611 | restarting with models missing leaves no worker, no flags and no start promise and reports the fixed failure; with models present it clears both flags, sets the promise, spawns exactly one new worker when the prechecks pass, and reports success unless the cache root is missing |
| Supervisor.Step | src/helpers/funasrManager.js:577-860 | with either set of handlers, no event removes a worker; outside a restart, a set start promise allows no new worker and a missing one allows at most one |
| Supervisor.Run | src/helpers/funasrManager.js:577-860 | a trace that runs to the end keeps the state well formed and never loses a spawned worker |
| Supervisor.SingleStart | src/helpers/funasrManager.js:645-653 | without a restart, at most one worker is ever spawned, however many pre-initialisations arrive, with the program's handlers and with the corrected ones |
| Supervisor.HandshakeReadsInitResult | src/helpers/funasrManager.js:710-745 | the sentinel followed by an init result makes the server ready exactly when the result's `success` is truthy, and then the models are initialized |
| Supervisor.SentinelStep | src/helpers/funasrManager.js:717-720 | the sentinel line only arms the next line |
| Supervisor.InitLineStep | src/helpers/funasrManager.js:723-745 | the armed line is read as the init result and resolves the start |
| Supervisor.SentinelIsNotJson | src/helpers/funasrManager.js:717-745 | the sentinel line is not JSON, so it is never taken for a reply |
| Supervisor.ObjectTextNotSentinel | src/helpers/funasrManager.js:717 | no written object is mistaken for the sentinel |
| Supervisor.NoWriteUnlessReady | src/helpers/funasrManager.js:804-807 | a command refused for lack of a ready worker writes nothing and waits on nothing |
| Supervisor.JsonLineAnswers | src/helpers/funasrManager.js:812-828 | a JSON line from a worker answers every command waiting on it with the parsed value |
| Supervisor.CommandAnsweredByFirstJsonLine | src/helpers/funasrManager.js:804-844 | a command sent to a ready worker is written last on its stdin and answered by the next non-blank line that parses as JSON, after which it is no longer pending |
| Supervisor.AnsweredNeverTimesOut | src/helpers/funasrManager.js:810-842 | once the first JSON line has answered a command, its 60 s timer finds `responseReceived` set and changes nothing: an answered command is never also timed out |
| Supervisor.TimeoutOnce | src/helpers/funasrManager.js:836-843 | the timer of a command acts at most once: firing it again after it settled the command changes nothing |
| Supervisor.StaleCloseAsWritten | src/helpers/funasrManager.js:767-776 | after a restart, the old worker's late exit leaves a server marked ready with no handle, so every command is refused |
| Supervisor.StaleCloseCorrected | src/helpers/funasrManager.js:767-776 | with the generation check, the same sequence leaves the new worker current and ready, and commands reach it |
| Supervisor.StaleErrorAsWritten | src/helpers/funasrManager.js:778-786 | as written, a late error of the worker stopped by a restart drops the new worker's handle; after the new worker reports success the supervisor counts as ready and refuses every command |
| Supervisor.StaleEventsHarmless | src/helpers/funasrManager.js:767-797 | with the generation check, an older worker's exit, error or timeout affects neither handle nor readiness and kills nothing |
| Supervisor.HandlersAgreeOnCurrent | src/helpers/funasrManager.js:767-797 | for the current worker, the program's close, error and start-timeout handlers and the corrected ones give the same state |
| Supervisor.StaleTimeoutAsWritten | src/helpers/funasrManager.js:788-797 | after a restart, the old start's timeout kills the new worker |
| Supervisor.StaleTimeoutCorrected | src/helpers/funasrManager.js:788-797 | with the generation check, the old start's timeout kills nothing |
| ProcessRunner.TimeoutOf | src/utils/process.js:4-19 | without a requested timeout the quick-check 5000 ms applies, otherwise the requested one |
| ProcessRunner.Start | src/utils/process.js:18-40 | corrected half of the environment finding: a started run is pending, not killed, with empty output, the effective timeout, and the caller's `env` or else the parent's environment |
| ProcessRunner.StartAsWritten | src/utils/process.js:18-24 | a call without `env` is rejected at once with the error for reading `process` before its initialisation, and nothing is killed; a call with `env` starts as intended |
| ProcessRunner.Settlement | src/utils/process.js:34-69 | a settling event always settles; the run resolves exactly on exit code 0, with stdout followed by stderr and code 0; the timer rejects with `Command timed out after <timeout>ms: <command> <args joined by spaces>`, any other exit with `Command failed with code <code>: <stderr, or stdout when stderr is empty>` (a signal prints the code as `null`), and a spawn error with `Process error: <message>` |
| ProcessRunner.Step | src/utils/process.js:34-69 | an event never changes the command or timeout; after settling, nothing changes the outcome; a pending run is settled by a settling event |
| ProcessRunner.FirstSettling | src/utils/process.js:31-69 | the first settling event is found, and none exactly when no event settles |
| ProcessRunner.OutcomeIsFirstSettling | src/utils/process.js:31-69 | the outcome of a run is the settlement of its first settling event, with the output gathered before it |
| ProcessRunner.KilledIffTimerFirst | src/utils/process.js:34-40 | the child is killed exactly when the timer is the first event to settle |
| ProcessRunner.SettledStays | src/utils/process.js:51-65 | once settled, later events change neither the outcome nor the kill |
| ProcessRunner.FirstSettlerDecides | src/utils/process.js:31-69 | quiet events followed by a settling one: that one decides the outcome, whatever comes after |
| ProcessRunner.DefaultEnvRejects | src/utils/process.js:21-24 | as written, a call without `env` ends rejected with the initialisation error whatever events follow, and no child is ever killed |
| ProcessRunner.DefaultEnvInherits | src/utils/process.js:22-60 | with the intended start, a call without `env` runs in the parent's environment, and output followed by exit code 0 resolves with that output |
| Assets.MinCompleteIsNinetyFivePercent | src/helpers/funasrManager.js:318 | a model file is complete exactly when its size is at least 95% of the expected size, computed exactly (including the 1.6 MiB voice-activity model) |
| Assets.DetailOf | src/helpers/funasrManager.js:312-340 | each detail names the model's `model.pt` path and is complete exactly when the file is; a missing file has size 0 and is not complete |
| Assets.Incomplete | src/helpers/funasrManager.js:311-341 | the missing list holds exactly the models whose file is not complete |
| Assets.ProbeFiles | src/helpers/funasrManager.js:288-377 | the probe succeeds exactly when a cache root is found; downloaded means nothing is missing; with no root or no cache directory all three models are missing |
| Assets.MissingIffIncomplete | src/helpers/funasrManager.js:315-340 | a model is missing exactly when its file is absent or under 95% of the expected size; downloaded means every model is complete |
| Assets.MissingInOrder | src/helpers/funasrManager.js:33-48 | the missing models are listed in the configuration's order: asr, vad, punc |
| Assets.CheckModelFiles | src/helpers/funasrManager.js:279-306 | a cached probe younger than 2000 ms answers while the server is not ready; otherwise the fresh probe answers, and only a successful one is cached |
| Assets.ProbeTwiceWithinWindow | src/helpers/funasrManager.js:10-12 | a second check within the 2000 ms window, with the server not ready, returns the first probe even when the files have changed |
| Assets.ReadyBypassesCache | src/helpers/funasrManager.js:282-284 | with the server ready, the check always probes afresh |
| Assets.ProgressTenths | src/helpers/funasrManager.js:414-417 | a model's progress, in tenths of a percent, never exceeds 100% |
| Assets.ProgressBounds | src/helpers/funasrManager.js:414-417 | a full-size file shows 100%, a complete file at least 95%, and an empty file 0% |
| Assets.ProgressMonotone | src/helpers/funasrManager.js:414-417 | a larger file never shows less progress |
| Assets.DownloadProgress | src/helpers/funasrManager.js:380-440 | the progress report succeeds exactly when a root is found; the overall value is at most 100%; it lists the three models in order |
| Assets.OverallProgressWhenComplete | src/helpers/funasrManager.js:399-427 | when every model is complete the overall progress is at least 95% |
| Assets.FirstExisting | src/helpers/funasrManager.js:255-261 | the candidate chosen is the first that exists, and none is chosen exactly when none exists |
| Assets.ResolveCacheRoot | src/helpers/funasrManager.js:243-272 | an existing candidate directory wins; otherwise the recursive search decides, and failure carries the fixed message |
| Assets.SearchSound | src/helpers/funasrManager.js:197-238 | a directory the search returns is a `damo` directory with an expected model entry, at most six levels below the start |
| Assets.SearchComplete | src/helpers/funasrManager.js:197-238 | whenever such a directory exists within six levels, the search finds one |
| Assets.FindDamoRoot | src/helpers/funasrManager.js:197-238 | a directory found lies one to six levels below an existing start and is a `damo` directory holding an expected model entry |
| Assets.FindDamoRootIff | src/helpers/funasrManager.js:197-238 | from an existing start the search succeeds exactly when a qualifying `damo` directory lies within six levels |
| Assets.IncompleteOrdered | src/helpers/funasrManager.js:311-341 | the missing models keep the asr, vad, punc order of the models checked |
| PythonEnv.BuildEnvAgrees | src/helpers/funasrManager.js:126-195 | the worker's environment agrees key by key with the layered definition: process environment, then the fixed settings, the user-data directory, the bundled runtime's paths, with the three scrubbed keys removed |
| PythonEnv.BuildEnvSettings | src/helpers/funasrManager.js:136-188 | the scrubbed keys never reach the worker; the unbuffered UTF-8 settings always do; `PYTHONHOME`, `PYTHONPATH` and the library path point into the bundled runtime exactly when it exists, and are otherwise inherited |
| PythonEnv.BuildEnvInherits | src/helpers/funasrManager.js:136-142 | every other key of the process environment reaches the worker unchanged |
| PythonEnv.BuildPythonEnvironment | src/helpers/funasrManager.js:126-195 | the memo always holds the map returned and the flag it was built for; without a memo for this flag the map is built afresh |
| PythonEnv.MemoIgnoresLaterChanges | src/helpers/funasrManager.js:129-134 | a second build for the same flag returns the first map, even after the process environment changed |
| PythonEnv.SetupIsolated | src/helpers/funasrManager.js:83-124 | the process-wide environment agrees key by key with the isolation rules |
| PythonEnv.IsolationSettings | src/helpers/funasrManager.js:83-124 | isolation always removes the scrubbed keys, points `PYTHONHOME` at the bundled runtime when it exists, and removes the runtime pointers when it does not |
| PythonEnv.FirstMatchFrom | src/helpers/funasrManager.js:971 | the leftmost position where `Python <digits>.<digits>` matches, ignoring case, is found, and none exactly when there is no match |
| PythonEnv.ParseVersionFound | src/helpers/funasrManager.js:971-972 | a version is read exactly when the output matches the pattern somewhere, and it is the version the leftmost match names |
| PythonEnv.GetPythonVersion | src/helpers/funasrManager.js:955-980 | a version comes only from a probe that exited with code 0, and then it is the one its output names |
| PythonEnv.VersionBanner | src/helpers/funasrManager.js:971-972 | the banner `Python <major>.<minor>` reads as that version |
| PythonEnv.Candidates | src/helpers/funasrManager.js:908-935 | the development fallbacks are sixteen on Windows and fourteen elsewhere |
| PythonEnv.FirstSupported | src/helpers/funasrManager.js:937-948 | the first fallback whose probe reports Python 3 is chosen, and none exactly when no probe does |
| PythonEnv.FindPython | src/helpers/funasrManager.js:862-906 | a remembered interpreter is returned and nothing changes; a found interpreter is remembered; a failed search remembers nothing |
| PythonEnv.FoundReportsPython3 | src/helpers/funasrManager.js:876-883 | a fresh search accepts only an interpreter whose probe reported major version 3 |
| PythonEnv.ProductionNeverFallsBack | src/helpers/funasrManager.js:893-905 | outside development, an absent or unusable bundled interpreter is an error, whatever the fallbacks would say |
| PythonEnv.EmbeddedPreferred | src/helpers/funasrManager.js:876-888 | a usable bundled interpreter wins, and the next search returns it again |
| Pipeline.StartupReadiness | src/helpers/funasrManager.js:710-745 | the first two lines a freshly spawned worker prints make the supervisor ready exactly when every model directory is ready and every model loaded |
| Pipeline.CommandRoundTrip | src/helpers/funasrManager.js:804-844 | a command written to the worker is read back by it as that very command, and its one reply settles the command's pending request |
| Pipeline.ReplySettles | src/helpers/funasrManager.js:812-828 | a JSON object line read while a command is pending settles that command with the object |
| Worker.ModelRoot | funasr_server.py:78-79 | a non-empty `--damo-root` wins, then a non-empty `DAMO_ROOT`, and only then the default root |
| Worker.DefaultRoot | funasr_server.py:419-438 | with `MODELSCOPE_CACHE` set, the first directory among its damo, hub/models/damo and hub/damo; otherwise, or when none is a directory, the home cache's hub/models/damo when that is a directory and its hub/damo else; so the root is a directory or the home hub/damo |
| Worker.ExplicitRootWins | funasr_server.py:440 | the root passed on the command line is used whatever the environment and the file system hold |
| Worker.MissingRepos | funasr_server.py:443-466 | a model directory is listed as missing exactly when it is not ready, and at most the three are listed |
| Worker.NotReady | funasr_server.py:462-466 | the missing list holds exactly the listed repositories that are not ready |
| Worker.CompleteMeansReady | funasr_server.py:449-460 | a model the main process counts as completely downloaded is also ready for the worker |
| Worker.FailedLoads | funasr_server.py:225 | the failed list holds exactly the models whose loader reported failure |
| Worker.Initialize | funasr_server.py:174-251 | a second call answers "already initialized" and changes nothing; otherwise the worker becomes initialized exactly when no loader is still running and none failed, and the reply's `success` says so |
| Worker.InitializeIdempotent | funasr_server.py:176-177 | once initialized, initializing again answers the already-initialized message and leaves the worker as it is |
| Worker.InitFailureNamesFailedModels | funasr_server.py:225-230 | when loaders failed the error names exactly the failed models, comma separated, and `success` is false |
| Worker.TypeNeverNotDownloaded | funasr_server.py:174-251 | initializing itself never reports the models as not downloaded |
| Worker.InitResult | funasr_server.py:468-477 | the init result is a JSON object, and with every repository ready it is the result of initializing |
| Worker.InitResultSuccess | funasr_server.py:468-477 | the init result succeeds exactly when every repository is ready and the models loaded |
| Worker.NotDownloadedIffRepoMissing | funasr_server.py:462-477 | the init result has type `models_not_downloaded` exactly when some model directory is not ready |
| Worker.EffectiveOptions | funasr_server.py:267-277 | falsy options leave the defaults; a dictionary overrides them key by key; a list merges exactly when every element is a pair (a two-element list, a two-letter string or a two-key dictionary) and then overrides by its string-keyed pairs; any other truthy value makes the update raise |
| Worker.KeyOrder | funasr_server.py:277 | a decoded dictionary has each present key once, and only present keys |
| Worker.PairOf | funasr_server.py:277 | a list element read as a key/value pair under a string key is a two-element list starting with that key |
| Worker.Pairs | funasr_server.py:277 | a list is accepted by `dict.update` exactly when no element fails to be a pair, and then yields exactly the string-keyed pairs |
| Worker.PairListOverrides | funasr_server.py:276-277 | a list of pairs overrides the defaults key by key as a dictionary would |
| Worker.SinglePairOverrides | funasr_server.py:276-277 | `[[key, v]]` sets `key` to `v` and keeps every other default, e.g. `[["use_vad", false]]` |
| Worker.OptionsOverride | funasr_server.py:276-277 | after the update each key has the caller's value when given and the default otherwise |
| Worker.UpdateOverrides | funasr_server.py:277 | `dict.update` makes every key of the update win and keeps every other key |
| Worker.Transcribe | funasr_server.py:253-351 | the reply is always a JSON object, valid whenever the measured duration is; a worker whose initialization fails answers with that failure; otherwise the count grows by one exactly when the recogniser returned |
| Worker.Counted | funasr_server.py:262-323 | only the count changes, and it grows by one exactly when the existence check takes the path (a string, or an integer or bool naming a file descriptor) and finds it, the options merge and the recogniser returns, whether or not the reply then fails |
| Worker.TranscribeReply | funasr_server.py:260-351 | the reply of an initialized worker is a JSON object, valid whenever the measured duration is; an empty recogniser result fails with `list index out of range` |
| Worker.TranscribeErrors | funasr_server.py:255-263 | an uninitialized worker whose initialization fails answers with that failure; a missing file or closed descriptor answers with the missing-file error naming the path as Python prints it, and a string path as itself; `None`, a fractional number, a list or a dictionary is a transcription error; none of these counts |
| Worker.DescriptorPathMissing | funasr_server.py:262-263 | `"audio_path": 7` with descriptor 7 closed answers `音频文件不存在: 7`, `true` names `True`, and `7.0` makes the existence check raise, giving the transcription error |
| Worker.TranscribeCounts | funasr_server.py:297-330 | the count grows by one on every successful transcription and on the failed one whose recogniser returned an empty list, whose reply is the `list index out of range` transcription error; on no other reply |
| Worker.ReplySucceedsWhenRecognised | funasr_server.py:260-351 | an initialized worker's reply succeeds exactly when the existence check takes the path and finds it, the options merge and the recogniser returns a non-empty result |
| Worker.TranscribedSuccess | funasr_server.py:325-337 | a transcription result succeeds and carries the final text |
| Worker.PunctuationApplies | funasr_server.py:305-321 | the text is the punctuated one exactly when punctuation is enabled, the model is loaded, the raw text is not blank and the model gave a text; otherwise the raw text |
| Worker.StartsWithHandshake | funasr_server.py:479-482 | the output starts with the sentinel line followed by the serialized init result |
| Worker.LineReplies | funasr_server.py:487-501 | a blank line is skipped without reply; any other line gets exactly one reply; a line that is not JSON gets the invalid-command error; the loop stops exactly on an exit command |
| Worker.HandleLine | funasr_server.py:487-501 | a blank line gets no reply and any other one reply; a line carrying a JSON object is dispatched as that command; any other line changes nothing and does not stop |
| Worker.Dispatch | funasr_server.py:503-528 | a command gets one JSON object as reply; the loop stops exactly on `exit`; only `transcribe` changes the worker |
| Worker.DispatchReplies | funasr_server.py:503-528 | every command gets exactly one reply; only `exit` stops, with the exit message; only `transcribe` changes the count |
| Worker.PyStr | funasr_server.py:520-525 | the unknown-command message prints a string action as itself, an absent one as `None`, and a list or dictionary in Python's brackets and braces |
| Worker.PyQuotePlain | funasr_server.py:520-525 | a string of plain characters prints in single quotes |
| Worker.PyQuoteApostrophe | funasr_server.py:520-525 | a string holding a single quote and no double quote prints in double quotes |
| Worker.PyStrList | funasr_server.py:520-525 | the action `[1, "a"]` prints as `[1, 'a']` |
| Worker.RepliesValid | funasr_server.py:526-539 | every reply line is a valid JSON object |
| Worker.CommandLineDispatched | funasr_server.py:491-496 | a serialized command followed by a newline is dispatched as that very command |
| Worker.Serve | funasr_server.py:484-489 | the loop reads every line unless it stops on an exit |
| Worker.OneReplyPerLine | funasr_server.py:484-539 | the loop prints exactly one reply per non-blank line it read |
| Worker.StopsAtFirstExit | funasr_server.py:515-519 | the loop stops exactly when some line is an exit command, and then at the first one |
| DownloadScript.Advance | download_models.py:65-75 | a report sets its model's percentage by its stage, leaves the others, and counts one more completion exactly for a terminal stage |
| DownloadScript.OverallTenths | download_models.py:78-85 | the overall progress is the percentage sum over three, rounded to one decimal |
| DownloadScript.Decimal | download_models.py:85 | a one-decimal number is written with exactly one fraction digit and denotes the given tenths |
| DownloadScript.StatusLine | download_models.py:81-93 | every progress line is a JSON object that parses back |
| DownloadScript.Lines | download_models.py:65-94 | one line is printed per report |
| DownloadScript.FailedModels | download_models.py:112 | the failed list holds exactly the models whose recorded result failed |
| DownloadScript.Final | download_models.py:114-128 | the final line is a JSON object that parses back |
| DownloadScript.CrashLine | download_models.py:131-140 | the crash line is a JSON object that parses back |
| DownloadScript.CompletedCounts | download_models.py:62-75 | the completed count equals the number of models that finished, and never exceeds three |
| DownloadScript.PercentsReflectCompletion | download_models.py:68-75 | each model shows 100% exactly when its last report is `completed`, and 0% otherwise |
| DownloadScript.OverallNeverDecreases | download_models.py:65-85 | the overall progress printed never goes down from one line to the next |
| DownloadScript.ErrorFieldIffFailure | download_models.py:90-91 | a progress line carries `error` exactly for a failure with a non-empty message, and then carries that message |
| DownloadScript.StatusLineFields | download_models.py:81-88 | a progress line names its stage and the completed count, and has no `success` field |
| DownloadScript.FinalReportsFailures | download_models.py:112-126 | the final line's `success` is whether no model failed; a failure names the failed models in `failed_models` and in the error text; a success carries the done message |
| DownloadScript.SuccessIffNoFailure | download_models.py:112-126 | the final line reports success exactly when no download ended in error |
| DownloadClient.Begin | src/helpers/funasrManager.js:457-492 | the download answers at once exactly when the models are already there; the script is spawned exactly when they are not, Python is found and the script exists; a missing script is an error naming its path |
| DownloadClient.Settle | src/helpers/funasrManager.js:484-569 | a promise settles once: a later settlement is ignored |
| DownloadClient.MessageOr | src/helpers/funasrManager.js:525 | the success message is the script's when truthy, else the fixed one |
| DownloadClient.OnLine | src/helpers/funasrManager.js:496-538 | a blank line or one that is not JSON changes nothing; a settled promise stays settled; the error flag is never cleared |
| DownloadClient.OnValue | src/helpers/funasrManager.js:501-531 | a truthy `error` sets the flag and rejects with `String(error)`; a line with a `stage` is forwarded to a given callback; a `success` field settles by its truthiness; the callback is kept and updates are only appended |
| DownloadClient.ReadsLine | src/helpers/funasrManager.js:496-501 | a line the script writes for an object is read back as that object |
| DownloadClient.OnClose | src/helpers/funasrManager.js:545-554 | after an error the exit is ignored; otherwise exit code 0 resolves and any other code rejects with the code |
| DownloadClient.OnSpawnError | src/helpers/funasrManager.js:556-560 | a spawn error rejects with its message unless an error was already reported |
| DownloadClient.OnTimeout | src/helpers/funasrManager.js:562-568 | the 30-minute timer kills the script and rejects unless an error was already reported |
| DownloadClient.Step | src/helpers/funasrManager.js:484-569 | no event changes a settled outcome |
| DownloadClient.Run | src/helpers/funasrManager.js:484-569 | over any sequence of events the callback is kept, the error flag is never cleared and the progress updates only grow |
| DownloadClient.SettledStays | src/helpers/funasrManager.js:484-569 | once settled, no sequence of events changes the outcome |
| DownloadClient.ErrorSilencesTheRest | src/helpers/funasrManager.js:545-568 | after an error, exits, spawn errors and timers change nothing |
| DownloadClient.FailedReportRejects | download_models.py:65-93 | a model failure line from the script rejects the download with the script's message |
| DownloadClient.ProgressReportForwarded | src/helpers/funasrManager.js:509-519 | every progress line from the script reaches the callback with its stage and completed count, and settles nothing |
| DownloadClient.FinalLineSettles | download_models.py:111-128 | the script's final line resolves when no model failed and rejects naming the failed models otherwise |
| DownloadClient.SucceededValue | src/helpers/funasrManager.js:522-525 | a success line resolves with its message and marks the models downloaded |
| DownloadClient.FailedValue | src/helpers/funasrManager.js:503-506 | an error line rejects with its error |
| ModelStatus.CheckModelStatus | src/hooks/useModelStatus.js:55-147 | no API or a failed file probe gives the error stage with its message; missing models give `need_download`; an initialized server gives `ready`; an initializing one `loading`; anything else the error stage; the download fields are never touched |
| ModelStatus.DownloadStarted | src/hooks/useModelStatus.js:150-165 | a started download is downloading from progress 0 with no error and keeps readiness |
| ModelStatus.DownloadModels | src/hooks/useModelStatus.js:150-216 | the download succeeds exactly with an API and a finished download; it always ends not downloading; a failure is the error stage carrying the returned error; a success marks the models downloaded at 100 and, when the restart succeeded, loading |
| ModelStatus.OnProgress | src/hooks/useModelStatus.js:258-271 | a progress event sets the stage to downloading and the progress to the overall progress when truthy, else the progress when truthy, else 0, and nothing else |
| ModelStatus.OnInitialization | src/hooks/useModelStatus.js:273-290 | an initialization event copies the loading and ready flags, derives the stage from readiness, and keeps the old progress when the new one is falsy |
| ModelStatus.ReadyIffReadyStage | src/hooks/useModelStatus.js:68-110 | after a check that passes the file probe, the status is ready exactly when its stage is `ready` |
| ModelStatus.PollingStopsWhenReady | src/hooks/useModelStatus.js:243-255 | in the main window and outside a download, polling continues after a check exactly when the check did not reach `ready` |
| ModelStatus.FailedDownloadResumesPolling | src/hooks/useModelStatus.js:150-216 | a failed download leaves the error stage and polling running again |
| ModelStatus.DownloadThenReady | src/hooks/useModelStatus.js:55-216 | a finished download followed by a check against an initialized server is ready at 100 percent and stops polling |
| ModelStatus.ProgressKeepsFlags | src/hooks/useModelStatus.js:243-271 | progress events never start or stop the poll |
| StatusViews.LightOf | src/components/ui/status-light.jsx:8-22 | the light is yellow exactly while loading, red exactly on an error when not loading, green exactly when ready without loading or error |
| StatusViews.LightBranchesAgree | src/components/ui/status-light.jsx:8-54 | colour, animation and tooltip are always taken from the same branch |
| StatusViews.LightPriority | src/components/ui/status-light.jsx:8-22 | loading wins over an error and over readiness, an error wins over readiness, and green means ready with neither |
| StatusViews.TextStage | src/components/ui/model-status-indicator.jsx:28-45 | a status text maps back only to a known stage |
| StatusViews.StageTextRoundTrip | src/components/ui/model-status-indicator.jsx:28-45 | each of the six stages has its own text, which reads back as that stage; any other stage shows the unknown text |
| StatusViews.StageColour | src/components/ui/model-status-indicator.jsx:47-62 | the text is blue exactly for checking, downloading and loading, and gray exactly for an unknown stage |
| StatusViews.ProgressText | src/components/ui/model-status-indicator.jsx:64-73 | a percentage is shown exactly when downloading or loading with a positive value, and the download's takes precedence |
| StatusViews.DownloadPanel | src/components/ui/model-status-indicator.jsx:161-237 | the panel appears exactly at `need_download` and `downloading`; its button is disabled while a download runs; the cancel button appears exactly with a handler |
| StatusViews.MissingModelsOfferDownload | src/components/ui/model-status-indicator.jsx:85-94 | a check that finds models missing offers an enabled download button |
| StatusViews.ProgressEventShown | src/components/ui/model-status-indicator.jsx:193-215 | after a download starts, a progress event's overall percentage appears in the text and the bar |
| Json.Lookup | src/helpers/funasrManager.js:819-820 | a field reads as absent exactly when no member has the key, and otherwise as the value of the last member with that key, as `JSON.parse` keeps the last duplicate |
| Json.LastIndex | src/helpers/funasrManager.js:819-820 | the position found holds the key and no later member does; none is found exactly when the key is absent |
| Json.LookupUnique | funasr_server.py:496 | a key that occurs once reads as its only value |
| Json.LookupLast | funasr_server.py:496 | a key whose last occurrence is at a position reads as the value there |
| Json.GetString | src/helpers/funasrManager.js:819-820 | a string field is found exactly when the field exists and holds a string |
| Json.Serialize | src/helpers/funasrManager.js:815 | a written value is never empty and never starts with white space, a closing bracket or a comma, so a line it fills is never skipped as blank |
| Json.JsText | src/helpers/funasrManager.js:505 | a number with a zero fraction converts to its integer digits, negative zero as `0`; any other number shows its fraction after the point without trailing zeros |
| Json.ObjectTextTrims | src/helpers/funasrManager.js:815 | the line an object is written on survives the blank-line filter: trimmed, it is non-empty and starts with `{` |
| Json.ParseSerialize | src/helpers/funasrManager.js:819-833 | every value written by `JSON.stringify` or `json.dumps(..., ensure_ascii=False)` reads back as the same value |
| Json.ParseStringRoundTrip | funasr_server.py:499 | an escaped string literal reads back as its characters, and reading resumes right after the closing quote |
| Json.NumberRoundTrip | funasr_server.py:499 | a written number reads back as the same number, leaving what follows it |
| Json.ParseValueSerialize | funasr_server.py:496-499 | a written value followed by a delimiter reads back as the value, leaving the delimiter and what follows |
| Json.ArrRoundTrip | funasr_server.py:499 | a written array reads back element by element |
| Json.ObjRoundTrip | funasr_server.py:499 | a written object reads back member by member, keys and order included |
| Text.DropLeading | src/hooks/useTextProcessing.js:17 | what is dropped in front is all white space, and what remains is a suffix that does not start with white space |
| Text.DropTrailing | src/hooks/useTextProcessing.js:17 | what is dropped at the end is all white space, and what remains is a prefix that does not end with white space |
| Text.Trim | src/hooks/useTextProcessing.js:32 | `trim()` removes exactly the surrounding JavaScript white space and line terminators |
| Text.PyStrip | funasr_server.py:491 | `str.strip()` removes exactly the surrounding Python white space |
| Text.BlankIffAllSpace | src/hooks/useTextProcessing.js:32 | a text trims to nothing exactly when all its characters are white space |
| Text.Utf16Length | src/hooks/useTextProcessing.js:16-17 | JavaScript's `length` counts one code unit per character of the Basic Multilingual Plane and two per other character, so lies between the character count and twice it |
| Text.Utf16LengthAppend | src/hooks/useTextProcessing.js:16-17 | the code-unit length of a concatenation is the sum of the lengths |
| Text.Utf16LengthCounts | src/hooks/useTextProcessing.js:16-17 | the code-unit length equals the character count exactly when no character is outside the Basic Multilingual Plane, and twice it exactly when every one is |
| Text.IndexOf | main.js:65 | `includes`/`indexOf` finds the leftmost occurrence, and nothing exactly when there is none |
| Text.ReplaceFirst | src/hooks/useHotkey.js:99-114 | `replace` with a string pattern changes nothing without an occurrence and otherwise replaces only the leftmost one |
| Text.Split | src/helpers/environment.js:40 | `split` on one character gives at least one part, none containing the separator |
| Text.JoinSplit | src/helpers/environment.js:40 | joining the parts of a split with the separator gives back the text |
| Text.SplitJoin | src/helpers/environment.js:40 | splitting parts joined by a separator they do not contain gives back the parts |
| Text.NatToString | src/utils/process.js:38 | a number is written as a canonical decimal numeral of its value |
| Text.NumeralUnique | src/utils/process.js:38 | every canonical numeral is the text of its value |
| Text.ParseInt | src/helpers/environment.js:29-30 | `parseInt` is NaN exactly when no digit follows the white space, the sign and any hex prefix |
| Text.ParseIntOfIntToString | src/helpers/environment.js:29-30 | `parseInt` reads back every integer as written, whatever non-numeral text follows |
| Text.ToLowerAscii | src/history.jsx:89-90 | lower-casing keeps the length and maps exactly the ASCII capitals to small letters |
| Text.ToLowerIdempotent | src/history.jsx:89-90 | lower-casing twice is lower-casing once |
| HotkeyManager.Add | src/helpers/hotkeyManager.js:42 | a new key is appended to the registration order and mapped to its handler, keeping the registry's invariant |
| HotkeyManager.RegisterF2DoubleClick | src/helpers/hotkeyManager.js:21-50 | the callback is always replaced; an F2 already held answers true without touching the OS; otherwise F2 is added exactly when the OS accepts it, and the answer says so |
| HotkeyManager.Recent | src/helpers/hotkeyManager.js:60-62 | the click list keeps exactly the clicks within 500 ms of now |
| HotkeyManager.Click | src/helpers/hotkeyManager.js:55-72 | an F2 click changes only the click list and fires at most one double-click |
| HotkeyManager.DoubleClickOf | src/helpers/hotkeyManager.js:77-92 | a double-click reaches the callback, when set, with `stop` while recording and `start` otherwise, and the current state |
| HotkeyManager.RegisterHotkey | src/helpers/hotkeyManager.js:99-136 | a key already held answers true and changes nothing; a refused key answers false and changes nothing; an accepted key is appended with a debounced handler |
| HotkeyManager.Trigger | src/helpers/hotkeyManager.js:109-120 | a press runs the callback exactly when at least 200 ms passed since the key last ran (time 0 when never), and records the time only then |
| HotkeyManager.Press | src/helpers/hotkeyManager.js:34-35 | a press of an unregistered key does nothing; no press changes the registered keys or the recording flag |
| HotkeyManager.Unregister | src/helpers/hotkeyManager.js:142-152 | unregistration answers true exactly for a held key and removes only that key; otherwise nothing changes |
| HotkeyManager.Remove | src/helpers/hotkeyManager.js:145 | removing a key keeps the other keys, each once |
| HotkeyManager.UnregisterAll | src/helpers/hotkeyManager.js:157-164 | unregistering all empties the registry and the click list, and keeps the debounce times and the double-click callback |
| HotkeyManager.ClickFiresIffRecentPress | src/helpers/hotkeyManager.js:55-72 | a click fires exactly when an earlier click lies within 500 ms; firing empties the click list, and otherwise the list is this click alone |
| HotkeyManager.TwoQuickPressesFire | src/helpers/hotkeyManager.js:55-92 | two F2 presses at most 500 ms apart fire one double-click, on the second press, with the action for the current recording state |
| HotkeyManager.DebounceSpacing | src/helpers/hotkeyManager.js:109-120 | after a run, the next press runs the callback exactly when it comes at least 200 ms later |
| HotkeyManager.RegistrationOrder | src/helpers/hotkeyManager.js:169-171 | the listed keys are in registration order: a new key comes last |
| HotkeyManager.ReRegisterMovesLast | src/helpers/hotkeyManager.js:142-171 | unregistering and registering a key again moves it to the end and keeps the count |
| HotkeyManager.UnregisterUndoesRegister | src/helpers/hotkeyManager.js:99-152 | registering a new key and unregistering it restores the registry exactly |
| HotkeyManager.RecordingRoundTrip | src/helpers/hotkeyManager.js:185-194 | the recording state reads back as set, and setting it changes nothing else |
| HotkeyManager.RecentKeepsTwo | src/helpers/hotkeyManager.js:60-62 | an earlier click within the double-click window is kept beside the new one, so the list holds at least two |
| HotkeyManager.RecentOnlyNow | src/helpers/hotkeyManager.js:60-62 | when every earlier click is outside the window only the new click is kept |
| HotkeyManager.UnregisterUndoesAdd | src/helpers/hotkeyManager.js:142-152 | unregistering a key just added succeeds and gives back the manager as it was |
| IpcHotkeys.RegisterF2 | src/helpers/ipcHandlers.js:478-531 | `register-f2-hotkey` leaves the ordinary-hotkey bookkeeping alone, succeeds exactly when the sender ends up counted, and counts at most this one new sender |
| IpcHotkeys.UnregisterF2 | src/helpers/ipcHandlers.js:533-555 | `unregister-f2-hotkey` without a registry fails with its message and changes nothing; with one, it uncounts exactly this sender |
| IpcHotkeys.SenderDestroyed | src/helpers/ipcHandlers.js:430-433 | a destroyed window is removed from both sender sets and loses its clean-up listeners |
| IpcHotkeys.RegisterHotkey | src/helpers/ipcHandlers.js:397-447 | `register-hotkey` without a registry fails with its message; with one, it succeeds exactly when the sender ends up counted, and never touches the F2 bookkeeping |
| IpcHotkeys.UnregisterHotkey | src/helpers/ipcHandlers.js:449-460 | `unregister-hotkey` answers whether the key was held and removes exactly that key |
| IpcHotkeys.FindNonF2 | src/helpers/ipcHandlers.js:467 | `find(key => key !== 'F2')` finds nothing exactly when every key is F2, and otherwise the first key that is not |
| IpcHotkeys.RegisterF2Repeated | src/helpers/ipcHandlers.js:482-486 | a sender already counted gets success and nothing changes |
| IpcHotkeys.RegisterF2OnlyFirstCalls | src/helpers/ipcHandlers.js:488-511 | only the first sender reaches the registry; later senders are only counted; a refused first registration fails with its message and counts nobody |
| IpcHotkeys.UnregisterF2Cases | src/helpers/ipcHandlers.js:533-555 | an uncounted sender fails and changes nothing; a sender among several succeeds and leaves the registry alone; the last sender removes F2 and reports the registry's verdict |
| IpcHotkeys.DestroyedLastUnregisters | src/helpers/ipcHandlers.js:513-521 | the last counted sender's window closing removes F2 from the registry; any other leaves the registry alone |
| IpcHotkeys.F2OperationsKeepF2Held | src/helpers/ipcHandlers.js:478-555 | while some sender is counted, F2 stays in the registry across the three F2 operations |
| IpcHotkeys.F2RoundTrip | src/helpers/ipcHandlers.js:478-555 | one window registering F2 and unregistering it restores the registry except for the stored double-click callback |
| IpcHotkeys.FirstF2Registration | src/helpers/ipcHandlers.js:488-511 | the first accepted registration adds F2 with the click listener and counts exactly this sender |
| IpcHotkeys.LastF2Release | src/helpers/ipcHandlers.js:540-545 | the last sender's unregistration is the registry's unregistration of F2, with its verdict |
| IpcHotkeys.HotkeyDedupedPerSender | src/helpers/ipcHandlers.js:403-406 | a sender that registered a hotkey before gets success for any key and nothing changes |
| IpcHotkeys.HotkeyRecordedOnSuccess | src/helpers/ipcHandlers.js:408-440 | a new sender's answer is the registry's, which succeeds exactly for a held key or an accepted one, and the sender is counted exactly on success |
| IpcHotkeys.CurrentHotkeyIsFirstOther | src/helpers/ipcHandlers.js:462-476 | the current hotkey is the first registered key that is not F2, or the default when there is none |
| IpcHotkeys.CurrentHotkeyAfterF2 | src/helpers/ipcHandlers.js:462-476 | with F2 registered first and then one other key, that key is the current hotkey |
| AiRequests.TextOr | src/helpers/ipcHandlers.js:1105-1106 | a stored setting is used when truthy (as its `String` text), the fallback otherwise |
| AiRequests.MainPrompt | src/helpers/ipcHandlers.js:1021-1113 | the main process falls back to the optimize prompt exactly for modes outside its table (`format`, `correct`, `optimize_long`, `summarize`, `enhance`) |
| AiRequests.RendererPrompt | src/hooks/useTextProcessing.js:130-221 | the renderer falls back to the optimize prompt exactly for modes outside its own table, which has `asr_enhance` instead of `enhance` |
| AiRequests.HttpErrorText | src/helpers/ipcHandlers.js:1138-1146 | an HTTP error body that is JSON `null` makes the property read throw; a non-empty body that is not JSON is itself the message |
| AiRequests.FirstChoiceText | src/helpers/ipcHandlers.js:1157-1160 | a successful reply text is trimmed: it neither starts nor ends with white space |
| AiRequests.ProcessCatch | src/helpers/ipcHandlers.js:1179-1205 | the catch block passes a non-empty message through and reports an empty one as unknown |
| AiRequests.MainRequest | src/helpers/ipcHandlers.js:1013-1019 | a request is built exactly when a truthy API key is stored |
| AiRequests.MainReply | src/helpers/ipcHandlers.js:1138-1178 | an optimized reply comes only from an OK answer and names the request's model; a network failure goes through the catch block |
| AiRequests.ProcessTextWithAI | src/helpers/ipcHandlers.js:1010-1207 | without a key there is no request and the fixed no-key reply; with one, the reply is the server answer as read for the request's model |
| AiRequests.StatusCatch | src/helpers/ipcHandlers.js:1314-1332 | a non-empty message holding none of the six watched substrings passes the status catch block unchanged |
| AiRequests.StatusSettings | src/helpers/ipcHandlers.js:1217-1226 | a truthy test configuration supplies the key in place of the stored settings |
| AiRequests.StatusOf | src/helpers/ipcHandlers.js:1271-1313 | the test reports available only for an OK answer, naming the requested model; a network failure is thrown into the catch block |
| AiRequests.CheckAIStatus | src/helpers/ipcHandlers.js:1210-1340 | a request is sent exactly when the effective key is truthy; otherwise the fixed no-key status is the result |
| AiRequests.RendererResult | src/hooks/useTextProcessing.js:248-291 | in the renderer a network failure is a failure with the same message |
| AiRequests.CallAIAPI | src/hooks/useTextProcessing.js:104-292 | in the hook's unused `callAIAPI`, the renderer sends no request exactly when no key is stored and then fails with the no-key message; a request carries the renderer's prompt choice |
| AiRequests.NoKeyNoRequest | src/helpers/ipcHandlers.js:1013-1019 | without a key neither the main process nor the renderer sends a request, and both report the no-key message |
| AiRequests.DefaultsApply | src/helpers/ipcHandlers.js:1105-1136 | with only a key stored, the request goes to the default endpoint with the default model |
| AiRequests.PromptChoice | src/helpers/ipcHandlers.js:1021-1113 | each known mode selects its own prompt; the two tables agree except on `enhance` and `asr_enhance` |
| AiRequests.ChoiceContentTrimmed | src/helpers/ipcHandlers.js:1157-1163 | a first choice with text content yields that content trimmed, in the main process and in the renderer |
| AiRequests.EmptyChoicesMalformed | src/helpers/ipcHandlers.js:1172-1177 | an empty `choices` list is the format error in all three readers |
| AiRequests.HttpErrorMessagePasses | src/helpers/ipcHandlers.js:1138-1146 | an error body `{"error": {"message": m}}` is reported as `m` by the main process and the renderer |
| AiRequests.StatusWithoutKey | src/helpers/ipcHandlers.js:1229-1236 | a status test without a key sends nothing and reports the missing key |
| AiRequests.StatusOverridesSurvive | src/helpers/ipcHandlers.js:1283-1293 | the fixed messages for 401, 403, 429 and 500 reach the caller unchanged through the catch block, unless the body is the JSON literal `null`, whose field read throws a TypeError before the status is looked at |
| AiRequests.StatusCatchMapping | src/helpers/ipcHandlers.js:1318-1326 | a thrown message naming 401, 403 or ENOTFOUND is replaced by its fixed message, in the code's order |
| AiRequests.StatusSuccess | src/helpers/ipcHandlers.js:1303-1313 | a successful test names the model and carries the reply text |
| TextProcessing.SplitWs | src/hooks/useTextProcessing.js:18 | splitting on runs of white space always gives at least one piece |
| TextProcessing.DetermineMode | src/hooks/useTextProcessing.js:12-26 | an explicit mode is kept; `auto` becomes `optimize_long` exactly when the trimmed text is longer than 150 UTF-16 code units or has more than 30 words, and `optimize` otherwise; more than 150 characters always suffices |
| TextProcessing.SplitWsJoin | src/hooks/useTextProcessing.js:18 | words without white space joined by single spaces split back into the same words |
| TextProcessing.WordCountOfWords | src/hooks/useTextProcessing.js:17-18 | a text of n words separated by single spaces counts n words |
| TextProcessing.ManyWordsAreLong | src/hooks/useTextProcessing.js:18-22 | more than 30 words make an `auto` text long, however short the words |
| TextProcessing.WithAnswer | src/hooks/useTextProcessing.js:55-77 | the raw text is always kept; the saved text is the AI's only after a success; an error is left exactly when the AI did not succeed |
| TextProcessing.HandleTranscription | src/hooks/useTextProcessing.js:29-101 | a blank text is refused with the empty-text error and nothing is asked; otherwise the AI is asked in the `auto`-chosen mode only when enabled, the record is always saved, and the row id is returned exactly when the save succeeded |
| TextProcessing.BlankRejected | src/hooks/useTextProcessing.js:32-35 | a text of white space only asks neither the AI nor the store |
| TextProcessing.FinalTextChoice | src/hooks/useTextProcessing.js:55-61 | the AI text becomes the main text exactly when it is non-empty and differs from the raw text after trimming; the processed text is recorded exactly after a success |
| TextProcessing.AiFailureStillSaved | src/hooks/useTextProcessing.js:65-90 | a failed or throwing AI call leaves a non-empty error but the raw text is still saved and returned with its row id |
| TextProcessing.WithoutAiRawSaved | src/hooks/useTextProcessing.js:41 | without the AI the raw text is saved as the text and no error is left |
| TextProcessing.LongTextsGetLongPrompt | src/hooks/useTextProcessing.js:43-53 | a transcription whose trimmed text is longer than 150 UTF-16 code units is sent in the mode the main process answers with the long-text prompt |
| TextProcessing.AstralTextIsLong | src/hooks/useTextProcessing.js:16-17 | a text of 76 characters outside the Basic Multilingual Plane (152 code units) is long, although it has fewer than 150 characters |
| TextProcessing.BmpTextCountsCharacters | src/hooks/useTextProcessing.js:16-17 | for a text without characters outside the Basic Multilingual Plane the length test counts characters |
| Recording.U16RoundTrip | src/hooks/useRecording.js:346-347 | a 16-bit little-endian field reads back as its value modulo 2^16, and a sample in range reads back signed as itself |
| Recording.U32RoundTrip | src/hooks/useRecording.js:342 | a 32-bit little-endian field reads back as its value modulo 2^32 |
| Recording.Header | src/hooks/useRecording.js:321-353 | the header is 44 bytes |
| Recording.HeaderTags | src/hooks/useRecording.js:341-352 | the header carries `RIFF` at 0, `WAVE` at 8, `fmt ` at 12 and `data` at 36 |
| Recording.HeaderSizes | src/hooks/useRecording.js:328-353 | the RIFF size reads as 36 plus the data size, and the data size as frames times channels times 2, both modulo 2^32 |
| Recording.HeaderFormat | src/hooks/useRecording.js:345-351 | the format chunk is 16 bytes of PCM (format 1) with the channel count, the sample rate, byte rate = rate times block align, block align = channels times 2, and 16 bits per sample |
| Recording.Frame | src/hooks/useRecording.js:358-359 | a frame holds sample `i` of every channel, in channel order |
| Recording.Interleaved | src/hooks/useRecording.js:357-363 | the first `n` frames interleaved hold `n` times the channel count samples |
| Recording.EncodeSamples | src/hooks/useRecording.js:360-361 | every sample takes two bytes |
| Recording.AudioBufferToWav | src/hooks/useRecording.js:321-366 | the file is 44 bytes plus the data size, starts with the header, and sample `c` of frame `i` reads back, signed and little-endian, at offset 44 + 2(i·channels + c) |
| Recording.EncodeFrames | src/hooks/useRecording.js:356-363 | the nested loop writes the interleaved samples, frame by frame and channel by channel |
| Recording.EncodeFrame | src/hooks/useRecording.js:358-362 | the inner loop appends one frame's samples, in channel order, to what the earlier frames wrote |
| Recording.HeaderLayout | src/hooks/useRecording.js:341-353 | every header field sits at its offset: the four tags, the two sizes and the seven format fields |
| Recording.EncodedAudio | src/hooks/useRecording.js:356-363 | after any 44-byte header, each encoded sample reads back at its interleaved offset |
| Recording.StartRecording | src/hooks/useRecording.js:26-109 | recording starts exactly when the model is ready, recording is supported and the microphone is granted; it starts exactly when no error is set |
| Recording.NotReadyRefuses | src/hooks/useRecording.js:31-39 | a model that is not ready refuses the start with an error carrying the start prefix |
| Recording.AiRecord | src/hooks/useRecording.js:192-207 | the record keeps the raw text and has a processed text exactly when the AI answered with success |
| Recording.AiNotice | src/hooks/useRecording.js:233-254 | the completion is enhanced exactly when the processed text is non-empty and differs from the raw text untrimmed, and then carries the processed text, otherwise the raw text |
| Recording.ProcessAudio | src/hooks/useRecording.js:125-280 | a failed recognition notifies nothing, saves nothing and throws with the prefix; a successful one returns the raw text, first reports it unenhanced and saves a record of it; with AI off the record is the raw text alone |
| Recording.AiPassChoices | src/hooks/useRecording.js:199-254 | with AI on and successful, the saved text is the AI's exactly when it is non-empty and differs after trimming, while the notice is enhanced exactly when it is non-empty and differs untrimmed |
| Recording.AiFailureKeepsRaw | src/hooks/useRecording.js:211-254 | a failed AI pass saves and reports the raw text, unenhanced |
| Recording.StopErrorDoublesPrefix | src/hooks/useRecording.js:88-89 | every recognition failure is shown with the prefix twice |
| Recording.StopErrorAsWritten | src/hooks/useRecording.js:88-89 | the stop handler shows an error exactly when processing failed, and it is the prefix followed by the whole thrown message |
| Recording.StopErrorCorrected | src/hooks/useRecording.js:88-89 | the corrected handler shows an error exactly on failure, and a message already prefixed as it is |
| Recording.StopErrorOnce | src/hooks/useRecording.js:266-276 | the corrected handler shows the recogniser's error, or the fallback text, prefixed once |
| WindowEdge.CheckEdge | src/helpers/windowManager.js:375-399 | the ball is hidden exactly when within 20 px of some work-area edge, and the edge is the first of left, right, top, bottom that it is near |
| WindowEdge.Indicator | src/helpers/windowManager.js:467-484 | the indicator is a 20 px strip as long as the ball, flush with the hidden edge of the work area and level with the ball |
| WindowEdge.HideToEdge | src/helpers/windowManager.js:405-427 | without a live ball nothing changes; otherwise the ball is hidden where it is, and its position, the edge and the indicator are remembered |
| WindowEdge.RestoreAsWritten | src/helpers/windowManager.js:642-666 | only the hidden edge's coordinate moves, inwards, to at least 30 (left, top) or at most the work area's width or height minus 110 (right, bottom), measured from 0 rather than from the work area's origin; without an edge the position is kept |
| WindowEdge.RestoreCorrected | src/helpers/windowManager.js:642-666 | corrected half of the restore finding: only the hidden edge's coordinate moves, inwards, to at least 30 px from a left or top edge and 110 px from a right or bottom edge of the work area |
| WindowEdge.ShowFromEdge | src/helpers/windowManager.js:632-679 | only a live hidden ball is restored; it becomes visible at the restore-as-written position of its remembered position (or stays where it is without one), and the state is reset to not hidden |
| WindowEdge.GetEdgeState | src/helpers/windowManager.js:684-686 | before any state exists the ball reports not hidden at no edge |
| WindowEdge.HideThenShow | src/helpers/windowManager.js:405-679 | hiding and then showing gives back a visible ball at the restore-as-written position of where it was, reported not hidden |
| WindowEdge.HideThenShowAtOriginLeavesZone | src/helpers/windowManager.js:405-679 | with the work area at the screen origin, hiding and showing leaves the ball outside the hiding zone of its edge |
| WindowEdge.HideReports | src/helpers/windowManager.js:415-420 | after hiding, the state reports hidden at that edge |
| WindowEdge.ShowIdempotent | src/helpers/windowManager.js:634 | showing a second time changes nothing |
| WindowEdge.RestoredLeavesZone | src/helpers/windowManager.js:643 | corrected half of the restore finding: a ball restored with margins from the work area's edges is out of its edge's hiding zone, so it is not hidden again at once |
| WindowEdge.RestoreAgreesAtOrigin | src/helpers/windowManager.js:647-663 | with the work area at the screen origin the restore as written and the corrected one agree |
| WindowEdge.RestoreAsWrittenStaysNearTop | src/helpers/windowManager.js:656-657 | under a 25 px menu bar, the restore as written leaves a ball hidden at the top still inside the top hiding zone |
| WindowDrag.Step | src/hooks/useWindowDrag.js:12-43 | a press starts a fresh drag at the pointer; a move marks the drag as moved exactly when pressed and more than 5 px away along an axis; a release ends the drag but keeps `moved`; the timer clears `moved` |
| WindowDrag.Click | src/hooks/useWindowDrag.js:45-53 | a click is let through exactly when the drag has not moved |
| WindowDrag.MovedIffSomeFarMove | src/hooks/useWindowDrag.js:24-43 | over moves and releases, the drag counts as moved exactly when some move made while still pressed went more than 5 px from the press point |
| WindowDrag.DragSuppressesClick | src/hooks/useWindowDrag.js:36-53 | the click after a far drag is suppressed, and the click after the reset timer is let through |
| WindowDrag.StillPressClicks | src/hooks/useWindowDrag.js:12-53 | a press and release without moves lets the click through |
| AppUi.MicStateOf | src/App.jsx:570-576 | the microphone state is recording, processing, optimizing or hover in that priority, and each holds exactly under its flags |
| AppUi.MicButton | src/App.jsx:582-640 | the button is disabled exactly when the model is not ready or speech is being recognised or optimised; when idle it names the hot key |
| AppUi.ToggleRecording | src/App.jsx:408-439 | the toggle only warns in the four unusable stages or when the model is not ready; otherwise it starts when neither recording nor processing and stops when recording |
| AppUi.ToggleActsOnlyWhenEnabled | src/App.jsx:408-439 | a start or stop from the toggle happens only with a ready model; a stop happens only when the button is enabled |
| AppUi.SafePaste | src/App.jsx:242-257 | a paste is skipped exactly when the same text was pasted less than 1000 ms before; otherwise the text and time are remembered |
| AppUi.RepeatedPastesSpaced | src/App.jsx:242-257 | with a clock that never runs backwards, two consecutive pastes of the same text are at least 1000 ms apart |
| AppUi.NewTextPasted | src/App.jsx:246-257 | a text different from the last one is always pasted |
| AppUi.OnTranscription | src/App.jsx:281-301 | a successful non-empty transcription is shown and the processed text cleared; anything else changes nothing |
| AppUi.OnAiComplete | src/App.jsx:304-326 | an AI result that succeeded, was enhanced and is non-empty is shown and pasted; otherwise the original text, if any, is pasted and nothing is shown |
| AppUi.UnimprovedPastesTranscription | src/App.jsx:281-326 | after a transcription is shown, an AI pass that did not enhance it pastes the transcription itself |
| FloatBall.StatusOf | src/floatBall.jsx:15-31 | the ball shows recording exactly while recording, processing exactly while processing or optimizing (and not recording), and error exactly when idle with an error message |
| FloatBall.ModelErrorMessage | src/floatBall.jsx:34-39 | a model in the error stage always leaves a non-empty error message; other stages leave it as it was |
| FloatBall.Click | src/floatBall.jsx:43-59 | a click refuses with the not-ready message when the model is not ready; otherwise it stops while recording and starts exactly when nothing is in progress |
| FloatBall.F2DoubleClick | src/floatBall.jsx:103-114 | an F2 `start` starts exactly when the model is ready and nothing is in progress; a `stop` stops exactly while recording; it never shows an error |
| FloatBall.Hotkey | src/floatBall.jsx:117-125 | the custom hot key stops while recording, and otherwise starts exactly when the model is ready and nothing is in progress |
| FloatBall.HotkeyIsClickWhenReady | src/floatBall.jsx:43-125 | with a ready model the hot key does what a click does |
| FloatBall.F2AgreesWithHotkey | src/floatBall.jsx:103-125 | an F2 double-click whose action matches the recording state does what the hot key does |
| FloatBall.RefusedClickShowsError | src/floatBall.jsx:15-51 | a click refused for an unready model shows the error status when nothing else is in progress |
| HotkeyHook.LoadHotkey | src/hooks/useHotkey.js:13-38 | at start the saved hot key wins when truthy, else the main process's current one when truthy, else the key is unchanged; without the API nothing changes |
| HotkeyHook.Register | src/hooks/useHotkey.js:41-65 | a key already registered by the hook answers true without an IPC call; otherwise the IPC call is made exactly when the API is present, success records the key, and failure changes nothing |
| HotkeyHook.Unregister | src/hooks/useHotkey.js:68-81 | the key sent is the argument or else the current key; only a successful answer clears the registered flag |
| HotkeyHook.RegisterTwiceCallsOnce | src/hooks/useHotkey.js:44-55 | registering the same key twice reaches the main process once |
| HotkeyHook.UnregisterAllowsRegisterAgain | src/hooks/useHotkey.js:44-73 | after a successful unregistration, registering the same key calls the main process again |
| HotkeyHook.LoadsMainProcessHotkey | src/hooks/useHotkey.js:24-28 | with nothing saved, the hook shows the hot key the main process reports as current |
| HotkeyHook.SelfReplacementsNoop | src/hooks/useHotkey.js:103-113 | replacements of a text by itself change nothing |
| HotkeyHook.FormatHotkey | src/hooks/useHotkey.js:96-114 | the display form renames the first `CommandOrControl` (to ⌘ on macOS, Ctrl elsewhere), `Shift`, `Alt` and `Space`, then spaces the first `+`; the eleven function-key replacements change nothing |
| HotkeyHook.FormatIgnoresFunctionKeys | src/hooks/useHotkey.js:97-115 | formatting is the four modifier replacements followed by the spacing of the first `+`; the function-key replacements do nothing |
| HotkeyHook.DefaultFormatsFirstPlusOnly | src/hooks/useHotkey.js:97-115 | the default hot key is shown as `Ctrl + ⇧+空格` off macOS: only the first `+` gets spaces |
| HotkeyHook.Exposed | src/hooks/useHotkey.js:96-119 | the hook shows the raw key and the key with the first `CommandOrControl`, `Shift`, `Alt` and `Space` renamed and the first `+` spaced |
| History.Keep | src/history.jsx:88-91 | the filter keeps exactly the items whose text or processed text contains the query, ignoring ASCII case |
| History.Search | src/history.jsx:84-94 | a blank query shows every item; any other query shows exactly the matching ones |
| History.KeepAppend | src/history.jsx:88-91 | filtering keeps the items' relative order |
| History.KeepIdempotent | src/components/ui/history-modal.jsx:33-36 | filtering an already filtered list changes nothing |
| History.SearchIgnoresCase | src/components/ui/history-modal.jsx:29-39 | a query and its lower-case form show the same items |
| History.Delete | src/history.jsx:107 | deleting removes exactly the items with that id |
| History.DeleteCommutesWithSearch | src/components/ui/history-modal.jsx:29-54 | deleting while a search is shown gives the list that searching after the delete gives |
| History.CopyText | src/history.jsx:209 | the copy button copies the processed text when it is truthy, else the text |
| History.ModalCopy | src/components/ui/history-modal.jsx:63-70 | the modal copies through its `onCopy` prop when given, else through the clipboard call when the API is present, and otherwise not at all |
| History.Footer | src/components/ui/history-modal.jsx:210-214 | the footer appears exactly over a non-empty list and shows its length |
| History.WindowAiImpliesModalAi | src/history.jsx:238 | when the raw text trims to the text, the window's AI block implies the modal's |
| History.ModalAiWithoutWindowAi | src/components/ui/history-modal.jsx:195 | the modal can show an AI block that the window hides: texts differing only in trailing space |
| Database.OrElse | src/helpers/database.js:79-84 | a truthy value is kept, anything else gives the fallback |
| Database.Columns | src/helpers/database.js:77-85 | the stored columns: the given text, and each optional field or its default (null, 0, `zh-CN`) |
| Database.Bind | src/helpers/database.js:77-85 | `stmt.run` succeeds exactly when every value is a number, string or null, at most one object of named parameters is given and the values fill the seven parameters, and then binds them in order; any other outcome is one of the four binding errors, and with seven plain values only a wrong type can fail |
| Database.SlotsOf | src/helpers/database.js:77-85 | a scalar argument is one value, an object is a bag of named parameters, and an array is spread into its elements |
| Database.Spread | src/helpers/database.js:77-85 | an array argument gives one value per element, in order |
| Database.ScalarSlots | src/helpers/database.js:77-85 | arguments that are neither arrays nor objects give themselves as values, with no bag, and are all bindable exactly when each is |
| Database.SlotsReplace | src/helpers/database.js:77-85 | swapping an argument for one with the same slots leaves the bound values unchanged |
| Database.Insert | src/helpers/database.js:77-85 | the insert succeeds exactly when the six optional columns bind, then keeps the text and stores the bound values; otherwise it fails with a binding error, a type error when the columns are six plain values |
| Database.PlainColumnsInserted | src/helpers/database.js:77-85 | an entry whose optional columns are numbers, strings or null is stored unchanged |
| Database.ScalarColumnsInserted | src/helpers/database.js:77-85 | an entry with no array or object column is stored unchanged when every column binds and otherwise fails with the type error |
| Database.Normalise | src/helpers/database.js:58-85 | a non-object is invalid data; a chosen text that trims to nothing is refused; a chosen text that is not a string throws; otherwise the outcome is the binding of the trimmed text and the defaulted columns, and a success stores the trimmed text |
| Database.Save | src/helpers/database.js:58-86 | a refused or unbindable entry writes nothing; an accepted one appends exactly one row with the next id and the time, and leaves the settings alone |
| Database.SaveTrimsText | src/helpers/database.js:65-85 | an object with a non-blank `text` whose columns bind is saved with that text trimmed; one whose columns do not bind fails with a binding error |
| Database.RawTextFallback | src/helpers/database.js:65-84 | without `text`, a non-blank `raw_text` is saved trimmed as the text and kept as the raw text, with the other defaults |
| Database.RefusedSaveWritesNothing | src/helpers/database.js:60-85 | a refused entry fails with one of the three validation errors or one of the four binding errors |
| Database.BooleanColumnRefused | src/helpers/database.js:58-85 | a record such as `{text: "a", confidence: true}` passes validation but fails with the binding type error, so nothing is written |
| Database.ArrayColumnSpread | src/helpers/database.js:58-85 | a record such as `{text: "a", confidence: [5]}` is saved, the array spread into the confidence column |
| Database.SpreadSlots | src/helpers/database.js:77-85 | a one-element array of a bindable value in the confidence column is stored as that value |
| Database.TwoFieldColumns | src/helpers/database.js:65-85 | a record with a trimmed `text` and a truthy `confidence` gets that text, that confidence and the defaults for the rest |
| Database.List | src/helpers/database.js:88-95 | the listing follows an order the engine may return for `ORDER BY created_at DESC` (every row once, creation times never increasing, ties in any order), skips `offset` rows and returns at most `limit` of the rest; the defaults are 50 and 0 |
| Database.ListNewestFirst | src/helpers/database.js:90-91 | whatever order the engine picks among equal times, the listing is ordered by descending creation time |
| Database.ListCoversTable | src/helpers/database.js:88-95 | with no offset and a limit at least the table size, every row of the table is listed |
| Database.ReversedIsListingOrder | src/helpers/database.js:90-91 | for a table stored in creation order, latest insertion first is one order the engine may return |
| Database.SaveListsFirst | src/helpers/database.js:58-95 | a row saved at a time no earlier than the others is preceded in the listing only by rows of the same time, and comes first when every other row is strictly older |
| Database.SetSetting | src/helpers/database.js:141-147 | storing a setting adds its key, replaces its value, and leaves the other settings and the rows alone |
| Database.Decode | src/helpers/database.js:153-158 | a stored text is read as JSON when it parses, and as the text itself otherwise |
| Database.GetSetting | src/helpers/database.js:149-162 | an absent key gives the default (null when none is given); a present key gives its decoded value |
| Database.AllSettings | src/helpers/database.js:164-178 | every stored key appears, and only those |
| Database.ResetSettings | src/helpers/database.js:180-183 | resetting empties the settings and keeps the rows |
| Database.SettingRoundTrip | src/helpers/database.js:141-162 | a value stored and read back is the same value; other keys read as before |
| Database.AllSettingsAgree | src/helpers/database.js:149-178 | reading all settings and reading one key agree |
| Database.ResetGivesDefaults | src/helpers/database.js:149-183 | after a reset every key reads as its default |
| Environment.IntOr | src/helpers/environment.js:29-30 | an unset variable, one that does not parse, and one that parses to 0 all give the default; any other parsed value is used |
| Environment.StrOr | src/helpers/environment.js:31 | a set non-empty variable is used as is, anything else gives the default |
| Environment.Audio | src/helpers/environment.js:27-33 | the audio settings read their variables with defaults 16000, 1 and `wav` |
| Environment.Hotwords | src/helpers/environment.js:40 | a set hot-word variable splits on commas into parts that join back to it; unset or empty gives no hot words |
| Environment.FunAsr | src/helpers/environment.js:35-42 | the recogniser settings read their variables with defaults `./models`, `./cache` and 300 |
| Environment.App | src/helpers/environment.js:44-54 | the three flags are on exactly when their variable is `"true"`; the texts default to `info`, `zh-CN`, `auto` and the default hot key |
| Environment.Database | src/helpers/environment.js:56-62 | backups are on unless the variable is exactly `"false"`; the path and interval default to the data file and 24 |
| Environment.Proxy | src/helpers/environment.js:64-69 | the proxies default to empty |
| Environment.Performance | src/helpers/environment.js:71-76 | the limits default to 300 and 10000 |
| Environment.IntSettingRoundTrip | src/helpers/environment.js:29-74 | a number written into a variable reads back as itself, except 0, which reads as the default; an unset variable reads as the default |
| Environment.HotwordsRoundTrip | src/helpers/environment.js:40 | hot words without commas, joined into the variable, read back as the same list |
| Environment.NumbersNeverZero | src/helpers/environment.js:27-76 | no numeric setting can come out as 0, whatever the environment holds |
| Environment.DataDirectoryPaths | src/helpers/environment.js:103-116 | the data directory is under AppData\Roaming on Windows, Library/Application Support on macOS, .config on Linux, and a dot directory elsewhere |
| Environment.DataDirectoriesDiffer | src/helpers/environment.js:103-116 | two platforms never share a data directory for the same home |
| Environment.Validate | src/helpers/environment.js:153-175 | the environment is valid exactly when there are no issues, that is, when the data directory can be made and Node is at least 18; the directory issue comes first |
| Environment.NodeMajorDecides | src/helpers/environment.js:165-166 | for a version `v<major>…`, Node is too old exactly when the major number is below 18 |
| MainPath.ToAdd | main.js:64-65 | the entries to add are exactly the candidates the current PATH does not mention as a substring |
| MainPath.SetupPath | main.js:42-104 | PATH is left alone in development, on other platforms and when nothing is missing; otherwise the old PATH is followed by the platform's separator and the missing entries joined by it |
| MainPath.ToAddAppend | main.js:65 | filtering keeps the candidates' order: it distributes over concatenation |
| MainPath.JoinContains | main.js:68 | every joined entry occurs in the joined text |
| MainPath.SetupIdempotent | main.js:42-104 | running the set-up again on the PATH it produced changes nothing |
| MainPath.SetupAppends | main.js:68-69 | the set-up only appends: the old PATH is a prefix of the new one |
| MainPath.SubstringCountsAsPresent | main.js:65 | a candidate counts as present when it is a substring of another entry: `/bin` inside `/usr/local/bin` |
| Settings.Fallback | src/settings.jsx:51-57 | a loaded field is the stored value when it is truthy and the default otherwise |
| Settings.Load | src/settings.jsx:46-70 | without the API the page is unchanged; otherwise the loaded form is normal, each truthy stored field is kept, the toggle is off exactly when stored as exactly `false`, and the custom-model flag says whether the model is outside the six predefined names |
| Settings.LoadNothingGivesDefaults | src/settings.jsx:51-62 | loading an empty store gives the initial page: the defaults, with the toggle on and a predefined model |
| Settings.Set | src/settings.jsx:106-111 | an edit sets its field and leaves every other field alone |
| Settings.FieldsDetermineForm | src/settings.jsx:106-111 | two forms that agree on every field are equal |
| Settings.EditsCommute | src/settings.jsx:106-111 | edits of different fields commute, and a second edit of the same field overrides the first |
| Settings.EditSameValue | src/settings.jsx:106-111 | writing a field's own value back changes nothing |
| Settings.Toggle | src/settings.jsx:284 | the switch sets the flag to the negation of its truthiness and changes nothing else |
| Settings.ToggleTwice | src/settings.jsx:284 | toggling a boolean flag twice restores the form |
| Settings.ApplyRecommended | src/settings.jsx:114-122 | the recommended preset sets only the base URL and model, to the recommended pair, and marks the model custom |
| Settings.ResetToOpenAi | src/settings.jsx:125-133 | the OpenAI preset sets only the base URL and model, to the defaults, and marks the model predefined |
| Settings.PresetsAndLoadedFlag | src/settings.jsx:61-62 | after the OpenAI preset the custom flag agrees with what loading would compute; after the recommended preset it does not, since that model is predefined |
| Settings.LastPresetWins | src/settings.jsx:114-133 | applying one preset after the other gives the same page as the last preset alone |
| Settings.TrimOr | src/settings.jsx:157-159 | the sent value is the default or a strip of the typed text, never empty when the default is not, and the trimmed text whenever the typed text is not blank |
| Settings.Test | src/settings.jsx:136-187 | the test stops with the fixed missing-key message exactly for a blank key; without the API it stops exactly for a non-blank key; it calls exactly with a non-blank key and the API, sending the trimmed key and the trimmed URL and model or their defaults |
| Settings.TrimIdempotent | src/settings.jsx:143 | trimming twice is trimming once |
| Settings.SentConfigClean | src/settings.jsx:156-160 | every configuration sent is already trimmed and non-empty |
| Settings.CleanConfigSent | src/settings.jsx:156-160 | typing a clean configuration into the form sends exactly that configuration |
| Settings.TestConfigStable | src/settings.jsx:136-187 | typing the sent configuration back into the form sends the same configuration again |
| Settings.TrimOrStable | src/settings.jsx:157-159 | with a trimmed default, substituting twice is substituting once |
| Settings.TestGuardStricterThanSave | src/settings.jsx:142-152 | a key that is not blank can be saved; a key of one space can be saved although the test refuses it |
| Settings.Save | src/settings.jsx:73-103 | saving writes exactly the five settings and no transcription, and hands the hotkey on for registration |
| Settings.SavedFieldReadsBack | src/settings.jsx:78-82 | each saved field reads back from the store as the form held it |
| Settings.KeySaved | src/settings.jsx:78-82 | every field's key is in the store after saving |
| Settings.SaveThenLoad | src/settings.jsx:46-103 | saving a normal form and loading the settings back gives the same form |
| Settings.SaveHotkey | src/settings.jsx:565-589 | the hot key button writes only the `hotkey` setting; the key is handed on exactly when the write resolved and `registerHotkey` exists; without the API nothing is shown; the error toast appears exactly when the write failed; "applied" is shown exactly when registration did not throw |
| Settings.SaveHotkeyAgreesWithSave | src/settings.jsx:78-82 | the hot key button stores the hot key as the full save does, and every other setting reads back unchanged |

## Notes on behaviour as written

The model follows the code where the code and its design notes disagree:

- `restartServer` answers success even when the new worker's handshake failed or timed
  out (src/helpers/funasrManager.js:603-607); `Supervisor.Restart` does the same.
- The recommended settings preset sets `customModel` to true although its model is one
  of the predefined names (src/settings.jsx:114-122); see `Settings.PresetsAndLoadedFlag`.
- `formatHotkey` spaces only the first `+` (src/hooks/useHotkey.js:97-115), so the
  default hot key shows as `Ctrl + ⇧+空格`.
- The PATH set-up checks for a substring, not a PATH entry, so `/bin` counts as present
  in a PATH holding `/usr/local/bin`; an unset PATH gets a leading separator.
- The history modal compares the AI text with the text untrimmed, while the history
  window compares trimmed texts.
- The worker's default model root prefers hub/models/damo, while the main process tries
  damo, hub/damo, hub/models/damo, models/damo; the main process always passes
  `--damo-root`, so the worker uses the main process's root.
- `callAIAPI` in the text-processing hook (src/hooks/useTextProcessing.js:104) is never
  called, and the hook returns only `handleTranscription`, `isProcessing` and `error`
  (lines 288-292); `AiRequests.CallAIAPI` and the members about the renderer's requests
  describe that unreachable code.
- An F2 `start` in the float ball does not check whether a recording is already running
  (src/floatBall.jsx:105-108); `FloatBall.F2DoubleClick` keeps that.

## Left out

- Real effects: process spawning, pipes, signals, Electron windows, trays, global
  shortcuts, the clipboard, IPC, React rendering, `fetch`, SQL and the file system.
  Each is an input (stdout lines, exit codes, a directory tree with sizes, HTTP answers,
  a row list, timestamps) or an event in a trace.
- better-sqlite3 itself is not part of this model. Its binding of `stmt.run` arguments
  is modelled as the library documents it: arrays are spread, a plain object is a bag of
  named parameters (the insert names none), and only numbers, strings and null bind.
  Booleans throw. BigInt and Buffer values cannot come out of JSON data, so they are
  not modelled.
- Stdout chunking: each chunk is split on newlines by itself, so a line split across
  chunks is not reassembled; stdout is modelled as a sequence of complete lines.
- Floating point: download percentages are integer tenths, WAV samples are already
  quantised 16-bit values (the `sample * 0x7FFF` scaling is not modelled), and the
  worker's timing and performance averages are not modelled.
- Concurrency and timers: Python threads in `initialize` and the download script,
  promise interleavings, and the 60 s, 120 s and 30 min timers, which are events.
- React stale closures and state batching: each hook call sees the state it is given.
- ProcessRunner.Start: states the intended start. As written (src/utils/process.js:22),
  `env || process.env` reads the local `process` inside its own initialiser, so every
  call without `env` (all of the program's calls pass only a timeout) is rejected with a
  ReferenceError before anything is spawned or timed; `ProcessRunner.StartAsWritten`
  models that (see Findings). What the child does with its environment is not modelled.
- The other operations of src/helpers/funasrManager.js (`installPython`,
  `checkFunASRInstallation`, `installFunASR`, `upgradePip`, `transcribeAudio`,
  `createTempAudioFile`, `cleanupTempFile`, `checkStatus`, `initializeAtStartup`) are
  outside this model: they wrap installers, temporary files and the command channel.
- The worker's `status`, `stats` and `cleanup` replies are modelled by their fields; the
  memory clean-up every ten transcriptions and `_get_audio_duration` are not (the
  duration is an input).
- database.js: search, statistics, get-by-id, delete, clear, backup and close are not
  modelled; only saving, listing and the settings are.
- environment.js: `getSystemInfo`, `exportConfig`, `getAIConfig` and the
  `ensure*Directory` helpers are not modelled.
- useHotkey.js: `syncRecordingState` (src/hooks/useHotkey.js:84-94) is not modelled.
- settings.jsx: a failure part way through the full save, its toasts, the test-result
  display and closing the window are not modelled; the hot key button's toasts are.
- `formatDate`, the confidence badge and the prompt text bodies are not modelled; only
  which prompt is chosen is.
- ipcHandlers.js: the `catch` branches of `processTextWithAI` that cannot be reached
  with the modelled answers, the localStorage fallback of `callAIAPI`, and success
  bodies that are not JSON are not modelled.
- IpcHotkeys: an F2 registration refused by the debounce stays refused, and
  `unregister-hotkey` with `F2` is treated like any other key.
- useRecording.js: `convertToWav` failures and the branch without the Electron API
  (src/hooks/useRecording.js:269-274) are not modelled.
- Unknown edge strings in windowManager.js, the tooltips of the model-status icon, and
  the outer `catch` of `checkModelStatus` are not modelled.
- The progress text treats only JSON numbers as positive; a numeric string that
  JavaScript's `>` would coerce is not modelled.
- The wording of JavaScript's `TypeError` for a malformed chat-completion body is an
  input of `AiRequests`, not derived.
- Json.Serialize: numbers are written with their fraction digits as parsed, trailing
  zeros included, where `JSON.stringify` and `json.dumps` write the shortest form
  (`1.50` as `1.5`); exponent notation is not modelled.
- Worker.PyStr: Python's `repr` escapes non-printable characters beyond the ASCII
  control characters (`\x80`, `\u2028`, …) and writes floats of 1e16 and above, below
  1e-4, or with more than 17 significant digits in exponent or rounded form; those
  escapes and forms are not modelled.
- JSON: exponents, `NaN` and `Infinity`, `\u` escapes of surrogate halves, and property
  names inherited from `Object.prototype` are not modelled.
- Only ASCII letters are case-folded in the history search.
- Python threading, and the installer, logging, tray, preload, permission and splash
  files, are not part of this model.

## Findings

| source | as written | input that shows it | evidently intended | confidence | as-written member | corrected member |
|---|---|---|---|---|---|---|
| src/helpers/funasrManager.js:767-786 | the close and error handlers of any worker null the current handle and clear the readiness flag | restart while ready: the old worker's close (or a late error) arrives after the new worker reported ready, leaving no handle while the server counts as ready, so every command is refused | only the current worker's close or error clears the handle | medium for close, low for error; not executed | Supervisor.StaleCloseAsWritten, Supervisor.StaleErrorAsWritten | Supervisor.StaleCloseCorrected, Supervisor.StaleEventsHarmless |
| src/helpers/funasrManager.js:788-797 | the 120 s start timer kills whatever worker is current when it fires | restart within 120 s of a start that never reported: the old timer kills the new worker | a timer acts only on the worker whose start it guards | medium; not executed | Supervisor.StaleTimeoutAsWritten | Supervisor.StaleTimeoutCorrected |
| src/hooks/useRecording.js:88-89 | the stop handler prefixes '音频处理失败: ' to a message that processAudio already prefixed at line 276 | any recognition failure, e.g. an error text 'x', shows '音频处理失败: 音频处理失败: x' | the prefix appears once | high; not executed | Recording.StopErrorDoublesPrefix | Recording.StopErrorOnce |
| src/helpers/windowManager.js:642-666 | the restore margins are measured from 0 and from the work area's size, ignoring its origin | work area at y = 25 (a menu bar), ball hidden at the top from y = 35: it comes back at y = 35, still inside the top hiding zone | margins measured from the work area's edges | low to medium; not executed | WindowEdge.RestoreAsWrittenStaysNearTop | WindowEdge.RestoredLeavesZone |
| src/utils/process.js:22 | the fallback to `process.env` for a missing `env` reads the local `const process` inside its own initialiser | `runCommand("brew", ["--version"], { timeout: 5000 })` (src/helpers/pythonInstaller.js:65): the executor throws `Cannot access 'process' before initialization`, the promise rejects and nothing is spawned | the child inherits the parent's `process.env` | high; not executed | ProcessRunner.DefaultEnvRejects | ProcessRunner.DefaultEnvInherits |
