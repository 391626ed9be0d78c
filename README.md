# KASBEX command ingestion and scan supervision, in Dafny

This project models the two scripts that drive the KASBEX Kepler radar's
scanning from command files:

- `kasbex_kepler_command.py` is the **writer**. It checks `key:value` argument
  tokens: a `command` of `scan`, `rhi` or `ppi`, every required numeric
  argument, and no other key. It then writes the tokens, joined by single
  spaces, to a file named `kepler-YYYYMMDD-HHMMSS.log`.
- `kasbex_iop_signal.py` is the **supervisor**. Every cycle it polls the
  command directory for a new, fresh `kepler*.log` file and parses its first
  line into a dictionary. It then does one of three things:
  - it preempts the background "FIX" dwell scan (the *filler*) and runs the
    requested RHI/PPI scans, or the multi-leg storm plan for a `scan`;
  - it restarts the filler;
  - it does nothing.

  A thread and a set of global flags (`running_default_process`,
  `running_fix`, `running_rhi`, `running_ppi`) coordinate the filler with the
  main loop.

The modules follow the scripts' structure:

| module | file | models |
|---|---|---|
| `Wrappers` | `wrappers.dfy` | `Option` and `Result` |
| `PyText` | `pytext.dfy` | the Python string operations both scripts use: `strip`, `rstrip`, `readline`, `replace(': ', ':')`, `split()`, `split(':')`, `' '.join` |
| `CommandLine` | `command_line.dfy` | the `key:value` dictionary comprehension shared by both scripts, and `read_cmd_file` |
| `CommandFiles` | `command_files.dfy` | `latest_cmd_file` and `is_file_recent` over an abstract directory listing |
| `StormPlan` | `storm_plan.dfy` | `run_storm_rhis`: the bracket table and the ordered RHI requests it issues |
| `Supervisor` | `supervisor.dfy` | the decisions of `signal_handler`, `default_process`, `run_scan_rhi`/`run_scan_ppi` and `main`'s dispatch, as functions of the flags |
| `IopSignal` | `iop_signal.dfy` | the supervisor as a class whose fields are the script's globals; each method performs one step in the script's order and is proved against the matching `Supervisor` function |
| `KeplerCommand` | `kepler_command.dfy` | the writer: file name, parsing, the popping validation loop, content; also a corrected writer |
| `WriterReader` | `round_trip.dfy` | what the supervisor reads back from what the writer wrote |

Environmental inputs are parameters:

- the directory listing, as a map from name to modification time and text;
- the clock `now`;
- Python's `float()`, `int()` and `np.rad2deg`, as the given functions of a `Lib` value;
- how the FIX subprocess reacts to being terminated (`TerminateOutcome`);
- whether a preempted filler thread has ended before `main` tests `is_alive()`;
- which scan's `subprocess.run` raises, if any.

Requests to the outside world are appended to a log of `Action`s: the
`kill_datasaving` call, `terminate`/`kill`, spawning the FIX scan, starting
the filler thread, the command's delay, and each scan request.

Where the code behaves in ways its names and comments do not suggest, the
model follows the code:

- An unknown command name is a no-op for that cycle, not a `stop`.
- A line that does not parse aborts the cycle, and so does a `float()` or
  `int()` that raises. Such a cycle is not treated as `stop`, and the file
  is never retried, because it is already in the seen set.
- A storm range below 10, or of 40 and above, runs no scan at all. The dwell
  bracket launches nothing.
- A range of exactly 40 is not demoted to `stop`, because the test is `>`.
  A range of 0 makes `0.5/storm_range` raise (`RunStormRhis` returns `None`).
- An exception in `subprocess.run` skips the remaining legs and leaves
  `running_rhi` or `running_ppi` set. An exception in the filler after
  `Popen` leaves `running_fix` set.
- `delay` is converted for every command, including `stop`, so a
  non-numeric delay aborts even a `stop` cycle.

## Model

| member | source | states |
|---|---|---|
| `PyText.RStrip` | kasbex_iop_signal.py:98 | the result is a prefix of the input that ends in a non-whitespace character; exactly the trailing run of whitespace is dropped, over Python's whitespace set (`str.isspace`: ASCII 9-13 and 28-31, space, U+0085, U+00A0, U+1680, U+2000-U+200A, U+2028, U+2029, U+202F, U+205F, U+3000) |
| `PyText.LStrip` | kasbex_iop_signal.py:100 | the result is a suffix of the input that starts with a non-whitespace character; exactly the leading run of whitespace is dropped, over the same set |
| `PyText.Strip` | kasbex_iop_signal.py:100 | the result neither starts nor ends with whitespace, and a whitespace-free string is unchanged |
| `PyText.StripOfLStrip` | kasbex_iop_signal.py:100 | `strip()` keeps `lstrip()`'s result up to its trailing run of whitespace; with `LStrip`'s contract, it is the slice of the input between its leading and its trailing whitespace |
| `PyText.ReadLine` | kasbex_iop_signal.py:96-97 | text-mode `readline()` with universal newlines: the text before the first `\n`, `\r` or `\r\n`, followed by one `\n`; the whole text when there is no line boundary |
| `PyText.ReplaceColonSpace` | kasbex_iop_signal.py:98 | never lengthens; unchanged when there is no `": "`, and shorter only when there is one |
| `PyText.SplitWs` | kasbex_iop_signal.py:99 | every field of `split()` is non-empty and holds no character of the whitespace set |
| `PyText.SplitOn` | kasbex_iop_signal.py:100 | `split(c)` yields at least one part, and no part holds `c` |
| `PyText.SplitOnCount` | kasbex_iop_signal.py:100 | `split(c)` yields one more part than there are occurrences of `c` |
| `PyText.JoinSplitOn` | kasbex_iop_signal.py:100 | joining the parts of `split(c)` with `c` restores the string |
| `PyText.SplitWsJoin` | kasbex_kepler_command.py:44 | `split()` of the space-joined non-empty, whitespace-free tokens gives back those tokens |
| `PyText.JoinHasNoColonSpace` | kasbex_kepler_command.py:44 | joining whitespace-free tokens none of which ends in `:` creates no `": "` |
| `PyText.JoinEndsWithWord` | kasbex_kepler_command.py:44 | the joined content is one line and does not end in whitespace |
| `PyText.ReplaceColonSpacePrefix` | kasbex_iop_signal.py:98 | a whitespace-free prefix not ending in `:` passes through the rewrite untouched |
| `PyText.ReplaceColonSpaceColon` | kasbex_iop_signal.py:98 | a leading `": "` becomes `":"` and the rest is rewritten on its own |
| `CommandLine.Tokens` | kasbex_iop_signal.py:96-99 | every token the reader splits out of the first line is non-empty and whitespace-free |
| `CommandLine.SplitPair` | kasbex_iop_signal.py:100 | an unpacked key and value hold no colon and neither starts nor ends with whitespace |
| `CommandLine.BuildDict` | kasbex_iop_signal.py:100 | the dictionary has at most as many entries as there are tokens |
| `CommandLine.ParsePairs` | kasbex_iop_signal.py:100 | the comprehension succeeds exactly when every token unpacks, and then every entry is the unpacked pair of some token |
| `CommandLine.ReadCmdFile` | kasbex_iop_signal.py:95-101 | `read_cmd_file` raises exactly when a token of the first line does not hold exactly one colon; every key and value it returns is free of colons and whitespace |
| `CommandLine.SplitPairIffOneColon` | kasbex_iop_signal.py:100 | unpacking a token succeeds exactly when it holds one colon, and then the token is key, colon, value |
| `CommandLine.BuildDictFails` | kasbex_iop_signal.py:100 | building the dictionary raises exactly when some token failed to unpack |
| `CommandLine.BuildDictKeys` | kasbex_iop_signal.py:100 | on success the keys are exactly the pairs' keys |
| `CommandLine.BuildDictEntries` | kasbex_iop_signal.py:100 | on success every entry of the dictionary is one of the pairs |
| `CommandLine.BuildDictLastWins` | kasbex_iop_signal.py:100 | on success each key maps to the value of its last occurrence |
| `CommandLine.ParsePairsFails` | kasbex_iop_signal.py:98-100 | parsing raises exactly when some token does not hold exactly one colon; repeated keys never raise |
| `CommandLine.ParsePairsContents` | kasbex_iop_signal.py:98-100 | on success the keys are exactly the token keys, and each maps to the value of its last occurrence |
| `CommandLine.SplitPairOfParts` | kasbex_iop_signal.py:100 | a whitespace-free, colon-free key and value joined by one colon unpack back to that key and value |
| `CommandLine.SplitOnOneColon` | kasbex_iop_signal.py:100 | `split(':')` of a string with one colon gives the two sides |
| `CommandLine.SplitPairEmptyValue` | kasbex_kepler_command.py:26 | a key followed by a bare colon unpacks to that key and an empty value |
| `CommandLine.BuildDictPrepend` | kasbex_kepler_command.py:26 | a pair in front is overridden by every later pair with the same key |
| `CommandLine.ParsePairsShadowed` | kasbex_kepler_command.py:26 | a token in front whose key a later token repeats does not change the parsed dictionary |
| `CommandLine.TokenPartsUnstripped` | kasbex_iop_signal.py:100 | for a whitespace-free token the `strip()` calls change nothing: the token is key, colon, value, and neither part holds a colon |
| `CommandFiles.SelectNewest` | kasbex_iop_signal.py:87 | the returned file is one of the given files, and no file has a later modification time |
| `CommandFiles.SelectCmdFile` | kasbex_iop_signal.py:83-90 | the result is `""` exactly when no unseen file is fresh; otherwise it is an unseen, matching file of maximal modification time among the unseen files, at most 900 s old |
| `CommandFiles.SelectionUpToTies` | kasbex_iop_signal.py:87 | two admissible selections differ only by a tie in modification time |
| `StormPlan.RunStormRhis` | kasbex_iop_signal.py:104-137 | raises on range 0; otherwise the requests issued are exactly the plan of the range's bracket |
| `StormPlan.BracketOf` | kasbex_iop_signal.py:106-125 | the dwell bracket is exactly the ranges outside [10, 40) and has no legs; every other bracket has an even number of legs, and only [30, 40) sweeps twice |
| `StormPlan.Plan` | kasbex_iop_signal.py:127-137 | the plan has one request per leg, twice over when the bracket sweeps twice, and none for the dwell bracket |
| `StormPlan.SweepLegs` | kasbex_iop_signal.py:131-133 | one loop appends an up and a down sweep per pair of legs, which is one pass |
| `StormPlan.PlanLength` | kasbex_iop_signal.py:106-137 | 8 requests for [30,40), 6 for [20,30), 4 for [10,20), none otherwise |
| `StormPlan.PlanRequest` | kasbex_iop_signal.py:127-137 | request j is an RHI at the azimuth of leg j mod nscan, at the scan speed with nave 2; it sweeps up from 0 to elmax for an even leg and down from elmax by -elmax for an odd one |
| `StormPlan.OffsetsAntisymmetric` | kasbex_iop_signal.py:127 | the leg offsets are symmetric about the storm azimuth: offset i is minus offset nscan-1-i |
| `StormPlan.DoublePass` | kasbex_iop_signal.py:134-137 | in the [30,40) bracket the second pass repeats the first |
| `Supervisor.HandleSignal` | kasbex_iop_signal.py:41-70 | with no default process it changes nothing; otherwise it clears `running_default_process` and, when the FIX subprocess exists, `running_fix`. It sends `terminate` exactly when the default process, `running_fix` and the subprocess are all there, then `kill` exactly when the 5 s wait times out; it raises exactly when the subprocess is unbound or the kill fails; it changes no other flag and keeps the flag invariant |
| `Supervisor.Restart` | kasbex_iop_signal.py:281-288 | a new thread is started and only the thread phase changes; from no thread, the flag invariant is kept |
| `Supervisor.BeginDefault` | kasbex_iop_signal.py:180-199 | the filler sets `running_fix`; on a successful `Popen` it is running and spawns the FIX scan, and on a failed one the `finally` runs at once and leaves `running_fix` set |
| `Supervisor.CompleteDefault` | kasbex_iop_signal.py:200-211 | the `finally` always clears `running_default_process` and the pid; `running_fix` is cleared only on normal completion |
| `Supervisor.ThreadExit` | kasbex_iop_signal.py:208-211 | the thread is gone and nothing else changes; after the `finally` the flag invariant is kept |
| `Supervisor.RunPlan` | kasbex_iop_signal.py:130-170 | the requests run in order up to and including the one that raises, and it raises exactly when that request is in the plan; the failing request's kind keeps its flag set; otherwise a kind's flag survives only if no request of that kind ran; no other flag changes |
| `Supervisor.RequestsOfRuns` | kasbex_iop_signal.py:130-137 | the scans the first n `Run` actions issue are the plan's first n requests, in order |
| `Supervisor.Decode` | kasbex_iop_signal.py:227-243 | it raises exactly when the delay, a `scan`'s azimuth or range, or one of an `rhi`/`ppi`'s five parameters fails to convert. It is `stop` exactly for the `stop` name, a missing command, or a `scan` beyond 40, and ignored exactly for any other unknown name. A storm carries the converted azimuth and range, and a single request has the command's kind and the converted parameters; a foreground command carries the converted delay |
| `Supervisor.PlanOf` | kasbex_iop_signal.py:258-263 | an `rhi`/`ppi` runs its one request; a `scan` raises exactly at range 0, and otherwise runs only RHI sweeps with `nave` 2 at the scan rate, none outside [10, 40) |
| `Supervisor.Preempt` | kasbex_iop_signal.py:247-251 | `kill_datasaving` comes first, then the handler; the lock is removed exactly when the handler did not raise |
| `Supervisor.RunForeground` | kasbex_iop_signal.py:253-264 | the run keeps the lock file and never kills the data saving. It sleeps first exactly when there is a delay, and runs the plan's requests in order up to the one that raises. It raises exactly when the plan raises, and restarts the filler, last, exactly when nothing raised; from an idle filler, the flag invariant is kept |
| `Supervisor.Dispatch` | kasbex_iop_signal.py:246-270 | the flag invariant is kept, and an ignored command does nothing. `stop` restarts the filler exactly when it is idle. A foreground command preempts only while both the default process and FIX run. The scans it issues are exactly the plan's requests in order, up to the one that raises, when the foreground branch is entered, and none otherwise. It raises exactly when the handler or the plan raises. After an entered branch that did not raise (an empty plan included) the filler is restarted last; when the branch is not entered no thread is started |
| `IopSignal.Controller.constructor` | kasbex_iop_signal.py:19-29 | the globals start cleared, with no thread, no pid and nothing seen |
| `IopSignal.Controller.SignalHandler` | kasbex_iop_signal.py:41-70 | the fields and the action log change as `HandleSignal` says |
| `IopSignal.Controller.RemoveLockFile` | kasbex_iop_signal.py:290-297 | the lock file is absent afterwards and nothing else changes |
| `IopSignal.Controller.RestartDefaultProcess` | kasbex_iop_signal.py:281-288 | a new filler thread is started |
| `IopSignal.Controller.DefaultProcessBegin` | kasbex_iop_signal.py:180-199 | the fields change as `BeginDefault` says |
| `IopSignal.Controller.DefaultProcessEnd` | kasbex_iop_signal.py:200-211 | the fields change as `CompleteDefault` says |
| `IopSignal.Controller.DefaultThreadExit` | kasbex_iop_signal.py:208-211 | the filler thread is gone and nothing else changes |
| `IopSignal.Controller.RunScan` | kasbex_iop_signal.py:140-154 | the request is issued; the kind's flag is set, and cleared again unless the run raises |
| `IopSignal.Controller.ExecutePlan` | kasbex_iop_signal.py:130-137 | the blocking scans of a plan run one after another, with the flags and actions `RunPlan` gives |
| `IopSignal.Controller.LatestCmdFile` | kasbex_iop_signal.py:79-92 | the result is an admissible selection, and the seen set becomes the current listing whatever the outcome |
| `IopSignal.Controller.PreemptDefault` | kasbex_iop_signal.py:247-251 | the fields follow `Preempt`, then the preempted filler finishing when it does so |
| `IopSignal.Controller.PlanFor` | kasbex_iop_signal.py:258-263 | the storm plan for `scan`, the single request for `rhi`/`ppi` |
| `IopSignal.Controller.ForegroundScans` | kasbex_iop_signal.py:255-264 | the delay, the scans, then the filler's restart, as `RunForeground` says |
| `IopSignal.Controller.DispatchCommand` | kasbex_iop_signal.py:246-270 | the fields and the log change as `Dispatch` says |
| `IopSignal.Controller.Cycle` | kasbex_iop_signal.py:222-279 | one loop pass: an admissible file is taken, the seen set is replaced, and the decoded command is dispatched; a read or decode that raises abandons the rest of the pass |
| `IopSignal.Mtimes` | kasbex_iop_signal.py:87-88 | the modification times of exactly the listing's files |
| `IopSignal.CommandOf` | kasbex_iop_signal.py:226-243 | without a new file the command is `stop`; a command other than `stop` comes only from a file that parsed; a file that does not parse abandons the cycle |
| `IopSignal.CycleEffect` | kasbex_iop_signal.py:222-279 | a cycle keeps the flag invariant, and an abandoned cycle changes no flag and issues nothing |
| `KeplerCommand.FileName` | kasbex_kepler_command.py:22 | the name has 26 characters and matches the supervisor's `kepler*.log` glob |
| `KeplerCommand.FileNameRoundTrip` | kasbex_kepler_command.py:22 | the zero-padded name reads back as the stamp it was made from |
| `KeplerCommand.ParseFileNameInverse` | kasbex_kepler_command.py:22 | every name that reads as a valid stamp is the name of that stamp |
| `KeplerCommand.Pad4RoundTrip` | kasbex_kepler_command.py:22 | a four-digit `%Y` field reads back as the year |
| `KeplerCommand.RequiredArgs` | kasbex_kepler_command.py:30-35 | the required arguments never include `command` and hold no repeats |
| `KeplerCommand.PopArgs` | kasbex_kepler_command.py:37-41 | the loop reports the first required argument that is missing or not numeric; otherwise every argument is numeric and exactly those keys are popped |
| `KeplerCommand.NoneLeftOver` | kasbex_kepler_command.py:42 | the assertion holds exactly when the keys are `command` and the required arguments |
| `KeplerCommand.CheckDict` | kasbex_kepler_command.py:24-42 | each of the writer's errors is raised exactly in its case, with the offending command, argument or left-over keys |
| `KeplerCommand.WriteCommand` | kasbex_kepler_command.py:18-46 | a file is written exactly when the tokens are accepted, with the stamped name and the space-joined tokens. Each error (invalid args, invalid command, first bad argument, left-over keys) arises exactly in its case |
| `KeplerCommand.ReadableMeans` | kasbex_kepler_command.py:26 | a readable token is whitespace-free and splits into a key and a non-empty value |
| `KeplerCommand.FirstUnreadable` | kasbex_kepler_command.py:44 | the first token whose written form the supervisor could not read back, or none exactly when all are readable |
| `KeplerCommand.WriteCommandStrict` | kasbex_kepler_command.py:18-46 | a file is written exactly when the tokens are accepted, readable, and carry an integer `nave` where one is read |
| `WriterReader.WrittenFileReadsBack` | kasbex_kepler_command.py:44 | for parsed tokens that have no whitespace and do not end in `:`, the supervisor reads back exactly the dictionary the writer checked |
| `WriterReader.EmptyValueMergesWithNext` | kasbex_iop_signal.py:98 | a token `k:` followed by a pair token is read as one token `k:` + that token, which has two colons, so reading raises |
| `WriterReader.EmptyDuplicateUnreadable` | kasbex_kepler_command.py:26 | the writer accepts an accepted token list with an empty-valued duplicate of its first key in front, yet the supervisor cannot read the file |
| `WriterReader.EmptyValueShadowed` | kasbex_kepler_command.py:26 | that empty-valued duplicate does not change the writer's dictionary |
| `WriterReader.NoDelayKey` | kasbex_iop_signal.py:231 | a file the writer accepts carries no `delay`, so the supervisor uses delay 0 |
| `WriterReader.NaveNotIntRaises` | kasbex_iop_signal.py:242 | an `rhi`/`ppi` whose `nave` passes `float()` but not `int()` makes decoding raise |
| `WriterReader.NaveCheckedAsFloatReadAsInt` | kasbex_kepler_command.py:39 | such a file the writer accepts makes the supervisor's cycle raise |
| `WriterReader.ValidDictDecodes` | kasbex_iop_signal.py:230-243 | a valid dictionary with an integer `nave` decodes without raising. A scan becomes a storm at its azimuth and range (or `stop` beyond 40); an `rhi`/`ppi` becomes a request with the converted values |
| `WriterReader.StrictRoundTrip` | kasbex_kepler_command.py:44 | for the corrected writer's accepted tokens, the supervisor reads back exactly the checked dictionary |
| `WriterReader.StrictFileDecodes` | kasbex_iop_signal.py:228-243 | a command file the corrected writer wrote decodes to a command the supervisor acts on, without raising |
| `WriterReader.WrittenFileTakenUp` | kasbex_iop_signal.py:79-92 | the writer's file name is among the supervisor's current files, and the poll takes it up when it is new, fresh and strictly newer than every other new file |

## Left out

- Processes: `subprocess.run`, `Popen`, `communicate`, `terminate`, `wait`, `kill`, and the `kill_datasaving` and `kepler_scan` programs are outside the model. Their effects are `Action`s in the log, and their failures are inputs (`TerminateOutcome`, the raising scan's index, `popenOk`, `ok`). The scanner's command-line text and the FIX scan's output are not modelled.
- Threads: the filler thread is a `Phase` value, and its steps (`DefaultProcessBegin`, `DefaultProcessEnd`, `DefaultThreadExit`) are methods the environment calls. The race between a preempted filler ending and `main` calling `is_alive()` is the input `fillerDone`. Interleavings are not modelled.
- Signals: `signal.signal` registration is not modelled. The handler runs synchronously at the `os.kill` call, as a handler for the process's own signal does in CPython, and an exception it raises leaves `main` through that call.
- Time: `datetime.now()` is the parameter `now`. The loop's 5-second pacing, the sleep in its `except`, and the time taken by scans are not modelled. The command's own delay is an `Action`.
- File system: the directory listing is a value and the lock file is a flag. Not modelled: the `shutil.copy` snapshot to `latest_kepler_command.txt` (nothing in the core reads it back), the `os.path.exists` test in `remove_lock_file` (the lock is absent afterwards either way), and `Path.write_text` (the writer returns the name and content it would write).
- Numbers: Python's `float()`, `int()` and `np.rad2deg` are the functions of a `Lib` value. Values are exact reals, not IEEE doubles, and the azimuths are computed exactly instead of by `numpy`.
- The pid `threading.get_ident()` is represented only by whether it is set.
- Logging, the writer's `print` and the `print` of the azimuth offsets are not modelled.
- `KeplerCommand.WriteCommand`: requires a year of four digits (1000-9999), because `%Y` for a shorter year is platform-dependent. The writer's missing `sys.argv[1]` (an `IndexError`) and the output directory are not modelled.
- `KeplerCommand.WriteCommand`: the messages of the exceptions are not modelled, only which exception arises and what it names.
- `KeplerCommand.CheckDict`: the left-over-keys check (kasbex_kepler_command.py:42) is a Python `assert`, which `python -O` removes; the model, like `KeplerCommand.NoneLeftOver` and `KeplerCommand.WriteCommand`, assumes assertions are enabled, so under `-O` the writer would also accept extra keys.
- `WriterReader.WrittenFileReadsBack`: covers only tokens without whitespace, so an argument the shell passed with quoted spaces is outside the round trip.
- `CommandFiles.SelectNewest`: it is specified relationally. Which of several files with the same modification time Python's `max` picks depends on set iteration order, which is not modelled.
- In `read_cmd_file`, only the file's text is modelled, as `FileEntry.content`. An unreadable file, and text that is not valid in the file's encoding, are not modelled.

## Findings

| source | as written | input that shows it | evidently intended | confidence | as-written member | corrected member |
|---|---|---|---|---|---|---|
| kasbex_kepler_command.py:26 | The writer accepts a token with an empty value whose key a later token repeats, because the later key wins. The supervisor's `replace(': ', ':')` (kasbex_iop_signal.py:98) then glues that token to the next one, and `read_cmd_file` raises. | argv `command: command:scan azimuth:1 range:1` is accepted but written as a line the supervisor reads as `command:command:scan`, which has three parts | the writer accepts only commands the supervisor reads back as the dictionary it checked | not executed | `WriterReader.EmptyDuplicateUnreadable` | `KeplerCommand.WriteCommandStrict` |
| kasbex_kepler_command.py:39 | The writer checks every required argument, `nave` included, with `float()`. The supervisor reads `nave` with `int()` (kasbex_iop_signal.py:242), which raises for a fractional value, so the cycle is abandoned. | argv `command:rhi start_angle:20 angle_span:10 fixed_angle:2 deg_per_sec:0.5 nave:2.5` is accepted, and the file makes `int("2.5")` raise | `nave` is validated as the integer the supervisor reads | not executed | `WriterReader.NaveCheckedAsFloatReadAsInt` | `WriterReader.StrictFileDecodes` |

`KeplerCommand.WriteCommandStrict` is the corrected writer. It rejects a token
that the supervisor could not read back as written (`Unreadable`), and an
`rhi`/`ppi` whose `nave` `int()` rejects. `WriterReader.StrictRoundTrip` and
`WriterReader.StrictFileDecodes` prove that every file it writes reads back
as the dictionary it checked, and decodes without raising to a command the
supervisor acts on.
