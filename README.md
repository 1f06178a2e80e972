# shutdown-effect, modelled in Dafny

`shutdown-effect` plays a full-screen animation while a Wayfire desktop shuts
down, reboots, logs out, suspends or hibernates. The launcher starts an
animation subprocess, waits on its stdout for `READY` (the overlay is up) and
`BLACK` (the screen is black), and then runs the power action. Animations are
directories holding an `animate.py`. The launcher looks in one directory
only: the value of `SHUTDOWN_ANIMATIONS_DIR`, or `animations` beside the
script. `src/discovery.py` is a separate module that the launcher does not
call. It reads its own variable, `SHUTDOWN_EFFECTS_DIR`, and finds animations
in that exclusive override directory, or else in the bundled directory merged
with the user's configuration directory.

The model has one module per concern:

- `Sorting`: Python's `sorted` on names, i.e. strictly ascending code-point order.
- `PyText`: `str.strip`, `str.split()`, `str.split('\n')` and substring tests,
  over Python's whitespace set.
- `Platform`: an explicit filesystem value (a map from directories to their
  entry names, plus the set of existing file paths) and `os.path.join`.
- `Discovery`: `src/discovery.py`.
- `Signals`: the animation subprocess wrapper. `AnimationProcess` and
  `threading.Event` are classes whose methods update their fields. The
  invariant `Valid()` says that each latch is set exactly when its signal has
  been read or the stream has ended.
- `Power`: the command table, `get_session_id`, the IPC retry loop, and
  `execute_power_action` as a list of observable effects plus how the call
  ends.
- `Windows`: `close_windows_gracefully`.
- `Orchestrator`: `ANIMATIONS_DIR`, the launcher's own `list_animations`, the
  `--animation` check, and the five steps of `main`.

Effects the model cannot perform are inputs:

- the filesystem;
- what the reader thread has delivered when a wait returns;
- the output of `loginctl`;
- the exit status of `efibootmgr`;
- the outcome of each IPC call;
- the compositor's view list.

## Model

| member | source | states |
|---|---|---|
| `Sorting.SortSet` | shutdown-effect.py:383 | the result is strictly ascending in code-point order and holds exactly the set's names, each once |
| `PyText.Strip` | shutdown-effect.py:212 | the result is a slice `s[i..j]` of the input with only whitespace before `i` and after `j`, and it neither starts nor ends with Python whitespace |
| `PyText.StripIsSlice` | shutdown-effect.py:212 | removing leading and then trailing whitespace leaves a slice of the input flanked by whitespace only |
| `PyText.Tokens` | shutdown-effect.py:85 | every word is non-empty and free of whitespace; there are no words iff the string is all whitespace; a whitespace-free non-empty string is a single word (with `TokensAround` this fixes `split()` on every string) |
| `PyText.StripKeepsTokens` | shutdown-effect.py:84-85 | splitting on whitespace gives the same words before and after `strip()` |
| `PyText.TokensAround` | shutdown-effect.py:84-85 | a whitespace character separates words: the words of `a + c + b` are those of `a` followed by those of `b` |
| `PyText.Split` | shutdown-effect.py:84 | `split('\n')` gives at least one piece and no piece contains the separator |
| `PyText.JoinSplit` | shutdown-effect.py:84 | joining the pieces of `split(sep)` with `sep` gives back the original string |
| `PyText.Contains` | shutdown-effect.py:154 | a contained string is no longer than the text; the empty string is contained in every text |
| `PyText.ContainsInfix` | shutdown-effect.py:154 | `pat in a + pat + b` holds for every `a` and `b` |
| `Platform.Join` | shutdown-effect.py:54 | an absolute name replaces the directory; otherwise exactly one `/` separates them, none added when the directory is empty or already ends in `/` |
| `Platform.JoinEnds` | shutdown-effect.py:54 | the joined path ends with the name and, for a relative name, starts with the directory |
| `Platform.JoinTwice` | shutdown-effect.py:54 | joining two relative components onto a directory gives `dir/a/b`, one `/` before each |
| `Discovery.ScanDir` | src/discovery.py:28-35 | a name is in the result iff the directory exists and its entry of that name is a directory holding `animate.py`; each value is the entry's path; a missing directory yields an empty map |
| `Discovery.AllAnimations` | src/discovery.py:38-61 | a non-empty override is exclusive; otherwise the names are the union of the bundled and user scans, the user entry winning a clash |
| `Discovery.GetAllAnimations` | src/discovery.py:52-61 | updating an empty map with the bundled scan and then the user scan gives `AllAnimations` |
| `Discovery.AllAnimationsAreValid` | src/discovery.py:28-61 | every discovered path is an animation directory named after its key, under the override or under the user or bundled directory |
| `Discovery.OverrideIsExclusive` | src/discovery.py:53-55 | with the override set, the user and bundled directories play no part, and a missing override directory yields no animations |
| `Discovery.ListAnimations` | src/discovery.py:64-71 | the names are strictly ascending and are exactly the discovered ones |
| `Discovery.GetAnimationScript` | src/discovery.py:74-87 | the script is returned iff the name is discovered; it is `<dir>/animate.py` and exists |
| `Discovery.GetAnimationsDir` | src/discovery.py:91-105 | the result is the first of override, user and bundled that is a directory, None iff none is |
| `Discovery.LegacyDirIgnoresMissingOverride` | src/discovery.py:98-105 | when the override names a missing directory, discovery finds nothing while the legacy lookup falls back to the user directory |
| `Signals.Classify` | shutdown-effect.py:212-216 | a line is READY or BLACK iff its stripped text is exactly that word |
| `Signals.Classified` | shutdown-effect.py:211-216 | one signal per line, each the classification of that line |
| `Signals.ClassifiedAppend` | shutdown-effect.py:211-216 | reading two batches of lines one after the other is reading them together |
| `Signals.LatchedIff` | shutdown-effect.py:211-216 | a READY (BLACK) signal has been seen iff some line strips to `READY` (`BLACK`) |
| `Signals.Event.constructor` | shutdown-effect.py:183-184 | a new event is clear |
| `Signals.Event.Set` | shutdown-effect.py:215 | after `set()` the flag is up |
| `Signals.Event.Wait` | shutdown-effect.py:228 | `wait()` returns the flag as it stands when the wait returns |
| `Signals.AnimationProcess.constructor` | shutdown-effect.py:180-185 | no process, two distinct fresh events, both clear |
| `Signals.AnimationProcess.Start` | shutdown-effect.py:187-206 | returns False iff the script is missing; raises iff the script exists and `Popen` fails; otherwise the process runs and the reader is started; the latches and what was read are untouched, and a failed start leaves the process state as it was |
| `Signals.AnimationProcess.ReadLine` | shutdown-effect.py:211-216 | one line sets the ready latch iff it is READY and the black latch iff it is BLACK; no latch is ever cleared |
| `Signals.AnimationProcess.EndOfStream` | shutdown-effect.py:218-223 | whatever ended the stream, both latches are set |
| `Signals.AnimationProcess.ReadSignals` | shutdown-effect.py:208-223 | the reader consumes every line in order, keeps the latch invariant, and leaves both latches set |
| `Signals.AnimationProcess.AdvanceReader` | shutdown-effect.py:208-223 | the reader's progress up to a deadline; a reader whose stream has ended reads nothing more |
| `Signals.AnimationProcess.WaitReady` | shutdown-effect.py:225-231 | returns true iff READY was read or the stream has ended |
| `Signals.AnimationProcess.WaitBlack` | shutdown-effect.py:233-239 | returns true iff BLACK was read or the stream has ended |
| `Signals.AnimationProcess.IsRunning` | shutdown-effect.py:241-243 | true iff a process was started and has not exited |
| `Signals.AnimationProcess.Terminate` | shutdown-effect.py:245-252 | a running process gets SIGTERM, then SIGKILL only if it outlives the grace period; a process that is not running gets nothing; afterwards none is running |
| `Power.PowerCommand` | shutdown-effect.py:66-74 | exactly the six table actions have a command; `test` and unknown names have none |
| `Power.FirstTokenOfLines` | shutdown-effect.py:84-87 | the result is a whitespace-free word, the first word of some line; it is "" iff no line has a word |
| `Power.FirstTokenOfLinesIsFirstToken` | shutdown-effect.py:84-87 | the first word of the first non-blank line is the first word of the whole text |
| `Power.SessionId` | shutdown-effect.py:77-90 | the session id is the first whitespace-free word of the `loginctl` output, "" iff there is none or the call raised |
| `Power.SendIpcWithRetry` | shutdown-effect.py:272-281 | succeeds iff one of the first `max_attempts` calls succeeds; stops at the first success; a delay separates consecutive attempts, never after the last |
| `Power.CleanupRequest` | shutdown-effect.py:284-301 | without retry exactly one call is made; with retry at most five, succeeding iff one of them does, all five made on failure, with a 1 s pause between consecutive attempts |
| `Power.ExecutePowerAction` | shutdown-effect.py:304-372 | raises iff there is no command and the hold is negative or too long for `time.sleep`; holds forever iff a non-resumable table action dispatches; dispatches iff a table action is not a logout without session; the animation is terminated iff the call returns and an animation was given |
| `Power.TestModeCleansUpOnce` | shutdown-effect.py:315-326 | test mode sleeps the hold, terminates the animation, then runs both cleanup calls once, without retry, and dispatches nothing |
| `Power.UnknownActionActsAsTest` | shutdown-effect.py:312-315 | a name missing from the table behaves exactly like `test` |
| `Power.LogoutUsesSession` | shutdown-effect.py:329-339 | logout without a session id only warns and terminates the animation, then returns, with no command and no cleanup call; with one it dispatches `loginctl terminate-session <id>` and holds |
| `Power.ResumableActionsCleanUpWithRetry` | shutdown-effect.py:354-367 | suspend and hibernate dispatch, pause 3 s, terminate the animation and retry both cleanup calls, then return |
| `Power.TerminalActionsHold` | shutdown-effect.py:342-372 | shutdown, reboot and windows dispatch their command last and hold with no cleanup; windows first sets the next boot entry |
| `Windows.Closed` | shutdown-effect.py:133-163 | every closed id comes from a view that passes the skip rules and whose close did not fail, and every such view is closed |
| `Windows.ClosedCount` | shutdown-effect.py:133-163 | the number of closed ids is the number of positions holding a view that passes the skip rules and closes without error |
| `Windows.SkippedViews` | shutdown-effect.py:139-157 | layer-shell surfaces, known overlays, untitled or `nil` views, and any title containing `shutdown-effect` or `animate.py` anywhere are never closed |
| `Windows.CloseWindowsGracefully` | shutdown-effect.py:108-174 | the done event is set on every path; success iff the compositor could be reached and listed; the count is that of the closed views |
| `Orchestrator.AnimationsDir` | shutdown-effect.py:45-48 | the environment value is used whenever set, even if empty; otherwise `animations` beside the script |
| `Orchestrator.AnimationScript` | shutdown-effect.py:52-54 | the path ends with `animate.py`; for plain components it is `<dir>/<name>/animate.py`; an empty directory gives `<name>/animate.py`; an absolute name discards the directory |
| `Orchestrator.DiscoveredScriptIsLauncherScript` | shutdown-effect.py:52-54 | with the same directory as discovery's override, a script discovery finds is the launcher's path for that name, and the launcher lists the name |
| `Orchestrator.ListAnimations` | shutdown-effect.py:375-383 | the names are strictly ascending and are exactly the entries of an existing directory that hold an `animate.py` |
| `Orchestrator.ScriptListingAgreesWithDiscovery` | shutdown-effect.py:375-383 | where every entry holding a script is a directory, the launcher's listing and discovery's scan find the same names |
| `Orchestrator.ChooseAnimation` | shutdown-effect.py:408-413 | without `--animation` the default is used unchecked; a given name is accepted iff no animation was found or it is one of them |
| `Orchestrator.ExplicitChoiceIff` | shutdown-effect.py:408-413 | against a non-empty listing, an explicit name is accepted iff the directory lists it and its `animate.py` exists, so an accepted name always has a script |
| `Orchestrator.EmptyListingAcceptsAnything` | shutdown-effect.py:410 | with no animation found, argparse has no choices and any explicit name is accepted |
| `Orchestrator.DefaultIsNotChecked` | shutdown-effect.py:409-410 | with only `sakura` installed, `--animation fire` is rejected while the default `fire` is accepted and has no script |
| `Orchestrator.EmptyEnvironmentValue` | shutdown-effect.py:45-48 | `SHUTDOWN_ANIMATIONS_DIR=""` is kept as the launcher's directory; `os.path.isdir("")` is false, so nothing is listed, any `--animation` is accepted and its script path is relative to the working directory; an empty `SHUTDOWN_EFFECTS_DIR` counts as unset for discovery |
| `Orchestrator.ParseArgs` | shutdown-effect.py:386-422 | an action outside the seven choices is rejected; the default animation is taken when none is given; an accepted explicit name is listed or nothing is |
| `Orchestrator.RunAnimation` | shutdown-effect.py:444-472 | the start fails iff the script is missing, raises iff `Popen` fails, and otherwise each wait returns true iff its signal arrived before the deadline or the stream ended |
| `Orchestrator.ExitOf` | shutdown-effect.py:479-485 | status 0 iff the power action returns; status 1 iff it raises; no exit iff it holds forever |
| `Orchestrator.RunWithScript` | shutdown-effect.py:444-481 | a failed start ends with status 1 after the start alone; otherwise start, READY wait, skipped window close, BLACK wait and power action follow in that order, so the power action comes only after both waits, and an early end of the stream makes both waits succeed |
| `Orchestrator.RunShutdownEffect` | shutdown-effect.py:425-485 | a rejected command line exits with status 2 and does nothing, and only then; otherwise the run of `RunWithScript` on `<ANIMATIONS_DIR>/<name>/animate.py` |

## Left out

- The animations' own rendering (`animate.py`) and the debug log file are not modelled.
- Console output (`print`) is not modelled. Of the stderr messages, only the two `execute_power_action` warnings appear, as `Power.Effect.Warn`; the others are not modelled.
- `install_signal_handlers` is not modelled: signals to this process have no effect on the model.
- Threads and timing are not modelled. A wait's result depends only on what the reader delivered before its deadline. The timeout values 5 s and 30 s and the 1 s sleeps of the hold loop are not modelled.
- `send_ipc` itself is not modelled: the Wayfire socket, JSON framing and the 2 s socket timeout. Each call's outcome is an input.
- `argparse` beyond the action choices and the `--animation` choice rule is not modelled. The integer conversion of `--hold` is assumed done, and its value is an input.
- `pathlib` normalisation, such as collapsed duplicate slashes, is not modelled; paths are strings joined by the `os.path.join` rule.
- Symbolic links are not modelled; directory tests follow the filesystem value. The empty path is never a directory or an existing file.
- `Power.ExecutePowerAction`: an exception from starting `efibootmgr` or from `Popen` (e.g. a missing binary) is not modelled. Only `efibootmgr`'s exit status is an input. The `time.sleep` bound of 9223372036 s is that of CPython on 64-bit platforms.
- `Power.SendIpcWithRetry`: a negative `delay` would make `time.sleep` raise. This is not modelled because every caller passes 1.0.
- `Signals.AnimationProcess.IsRunning`: the process's own exit before `terminate()` is not modelled, so the state is read from a field rather than polled.
- `Windows.CloseWindowsGracefully`: the 50 ms pause after each close is not modelled. A view whose `title` is JSON null is treated like an empty title, which the source also skips.
- `Windows.CloseWindowsGracefully`: the source returns only the success flag; `closedCount` is the number it writes to the debug log.
- The `__main__` discovery CLI in `src/discovery.py` (lines 108 onwards) prints diagnostics only and is not modelled.
- An animation that exits without printing `READY` or `BLACK` does not make the waits time out. The reader's `finally` sets both events, so both waits return true (`Signals.AnimationProcess.EndOfStream`). The model follows the code here, not a reading in which such a wait fails.
