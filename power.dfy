/** The power action (`execute_power_action` and its helpers in
    `shutdown-effect.py`): the command table, the session lookup for
    logout, the compositor cleanup calls and their bounded retry, and what
    each action does before it returns or holds until the system kills the
    process. */
module Power {
  import opened Platform
  import opened PyText

  /** `POWER_COMMANDS.get(action)`: the command each action runs; `test`
      and any name not in the table have none. The logout entry's empty
      last argument is a placeholder for the session id. */
  function PowerCommand(action: string): (cmd: Option<seq<string>>)
    ensures cmd.Some? <==> action in TableActions
    ensures cmd.Some? ==> |cmd.value| >= 2
  {
    if action == "shutdown" then Some(["sudo", "-A", "shutdown", "-h", "now"])
    else if action == "reboot" then Some(["sudo", "-A", "reboot"])
    else if action == "logout" then Some(["loginctl", "terminate-session", ""])
    else if action == "suspend" then Some(["systemctl", "suspend"])
    else if action == "hibernate" then Some(["systemctl", "hibernate"])
    else if action == "windows" then Some(["sudo", "-A", "reboot"])
    else None
  }

  /** The actions that have a command in the table. */
  const TableActions: set<string> := {"shutdown", "reboot", "logout", "suspend", "hibernate", "windows"}

  /** The actions after which this process resumes and cleans up. */
  const ResumableActions: set<string> := {"suspend", "hibernate"}

  /** The command that sets the next boot entry before the `windows` reboot. */
  const BootNextCommand: seq<string> := ["sudo", "-A", "efibootmgr", "--bootnext", "0003"]

  const UnfreezeMethod: string := "screen-freeze/unfreeze"
  const ShowCursorMethod: string := "cursor-control/show"

  /** `send_ipc_with_retry` defaults, used by the post-resume cleanup. */
  const RetryAttempts: int := 5
  const RetryDelay: real := 1.0

  /** Seconds the suspend/hibernate path waits for the compositor to wake. */
  const ResumePause: int := 3

  /** The longest `time.sleep` accepts: the duration must fit a signed
      64-bit count of nanoseconds, so a whole number of seconds above
      (2^63 - 1) / 10^9 raises OverflowError. */
  const MaxSleepSeconds: int := 9223372036

  // ---------------------------------------------------------------------
  // get_session_id

  /** The loop of `get_session_id`: the first token of the first line that
      has one, or "" when none does. */
  function FirstTokenOfLines(lines: seq<string>): (r: string)
    ensures NoSpace(r)
    ensures r == "" <==> forall i :: 0 <= i < |lines| ==> Tokens(lines[i]) == []
    ensures r != "" ==> exists i :: 0 <= i < |lines| && Tokens(lines[i]) != [] && r == Tokens(lines[i])[0]
  {
    if lines == [] then ""
    else
      var parts := Tokens(lines[0]);
      if parts != [] then parts[0] else FirstTokenOfLines(lines[1..])
  }

  /** The first token of a whole string, or "". */
  function FirstToken(s: string): string
  {
    var parts := Tokens(s);
    if parts == [] then "" else parts[0]
  }

  /** Looking line by line finds the same token as looking at the whole
      text: newlines are whitespace. */
  lemma {:induction false} FirstTokenOfLinesIsFirstToken(t: string)
    ensures FirstTokenOfLines(Split(t, '\n')) == FirstToken(t)
    decreases |t|
  {
    var n := PrefixBefore(t, '\n');
    if n < |t| {
      var head, rest := t[..n], t[n + 1..];
      assert t == head + ['\n'] + rest;
      TokensAround(head, '\n', rest);
      assert Split(t, '\n') == [head] + Split(rest, '\n');
      FirstTokenOfLinesIsFirstToken(rest);
    }
  }

  /** `get_session_id`: `output` is what `loginctl list-sessions
      --no-legend` printed, or None when running it raised. The result is
      the first whitespace-separated word of the output, or "" if there is
      none. */
  function SessionId(output: Option<string>): (id: string)
    ensures NoSpace(id)
    ensures output.None? ==> id == ""
    ensures output.Some? ==> id == FirstToken(output.value)
    ensures output.Some? ==> (id == "" <==> Tokens(output.value) == [])
  {
    match output
    case None => ""
    case Some(out) =>
      StripKeepsTokens(out);
      FirstTokenOfLinesIsFirstToken(Strip(out));
      FirstTokenOfLines(Split(Strip(out), '\n'))
  }

  // ---------------------------------------------------------------------
  // send_ipc_with_retry

  /** What the retry loop does, in order: an IPC attempt (numbered from 0)
      with its outcome, or a pause of `seconds`. */
  datatype RetryStep = Attempt(index: nat, ok: bool) | Delay(seconds: real)

  /** `send_ipc_with_retry(method, max_attempts, delay)`. `ipc(k)` is the
      outcome of the k-th `send_ipc(method)` call (the compositor socket is
      not modelled). Attempts stop at the first success; a pause separates
      consecutive attempts and never follows the last one. */
  method SendIpcWithRetry(maxAttempts: int, delay: real, ipc: nat -> bool)
    returns (ok: bool, attempts: nat, trace: seq<RetryStep>)
    ensures ok <==> exists k :: 0 <= k < maxAttempts && ipc(k)
    ensures attempts <= (if maxAttempts < 0 then 0 else maxAttempts)
    ensures ok ==> attempts > 0 && ipc(attempts - 1)
    ensures forall k :: 0 <= k < attempts - 1 ==> !ipc(k)
    ensures !ok ==> attempts == (if maxAttempts < 0 then 0 else maxAttempts)
    ensures |trace| == (if attempts == 0 then 0 else 2 * attempts - 1)
    ensures forall k :: 0 <= k < attempts ==> trace[2 * k] == Attempt(k, ipc(k))
    ensures forall k :: 0 <= k < attempts - 1 ==> trace[2 * k + 1] == Delay(delay)
  {
    trace := [];
    var attempt := 0;
    while attempt < maxAttempts
      invariant 0 <= attempt <= (if maxAttempts < 0 then 0 else maxAttempts)
      invariant forall k :: 0 <= k < attempt ==> !ipc(k)
      invariant |trace| == (if attempt == 0 then 0 else if attempt < maxAttempts then 2 * attempt else 2 * attempt - 1)
      invariant forall k :: 0 <= k < attempt ==> trace[2 * k] == Attempt(k, false)
      invariant forall k :: 0 <= k < attempt && 2 * k + 1 < |trace| ==> trace[2 * k + 1] == Delay(delay)
    {
      var sent := ipc(attempt);
      trace := trace + [Attempt(attempt, sent)];
      if sent {
        return true, attempt + 1, trace;
      }
      if attempt < maxAttempts - 1 {
        trace := trace + [Delay(delay)];
      }
      attempt := attempt + 1;
    }
    return false, attempt, trace;
  }

  /** `unfreeze_compositor(retry)` and `show_cursor(retry)`, which differ
      only in the IPC method named: one call, or the retrying wrapper with
      its defaults (5 attempts, 1 s apart). Failure is only logged. */
  method CleanupRequest(retry: bool, ipc: nat -> bool) returns (ok: bool, attempts: nat, trace: seq<RetryStep>)
    ensures !retry ==> attempts == 1 && ok == ipc(0) && trace == [Attempt(0, ok)]
    ensures retry ==> 1 <= attempts <= RetryAttempts
    ensures retry ==> (ok <==> exists k :: 0 <= k < RetryAttempts && ipc(k))
    ensures retry && ok ==> ipc(attempts - 1) && forall k :: 0 <= k < attempts - 1 ==> !ipc(k)
    ensures retry && !ok ==> attempts == RetryAttempts
    ensures retry ==> |trace| == 2 * attempts - 1
    ensures retry ==> forall k :: 0 <= k < attempts ==> trace[2 * k] == Attempt(k, ipc(k))
    ensures retry ==> forall k :: 0 <= k < attempts - 1 ==> trace[2 * k + 1] == Delay(RetryDelay)
  {
    if retry {
      ok, attempts, trace := SendIpcWithRetry(RetryAttempts, RetryDelay, ipc);
    } else {
      ok, attempts := ipc(0), 1;
      trace := [Attempt(0, ok)];
    }
  }

  // ---------------------------------------------------------------------
  // execute_power_action

  /** The observable steps of a power action, in order. */
  datatype Effect =
    | Sleep(seconds: int)               // time.sleep
    | TerminateAnimation                // animation.terminate()
    | Ipc(ipcMethod: string, retry: bool) // unfreeze_compositor / show_cursor
    | RunAndWait(command: seq<string>)  // subprocess.run(command)
    | Warn(message: string)             // a message on stderr
    | Dispatch(command: seq<string>)    // subprocess.Popen(command), not waited for

  /** How `execute_power_action` ends: it returns, it loops until the system
      kills the process, or an exception escapes it. */
  datatype Completion = Returns | HoldsForever | Raises

  datatype PowerOutcome = PowerOutcome(effects: seq<Effect>, completion: Completion)

  predicate Dispatches(effects: seq<Effect>)
  {
    exists i :: 0 <= i < |effects| && effects[i].Dispatch?
  }

  /** `execute_power_action(action, animation, hold_time)`.
      `hasAnimation` says whether an animation handle was passed;
      `sessionOutput` is what the session lookup saw (used for logout only);
      `bootNextOk` is whether the boot-entry command exited with status 0
      (used for `windows` only). */
  function ExecutePowerAction(action: string, hasAnimation: bool, holdTime: int,
                              sessionOutput: Option<string>, bootNextOk: bool): (r: PowerOutcome)
    ensures r.completion == Raises <==> PowerCommand(action).None? && (holdTime < 0 || holdTime > MaxSleepSeconds)
    ensures r.completion == HoldsForever <==>
      action in TableActions && action !in ResumableActions && !(action == "logout" && SessionId(sessionOutput) == "")
    ensures Dispatches(r.effects) <==>
      action in TableActions && !(action == "logout" && SessionId(sessionOutput) == "")
    ensures r.completion == Returns ==> (TerminateAnimation in r.effects <==> hasAnimation)
    ensures r.completion != Returns ==> TerminateAnimation !in r.effects
  {
    var terminate := if hasAnimation then [TerminateAnimation] else [];
    match PowerCommand(action)
    case None =>
      if holdTime < 0 || holdTime > MaxSleepSeconds then
        // time.sleep rejects a negative duration with ValueError and an
        // overlong one with OverflowError
        PowerOutcome([], Raises)
      else
        PowerOutcome([Sleep(holdTime)] + terminate + [Ipc(UnfreezeMethod, false), Ipc(ShowCursorMethod, false)], Returns)
    case Some(tableCmd) =>
      var sessionId := if action == "logout" then SessionId(sessionOutput) else "";
      if action == "logout" && sessionId == "" then
        PowerOutcome([Warn("ERROR: Could not determine session ID for logout")] + terminate, Returns)
      else
        var cmd := if action == "logout" then ["loginctl", "terminate-session", sessionId] else tableCmd;
        var bootNext :=
          if action != "windows" then []
          else if bootNextOk then [RunAndWait(BootNextCommand)]
          else [RunAndWait(BootNextCommand), Warn("WARNING: Could not set Windows boot entry")];
        var dispatched := bootNext + [Dispatch(cmd)];
        assert dispatched[|bootNext|].Dispatch?;
        if action in ResumableActions then
          var effects := dispatched + [Sleep(ResumePause)] + terminate
                         + [Ipc(UnfreezeMethod, true), Ipc(ShowCursorMethod, true)];
          assert effects[|bootNext|].Dispatch?;
          PowerOutcome(effects, Returns)
        else
          PowerOutcome(dispatched, HoldsForever)
  }

  /** Test mode: nothing is dispatched; after the hold the animation is
      terminated and each cleanup call runs once, without retry. */
  lemma TestModeCleansUpOnce(hasAnimation: bool, holdTime: int, sessionOutput: Option<string>, bootNextOk: bool)
    requires 0 <= holdTime <= MaxSleepSeconds
    ensures var r := ExecutePowerAction("test", hasAnimation, holdTime, sessionOutput, bootNextOk);
      && !Dispatches(r.effects)
      && r.completion == Returns
      && r.effects == [Sleep(holdTime)] + (if hasAnimation then [TerminateAnimation] else [])
                      + [Ipc(UnfreezeMethod, false), Ipc(ShowCursorMethod, false)]
  {
  }

  /** An action name missing from the table takes the test-mode path. */
  lemma UnknownActionActsAsTest(action: string, hasAnimation: bool, holdTime: int, sessionOutput: Option<string>, bootNextOk: bool)
    requires action !in TableActions
    ensures ExecutePowerAction(action, hasAnimation, holdTime, sessionOutput, bootNextOk)
         == ExecutePowerAction("test", hasAnimation, holdTime, sessionOutput, bootNextOk)
  {
  }

  /** Logout without a session id only warns, terminates the animation and
      returns: no command, and no cleanup call, so the compositor stays
      frozen. With one it issues exactly `loginctl terminate-session <id>`
      and holds. */
  lemma LogoutUsesSession(hasAnimation: bool, holdTime: int, sessionOutput: Option<string>, bootNextOk: bool)
    ensures var r := ExecutePowerAction("logout", hasAnimation, holdTime, sessionOutput, bootNextOk);
      var id := SessionId(sessionOutput);
      && (id == "" ==> r.effects == [Warn("ERROR: Could not determine session ID for logout")]
                                    + (if hasAnimation then [TerminateAnimation] else [])
                       && !Dispatches(r.effects) && r.completion == Returns)
      && (id != "" ==> r.effects == [Dispatch(["loginctl", "terminate-session", id])] && r.completion == HoldsForever)
  {
  }

  /** Suspend and hibernate dispatch their command, pause, terminate the
      animation and run both cleanup calls with retry, then return. */
  lemma ResumableActionsCleanUpWithRetry(action: string, holdTime: int, sessionOutput: Option<string>, bootNextOk: bool)
    requires action in ResumableActions
    ensures var r := ExecutePowerAction(action, true, holdTime, sessionOutput, bootNextOk);
      && r.effects == [Dispatch(["systemctl", action]), Sleep(ResumePause), TerminateAnimation,
                       Ipc(UnfreezeMethod, true), Ipc(ShowCursorMethod, true)]
      && r.completion == Returns
  {
  }

  /** Shutdown, reboot and windows dispatch their command and then hold:
      the animation is never terminated and no cleanup runs. The windows
      reboot is dispatched whether or not the boot entry could be set. */
  lemma TerminalActionsHold(action: string, hasAnimation: bool, holdTime: int, sessionOutput: Option<string>, bootNextOk: bool)
    requires action in {"shutdown", "reboot", "windows"}
    ensures var r := ExecutePowerAction(action, hasAnimation, holdTime, sessionOutput, bootNextOk);
      && r.completion == HoldsForever
      && r.effects[|r.effects| - 1] == Dispatch(PowerCommand(action).value)
      && (action == "windows" ==> r.effects[0] == RunAndWait(BootNextCommand) && PowerCommand(action).value == ["sudo", "-A", "reboot"])
      && forall e :: e in r.effects ==> !e.Ipc? && e != TerminateAnimation
  {
  }
}
