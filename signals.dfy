/** The animation subprocess and its stdout signal protocol
    (`AnimationProcess` in `shutdown-effect.py`). The animation prints
    `READY` once its overlay is up and `BLACK` once the screen is black; a
    background reader turns those lines into two one-shot latches, and sets
    both when the stream ends so that no waiter can hang. */
module Signals {
  import opened PyText
  import opened Platform

  /** One line of the animation's stdout, after `strip()`. */
  datatype Signal = Ready | Black | Other(text: string)

  /** The reader's classification of a raw line. */
  function Classify(line: string): (s: Signal)
    ensures s == Ready <==> Strip(line) == "READY"
    ensures s == Black <==> Strip(line) == "BLACK"
    ensures s.Other? ==> s.text == Strip(line)
  {
    var t := Strip(line);
    if t == "READY" then Ready
    else if t == "BLACK" then Black
    else Other(t)
  }

  /** The signals of `lines`, line by line. */
  function Classified(lines: seq<string>): (sigs: seq<Signal>)
    ensures |sigs| == |lines|
    ensures forall i :: 0 <= i < |lines| ==> sigs[i] == Classify(lines[i])
  {
    if lines == [] then [] else Classified(lines[..|lines| - 1]) + [Classify(lines[|lines| - 1])]
  }

  /** Classifying two batches of lines one after the other is classifying
      them together. */
  lemma {:induction false} ClassifiedAppend(a: seq<string>, b: seq<string>)
    ensures Classified(a + b) == Classified(a) + Classified(b)
    decreases |b|
  {
    if b != [] {
      var init := b[..|b| - 1];
      ClassifiedAppend(a, init);
      assert (a + b)[..|a + b| - 1] == a + init;
    } else {
      assert a + b == a;
    }
  }

  /** The ready latch has fired from `lines` exactly when one of them reads
      `READY` once stripped, and likewise for black. */
  lemma LatchedIff(lines: seq<string>)
    ensures Ready in Classified(lines) <==> exists i :: 0 <= i < |lines| && Strip(lines[i]) == "READY"
    ensures Black in Classified(lines) <==> exists i :: 0 <= i < |lines| && Strip(lines[i]) == "BLACK"
  {
    var sigs := Classified(lines);
    if Ready in sigs {
      var i :| 0 <= i < |sigs| && sigs[i] == Ready;
      assert Strip(lines[i]) == "READY";
    }
    if Black in sigs {
      var i :| 0 <= i < |sigs| && sigs[i] == Black;
      assert Strip(lines[i]) == "BLACK";
    }
  }

  /** `threading.Event`: a flag that can be set and waited on. */
  class Event {
    var flag: bool

    constructor ()
      ensures !flag
    {
      flag := false;
    }

    method Set()
      modifies this
      ensures flag
    {
      flag := true;
    }

    /** `wait(timeout)` once it has returned: whether the flag was set by
        then. The timing itself is not modelled; what the reader delivered
        before the deadline is applied to the state before this call. */
    method Wait() returns (r: bool)
      ensures r == flag
    {
      r := flag;
    }
  }

  datatype ProcessState = NotStarted | Running | Exited

  datatype KillSignal = SIGTERM | SIGKILL

  /** How `start()` ends: it returns True, it returns False because the
      script is missing, or `Popen` raises. */
  datatype StartResult = Started | ScriptMissing | SpawnRaised

  class AnimationProcess {
    const scriptPath: Path
    /** `self.process`: None until started, then the Popen handle. */
    var process: ProcessState
    const readyEvent: Event
    const blackEvent: Event
    /** `self._reader_thread is not None` */
    var readerStarted: bool

    /** The classification of every line the reader has consumed, in
        order. */
    ghost var signalsRead: seq<Signal>
    /** Whether the reader thread has run its `finally` and finished (end
        of file or a read error): `not self._reader_thread.is_alive()`. */
    var streamEnded: bool

    /** The latches say exactly what the reader has seen: a latch is set
        when its signal was read, or when the stream has ended. */
    ghost predicate Valid()
      reads this, readyEvent, blackEvent
    {
      && readyEvent != blackEvent
      && readyEvent.flag == (streamEnded || Ready in signalsRead)
      && blackEvent.flag == (streamEnded || Black in signalsRead)
      && (readerStarted <==> process != NotStarted)
      && (!readerStarted ==> signalsRead == [] && !streamEnded)
    }

    constructor (scriptPath: Path)
      ensures Valid() && fresh(readyEvent) && fresh(blackEvent)
      ensures this.scriptPath == scriptPath && process == NotStarted
      ensures !readyEvent.flag && !blackEvent.flag
    {
      this.scriptPath := scriptPath;
      process := NotStarted;
      readyEvent := new Event();
      blackEvent := new Event();
      readerStarted := false;
      signalsRead := [];
      streamEnded := false;
    }

    /** `start()`: refuses a missing script; otherwise spawns the animation
        and its reader thread. `spawns` says whether `Popen` succeeds; when
        it raises (no `python3`, say) the exception leaves `start()` and
        nothing is started. */
    method Start(fs: FileSystem, spawns: bool) returns (result: StartResult)
      requires Valid()
      modifies this
      ensures Valid()
      ensures result == ScriptMissing <==> !Exists(fs, scriptPath)
      ensures result == SpawnRaised <==> Exists(fs, scriptPath) && !spawns
      ensures result == Started ==> process == Running && readerStarted && IsRunning()
      ensures result != Started ==> process == old(process) && readerStarted == old(readerStarted)
      ensures signalsRead == old(signalsRead) && streamEnded == old(streamEnded)
    {
      if !Exists(fs, scriptPath) {
        return ScriptMissing;
      }
      if !spawns {
        return SpawnRaised;
      }
      process := Running;
      readerStarted := true;
      return Started;
    }

    /** One pass of the reader's loop body. */
    method ReadLine(line: string)
      requires Valid() && readerStarted
      modifies this, readyEvent, blackEvent
      ensures Valid()
      ensures signalsRead == old(signalsRead) + [Classify(line)] && streamEnded == old(streamEnded)
      ensures readyEvent.flag == (old(readyEvent.flag) || Classify(line) == Ready)
      ensures blackEvent.flag == (old(blackEvent.flag) || Classify(line) == Black)
      ensures process == old(process) && readerStarted
    {
      var stripped := Strip(line);
      if stripped == "READY" {
        readyEvent.Set();
      } else if stripped == "BLACK" {
        blackEvent.Set();
      }
      signalsRead := signalsRead + [Classify(line)];
    }

    /** The reader's `finally`: whatever ended the stream, both latches are
        released. */
    method EndOfStream()
      requires Valid() && readerStarted
      modifies this, readyEvent, blackEvent
      ensures Valid() && streamEnded
      ensures readyEvent.flag && blackEvent.flag
      ensures signalsRead == old(signalsRead) && process == old(process) && readerStarted
    {
      readyEvent.Set();
      blackEvent.Set();
      streamEnded := true;
    }

    /** `_read_signals`: the reader thread's whole run over the lines the
        stream delivers before it ends. Neither latch is ever cleared, and
        both are set on return. */
    method ReadSignals(lines: seq<string>)
      requires Valid() && readerStarted
      modifies this, readyEvent, blackEvent
      ensures Valid() && streamEnded
      ensures readyEvent.flag && blackEvent.flag
      ensures signalsRead == old(signalsRead) + Classified(lines)
      ensures process == old(process) && readerStarted
    {
      for i := 0 to |lines|
        invariant Valid() && readerStarted && process == old(process)
        invariant signalsRead == old(signalsRead) + Classified(lines[..i])
        invariant streamEnded == old(streamEnded)
        invariant old(readyEvent.flag) ==> readyEvent.flag
        invariant old(blackEvent.flag) ==> blackEvent.flag
      {
        assert lines[..i + 1][..i] == lines[..i];
        assert Classified(lines[..i + 1]) == Classified(lines[..i]) + [Classify(lines[i])];
        ReadLine(lines[i]);
      }
      assert lines[..|lines|] == lines;
      EndOfStream();
    }

    /** The reader's progress between two observations by the main flow:
        the lines it consumes and whether the stream then ends. A reader
        whose stream has ended reads nothing more. */
    method AdvanceReader(lines: seq<string>, ends: bool)
      requires Valid() && readerStarted
      modifies this, readyEvent, blackEvent
      ensures Valid() && process == old(process) && readerStarted
      ensures old(streamEnded) ==> signalsRead == old(signalsRead) && streamEnded
      ensures !old(streamEnded) ==> signalsRead == old(signalsRead) + Classified(lines) && streamEnded == ends
    {
      if streamEnded {
        return;
      }
      for i := 0 to |lines|
        invariant Valid() && readerStarted && process == old(process)
        invariant signalsRead == old(signalsRead) + Classified(lines[..i])
        invariant !streamEnded
      {
        assert lines[..i + 1][..i] == lines[..i];
        assert Classified(lines[..i + 1]) == Classified(lines[..i]) + [Classify(lines[i])];
        ReadLine(lines[i]);
      }
      assert lines[..|lines|] == lines;
      if ends {
        EndOfStream();
      }
    }

    /** `wait_ready(timeout)`: whether the ready latch is set. */
    method WaitReady() returns (r: bool)
      requires Valid()
      ensures r == (streamEnded || Ready in signalsRead)
    {
      r := readyEvent.Wait();
    }

    /** `wait_black(timeout)`: whether the black latch is set. */
    method WaitBlack() returns (r: bool)
      requires Valid()
      ensures r == (streamEnded || Black in signalsRead)
    {
      r := blackEvent.Wait();
    }

    /** `is_running()`: a process exists and has not exited. Only a
        successful `start()` makes one, and it also starts the reader. */
    function IsRunning(): (r: bool)
      reads this
      ensures r <==> process != NotStarted && process != Exited
    {
      process == Running
    }

    /** `terminate()`: SIGTERM, then SIGKILL if the animation has not exited
        within the two-second grace period. A process that is not running
        (never started, or already gone) is sent nothing, so a second call
        is harmless. */
    method Terminate(exitsWithinGrace: bool) returns (sent: seq<KillSignal>)
      requires Valid()
      modifies this
      ensures Valid()
      ensures old(process) == Running ==>
        process == Exited && sent == (if exitsWithinGrace then [SIGTERM] else [SIGTERM, SIGKILL])
      ensures old(process) != Running ==> process == old(process) && sent == []
      ensures !IsRunning()
      ensures readerStarted == old(readerStarted) && signalsRead == old(signalsRead) && streamEnded == old(streamEnded)
    {
      sent := [];
      if process == Running {
        sent := [SIGTERM];
        if !exitsWithinGrace {
          sent := sent + [SIGKILL];
        }
        process := Exited;
      }
    }
  }
}
