/** The top level of `shutdown-effect.py`: where the script looks for
    animations, how it lists them and validates the choice, and the fixed
    sequence of `main` — start the animation, wait for READY, skip window
    closing, wait for BLACK, then run the power action. */
module Orchestrator {
  import opened Platform
  import opened Signals
  import Power
  import Sorting
  import Discovery

  const DefaultAnimation: string := "fire"

  /** The `action` choices of `parse_args`. */
  const CliActions: set<string> := {"shutdown", "reboot", "logout", "suspend", "hibernate", "windows", "test"}

  /** A path component that `os.path.join` puts after a `/` of its own:
      non-empty, relative, and not ending in `/`. */
  predicate PlainComponent(s: string)
  {
    s != [] && !IsAbsolute(s) && s[|s| - 1] != '/'
  }

  /** `ANIMATIONS_DIR`: the value of `SHUTDOWN_ANIMATIONS_DIR` whenever it is
      set, even to the empty string, else `animations` beside the script. */
  function AnimationsDir(envValue: Option<string>, scriptDir: Path): (dir: Path)
    ensures envValue.Some? ==> dir == envValue.value
    ensures envValue.None? ==> dir == Join(scriptDir, "animations")
  {
    if envValue.Some? then envValue.value else Join(scriptDir, "animations")
  }

  /** `get_animation_script(name)`: `<dir>/<name>/animate.py`, whether or not
      it exists. */
  function AnimationScript(animationsDir: Path, name: string): (p: Path)
    ensures |p| >= |Discovery.AnimateScript| && p[|p| - |Discovery.AnimateScript|..] == Discovery.AnimateScript
    ensures PlainComponent(animationsDir) && PlainComponent(name) ==>
      p == animationsDir + "/" + name + "/" + Discovery.AnimateScript
    ensures animationsDir == [] && PlainComponent(name) ==> p == name + "/" + Discovery.AnimateScript
    ensures IsAbsolute(name) && name[|name| - 1] != '/' ==> p == name + "/" + Discovery.AnimateScript
  {
    AnimationScriptShape(animationsDir, name);
    Join(Join(animationsDir, name), Discovery.AnimateScript)
  }

  lemma AnimationScriptShape(animationsDir: Path, name: string)
    ensures var p := Join(Join(animationsDir, name), Discovery.AnimateScript);
      && |p| >= |Discovery.AnimateScript| && p[|p| - |Discovery.AnimateScript|..] == Discovery.AnimateScript
      && (PlainComponent(animationsDir) && PlainComponent(name) ==>
            p == animationsDir + "/" + name + "/" + Discovery.AnimateScript)
      && (animationsDir == [] && PlainComponent(name) ==> p == name + "/" + Discovery.AnimateScript)
      && (IsAbsolute(name) && name[|name| - 1] != '/' ==> p == name + "/" + Discovery.AnimateScript)
  {
    var d := Join(animationsDir, name);
    JoinEnds(d, Discovery.AnimateScript);
    if PlainComponent(animationsDir) && PlainComponent(name) {
      JoinTwice(animationsDir, name, Discovery.AnimateScript);
    }
    if animationsDir == [] && PlainComponent(name) {
      assert d == name;
      assert d[|d| - 1] != '/';
    }
    if IsAbsolute(name) && name[|name| - 1] != '/' {
      assert d == name;
    }
  }

  /** With the launcher's animations directory also given to discovery as
      its override, a script discovery finds is the very path the launcher
      starts, and the launcher lists that name. */
  lemma DiscoveredScriptIsLauncherScript(fs: FileSystem, dir: Path, userDir: Path, bundledDir: Path, name: string)
    requires dir != ""
    ensures var found := Discovery.GetAnimationScript(fs, Discovery.Sources(Some(dir), userDir, bundledDir), name);
      found.Some? ==> found.value == AnimationScript(dir, name) && name in ScriptAnimations(fs, dir)
  {
    var src := Discovery.Sources(Some(dir), userDir, bundledDir);
    var found := Discovery.GetAnimationScript(fs, src, name);
    if found.Some? {
      assert name in Discovery.Scan(fs, dir);
      assert found.value == AnimationScript(dir, name);
    }
  }

  /** The entries of `dir` under which an `animate.py` exists. */
  function ScriptAnimations(fs: FileSystem, dir: Path): set<string>
  {
    if IsDir(fs, dir) then set name | name in ListDir(fs, dir) && Exists(fs, AnimationScript(dir, name))
    else {}
  }

  /** `list_animations()` of the script: collects, in directory order, every
      entry of `dir` that has an `animate.py`, then sorts. */
  method ListAnimations(fs: FileSystem, dir: Path) returns (names: seq<string>)
    ensures Sorting.StrictlySorted(names)
    ensures forall name :: name in names <==>
      IsDir(fs, dir) && name in ListDir(fs, dir) && Exists(fs, AnimationScript(dir, name))
    ensures names == Sorting.SortSet(ScriptAnimations(fs, dir))
  {
    var animations: seq<string> := [];
    if IsDir(fs, dir) {
      var pending := ListDir(fs, dir);
      while pending != {}
        invariant pending <= ListDir(fs, dir)
        invariant forall name :: name in animations <==>
          name in ListDir(fs, dir) - pending && Exists(fs, AnimationScript(dir, name))
        decreases |pending|
      {
        var name :| name in pending;
        if Exists(fs, AnimationScript(dir, name)) {
          animations := animations + [name];
        }
        pending := pending - {name};
      }
    }
    var found := set name | name in animations;
    assert found == ScriptAnimations(fs, dir);
    names := Sorting.SortSet(found);
  }

  /** On a filesystem where a path holding a file is a directory, the
      script's own listing of a directory agrees with discovery's scan of
      the same directory. */
  lemma ScriptListingAgreesWithDiscovery(fs: FileSystem, dir: Path)
    requires forall name :: IsDir(fs, dir) && name in ListDir(fs, dir) && Exists(fs, AnimationScript(dir, name)) ==>
      IsDir(fs, Join(dir, name))
    ensures ScriptAnimations(fs, dir) == Discovery.Scan(fs, dir).Keys
  {
    if IsDir(fs, dir) {
      forall name | name in ScriptAnimations(fs, dir) ensures name in Discovery.Scan(fs, dir) {
        assert Discovery.IsAnimationDir(fs, Join(dir, name));
      }
    }
  }

  /** The `--animation` check of `parse_args`: None means argparse rejects
      the command line. An explicit name must be one of the listed
      animations, unless none were found (then anything goes); the default
      is not checked. */
  function ChooseAnimation(available: seq<string>, given: Option<string>): (r: Option<string>)
    ensures given.None? ==> r == Some(DefaultAnimation)
    ensures given.Some? ==> (r.Some? <==> available == [] || given.value in available)
    ensures r.Some? && given.Some? ==> r.value == given.value
  {
    match given
    case None => Some(DefaultAnimation)
    case Some(name) => if available == [] || name in available then Some(name) else None
  }

  /** An explicit `--animation` is accepted against a non-empty listing
      exactly when the listing's directory has an `animate.py` under that
      name; so an accepted explicit name always has a script to start. */
  lemma ExplicitChoiceIff(fs: FileSystem, dir: Path, name: string)
    requires ScriptAnimations(fs, dir) != {}
    ensures ChooseAnimation(Sorting.SortSet(ScriptAnimations(fs, dir)), Some(name)) == Some(name) <==>
      IsDir(fs, dir) && name in ListDir(fs, dir) && Exists(fs, AnimationScript(dir, name))
    ensures ChooseAnimation(Sorting.SortSet(ScriptAnimations(fs, dir)), Some(name)).None? <==>
      !Exists(fs, AnimationScript(dir, name)) || name !in ListDir(fs, dir)
  {
    var available := Sorting.SortSet(ScriptAnimations(fs, dir));
    assert available != [] by { assert |available| == |ScriptAnimations(fs, dir)|; }
  }

  /** When nothing is listed, argparse checks nothing: any explicit name is
      accepted, whether or not it has a script. */
  lemma EmptyListingAcceptsAnything(fs: FileSystem, dir: Path, name: string)
    requires ScriptAnimations(fs, dir) == {}
    ensures ChooseAnimation(Sorting.SortSet(ScriptAnimations(fs, dir)), Some(name)) == Some(name)
  {
    assert |Sorting.SortSet(ScriptAnimations(fs, dir))| == 0;
  }

  /** A directory `a` whose only animation is `sakura`. */
  function SakuraOnly(): FileSystem
  {
    FileSystem(map["a" := {"sakura"}, "a/sakura" := {"animate.py"}], {"a/sakura/animate.py"})
  }

  lemma SakuraOnlyListing()
    ensures ScriptAnimations(SakuraOnly(), "a") == {"sakura"}
    ensures !Exists(SakuraOnly(), AnimationScript("a", DefaultAnimation))
  {
    assert PlainComponent("a") && PlainComponent("sakura") && PlainComponent(DefaultAnimation);
    var sakura, fire := AnimationScript("a", "sakura"), AnimationScript("a", DefaultAnimation);
    assert sakura == "a" + "/" + "sakura" + "/" + Discovery.AnimateScript;
    assert sakura == "a/sakura/animate.py";
    assert fire == "a" + "/" + DefaultAnimation + "/" + Discovery.AnimateScript;
    assert |fire| == 17;
  }

  /** The default is never checked against the listing: in a directory
      holding only `sakura`, `-a fire` is rejected, yet running without `-a`
      picks `fire`, whose script does not exist, so the start fails. */
  lemma DefaultIsNotChecked()
    ensures var available := Sorting.SortSet(ScriptAnimations(SakuraOnly(), "a"));
      && available == ["sakura"]
      && ChooseAnimation(available, Some(DefaultAnimation)).None?
      && ChooseAnimation(available, None) == Some(DefaultAnimation)
      && !Exists(SakuraOnly(), AnimationScript("a", DefaultAnimation))
  {
    SakuraOnlyListing();
    var available := Sorting.SortSet({"sakura"});
    assert |available| == 1 && available[0] in {"sakura"};
  }

  /** `SHUTDOWN_ANIMATIONS_DIR=""` is kept as the launcher's animations
      directory. `os.path.isdir("")` is false, so the launcher lists
      nothing, argparse then accepts any `--animation`, and the script is
      looked up relative to the working directory. Discovery reads its own
      variable, `SHUTDOWN_EFFECTS_DIR`, and tests it for truth, so an empty
      value there counts as unset instead. */
  lemma EmptyEnvironmentValue(fs: FileSystem, scriptDir: Path, userDir: Path, bundledDir: Path,
                              action: string, name: string)
    requires action in CliActions && PlainComponent(name)
    ensures AnimationsDir(Some(""), scriptDir) == ""
    ensures ScriptAnimations(fs, AnimationsDir(Some(""), scriptDir)) == {}
    ensures ParsedAnimation(fs, Some(""), scriptDir, action, Some(name)) == Some(name)
    ensures AnimationScript(AnimationsDir(Some(""), scriptDir), name) == name + "/" + Discovery.AnimateScript
    ensures !Discovery.OverrideSet(Discovery.Sources(Some(""), userDir, bundledDir))
  {
    assert |Sorting.SortSet(ScriptAnimations(fs, ""))| == 0;
  }

  /** What the reader thread delivers while the main flow waits: the lines
      it reads before the deadline, and whether the stream then ends. */
  datatype ReaderProgress = ReaderProgress(lines: seq<string>, ends: bool)

  /** The steps of `main`, in the order they happen. */
  datatype Step =
    | StartAnimation(result: StartResult)
    | WaitReady(signalled: bool)
    | SkipWindowClose
    | WaitBlack(signalled: bool)
    | PowerAction(outcome: Power.PowerOutcome)

  /** How the process ends: with an exit status, or never by itself (the
      system kills it during the power transition). */
  datatype Exit = ExitStatus(code: int) | NeverExits

  /** The power action never comes before both waits have returned. */
  predicate PowerActionAfterWaits(steps: seq<Step>)
  {
    forall i :: 0 <= i < |steps| && steps[i].PowerAction? ==>
      (exists j :: 0 <= j < i && steps[j].WaitReady?) && (exists k :: 0 <= k < i && steps[k].WaitBlack?)
  }

  /** The animation's part of `main()`: spawn it, then wait for READY and,
      later, for BLACK. Each wait sees whatever the reader has delivered by
      then; once the stream has ended both waits return true. */
  method RunAnimation(fs: FileSystem, script: Path, spawns: bool, beforeReady: ReaderProgress, beforeBlack: ReaderProgress)
    returns (started: StartResult, ready: bool, black: bool)
    ensures started == ScriptMissing <==> !Exists(fs, script)
    ensures started == SpawnRaised <==> Exists(fs, script) && !spawns
    ensures started == Started ==> ready == (beforeReady.ends || Ready in Classified(beforeReady.lines))
    ensures started == Started ==> black == (beforeReady.ends || beforeBlack.ends ||
                                             Black in Classified(beforeReady.lines + beforeBlack.lines))
    ensures started != Started ==> !ready && !black
  {
    var animation := new AnimationProcess(script);
    started := animation.Start(fs, spawns);
    if started != Started {
      return started, false, false;
    }
    animation.AdvanceReader(beforeReady.lines, beforeReady.ends);
    ready := animation.WaitReady();
    animation.AdvanceReader(beforeBlack.lines, beforeBlack.ends);
    black := animation.WaitBlack();
    ClassifiedAppend(beforeReady.lines, beforeBlack.lines);
  }

  /** The exit status that a completed power action leaves. */
  function ExitOf(c: Power.Completion): (e: Exit)
    ensures e == NeverExits <==> c == Power.HoldsForever
    ensures e == ExitStatus(0) <==> c == Power.Returns
    ensures e == ExitStatus(1) <==> c == Power.Raises
  {
    match c
    case Returns => ExitStatus(0)
    case HoldsForever => NeverExits
    case Raises => ExitStatus(1)
  }

  /** The start outcome `RunAnimation` reports for `script`. */
  function StartOutcome(fs: FileSystem, script: Path, spawns: bool): StartResult
  {
    if !Exists(fs, script) then ScriptMissing else if !spawns then SpawnRaised else Started
  }

  /** The animation `parse_args` settles on, or None when argparse rejects
      the command line. */
  function ParsedAnimation(fs: FileSystem, envValue: Option<string>, scriptDir: Path,
                           action: string, givenAnimation: Option<string>): Option<string>
  {
    if action !in CliActions then None
    else
      var dir := AnimationsDir(envValue, scriptDir);
      ChooseAnimation(Sorting.SortSet(ScriptAnimations(fs, dir)), givenAnimation)
  }

  /** `main()` from the start of the animation on, for the animation
      `script` that argument parsing settled on. */
  method RunWithScript(fs: FileSystem, script: Path, spawns: bool, action: string, holdTime: int,
                       beforeReady: ReaderProgress, beforeBlack: ReaderProgress,
                       sessionOutput: Option<string>, bootNextOk: bool)
    returns (exit: Exit, steps: seq<Step>)
    ensures PowerActionAfterWaits(steps)
    ensures StartOutcome(fs, script, spawns) != Started ==>
      exit == ExitStatus(1) && steps == [StartAnimation(StartOutcome(fs, script, spawns))]
    ensures StartOutcome(fs, script, spawns) == Started ==>
      var outcome := Power.ExecutePowerAction(action, true, holdTime, sessionOutput, bootNextOk);
      && steps == [StartAnimation(Started),
                   WaitReady(beforeReady.ends || Ready in Classified(beforeReady.lines)),
                   SkipWindowClose,
                   WaitBlack(beforeReady.ends || beforeBlack.ends ||
                             Black in Classified(beforeReady.lines + beforeBlack.lines)),
                   PowerAction(outcome)]
      && exit == ExitOf(outcome.completion)
    ensures beforeReady.ends && |steps| == 5 ==> steps[1] == WaitReady(true) && steps[3] == WaitBlack(true)
  {
    var started, ready, black := RunAnimation(fs, script, spawns, beforeReady, beforeBlack);
    if started != Started {
      return ExitStatus(1), [StartAnimation(started)];
    }
    var outcome := Power.ExecutePowerAction(action, true, holdTime, sessionOutput, bootNextOk);
    steps := [StartAnimation(Started), WaitReady(ready), SkipWindowClose, WaitBlack(black), PowerAction(outcome)];
    assert steps[1].WaitReady? && steps[3].WaitBlack?;
    exit := ExitOf(outcome.completion);
  }

  /** `parse_args()`: lists the animations of `ANIMATIONS_DIR`, then checks
      the action and the `--animation` choice against them. None means
      argparse rejects the command line. */
  method ParseArgs(fs: FileSystem, envValue: Option<string>, scriptDir: Path,
                   action: string, givenAnimation: Option<string>)
    returns (animation: Option<string>)
    ensures animation == ParsedAnimation(fs, envValue, scriptDir, action, givenAnimation)
    ensures action !in CliActions ==> animation.None?
    ensures action in CliActions && givenAnimation.None? ==> animation == Some(DefaultAnimation)
    ensures animation.Some? && givenAnimation.Some? ==>
      animation == givenAnimation &&
      (ScriptAnimations(fs, AnimationsDir(envValue, scriptDir)) == {} ||
       givenAnimation.value in ScriptAnimations(fs, AnimationsDir(envValue, scriptDir)))
  {
    var available := ListAnimations(fs, AnimationsDir(envValue, scriptDir));
    if action !in CliActions {
      return None;
    }
    animation := ChooseAnimation(available, givenAnimation);
    assert |available| == |ScriptAnimations(fs, AnimationsDir(envValue, scriptDir))|;
  }

  /** `main()`. `envValue` is `SHUTDOWN_ANIMATIONS_DIR` and `scriptDir` the
      script's own directory; `givenAnimation` is the `--animation`
      argument, if any. `spawns` says whether `Popen` can start the
      animation; `beforeReady` and `beforeBlack` are what its reader
      delivers before each wait returns; `sessionOutput` and `bootNextOk`
      are what the logout and windows paths see from the system. argparse
      rejects a bad command line with status 2, and an uncaught exception
      ends Python with status 1. */
  method RunShutdownEffect(fs: FileSystem, envValue: Option<string>, scriptDir: Path, action: string,
                           givenAnimation: Option<string>, holdTime: int, spawns: bool,
                           beforeReady: ReaderProgress, beforeBlack: ReaderProgress,
                           sessionOutput: Option<string>, bootNextOk: bool)
    returns (exit: Exit, steps: seq<Step>)
    ensures PowerActionAfterWaits(steps)
    ensures ParsedAnimation(fs, envValue, scriptDir, action, givenAnimation).None? <==> exit == ExitStatus(2)
    ensures ParsedAnimation(fs, envValue, scriptDir, action, givenAnimation).None? ==> steps == []
    ensures ParsedAnimation(fs, envValue, scriptDir, action, givenAnimation).Some? ==>
      var script := AnimationScript(AnimationsDir(envValue, scriptDir), ParsedAnimation(fs, envValue, scriptDir, action, givenAnimation).value);
      && (StartOutcome(fs, script, spawns) != Started ==>
            exit == ExitStatus(1) && steps == [StartAnimation(StartOutcome(fs, script, spawns))])
      && (StartOutcome(fs, script, spawns) == Started ==>
            var outcome := Power.ExecutePowerAction(action, true, holdTime, sessionOutput, bootNextOk);
            && steps == [StartAnimation(Started),
                         WaitReady(beforeReady.ends || Ready in Classified(beforeReady.lines)),
                         SkipWindowClose,
                         WaitBlack(beforeReady.ends || beforeBlack.ends ||
                                   Black in Classified(beforeReady.lines + beforeBlack.lines)),
                         PowerAction(outcome)]
            && exit == ExitOf(outcome.completion))
  {
    var choice := ParseArgs(fs, envValue, scriptDir, action, givenAnimation);
    if choice.None? {
      return ExitStatus(2), [];
    }
    var script := AnimationScript(AnimationsDir(envValue, scriptDir), choice.value);
    exit, steps := RunWithScript(fs, script, spawns, action, holdTime,
                                 beforeReady, beforeBlack, sessionOutput, bootNextOk);
    assert exit != ExitStatus(2);
  }
}
