/** Animation discovery (`src/discovery.py`): an animation is a directory
    holding an `animate.py` script. Animations come from an explicit
    override directory (`SHUTDOWN_EFFECTS_DIR`, exclusive when set), or
    else from the bundled directory merged with the user's configuration
    directory, the user's entries winning on a name clash. */
module Discovery {
  import opened Platform
  import Sorting

  const AnimateScript: string := "animate.py"

  /** Where discovery looks. `effectsDir` is the value of the environment
      variable `SHUTDOWN_EFFECTS_DIR` (None when unset); `userDir` is the XDG
      configuration directory's `animations/`; `bundledDir` is the
      package-local `animations/`. */
  datatype Sources = Sources(effectsDir: Option<string>, userDir: Path, bundledDir: Path)

  /** `if env_dir:` — set and non-empty. */
  predicate OverrideSet(src: Sources)
  {
    src.effectsDir.Some? && src.effectsDir.value != ""
  }

  /** A directory entry qualifies as an animation when it is itself a
      directory and has an `animate.py` inside. */
  predicate IsAnimationDir(fs: FileSystem, entry: Path)
  {
    IsDir(fs, entry) && Exists(fs, Join(entry, AnimateScript))
  }

  /** The animations found directly inside `dir`, by name. */
  function Scan(fs: FileSystem, dir: Path): map<string, Path>
  {
    if IsDir(fs, dir) then
      map name | name in ListDir(fs, dir) && IsAnimationDir(fs, Join(dir, name)) :: Join(dir, name)
    else map[]
  }

  /** `_get_animations_from_dir`: walks the entries of `dir` (in whatever
      order the filesystem yields them) and records each animation under
      its own name. */
  method ScanDir(fs: FileSystem, dir: Path) returns (result: map<string, Path>)
    ensures forall name :: name in result <==>
      IsDir(fs, dir) && name in ListDir(fs, dir) && IsAnimationDir(fs, Join(dir, name))
    ensures forall name :: name in result ==> result[name] == Join(dir, name)
    ensures !IsDir(fs, dir) ==> result == map[]
    ensures result == Scan(fs, dir)
  {
    result := map[];
    if IsDir(fs, dir) {
      var pending := ListDir(fs, dir);
      while pending != {}
        invariant pending <= ListDir(fs, dir)
        invariant forall name :: name in result <==>
          name in ListDir(fs, dir) - pending && IsAnimationDir(fs, Join(dir, name))
        invariant forall name :: name in result ==> result[name] == Join(dir, name)
        decreases |pending|
      {
        var name :| name in pending;
        var entry := Join(dir, name);
        if IsDir(fs, entry) && Exists(fs, Join(entry, AnimateScript)) {
          result := result[name := entry];
        }
        pending := pending - {name};
      }
      assert result.Keys == Scan(fs, dir).Keys;
    }
  }

  /** `get_all_animations`: the override directory alone when it is set,
      otherwise the bundled animations overlaid by the user's. */
  function AllAnimations(fs: FileSystem, src: Sources): (r: map<string, Path>)
    ensures OverrideSet(src) ==> r == Scan(fs, src.effectsDir.value)
    ensures !OverrideSet(src) ==> r.Keys == Scan(fs, src.bundledDir).Keys + Scan(fs, src.userDir).Keys
    ensures !OverrideSet(src) ==> forall name :: name in Scan(fs, src.userDir) ==>
      r[name] == Scan(fs, src.userDir)[name]
    ensures !OverrideSet(src) ==> forall name :: name in Scan(fs, src.bundledDir) && name !in Scan(fs, src.userDir) ==>
      r[name] == Scan(fs, src.bundledDir)[name]
  {
    if OverrideSet(src) then Scan(fs, src.effectsDir.value)
    else Scan(fs, src.bundledDir) + Scan(fs, src.userDir)
  }

  /** The same computation as the source writes it: start empty, update with
      the bundled scan, then with the user scan. */
  method GetAllAnimations(fs: FileSystem, src: Sources) returns (result: map<string, Path>)
    ensures result == AllAnimations(fs, src)
  {
    if OverrideSet(src) {
      result := ScanDir(fs, src.effectsDir.value);
      return;
    }
    result := map[];
    var bundled := ScanDir(fs, src.bundledDir);
    result := result + bundled;
    var user := ScanDir(fs, src.userDir);
    result := result + user;
  }

  /** Every discovered animation is a real animation directory, found under
      its own name in one of the directories discovery consults. */
  lemma AllAnimationsAreValid(fs: FileSystem, src: Sources, name: string)
    requires name in AllAnimations(fs, src)
    ensures IsAnimationDir(fs, AllAnimations(fs, src)[name])
    ensures OverrideSet(src) ==> AllAnimations(fs, src)[name] == Join(src.effectsDir.value, name)
    ensures !OverrideSet(src) ==>
      AllAnimations(fs, src)[name] == Join(src.userDir, name) ||
      AllAnimations(fs, src)[name] == Join(src.bundledDir, name)
  {
    if !OverrideSet(src) && name !in Scan(fs, src.userDir) {
      assert name in Scan(fs, src.bundledDir);
    }
  }

  /** With the override set, the user and bundled directories play no part,
      even when the override directory does not exist. */
  lemma OverrideIsExclusive(fs: FileSystem, src: Sources, other: Sources)
    requires OverrideSet(src) && other.effectsDir == src.effectsDir
    ensures AllAnimations(fs, src) == AllAnimations(fs, other)
    ensures !IsDir(fs, src.effectsDir.value) ==> AllAnimations(fs, src) == map[]
  {
  }

  /** `list_animations`: the discovered names in ascending order, each once. */
  function ListAnimations(fs: FileSystem, src: Sources): (names: seq<string>)
    ensures Sorting.StrictlySorted(names)
    ensures forall name :: name in names <==> name in AllAnimations(fs, src)
    ensures |names| == |AllAnimations(fs, src)|
  {
    Sorting.SortSet(AllAnimations(fs, src).Keys)
  }

  /** `get_animation_script`: the `animate.py` of the named animation, or
      None when no animation has that name. A script it returns exists. */
  function GetAnimationScript(fs: FileSystem, src: Sources, name: string): (r: Option<Path>)
    ensures r.Some? <==> name in AllAnimations(fs, src)
    ensures r.Some? ==> r.value == Join(AllAnimations(fs, src)[name], AnimateScript)
    ensures r.Some? ==> Exists(fs, r.value)
  {
    var animations := AllAnimations(fs, src);
    if name in animations then
      AllAnimationsAreValid(fs, src, name);
      Some(Join(animations[name], AnimateScript))
    else None
  }

  /** `get_animations_dir` (legacy): the first of the override, user and
      bundled directories that is a directory. */
  function GetAnimationsDir(fs: FileSystem, src: Sources): (r: Option<Path>)
    ensures r.Some? ==> IsDir(fs, r.value)
    ensures r.None? <==>
      !(OverrideSet(src) && IsDir(fs, src.effectsDir.value)) && !IsDir(fs, src.userDir) && !IsDir(fs, src.bundledDir)
    ensures OverrideSet(src) && IsDir(fs, src.effectsDir.value) ==> r == Some(src.effectsDir.value)
    ensures !(OverrideSet(src) && IsDir(fs, src.effectsDir.value)) && IsDir(fs, src.userDir) ==>
      r == Some(src.userDir)
    ensures !(OverrideSet(src) && IsDir(fs, src.effectsDir.value)) && !IsDir(fs, src.userDir) && IsDir(fs, src.bundledDir) ==>
      r == Some(src.bundledDir)
  {
    if OverrideSet(src) && IsDir(fs, src.effectsDir.value) then Some(src.effectsDir.value)
    else if IsDir(fs, src.userDir) then Some(src.userDir)
    else if IsDir(fs, src.bundledDir) then Some(src.bundledDir)
    else None
  }

  /** The legacy lookup does not treat the override as exclusive: when the
      override names a missing directory, discovery finds nothing while the
      legacy lookup falls back to the user or bundled directory. */
  lemma LegacyDirIgnoresMissingOverride(fs: FileSystem, src: Sources)
    requires OverrideSet(src) && !IsDir(fs, src.effectsDir.value)
    requires IsDir(fs, src.userDir)
    ensures AllAnimations(fs, src) == map[]
    ensures GetAnimationsDir(fs, src) == Some(src.userDir)
  {
  }
}
