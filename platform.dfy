/** The operating-system surface the shutdown effect looks at, reduced to
    values: optional values, paths, and a snapshot of the filesystem. */
module Platform {

  datatype Option<T> = None | Some(value: T)

  /** A filesystem path, as the string Python passes around. */
  type Path = string

  /** A snapshot of the filesystem: each directory with the names of its
      entries, and the paths of the non-directory files. */
  datatype FileSystem = FileSystem(dirs: map<Path, set<string>>, files: set<Path>)

  /** `os.path.isdir(p)` / `Path(p).is_dir()`. The empty path names
      nothing: `os.path.isdir("")` is false. */
  predicate IsDir(fs: FileSystem, p: Path)
  {
    p != "" && p in fs.dirs
  }

  /** `os.path.exists(p)` / `Path(p).exists()`; false for the empty path. */
  predicate Exists(fs: FileSystem, p: Path)
  {
    p != "" && (p in fs.dirs || p in fs.files)
  }

  /** `os.listdir(p)`: the names of the entries of a directory. */
  function ListDir(fs: FileSystem, p: Path): set<string>
    requires IsDir(fs, p)
  {
    fs.dirs[p]
  }

  predicate IsAbsolute(p: Path)
  {
    |p| > 0 && p[0] == '/'
  }

  /** `os.path.join(dir, name)` on POSIX: an absolute `name` replaces `dir`;
      otherwise a `/` is put between the two unless `dir` is empty or
      already ends in one. */
  function Join(dir: Path, name: string): (r: Path)
    ensures IsAbsolute(name) ==> r == name
    ensures !IsAbsolute(name) && (dir == [] || dir[|dir| - 1] == '/') ==> r == dir + name
    ensures !IsAbsolute(name) && dir != [] && dir[|dir| - 1] != '/' ==> r == dir + "/" + name
  {
    if IsAbsolute(name) then name
    else if dir == [] || dir[|dir| - 1] == '/' then dir + name
    else dir + "/" + name
  }

  /** The joined path ends with `name` and, when `name` is relative, starts
      with `dir`. */
  lemma JoinEnds(dir: Path, name: string)
    ensures var r := Join(dir, name);
      |r| >= |name| && r[|r| - |name|..] == name
      && (!IsAbsolute(name) ==> |dir| <= |r| && r[..|dir|] == dir)
  {
    var r := Join(dir, name);
    if !IsAbsolute(name) {
      assert r[..|dir|] == dir;
    }
  }

  /** Joining onto a directory that does not end in `/` and then joining
      again puts exactly one `/` before each relative component:
      `join(dir, a, b) == dir + "/" + a + "/" + b`. */
  lemma JoinTwice(dir: Path, a: string, b: string)
    requires dir != [] && dir[|dir| - 1] != '/'
    requires a != [] && !IsAbsolute(a) && a[|a| - 1] != '/'
    requires !IsAbsolute(b)
    ensures Join(Join(dir, a), b) == dir + "/" + a + "/" + b
  {
    var da := Join(dir, a);
    assert da == dir + "/" + a;
    assert da[|da| - 1] == a[|a| - 1];
  }
}
