/** The part of the file system that `ProveCommand::run` touches
    (crates/client/src/prove_cmd.rs:106-115): paths built with `Path::join`, the file stem
    of the witness path, `std::fs::create_dir_all` and `std::fs::write`. Which operations
    the operating system refuses is abstracted as a set of denied paths. */
module Storage {
  import opened Results

  /** A path as the sequence of components `Path::components` yields; that iterator drops
      "." components after the first, so a "." can only stand for the whole path. */
  datatype Path = Path(components: seq<string>)

  /** `Path::join` with a single relative component. */
  function Join(p: Path, name: string): (r: Path)
    ensures |r.components| == |p.components| + 1
    ensures Parent(r) == p && LastComponent(r) == name
  {
    Path(p.components + [name])
  }

  function Parent(p: Path): Path
    requires |p.components| > 0
  {
    Path(p.components[..|p.components| - 1])
  }

  function LastComponent(p: Path): string
    requires |p.components| > 0
  {
    p.components[|p.components| - 1]
  }

  /** `Path::file_name` returns a name: the path has a last component and it is neither
      "." nor "..". */
  predicate HasFileName(p: Path) {
    |p.components| > 0 && LastComponent(p) != "" && LastComponent(p) != "." && LastComponent(p) != ".."
  }

  /** The position of the last '.' in a name, if any. */
  function LastDot(name: string): (r: Option<nat>)
    ensures r.Some? ==> r.value < |name| && name[r.value] == '.' && '.' !in name[r.value + 1..]
    ensures r.None? <==> '.' !in name
  {
    if name == [] then None
    else if name[|name| - 1] == '.' then Some(|name| - 1)
    else
      var r := LastDot(name[..|name| - 1]);
      assert name == name[..|name| - 1] + [name[|name| - 1]];
      match r
      case None => None
      case Some(i) =>
        assert name[i + 1..] == name[..|name| - 1][i + 1..] + [name[|name| - 1]];
        Some(i)
  }

  /** A dot with no dot after it is the last dot. */
  lemma LastDotAt(name: string, i: nat)
    requires i < |name| && name[i] == '.' && '.' !in name[i + 1..]
    ensures LastDot(name) == Some(i)
  {
  }

  /** `Path::file_stem` of a file name: the name without its last extension. A name with
      no dot, or whose only dot is its first character, is its own stem. */
  function FileStem(name: string): (stem: string)
    requires name != "" && name != ".."
    ensures |stem| > 0 && stem <= name
    ensures stem == name || (name[|stem|] == '.' && '.' !in name[|stem| + 1..])
    ensures stem == name <==> '.' !in name[1..]
  {
    match LastDot(name)
    case None => name
    case Some(i) => if i == 0 then name else name[..i]
  }

  /** The observable file-system state: existing directories and file contents. */
  datatype FsState = FsState(dirs: set<Path>, files: map<Path, string>)

  /** The path itself and every prefix of it. The empty prefix stands for the directory that
      relative paths start from, which always exists. */
  function Ancestors(p: Path): (r: set<Path>)
    ensures p in r
  {
    assert p.components[..|p.components|] == p.components;
    set i | 0 <= i <= |p.components| :: Path(p.components[..i])
  }

  /** `std::fs::create_dir_all`: succeeds at once on an existing directory, fails on a
      denied one, and otherwise creates the directory with all its ancestors. */
  function AfterCreateDirAll(s: FsState, denied: set<Path>, dir: Path): (r: (Result<(), Path>, FsState))
    ensures r.1.files == s.files && s.dirs <= r.1.dirs
    ensures r.1.dirs <= s.dirs + Ancestors(dir)
    ensures r.0.Success? && dir !in s.dirs ==> Ancestors(dir) <= r.1.dirs
    ensures r.0.Success? <==> dir in s.dirs || dir !in denied
    ensures r.0.Success? ==> dir in r.1.dirs
    ensures r.0.Failure? ==> r.1 == s
  {
    if dir in s.dirs then (Success(()), s)
    else if dir in denied then (Failure(dir), s)
    else (Success(()), s.(dirs := s.dirs + Ancestors(dir)))
  }

  /** `std::fs::write`: creates or truncates the file; fails when the parent directory is
      missing or the path is denied. */
  function AfterWrite(s: FsState, denied: set<Path>, path: Path, contents: string): (r: (Result<(), Path>, FsState))
    requires |path.components| > 0
    ensures r.1.dirs == s.dirs
    ensures r.0.Success? <==> Parent(path) in s.dirs && path !in denied
    ensures r.0.Success? ==> path in r.1.files && r.1.files[path] == contents
    ensures r.0.Success? ==> r.1.files.Keys == s.files.Keys + {path}
    ensures forall q :: q in s.files && q != path ==> q in r.1.files && r.1.files[q] == s.files[q]
    ensures r.0.Failure? ==> r.1 == s
  {
    if Parent(path) in s.dirs && path !in denied then (Success(()), s.(files := s.files[path := contents]))
    else (Failure(path), s)
  }

  /** Creating a directory that was just created changes nothing. */
  lemma CreateDirAllIdempotent(s: FsState, denied: set<Path>, dir: Path)
    requires AfterCreateDirAll(s, denied, dir).0.Success?
    ensures var s1 := AfterCreateDirAll(s, denied, dir).1; AfterCreateDirAll(s1, denied, dir) == (Success(()), s1)
  {
  }

  /** Writing overwrites: the last write decides the contents. */
  lemma WriteFileOverwrites(s: FsState, denied: set<Path>, path: Path, first: string, second: string)
    requires |path.components| > 0
    requires AfterWrite(s, denied, path, first).0.Success?
    ensures AfterWrite(AfterWrite(s, denied, path, first).1, denied, path, second) == AfterWrite(s, denied, path, second)
  {
    assert s.files[path := first][path := second] == s.files[path := second];
  }

  /** A file system with its directory and file views over `FsState`. */
  class FileSystem {
    var dirs: set<Path>
    var files: map<Path, string>
    const denied: set<Path>

    function State(): FsState
      reads this
    {
      FsState(dirs, files)
    }

    constructor (dirs: set<Path>, files: map<Path, string>, denied: set<Path>)
      ensures State() == FsState(dirs, files) && this.denied == denied
    {
      this.dirs := dirs;
      this.files := files;
      this.denied := denied;
    }

    method CreateDirAll(dir: Path) returns (r: Result<(), Path>)
      modifies this
      ensures (r, State()) == AfterCreateDirAll(old(State()), denied, dir)
    {
      if dir in dirs {
        r := Success(());
      } else if dir in denied {
        r := Failure(dir);
      } else {
        dirs := dirs + Ancestors(dir);
        r := Success(());
      }
    }

    method Write(path: Path, contents: string) returns (r: Result<(), Path>)
      requires |path.components| > 0
      modifies this
      ensures (r, State()) == AfterWrite(old(State()), denied, path, contents)
    {
      if Parent(path) in dirs && path !in denied {
        files := files[path := contents];
        r := Success(());
      } else {
        r := Failure(path);
      }
    }
  }
}
