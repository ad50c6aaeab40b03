/** The part of the operating system the tool touches, kept abstract: a tree of
    directories with their permission bits, the subprocesses it has started (with
    the bytes written to their standard input), and the messages it printed to
    standard error. */
module Os {
  import opened Base

  /** A path as its components below the filesystem root: `["tmp", "x"]` is `/tmp/x`. */
  type Path = seq<string>

  /** The text of a path as it is handed to a subprocess argument. */
  function Render(p: Path): string {
    if p == [] then "" else Render(p[..|p| - 1]) + "/" + p[|p| - 1]
  }

  /** The text of a path below the root is absolute: it begins with `/`. */
  lemma {:induction false} RenderIsAbsolute(p: Path)
    requires p != []
    ensures |Render(p)| > 0 && Render(p)[0] == '/'
    decreases |p|
  {
    var init := p[..|p| - 1];
    if init != [] {
      RenderIsAbsolute(init);
    }
  }

  /** `Path::parent`: the path without its last component; the root has none. */
  function Parent(p: Path): (r: Option<Path>)
    ensures r.None? <==> p == []
    ensures r.Some? ==> r.value + [p[|p| - 1]] == p
  {
    if p == [] then None else Some(p[..|p| - 1])
  }

  /** `p` is `dir` itself or lies somewhere below it. */
  predicate Within(dir: Path, p: Path) {
    |dir| <= |p| && p[..|dir|] == dir
  }

  /** Every directory other than the root has its parent directory too. */
  predicate IsTree(dirs: map<Path, nat>) {
    forall p :: p in dirs ==> p != [] && (|p| > 1 ==> p[..|p| - 1] in dirs)
  }

  /** `fs::remove_dir_all(dir)`: `dir` and everything below it are gone. */
  function RemoveTree(dirs: map<Path, nat>, dir: Path): (r: map<Path, nat>)
    ensures forall p :: p in r <==> p in dirs && !Within(dir, p)
    ensures forall p :: p in r ==> r[p] == dirs[p]
  {
    map p | p in dirs && !Within(dir, p) :: dirs[p]
  }

  lemma RemoveTreeKeepsTree(dirs: map<Path, nat>, dir: Path)
    requires IsTree(dirs)
    ensures IsTree(RemoveTree(dirs, dir))
  {
    var r := RemoveTree(dirs, dir);
    forall p | p in r && |p| > 1 ensures p[..|p| - 1] in r {
      var q := p[..|p| - 1];
      assert |dir| <= |q| ==> p[..|dir|] == q[..|dir|];
    }
  }

  /** In a tree, nothing lies below a directory that does not exist. */
  lemma {:induction false} NothingBelowMissing(dirs: map<Path, nat>, dir: Path, p: Path)
    requires IsTree(dirs) && dir != [] && dir !in dirs
    requires p in dirs
    ensures !Within(dir, p)
    decreases |p|
  {
    assert p[..|p|] == p;
    if Within(dir, p) && |p| > |dir| {
      var q := p[..|p| - 1];
      assert q[..|dir|] == p[..|dir|];
      NothingBelowMissing(dirs, dir, q);
    }
  }

  /** Creating a fresh directory and then removing it with everything below it
      leaves the tree exactly as it was. */
  lemma CreateThenRemove(dirs: map<Path, nat>, dir: Path, mode: nat)
    requires IsTree(dirs) && dir != [] && dir !in dirs
    ensures RemoveTree(dirs[dir := mode], dir) == dirs
  {
    var r := RemoveTree(dirs[dir := mode], dir);
    forall p | p in dirs ensures p in r {
      NothingBelowMissing(dirs, dir, p);
    }
    assert r.Keys == dirs.Keys;
  }

  /** A program and its argument vector. */
  datatype Invocation = Invocation(program: string, args: seq<string>)

  /** `Command::args`: the same program with `extra` appended to its arguments. */
  function WithArgs(inv: Invocation, extra: seq<string>): (r: Invocation)
    ensures r.program == inv.program
    ensures |r.args| == |inv.args| + |extra|
    ensures r.args[..|inv.args|] == inv.args && r.args[|inv.args|..] == extra
  {
    Invocation(inv.program, inv.args + extra)
  }

  /** A subprocess that was started, with everything written to its standard input
      (the empty string for a null standard input). */
  datatype Spawned = Spawned(invocation: Invocation, stdin: string)

  class System {
    /** The directories that exist, with their permission bits. */
    var dirs: map<Path, nat>
    /** The subprocesses started so far, oldest first. */
    var issued: seq<Spawned>
    /** The errors printed to standard error so far, oldest first. */
    var reported: seq<Error>

    ghost predicate Valid()
      reads this`dirs
    {
      IsTree(dirs)
    }

    constructor (dirs: map<Path, nat>)
      requires IsTree(dirs)
      ensures Valid() && this.dirs == dirs && issued == [] && reported == []
    {
      this.dirs := dirs;
      issued := [];
      reported := [];
    }

    /** Records a subprocess that was started. */
    method Issue(invocation: Invocation, stdin: string)
      modifies this`issued
      ensures issued == old(issued) + [Spawned(invocation, stdin)]
    {
      issued := issued + [Spawned(invocation, stdin)];
    }

    /** `eprintln!` of an error. */
    method Report(e: Error)
      modifies this`reported
      ensures reported == old(reported) + [e]
    {
      reported := reported + [e];
    }

    /** `mkdir` with permission bits `mode`: fails when `path` already exists or its
        parent does not. */
    method MakeDir(path: Path, mode: nat) returns (ok: bool)
      requires Valid()
      modifies this`dirs
      ensures Valid()
      ensures ok <==> path != [] && path !in old(dirs) && (|path| == 1 || path[..|path| - 1] in old(dirs))
      ensures dirs == if ok then old(dirs)[path := mode] else old(dirs)
    {
      ok := path != [] && path !in dirs && (|path| == 1 || path[..|path| - 1] in dirs);
      if ok {
        dirs := dirs[path := mode];
      }
    }

    /** `fs::remove_dir_all`; the caller learns only whether `dir` existed. */
    method RemoveDirAll(dir: Path) returns (existed: bool)
      requires Valid()
      modifies this`dirs
      ensures Valid()
      ensures existed == (dir in old(dirs))
      ensures dirs == RemoveTree(old(dirs), dir)
    {
      existed := dir in dirs;
      RemoveTreeKeepsTree(dirs, dir);
      dirs := RemoveTree(dirs, dir);
    }
  }
}
