/** src/ssh_mux/temp_socket.rs: a socket path `sock` inside a private temporary
    directory, the directory being removed when the value is dropped. */
module TempSocket {
  import opened Base
  import opened Os

  /** Unix permission bits 0o700: read, write and search for the owner only. */
  const OwnerOnly: nat := 0x1C0

  const SocketName: string := "sock"

  datatype TempSocket = TempSocket(path: Path)

  /** The directory `tempfile` creates in `tmp` for `prefix` and the random part `name`. */
  function TempDirPath(tmp: Path, prefix: string, name: string): (dir: Path)
    ensures |dir| == |tmp| + 1 && dir[..|tmp|] == tmp
    ensures |prefix| <= |dir[|tmp|]| && dir[|tmp|][..|prefix|] == prefix
  {
    tmp + [prefix + name]
  }

  /** Whether creating that directory succeeds: a name was settled on, the
      directory does not exist yet and its parent does. */
  predicate CanCreate(dirs: map<Path, nat>, tmp: Path, prefix: string, name: Option<string>) {
    name.Some? && TempDirPath(tmp, prefix, name.value) !in dirs && (tmp == [] || tmp in dirs)
  }

  /** `from_tempdir`: the socket is the entry `sock` of the directory. */
  function FromTempDir(dir: Path): (s: TempSocket)
    ensures Parent(s.path) == Some(dir)
    ensures s.path[|s.path| - 1] == SocketName
  {
    TempSocket(dir + [SocketName])
  }

  /** `AsRef<OsStr>`: the path's text, read without giving up the socket. */
  function AsRef(s: TempSocket): string {
    Render(s.path)
  }

  /** The argument handed to ssh for the socket of directory `dir` is that
      directory's text followed by `/sock`. */
  lemma AsRefOfFromTempDir(dir: Path)
    ensures AsRef(FromTempDir(dir)) == Render(dir) + "/" + SocketName
  {
    var p := dir + [SocketName];
    assert p[..|p| - 1] == dir;
  }

  /** `TempSocket::new`: creates the private directory (mode 0o700, name beginning
      with `prefix`) in the system temporary directory `tmp`; `name` is the random
      part the library settles on, `None` when it gives up. Fails only when the
      directory cannot be created, and then changes nothing. */
  method New(prefix: string, sys: System, tmp: Path, name: Option<string>) returns (r: Result<TempSocket>)
    requires sys.Valid()
    modifies sys`dirs
    ensures sys.Valid()
    ensures r.Ok? <==> CanCreate(old(sys.dirs), tmp, prefix, name)
    ensures r.Err? ==> r.error == TempDirFailed && sys.dirs == old(sys.dirs)
    ensures r.Ok? ==> var dir := TempDirPath(tmp, prefix, name.value);
              r.value == FromTempDir(dir) && sys.dirs == old(sys.dirs)[dir := OwnerOnly]
  {
    if name.None? {
      return Err(TempDirFailed);
    }
    var dir := TempDirPath(tmp, prefix, name.value);
    assert dir[..|dir| - 1] == tmp;
    var ok := sys.MakeDir(dir, OwnerOnly);
    if !ok {
      return Err(TempDirFailed);
    }
    return Ok(FromTempDir(dir));
  }

  /** The directories left once `s` is dropped. */
  function DirsAfterDrop(dirs: map<Path, nat>, s: TempSocket): map<Path, nat> {
    match Parent(s.path)
    case None => dirs
    case Some(dir) => RemoveTree(dirs, dir)
  }

  /** Dropping a socket made by `New` removes its directory and nothing else: the
      tree is back to what it was before `New`. */
  lemma DropUndoesNew(dirs: map<Path, nat>, tmp: Path, prefix: string, name: Option<string>)
    requires IsTree(dirs) && CanCreate(dirs, tmp, prefix, name)
    ensures var dir := TempDirPath(tmp, prefix, name.value);
            DirsAfterDrop(dirs[dir := OwnerOnly], FromTempDir(dir)) == dirs
  {
    var dir := TempDirPath(tmp, prefix, name.value);
    CreateThenRemove(dirs, dir, OwnerOnly);
  }

  /** `Drop`: removes the parent directory of the socket path with all it holds;
      a failure to remove is ignored, so dropping never fails. */
  method Drop(s: TempSocket, sys: System)
    requires sys.Valid()
    modifies sys`dirs
    ensures sys.Valid()
    ensures sys.dirs == DirsAfterDrop(old(sys.dirs), s)
  {
    var parent := Parent(s.path);
    if parent.Some? {
      var _ := sys.RemoveDirAll(parent.value);
    }
  }
}
