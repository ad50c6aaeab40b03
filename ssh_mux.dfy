/** src/ssh_mux/mod.rs: the batched SSH command multiplexer. It decides whether
    to stand up a private control master on a temporary socket, passes a fixed
    set of restrictive options to every ssh it builds, and tears the master down
    exactly once. */
module SshMux {
  import opened Base
  import opened Os
  import TS = TempSocket

  /** The `--create-socket` policy: infer it from the host's configuration, or
      the value the user gave. */
  datatype CreateSocket = Infer | Specify(create: bool)

  /** `into_option_bool`: an explicit value, or nothing when it is to be inferred. */
  function IntoOptionBool(c: CreateSocket): (r: Option<bool>)
    ensures r.None? <==> c.Infer?
    ensures c.Specify? ==> r == Some(c.create)
  {
    match c
    case Infer => None
    case Specify(b) => Some(b)
  }

  /** The first step of `SshMux::new`: whether to create a private socket, given
      what the (external) inference would answer for the host. */
  function WantsSocket(c: CreateSocket, inferred: bool): (create: bool)
    ensures c.Specify? ==> create == c.create
    ensures c.Infer? ==> create == inferred
  {
    match IntoOptionBool(c)
    case Some(v) => v
    case None => inferred
  }

  /** An explicit policy never depends on the inference oracle's answer. */
  lemma ExplicitPolicyIgnoresInference(b: bool, inferred: bool, other: bool)
    ensures WantsSocket(Specify(b), inferred) == WantsSocket(Specify(b), other) == b
  {
  }

  /** The prefix of the temporary directory's name. */
  const SocketPrefix: string := "aspect-reauth-"

  const ControlPersistOption: string := "-oControlPersist=yes"

  /** The restrictive options every batch ssh gets (after scp.c in openssh-portable). */
  const BatchOptions: seq<string> := [
    "-oPermitLocalCommand=no",
    "-oClearAllForwardings=yes",
    "-oRemoteCommand=none",
    "-oForwardAgent=no",
    "-oBatchMode=yes"
  ]

  /** The argument vector of the initial ssh in `new`: with a socket it starts a
      master on it (`-xMTS`) with ControlPersist and the batch options; without one
      it just opens a normal session to the host. Either way it runs `true`. */
  function BootstrapArgs(sshArgs: seq<string>, socket: Option<string>, host: string): (argv: seq<string>)
    ensures |argv| == |sshArgs| + (if socket.Some? then 11 else 3)
    ensures argv[..|sshArgs|] == sshArgs
    ensures socket.Some? ==> argv[|sshArgs|] == "-xMTS" && argv[|sshArgs| + 1] == socket.value
    ensures socket.Some? ==> argv[|sshArgs| + 2..|sshArgs| + 8] == [ControlPersistOption] + BatchOptions
    ensures argv[|argv| - 3] == "--" && argv[|argv| - 2] == host && argv[|argv| - 1] == "true"
  {
    var cmd := sshArgs;
    var cmd := if socket.Some? then cmd + ["-xMTS", socket.value] + [ControlPersistOption] + BatchOptions else cmd;
    cmd + ["--", host, "true"]
  }

  /** The argument vector of `command`: the caller's ssh arguments, `-S <socket>`
      when there is a socket, `-xT` and the batch options, then `--`, the host and
      the remote command. */
  function CommandArgs(sshArgs: seq<string>, socket: Option<string>, host: string, command: string): (argv: seq<string>)
    ensures |argv| == |sshArgs| + (if socket.Some? then 11 else 9)
    ensures argv[..|sshArgs|] == sshArgs
    ensures socket.Some? ==> argv[|sshArgs|] == "-S" && argv[|sshArgs| + 1] == socket.value
    ensures argv[|argv| - 9..|argv| - 3] == ["-xT"] + BatchOptions
    ensures argv[|argv| - 3] == "--" && argv[|argv| - 2] == host && argv[|argv| - 1] == command
  {
    var ret := sshArgs;
    var ret := if socket.Some? then ret + ["-S", socket.value] else ret;
    ret + ["-xT"] + BatchOptions + ["--", host, command]
  }

  /** The argument vector of the teardown in `cleanup`: tell the master on the
      socket to exit. */
  function CleanupArgs(sshArgs: seq<string>, socket: string, host: string): (argv: seq<string>)
    ensures |argv| == |sshArgs| + 5
    ensures argv[..|sshArgs|] == sshArgs
    ensures argv[|sshArgs|..] == ["-S", socket, "-Oexit", "--", host]
  {
    sshArgs + ["-S", socket] + ["-Oexit", "--", host]
  }

  /** The subprocess `cleanup` starts for `socket`: none without a socket or when
      the teardown cannot be spawned. */
  function CleanupLog(sshArgs: seq<string>, host: string, socket: Option<TS.TempSocket>, teardown: Exit): (log: seq<Spawned>)
    ensures log == [] <==> socket.None? || !teardown.Spawned()
  {
    if socket.Some? && teardown.Spawned()
    then [Spawned(Invocation("ssh", CleanupArgs(sshArgs, TS.AsRef(socket.value), host)), "")]
    else []
  }

  /** The options a built invocation passes to ssh itself: what follows the
      caller's arguments and precedes the `--` that introduces the destination. */
  function ClientOptions(argv: seq<string>, sshArgs: seq<string>, tail: nat): seq<string>
    requires |sshArgs| + tail <= |argv|
  {
    argv[|sshArgs|..|argv| - tail]
  }

  /** An `-o<Key>=<value>` option word. */
  predicate IsOption(word: string) {
    |word| >= 2 && word[0] == '-' && word[1] == 'o'
  }

  /** Every `-o` option a command passes is one the private master was started
      with, and the only option the master has that commands lack is
      ControlPersist. The socket is an absolute path, as every rendered one is. */
  lemma CommandOptionsComeFromMaster(sshArgs: seq<string>, socket: string, host: string, command: string)
    requires |socket| > 0 && socket[0] == '/'
    ensures var c := ClientOptions(CommandArgs(sshArgs, Some(socket), host, command), sshArgs, 3);
            var m := ClientOptions(BootstrapArgs(sshArgs, Some(socket), host), sshArgs, 3);
            (forall o :: o in c && IsOption(o) ==> o in m)
            && (forall o :: o in m && IsOption(o) && o != ControlPersistOption ==> o in c)
            && ControlPersistOption in m && ControlPersistOption !in c
  {
    var c := ClientOptions(CommandArgs(sshArgs, Some(socket), host, command), sshArgs, 3);
    var m := ClientOptions(BootstrapArgs(sshArgs, Some(socket), host), sshArgs, 3);
    assert c == ["-S", socket, "-xT"] + BatchOptions;
    assert m == ["-xMTS", socket, ControlPersistOption] + BatchOptions;
    assert !IsOption("-S") && !IsOption(socket) && !IsOption("-xT");
    forall o | o in c && IsOption(o) ensures o in m {
      var i :| 0 <= i < |c| && c[i] == o;
      assert c[i] == m[i];
    }
    assert m[2] == ControlPersistOption;
    assert socket != ControlPersistOption;
  }

  /** The master, every command and the teardown all name one and the same socket;
      without a socket no command passes `-S` at all. */
  lemma OneSocketThroughout(sshArgs: seq<string>, socket: Option<string>, host: string, command: string)
    ensures socket.Some? ==>
              BootstrapArgs(sshArgs, socket, host)[|sshArgs| + 1]
              == CommandArgs(sshArgs, socket, host, command)[|sshArgs| + 1]
              == CleanupArgs(sshArgs, socket.value, host)[|sshArgs| + 1]
              == socket.value
    ensures socket.None? ==> "-S" !in ClientOptions(CommandArgs(sshArgs, socket, host, command), sshArgs, 3)
  {
    if socket.None? {
      assert ClientOptions(CommandArgs(sshArgs, socket, host, command), sshArgs, 3) == ["-xT"] + BatchOptions;
    }
  }

  /** The text of the socket path to hand to ssh, when there is a socket. */
  function SocketText(socket: Option<TS.TempSocket>): (r: Option<string>)
    ensures r.Some? <==> socket.Some?
    ensures socket.Some? ==> r.value == TS.AsRef(socket.value)
  {
    match socket
    case None => None
    case Some(s) => Some(TS.AsRef(s))
  }

  /** The socket `new` creates when it wants one and the temporary directory
      library settles on `name`. */
  function PlannedSocket(tmp: Path, name: Option<string>): Option<TS.TempSocket> {
    match name
    case None => None
    case Some(n) => Some(TS.FromTempDir(TS.TempDirPath(tmp, SocketPrefix, n)))
  }

  /** The socket step of `new` succeeds: either no socket is wanted, or the
      temporary directory can be created. */
  predicate SocketStepSucceeds(c: CreateSocket, inferred: bool, dirs: map<Path, nat>, tmp: Path, name: Option<string>) {
    WantsSocket(c, inferred) ==> TS.CanCreate(dirs, tmp, SocketPrefix, name)
  }

  /** The socket a successful `new` holds. */
  function ChosenSocket(c: CreateSocket, inferred: bool, tmp: Path, name: Option<string>): Option<TS.TempSocket> {
    if WantsSocket(c, inferred) then PlannedSocket(tmp, name) else None
  }

  class SshMux {
    const host: string
    const sshArgs: seq<string>
    var socket: Option<TS.TempSocket>

    constructor (host: string, sshArgs: seq<string>, socket: Option<TS.TempSocket>)
      ensures this.host == host && this.sshArgs == sshArgs && this.socket == socket
    {
      this.host := host;
      this.sshArgs := sshArgs;
      this.socket := socket;
    }

    /** `SshMux::new`: resolves the policy, creates the temporary socket if one is
        wanted, and runs the bootstrap ssh, whose outcome is `bootstrap`. It fails
        when the directory cannot be made (no ssh is recorded), when the ssh cannot be
        run or awaited, or when it exits unsuccessfully; a socket made before such
        a failure is dropped, so no directory is left behind. On success the mux
        holds exactly the host, the arguments and the chosen socket. */
    static method New(host: string, sshArgs: seq<string>, createSocket: CreateSocket, inferred: bool,
                      sys: System, tmp: Path, name: Option<string>, bootstrap: Exit)
      returns (r: Result<SshMux>)
      requires sys.Valid()
      modifies sys`dirs, sys`issued
      ensures sys.Valid()
      ensures !SocketStepSucceeds(createSocket, inferred, old(sys.dirs), tmp, name) ==>
                r == Err(TempDirFailed) && sys.issued == old(sys.issued)
      ensures SocketStepSucceeds(createSocket, inferred, old(sys.dirs), tmp, name) ==>
                var socket := ChosenSocket(createSocket, inferred, tmp, name);
                && sys.issued == old(sys.issued) +
                     (if bootstrap.Spawned()
                      then [Spawned(Invocation("ssh", BootstrapArgs(sshArgs, SocketText(socket), host)), "")]
                      else [])
                && (!bootstrap.Exited? ==> r == Err(SshStartFailed))
                && (bootstrap.Exited? && !bootstrap.success ==> r == Err(SshFailed(bootstrap.stderr)))
                && (r.Ok? <==> bootstrap.Exited? && bootstrap.success)
      ensures r.Err? ==> sys.dirs == old(sys.dirs)
      ensures r.Ok? ==> fresh(r.value) && r.value.host == host && r.value.sshArgs == sshArgs
      ensures r.Ok? ==> r.value.socket == ChosenSocket(createSocket, inferred, tmp, name)
      ensures r.Ok? ==> (r.value.socket.Some? <==> WantsSocket(createSocket, inferred))
      ensures r.Ok? && r.value.socket.None? ==> sys.dirs == old(sys.dirs)
      ensures r.Ok? && r.value.socket.Some? ==>
                var dir := TS.TempDirPath(tmp, SocketPrefix, name.value);
                dir !in old(sys.dirs) && sys.dirs == old(sys.dirs)[dir := TS.OwnerOnly]
    {
      var socket: Option<TS.TempSocket> := None;
      if WantsSocket(createSocket, inferred) {
        var made := TS.New(SocketPrefix, sys, tmp, name);
        if made.Err? {
          return Err(made.error);
        }
        socket := Some(made.value);
      }
      var argv := BootstrapArgs(sshArgs, SocketText(socket), host);
      if bootstrap.Spawned() {
        sys.Issue(Invocation("ssh", argv), "");
      }
      if !(bootstrap.Exited? && bootstrap.success) {
        if socket.Some? {
          TS.DropUndoesNew(old(sys.dirs), tmp, SocketPrefix, name);
          TS.Drop(socket.value, sys);
        }
        return if bootstrap.Exited? then Err(SshFailed(bootstrap.stderr)) else Err(SshStartFailed);
      }
      var mux := new SshMux(host, sshArgs, socket);
      return Ok(mux);
    }

    /** `command`: the ssh invocation that runs `command` on the host through the
        session; it only reads the mux. */
    function Command(command: string): (inv: Invocation)
      reads this
      ensures inv.program == "ssh"
      ensures inv.args == CommandArgs(sshArgs, SocketText(socket), host, command)
    {
      Invocation("ssh", CommandArgs(sshArgs, SocketText(socket), host, command))
    }

    /** `cleanup`: takes the socket out of the mux; when there was one, runs the
        `-Oexit` ssh (outcome `teardown`, stdin null) and then drops the socket,
        removing its directory. Only a failure to run or await that ssh is an
        error; its exit status is ignored. */
    method Cleanup(sys: System, teardown: Exit) returns (r: Result<()>)
      requires sys.Valid()
      modifies this`socket, sys`dirs, sys`issued
      ensures sys.Valid() && socket.None?
      ensures old(socket).None? ==>
                r == Ok(()) && sys.issued == old(sys.issued) && sys.dirs == old(sys.dirs)
      ensures old(socket).Some? ==>
                && sys.issued == old(sys.issued) + CleanupLog(sshArgs, host, old(socket), teardown)
                && r == (if teardown.Exited? then Ok(()) else Err(CleanupFailed))
                && sys.dirs == TS.DirsAfterDrop(old(sys.dirs), old(socket).value)
    {
      if socket.None? {
        return Ok(());
      }
      var taken := socket.value;
      socket := None;
      if teardown.Spawned() {
        sys.Issue(Invocation("ssh", CleanupArgs(sshArgs, TS.AsRef(taken), host)), "");
      }
      r := if teardown.Exited? then Ok(()) else Err(CleanupFailed);
      TS.Drop(taken, sys);
    }

    /** `Drop`: runs `cleanup` and prints, never propagates, its error. */
    method Drop(sys: System, teardown: Exit)
      requires sys.Valid()
      modifies this`socket, sys`dirs, sys`issued, sys`reported
      ensures sys.Valid() && socket.None?
      ensures old(socket).None? ==> sys.issued == old(sys.issued) && sys.dirs == old(sys.dirs)
      ensures old(socket).Some? ==>
                && sys.issued == old(sys.issued) + CleanupLog(sshArgs, host, old(socket), teardown)
                && sys.dirs == TS.DirsAfterDrop(old(sys.dirs), old(socket).value)
      ensures sys.reported == old(sys.reported) +
                (if old(socket).Some? && !teardown.Exited? then [CleanupFailed] else [])
    {
      var r := Cleanup(sys, teardown);
      if r.Err? {
        sys.Report(r.error);
      }
    }
  }

  /** A client of the mux: a second `cleanup` is a no-op that succeeds and runs
      nothing, whatever the first one did. */
  method CleanupTwice(mux: SshMux, sys: System, first: Exit, second: Exit)
    returns (r1: Result<()>, r2: Result<()>)
    requires sys.Valid()
    modifies mux, sys
    ensures mux.socket.None? && r2 == Ok(())
    ensures sys.issued == old(sys.issued) + CleanupLog(mux.sshArgs, mux.host, old(mux.socket), first)
    ensures |sys.issued| <= |old(sys.issued)| + 1
  {
    r1 := mux.Cleanup(sys, first);
    ghost var between := sys.issued;
    r2 := mux.Cleanup(sys, second);
    assert sys.issued == between;
  }
}
