/** src/main.rs: parse the socket policy, set up the ssh session, probe the
    remote credential helper unless a refresh is forced, log in locally, and push
    the credential into the remote kernel keyring with `keyctl padd`. */
module Reauth {
  import opened Base
  import opened Os
  import Mux = SshMux
  import TS = TempSocket
  import LoginHint
  import Text

  // ---------------------------------------------------------------------------
  // `CreateSocket::from_str` and the `--no-create-socket` override

  const TrueWords: set<string> := {"y", "yes", "t", "true", "on", "1"}
  const FalseWords: set<string> := {"n", "no", "f", "false", "off", "0"}

  /** The boolish words of clap's value parser, spelled exactly. */
  function Boolish(s: string): (r: Option<bool>)
    ensures r == Some(true) <==> s in TrueWords
    ensures r == Some(false) <==> s in FalseWords
    ensures r.None? <==> s !in TrueWords && s !in FalseWords
  {
    if s == "y" || s == "yes" || s == "t" || s == "true" || s == "on" || s == "1" then Some(true)
    else if s == "n" || s == "no" || s == "f" || s == "false" || s == "off" || s == "0" then Some(false)
    else None
  }

  /** `CreateSocket::from_str`: `infer`, or a boolish word; anything else is an
      unknown value. */
  function FromStr(s: string): (r: Result<Mux.CreateSocket>)
    ensures r == Ok(Mux.Infer) <==> s == "infer"
    ensures r == Ok(Mux.Specify(true)) <==> s in TrueWords
    ensures r == Ok(Mux.Specify(false)) <==> s in FalseWords
    ensures r.Err? <==> s != "infer" && s !in TrueWords && s !in FalseWords
    ensures r.Err? ==> r.error == UnknownValue(s)
  {
    if s == "infer" then Ok(Mux.Infer)
    else match Boolish(s)
      case Some(b) => Ok(Mux.Specify(b))
      case None => Err(UnknownValue(s))
  }

  /** The spelling of each policy that the help text advertises. */
  function Spelling(c: Mux.CreateSocket): string {
    match c
    case Infer => "infer"
    case Specify(b) => if b then "true" else "false"
  }

  /** Every policy is parsed back from its advertised spelling. */
  lemma FromStrOfSpelling(c: Mux.CreateSocket)
    ensures FromStr(Spelling(c)) == Ok(c)
  {
  }

  /** Matching is exact: other cases, padding and the empty string are refused. */
  lemma FromStrIsExact()
    ensures FromStr("TRUE").Err? && FromStr("Infer").Err? && FromStr(" yes").Err? && FromStr("").Err?
  {
    assert "TRUE" != "true" && "Infer" != "infer";
  }

  /** The policy after `--no-create-socket`: it replaces whatever was given. */
  function Effective(createSocket: Mux.CreateSocket, noCreateSocket: bool): Mux.CreateSocket {
    if noCreateSocket then Mux.Specify(false) else createSocket
  }

  /** With `--no-create-socket` no socket is made, whatever the option held and
      whatever the inference would say. */
  lemma NoCreateSocketNeverCreates(createSocket: Mux.CreateSocket, inferred: bool)
    ensures !Mux.WantsSocket(Effective(createSocket, true), inferred)
    ensures Mux.WantsSocket(Effective(createSocket, false), inferred) == Mux.WantsSocket(createSocket, inferred)
  {
  }

  /** The command-line arguments once clap has parsed them. */
  datatype Options = Options(
    host: string,
    remote: string,
    helper: string,
    force: bool,
    sessionKeyring: bool,
    createSocket: Mux.CreateSocket,
    sshArgs: seq<string>)

  /** `struct Args` as `main` sees it: `create_socket` is the one field it changes. */
  class Args {
    const host: string
    const remote: string
    const credentialHelper: string
    const force: bool
    const sessionKeyring: bool
    var createSocket: Mux.CreateSocket
    const noCreateSocket: bool
    const sshArgs: seq<string>

    constructor (host: string, remote: string, credentialHelper: string, force: bool, sessionKeyring: bool,
                 createSocket: Mux.CreateSocket, noCreateSocket: bool, sshArgs: seq<string>)
      ensures this.host == host && this.remote == remote && this.credentialHelper == credentialHelper
      ensures this.force == force && this.sessionKeyring == sessionKeyring
      ensures this.createSocket == createSocket && this.noCreateSocket == noCreateSocket
      ensures this.sshArgs == sshArgs
    {
      this.host := host;
      this.remote := remote;
      this.credentialHelper := credentialHelper;
      this.force := force;
      this.sessionKeyring := sessionKeyring;
      this.createSocket := createSocket;
      this.noCreateSocket := noCreateSocket;
      this.sshArgs := sshArgs;
    }

    /** `if args.no_create_socket { args.create_socket = Specify(false) }`. */
    method ApplyNoCreateSocket()
      modifies this`createSocket
      ensures createSocket == Effective(old(createSocket), noCreateSocket)
    {
      if noCreateSocket {
        createSocket := Mux.Specify(false);
      }
    }

    /** `let args = args;`: the arguments, read-only from here on. */
    function Frozen(): (o: Options)
      reads this`createSocket
      ensures o.host == host && o.remote == remote && o.helper == credentialHelper
      ensures o.force == force && o.sessionKeyring == sessionKeyring
      ensures o.createSocket == createSocket && o.sshArgs == sshArgs
    {
      Options(host, remote, credentialHelper, force, sessionKeyring, createSocket, sshArgs)
    }
  }

  // ---------------------------------------------------------------------------
  // Payloads

  const PayloadHead: string := "{\"uri\":\"https://"
  const PayloadTail: string := "\"}\n"

  /** The request written to the probe's standard input: one JSON line asking
      for the credential of `https://<remote>`. */
  function ProbePayload(remote: string): (p: string)
    ensures |p| == |PayloadHead| + |remote| + |PayloadTail|
    ensures p[..|PayloadHead|] == PayloadHead
    ensures p[|PayloadHead|..|p| - |PayloadTail|] == remote
    ensures p[|p| - |PayloadTail|..] == PayloadTail
  {
    PayloadHead + remote + PayloadTail
  }

  /** Reads the remote back out of a probe request. */
  function RemoteOfPayload(p: string): Option<string> {
    if |p| >= |PayloadHead| + |PayloadTail| && p[..|PayloadHead|] == PayloadHead
       && p[|p| - |PayloadTail|..] == PayloadTail
    then Some(p[|PayloadHead|..|p| - |PayloadTail|])
    else None
  }

  /** The request names exactly the remote it was made for, so different remotes
      never share one. */
  lemma PayloadRoundTrip(remote: string)
    ensures RemoteOfPayload(ProbePayload(remote)) == Some(remote)
  {
  }

  const KeyPrefix: string := "keyring-rs:"
  const KeySuffix: string := "@AspectWorkflows"

  /** The description of the key in the remote keyring, the name the keyring
      crate gives the `AspectWorkflows` entry of `remote`. */
  function KeyName(remote: string): (k: string)
    ensures |k| == |KeyPrefix| + |remote| + |KeySuffix|
    ensures k[..|KeyPrefix|] == KeyPrefix
    ensures k[|KeyPrefix|..|k| - |KeySuffix|] == remote
    ensures k[|k| - |KeySuffix|..] == KeySuffix
  {
    KeyPrefix + remote + KeySuffix
  }

  /** Reads the remote back out of a key name. */
  function RemoteOfKeyName(k: string): Option<string> {
    if |k| >= |KeyPrefix| + |KeySuffix| && k[..|KeyPrefix|] == KeyPrefix && k[|k| - |KeySuffix|..] == KeySuffix
    then Some(k[|KeyPrefix|..|k| - |KeySuffix|])
    else None
  }

  lemma KeyNameRoundTrip(remote: string)
    ensures RemoteOfKeyName(KeyName(remote)) == Some(remote)
  {
  }

  /** The keyring `keyctl padd` adds to: the session keyring or the user keyring. */
  function KeyringSelector(sessionKeyring: bool): (k: string)
    ensures k == "@s" <==> sessionKeyring
    ensures k == "@u" <==> !sessionKeyring
  {
    if sessionKeyring then "@s" else "@u"
  }

  // ---------------------------------------------------------------------------
  // `needs_refresh`

  /** The verdict of the probe: a successful `get` means the credential is still
      good, whatever it printed; a failed one means a refresh is due only when its
      error output carries the login hint, and is an error otherwise. */
  function RefreshDecision(probe: Exit, helper: string): (r: Result<bool>)
    ensures probe.SpawnFailed? ==> r == Err(HelperSpawnFailed)
    ensures probe.WaitFailed? ==> r == Err(HelperWaitFailed)
    ensures r == Ok(false) <==> probe.Exited? && probe.success
    ensures r == Ok(true) <==> probe.Exited? && !probe.success && LoginHint.IsMatch(helper, probe.stderr)
    ensures probe.Exited? && !probe.success && !LoginHint.IsMatch(helper, probe.stderr) ==>
              r == Err(HelperGetFailed(probe.stderr))
  {
    match probe
    case SpawnFailed => Err(HelperSpawnFailed)
    case WaitFailed => Err(HelperWaitFailed)
    case Exited(success, stderr) =>
      if success then Ok(false)
      else
        LoginHint.FoundIsMatch(helper, stderr);
        if LoginHint.Found(helper, stderr) then Ok(true) else Err(HelperGetFailed(stderr))
  }

  /** A subprocess that is recorded if it was started at all. */
  function Log(inv: Invocation, stdin: string, e: Exit): (log: seq<Spawned>)
    ensures log == [] <==> !e.Spawned()
  {
    if e.Spawned() then [Spawned(inv, stdin)] else []
  }

  /** The remote `<helper> get` run through the session. */
  function ProbeInvocation(o: Options, socket: Option<string>): Invocation {
    WithArgs(Invocation("ssh", Mux.CommandArgs(o.sshArgs, socket, o.host, o.helper)), ["get"])
  }

  /** `needs_refresh`: runs `<helper> get` on the host with the request on its
      standard input (outcome `probe`), and decides from its exit status and error
      output. */
  method NeedsRefresh(o: Options, ssh: Mux.SshMux, sys: System, probe: Exit) returns (r: Result<bool>)
    requires ssh.host == o.host && ssh.sshArgs == o.sshArgs
    modifies sys`issued
    ensures sys.issued == old(sys.issued) +
              Log(ProbeInvocation(o, Mux.SocketText(ssh.socket)), ProbePayload(o.remote), probe)
    ensures r == RefreshDecision(probe, o.helper)
  {
    if probe.SpawnFailed? {
      return Err(HelperSpawnFailed);
    }
    sys.Issue(WithArgs(ssh.Command(o.helper), ["get"]), ProbePayload(o.remote));
    if probe.WaitFailed? {
      return Err(HelperWaitFailed);
    }
    if !probe.success {
      LoginHint.FoundIsMatch(o.helper, probe.stderr);
      if !LoginHint.Found(o.helper, probe.stderr) {
        return Err(HelperGetFailed(probe.stderr));
      }
      return Ok(true);
    }
    return Ok(false);
  }

  // ---------------------------------------------------------------------------
  // `main`

  /** The answers the outside world gives during one run. */
  datatype World = World(
    /** what `infer_create_socket` says about the host */
    inferred: bool,
    /** the system temporary directory */
    tmp: Path,
    /** the random name `tempfile` settles on, if it settles on one */
    tmpName: Option<string>,
    /** the bootstrap ssh */
    bootstrap: Exit,
    /** the remote `<helper> get` */
    probe: Exit,
    /** the local `<helper> login <remote>` */
    login: Exit,
    /** the credential the keychain returns, if it has one */
    credential: Option<string>,
    /** the remote `keyctl padd` */
    keyctl: Exit,
    /** the `-Oexit` ssh that tears the private master down */
    teardown: Exit)

  /** How a run that succeeded ended. */
  datatype Outcome = NotNeeded | Synced

  /** The local `<helper> login <remote>`, with a null standard input. */
  function LoginInvocation(o: Options): Invocation {
    Invocation(o.helper, ["login", o.remote])
  }

  /** The remote `keyctl padd user <key name> <keyring>`. */
  function KeyctlInvocation(o: Options, socket: Option<string>): Invocation {
    WithArgs(Invocation("ssh", Mux.CommandArgs(o.sshArgs, socket, o.host, "keyctl")),
             ["padd", "user", KeyName(o.remote), KeyringSelector(o.sessionKeyring)])
  }

  /** The table of outcomes of the login: `status()` covers both starting and
      awaiting the helper. */
  function LoginResult(login: Exit): (r: Result<()>)
    ensures r.Ok? <==> login.Exited? && login.success
  {
    match login
    case Exited(success, _) => if success then Ok(()) else Err(LoginFailed)
    case _ => Err(LoginSpawnFailed)
  }

  function KeyctlResult(keyctl: Exit): (r: Result<Outcome>)
    ensures r.Ok? <==> keyctl.Exited? && keyctl.success
    ensures r.Ok? ==> r.value == Synced
  {
    match keyctl
    case SpawnFailed => Err(KeyctlSpawnFailed)
    case WaitFailed => Err(KeyctlWaitFailed)
    case Exited(success, stderr) => if success then Ok(Synced) else Err(KeyctlFailed(stderr))
  }

  /** The login and the push of the credential, with the subprocesses they start. */
  function Refresh(o: Options, socket: Option<string>, w: World): (Result<Outcome>, seq<Spawned>) {
    var logged := Log(LoginInvocation(o), "", w.login);
    var login := LoginResult(w.login);
    if login.Err? then (Err(login.error), logged)
    else if w.credential.None? then (Err(KeychainFailed), logged)
    else (KeyctlResult(w.keyctl), logged + Log(KeyctlInvocation(o, socket), w.credential.value, w.keyctl))
  }

  /** Everything `main` does while the session is up: unless forced, ask the
      probe, then refresh if that is due. */
  function Session(o: Options, socket: Option<string>, w: World): (Result<Outcome>, seq<Spawned>) {
    if o.force then Refresh(o, socket, w)
    else
      var probed := Log(ProbeInvocation(o, socket), ProbePayload(o.remote), w.probe);
      match RefreshDecision(w.probe, o.helper)
      case Err(e) => (Err(e), probed)
      case Ok(needed) =>
        if !needed then (Ok(NotNeeded), probed)
        else var (r, log) := Refresh(o, socket, w); (r, probed + log)
  }

  /** The result of a whole run, the subprocesses it started, and the errors it
      printed on its way. */
  datatype Trace = Trace(result: Result<Outcome>, issued: seq<Spawned>, reported: seq<Error>)

  /** The socket a run's session holds. */
  function RunSocket(o: Options, w: World): Option<TS.TempSocket> {
    Mux.ChosenSocket(o.createSocket, w.inferred, w.tmp, w.tmpName)
  }

  /** The session came up: the socket step succeeded and the bootstrap ssh
      exited successfully. */
  predicate SessionUp(o: Options, dirs: map<Path, nat>, w: World) {
    Mux.SocketStepSucceeds(o.createSocket, w.inferred, dirs, w.tmp, w.tmpName)
    && w.bootstrap.Exited? && w.bootstrap.success
  }

  /** The bootstrap ssh, once the socket step has succeeded. */
  function BootLog(o: Options, w: World): seq<Spawned> {
    Log(Invocation("ssh", Mux.BootstrapArgs(o.sshArgs, Mux.SocketText(RunSocket(o, w)), o.host)), "", w.bootstrap)
  }

  /** The error of a run whose session did not come up. */
  function SetupError(o: Options, dirs: map<Path, nat>, w: World): Error {
    if !Mux.SocketStepSucceeds(o.createSocket, w.inferred, dirs, w.tmp, w.tmpName) then TempDirFailed
    else if w.bootstrap.Exited? then SshFailed(w.bootstrap.stderr)
    else SshStartFailed
  }

  /** The teardown ssh `Drop` runs for the session's socket, if it has one. */
  function TeardownOf(o: Options, socket: Option<TS.TempSocket>, teardown: Exit): seq<Spawned> {
    Mux.CleanupLog(o.sshArgs, o.host, socket, teardown)
  }

  /** What `Drop` prints: the teardown's error, if there was a teardown. */
  function ReportsOf(socket: Option<TS.TempSocket>, teardown: Exit): seq<Error> {
    if socket.Some? && !teardown.Exited? then [CleanupFailed] else []
  }

  /** A whole run of `main` on the frozen arguments `o`, starting from directories
      `dirs`: set up the session, run it, and tear the session down whatever
      happened. */
  function Expected(o: Options, dirs: map<Path, nat>, w: World): Trace {
    if !Mux.SocketStepSucceeds(o.createSocket, w.inferred, dirs, w.tmp, w.tmpName) then
      Trace(Err(TempDirFailed), [], [])
    else if !SessionUp(o, dirs, w) then
      Trace(Err(SetupError(o, dirs, w)), BootLog(o, w), [])
    else
      var s := Session(o, Mux.SocketText(RunSocket(o, w)), w);
      Trace(s.0, BootLog(o, w) + s.1 + TeardownOf(o, RunSocket(o, w), w.teardown), ReportsOf(RunSocket(o, w), w.teardown))
  }

  /** A run whose session came up: its subprocesses are the bootstrap, the
      session's and the teardown, in that order. */
  lemma ExpectedWhenUp(o: Options, dirs: map<Path, nat>, w: World)
    requires SessionUp(o, dirs, w)
    ensures var s := Session(o, Mux.SocketText(RunSocket(o, w)), w);
            Expected(o, dirs, w)
            == Trace(s.0, BootLog(o, w) + s.1 + TeardownOf(o, RunSocket(o, w), w.teardown), ReportsOf(RunSocket(o, w), w.teardown))
  {
  }

  /** A run whose session did not come up fails with the setup error, having run
      at most the bootstrap and printed nothing. */
  lemma ExpectedWhenDown(o: Options, dirs: map<Path, nat>, w: World)
    requires !SessionUp(o, dirs, w)
    ensures Expected(o, dirs, w).result == Err(SetupError(o, dirs, w))
    ensures Expected(o, dirs, w).issued
            == if Mux.SocketStepSucceeds(o.createSocket, w.inferred, dirs, w.tmp, w.tmpName) then BootLog(o, w) else []
    ensures Expected(o, dirs, w).reported == []
  {
  }

  /** The recorded subprocesses of a run whose session came up start with the
      bootstrap ssh and, when the session holds a socket and the teardown could be
      spawned, end with the `-Oexit` teardown of that very socket: nothing recorded
      runs after the master is told to exit. The inference's query under `Infer`
      is not recorded. */
  lemma BootstrapFirstTeardownLast(o: Options, dirs: map<Path, nat>, w: World)
    requires SessionUp(o, dirs, w)
    ensures var issued := Expected(o, dirs, w).issued;
            var socket := RunSocket(o, w);
            && |issued| > 0
            && issued[0] == Spawned(Invocation("ssh", Mux.BootstrapArgs(o.sshArgs, Mux.SocketText(socket), o.host)), "")
            && (socket.Some? && w.teardown.Spawned() ==>
                  issued[|issued| - 1] == Spawned(Invocation("ssh", Mux.CleanupArgs(o.sshArgs, TS.AsRef(socket.value), o.host)), ""))
  {
    ExpectedWhenUp(o, dirs, w);
  }

  /** A run whose session did not come up fails, prints nothing, and records at
      most the bootstrap ssh: no probe, no login and no push. */
  lemma FailedSetupRunsAtMostBootstrap(o: Options, dirs: map<Path, nat>, w: World)
    requires !SessionUp(o, dirs, w)
    ensures var t := Expected(o, dirs, w);
            && t.result.Err? && t.reported == []
            && (t.issued == [] || t.issued == [Spawned(Invocation("ssh", Mux.BootstrapArgs(o.sshArgs, Mux.SocketText(RunSocket(o, w)), o.host)), "")])
  {
    ExpectedWhenDown(o, dirs, w);
  }

  /** The run prints an error exactly when its session came up with a private
      socket and the teardown ssh could not be run or awaited. */
  lemma ReportsOnlyFailedTeardown(o: Options, dirs: map<Path, nat>, w: World)
    ensures Expected(o, dirs, w).reported != [] <==>
              SessionUp(o, dirs, w) && RunSocket(o, w).Some? && !w.teardown.Exited?
    ensures Expected(o, dirs, w).reported != [] ==> Expected(o, dirs, w).reported == [CleanupFailed]
  {
    if SessionUp(o, dirs, w) {
      ExpectedWhenUp(o, dirs, w);
    } else {
      ExpectedWhenDown(o, dirs, w);
    }
  }

  /** The login and the push, as `main` runs them. */
  method RefreshStep(o: Options, ssh: Mux.SshMux, sys: System, w: World) returns (r: Result<Outcome>)
    requires ssh.host == o.host && ssh.sshArgs == o.sshArgs
    modifies sys`issued
    ensures var (res, log) := Refresh(o, Mux.SocketText(ssh.socket), w);
            r == res && sys.issued == old(sys.issued) + log
  {
    if w.login.Spawned() {
      sys.Issue(LoginInvocation(o), "");
    }
    var login := LoginResult(w.login);
    if login.Err? {
      return Err(login.error);
    }
    if w.credential.None? {
      return Err(KeychainFailed);
    }
    if w.keyctl.SpawnFailed? {
      return Err(KeyctlSpawnFailed);
    }
    var keyctl := WithArgs(ssh.Command("keyctl"), ["padd", "user", KeyName(o.remote), KeyringSelector(o.sessionKeyring)]);
    sys.Issue(keyctl, w.credential.value);
    return KeyctlResult(w.keyctl);
  }

  /** What `main` does between setting the session up and dropping it. */
  method SessionStep(o: Options, ssh: Mux.SshMux, sys: System, w: World) returns (r: Result<Outcome>)
    requires ssh.host == o.host && ssh.sshArgs == o.sshArgs
    modifies sys`issued
    ensures var (res, log) := Session(o, Mux.SocketText(ssh.socket), w);
            r == res && sys.issued == old(sys.issued) + log
  {
    if !o.force {
      var needed := NeedsRefresh(o, ssh, sys, w.probe);
      if needed.Err? {
        return Err(needed.error);
      }
      if !needed.value {
        return Ok(NotNeeded);
      }
    }
    ghost var probed := sys.issued;
    r := RefreshStep(o, ssh, sys, w);
    ghost var (_, log) := Refresh(o, Mux.SocketText(ssh.socket), w);
    assert sys.issued == probed + log;
  }

  /** The directories once a mux holding `socket` is dropped. */
  function Released(dirs: map<Path, nat>, socket: Option<TS.TempSocket>): map<Path, nat> {
    match socket
    case None => dirs
    case Some(s) => TS.DirsAfterDrop(dirs, s)
  }

  /** `SshMux::new(...)?` in `main`: either the session is up, holding the run's
      socket, and dropping it will restore the directories; or the setup error is
      returned with the directories as they were. */
  method Setup(o: Options, sys: System, w: World) returns (r: Result<Mux.SshMux>)
    requires sys.Valid()
    modifies sys`dirs, sys`issued
    ensures sys.Valid()
    ensures r.Ok? <==> SessionUp(o, old(sys.dirs), w)
    ensures r.Err? ==> r.error == SetupError(o, old(sys.dirs), w) && sys.dirs == old(sys.dirs)
    ensures r.Err? ==>
              var booted := Mux.SocketStepSucceeds(o.createSocket, w.inferred, old(sys.dirs), w.tmp, w.tmpName);
              sys.issued == old(sys.issued) + (if booted then BootLog(o, w) else [])
    ensures r.Ok? ==> && fresh(r.value) && r.value.host == o.host && r.value.sshArgs == o.sshArgs
                      && r.value.socket == RunSocket(o, w)
                      && sys.issued == old(sys.issued) + BootLog(o, w)
                      && Released(sys.dirs, r.value.socket) == old(sys.dirs)
  {
    r := Mux.SshMux.New(o.host, o.sshArgs, o.createSocket, w.inferred, sys, w.tmp, w.tmpName, w.bootstrap);
    if r.Ok? && r.value.socket.Some? {
      TS.DropUndoesNew(old(sys.dirs), w.tmp, Mux.SocketPrefix, w.tmpName);
    }
  }

  /** The part of `main` that has a session: run it, then drop the mux, which
      tears the private master down and removes its directory. The session was
      set up from directories `dirs`, after the subprocesses `before`. */
  method Serve(o: Options, ssh: Mux.SshMux, sys: System, w: World, ghost dirs: map<Path, nat>, ghost before: seq<Spawned>)
    returns (r: Result<Outcome>)
    requires sys.Valid()
    requires ssh.host == o.host && ssh.sshArgs == o.sshArgs
    requires SessionUp(o, dirs, w) && ssh.socket == RunSocket(o, w)
    requires Released(sys.dirs, ssh.socket) == dirs && sys.issued == before + BootLog(o, w)
    modifies ssh`socket, sys`dirs, sys`issued, sys`reported
    ensures sys.Valid() && sys.dirs == dirs
    ensures var t := Expected(o, dirs, w);
            && r == t.result
            && sys.issued == before + t.issued
            && sys.reported == old(sys.reported) + t.reported
  {
    r := SessionStep(o, ssh, sys, w);
    ghost var ran := sys.issued;
    ssh.Drop(sys, w.teardown);
    assert sys.issued == ran + TeardownOf(o, RunSocket(o, w), w.teardown);
    ExpectedWhenUp(o, dirs, w);
    UpIssued(o, dirs, w, before);
  }

  /** The subprocesses of a run whose session came up, as `Serve` issues them:
      all that came before, the bootstrap, the session's and the teardown. */
  lemma UpIssued(o: Options, dirs: map<Path, nat>, w: World, before: seq<Spawned>)
    requires SessionUp(o, dirs, w)
    ensures before + BootLog(o, w) + Session(o, Mux.SocketText(RunSocket(o, w)), w).1
              + TeardownOf(o, RunSocket(o, w), w.teardown)
            == before + Expected(o, dirs, w).issued
  {
    ExpectedWhenUp(o, dirs, w);
    var boot, log, down := BootLog(o, w), Session(o, Mux.SocketText(RunSocket(o, w)), w).1, TeardownOf(o, RunSocket(o, w), w.teardown);
    Text.ConcatAssoc(before, boot, log);
    Text.ConcatAssoc(before, boot + log, down);
  }

  /** `main`: on every path, including every failure, the temporary directory is
      gone again when it returns, and the run is the one `Expected` describes. */
  method Run(args: Args, sys: System, w: World) returns (r: Result<Outcome>)
    requires sys.Valid()
    modifies args`createSocket, sys`dirs, sys`issued, sys`reported
    ensures sys.Valid() && sys.dirs == old(sys.dirs)
    ensures args.createSocket == Effective(old(args.createSocket), args.noCreateSocket)
    ensures var t := Expected(args.Frozen(), old(sys.dirs), w);
            && r == t.result
            && sys.issued == old(sys.issued) + t.issued
            && sys.reported == old(sys.reported) + t.reported
  {
    args.ApplyNoCreateSocket();
    var o := args.Frozen();
    r := RunWith(o, sys, w);
  }

  /** `main` from `let args = args;` on: set up the session, then serve it. */
  method RunWith(o: Options, sys: System, w: World) returns (r: Result<Outcome>)
    requires sys.Valid()
    modifies sys`dirs, sys`issued, sys`reported
    ensures sys.Valid() && sys.dirs == old(sys.dirs)
    ensures var t := Expected(o, old(sys.dirs), w);
            && r == t.result
            && sys.issued == old(sys.issued) + t.issued
            && sys.reported == old(sys.reported) + t.reported
  {
    var made := Setup(o, sys, w);
    if made.Err? {
      ExpectedWhenDown(o, old(sys.dirs), w);
      return Err(made.error);
    }
    r := Serve(o, made.value, sys, w, old(sys.dirs), old(sys.issued));
  }

  // ---------------------------------------------------------------------------
  // Properties of a run

  /** With `--force` the probe's answer plays no part: the run is the same
      whatever the probe would have done. */
  lemma ForceIgnoresProbe(o: Options, dirs: map<Path, nat>, w: World, probe: Exit)
    requires o.force
    ensures Expected(o, dirs, w) == Expected(o, dirs, w.(probe := probe))
  {
    var w' := w.(probe := probe);
    assert RunSocket(o, w') == RunSocket(o, w);
    var socket := Mux.SocketText(RunSocket(o, w));
    assert Session(o, socket, w') == Refresh(o, socket, w') == Refresh(o, socket, w) == Session(o, socket, w);
  }

  /** The login is attempted exactly when the session came up and either the run
      is forced or the probe asked for a refresh; otherwise the session only ever
      ran the probe. */
  lemma LoginOnlyWhenDue(o: Options, socket: Option<string>, w: World)
    ensures var probed := if o.force then [] else Log(ProbeInvocation(o, socket), ProbePayload(o.remote), w.probe);
            var due := o.force || RefreshDecision(w.probe, o.helper) == Ok(true);
            Session(o, socket, w).1 == probed + (if due then Refresh(o, socket, w).1 else [])
  {
  }

  /** A refresh never ends in "not needed". */
  lemma RefreshNeverNotNeeded(o: Options, socket: Option<string>, w: World)
    ensures Refresh(o, socket, w).0 != Ok(NotNeeded)
  {
  }

  /** The session ends with "refresh not needed" exactly when it was not forced and
      the probe succeeded. */
  lemma SessionNotNeeded(o: Options, socket: Option<string>, w: World)
    ensures Session(o, socket, w).0 == Ok(NotNeeded) <==> !o.force && w.probe.Exited? && w.probe.success
  {
    RefreshNeverNotNeeded(o, socket, w);
  }

  /** The run ends with "refresh not needed" exactly when it was not forced, the
      session came up and the probe succeeded. */
  lemma NotNeededExactly(o: Options, dirs: map<Path, nat>, w: World)
    ensures Expected(o, dirs, w).result == Ok(NotNeeded) <==>
              !o.force && SessionUp(o, dirs, w) && w.probe.Exited? && w.probe.success
  {
    SessionNotNeeded(o, Mux.SocketText(RunSocket(o, w)), w);
  }

  /** A run that syncs did log in, found the credential, and handed exactly that
      credential to a `keyctl padd` of the right key and keyring, which succeeded. */
  lemma SyncedPushesCredential(o: Options, dirs: map<Path, nat>, w: World)
    requires Expected(o, dirs, w).result == Ok(Synced)
    ensures o.force || RefreshDecision(w.probe, o.helper) == Ok(true)
    ensures w.login.Exited? && w.login.success && w.credential.Some?
    ensures w.keyctl.Exited? && w.keyctl.success
    ensures var socket := Mux.SocketText(RunSocket(o, w));
            Spawned(KeyctlInvocation(o, socket), w.credential.value) in Expected(o, dirs, w).issued
  {
    var socket := Mux.SocketText(RunSocket(o, w));
    var (r, log) := Refresh(o, socket, w);
    assert Spawned(KeyctlInvocation(o, socket), w.credential.value) in log;
  }
}
