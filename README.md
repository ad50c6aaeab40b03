# aspect-reauth, modelled in Dafny

aspect-reauth copies an Aspect Workflows credential from a workstation into the
kernel keyring of a remote machine over SSH. The model covers one run of it:

1. `--create-socket` is parsed and `--no-create-socket` may override it.
2. A batched SSH session is set up. When the policy says so, a private control
   master is started on a socket in a fresh temporary directory.
3. Unless `--force` is given, the remote credential helper's `get` is probed.
4. When a refresh is due, the helper's `login` runs locally and the credential
   is handed to a remote `keyctl padd`.
5. The session is torn down and the temporary directory is removed, whatever
   happened before.

Modules follow the source files:

- `Base`: `Option`, `Result` and the run's error kinds. It also has `Exit`, the
  outcome of a subprocess: it could not be started, it could not be awaited, or
  it exited with a status and an error output.
- `Text`: the parts of Rust's `str` that are used: `char::is_whitespace`,
  `trim`, `starts_with` and `lines`.
- `Os`: the operating system as state. A `System` object holds the directory
  tree (a map from path to permission bits, closed under parents), the log of
  the subprocesses started (argument vector and standard input), and the errors
  printed to standard error.
- `TempSocket` (`src/ssh_mux/temp_socket.rs`): the socket path inside a private
  temporary directory, and how dropping it removes the directory.
- `SshMux` (`src/ssh_mux/mod.rs`): the policy, the argument vectors of the
  bootstrap, command and teardown ssh invocations, and the `SshMux` class with
  `new`, `command`, `cleanup` and `Drop`.
- `SshConfig` (`src/ssh_mux/config.rs`) and `SshCmd` (`src/ssh_cmd.rs`): the
  two copies of `has_user_socket`. Each copy's loop is proved against a
  specification, and the two are proved to agree on every configuration dump.
  As written, any trimmed line that begins with `controlpersist` counts,
  whatever its value, `controlpersist no` included (`PersistTakesAnyValue`).
- `LoginHint`: the regular expression `(?mis)please\s+run.*<helper>\s+login`.
  `IsMatch` states where a match may lie. `Found` is a search over the text.
  `FoundIsMatch` proves the two agree on every text.
- `Reauth` (`src/main.rs`): `CreateSocket::from_str` and the argument override
  (the `Args` class), the probe request, the key name and keyring selector,
  `needs_refresh`, and `main`.

The outside world is a parameter: a `World` value holds each subprocess
outcome, the answer of the socket inference, the name the temporary-directory
library settles on, and the credential the keychain returns. `Expected`
describes the whole run as a function of the arguments, the starting
directories and that world. `Reauth.Run` is `main` as a method on the
`System` object, and its contract is that function. Its key promise is that on
every path, including every failure, the directory tree ends exactly as it
began.

## Model

| member | source | states |
|---|---|---|
| `Text.TrimStartFacts` | src/ssh_mux/config.rs:41 | `trim_start` leaves a suffix of the input whose dropped prefix is all whitespace, and it does not begin with whitespace |
| `Text.TrimEndFacts` | src/ssh_mux/config.rs:41 | `trim_end` leaves a prefix of the input whose dropped suffix is all whitespace, and it does not end with whitespace |
| `Text.TrimFacts` | src/ssh_mux/config.rs:41 | `trim` leaves the piece of the input at some offset that neither begins nor ends with whitespace, with only whitespace before and after it |
| `Text.TrimIgnoresPadding` | src/ssh_mux/config.rs:41 | whitespace added around a string does not change what `trim` gives |
| `Text.TrimKeepsPrefix` | src/ssh_mux/config.rs:45 | a prefix of a line that neither begins nor ends with whitespace is still a prefix after trimming |
| `Text.LinesShape` | src/ssh_mux/config.rs:40 | no line holds a line feed, and only the empty text has no lines |
| `Text.LinesRebuild` | src/ssh_mux/config.rs:40 | each line followed by its ending (`\n`, `\r\n`, or nothing after the last) joins back into exactly the text, so `lines` drops nothing but the line endings |
| `Text.LineEndsShape` | src/ssh_mux/config.rs:40 | every ending is `\n` or `\r\n` except that an unterminated last line, which is not empty, has none; a line ended by a bare `\n` does not end in `\r` |
| `Text.LinesOfUnlines` | src/ssh_mux/config.rs:40 | splitting lines that were written one per line gives back exactly those lines |
| `Text.LinesOfAppend` | src/ssh_mux/config.rs:40 | appending text after a final line feed only appends lines |
| `Os.RenderIsAbsolute` | src/ssh_mux/temp_socket.rs:53-57 | the text of every path below the root begins with `/` |
| `Os.Parent` | src/ssh_mux/temp_socket.rs:61 | only the root has no parent, and a parent plus the last component is the path |
| `Os.RemoveTree` | src/ssh_mux/temp_socket.rs:62 | `remove_dir_all` removes the directory and everything below it, and keeps every other directory with its permission bits |
| `Os.RemoveTreeKeepsTree` | src/ssh_mux/temp_socket.rs:62 | removing a subtree leaves a well-formed tree |
| `Os.CreateThenRemove` | src/ssh_mux/temp_socket.rs:34-65 | making a new directory and then removing it with its contents restores the tree exactly |
| `Os.System.MakeDir` | src/ssh_mux/temp_socket.rs:41 | creating a directory succeeds exactly when it is new and its parent exists, and then adds just that directory with the given mode |
| `Os.System.RemoveDirAll` | src/ssh_mux/temp_socket.rs:62 | the new tree is the old one without the directory's subtree |
| `TempSocket.TempDirPath` | src/ssh_mux/temp_socket.rs:41 | the temporary directory lies directly in the system temporary directory, and its name begins with the prefix |
| `TempSocket.FromTempDir` | src/ssh_mux/temp_socket.rs:44-50 | the socket is the entry `sock` of the directory, so the directory is its parent |
| `TempSocket.AsRefOfFromTempDir` | src/ssh_mux/temp_socket.rs:53-57 | the socket's text is the directory's text followed by `/sock` |
| `TempSocket.New` | src/ssh_mux/temp_socket.rs:34-42 | succeeds exactly when the directory can be created; it then adds only that directory, with mode 0o700; on failure the tree is unchanged |
| `TempSocket.DropUndoesNew` | src/ssh_mux/temp_socket.rs:59-65 | dropping the socket that `new` made gives back the tree as it was before `new` |
| `TempSocket.Drop` | src/ssh_mux/temp_socket.rs:59-65 | dropping removes the socket's parent directory with its contents; a failure to remove is ignored |
| `SshConfig.HasUserSocket` | src/ssh_mux/config.rs:19-51 | the three error cases (ssh not run, unsuccessful exit, stdout not UTF-8); otherwise the verdict is `DeclaresUserSocket` of the output's lines |
| `SshConfig.ScanLines` | src/ssh_mux/config.rs:37-50 | the loop's two flags give true exactly when some trimmed line is `controlmaster auto` and some trimmed line begins with `controlpersist` |
| `SshConfig.DeclaresUserSocketMonotone` | src/ssh_mux/config.rs:40-48 | more configuration lines never withdraw a positive verdict |
| `SshConfig.DeclaresUserSocketOrderFree` | src/ssh_mux/config.rs:40-48 | the verdict depends only on which lines occur, not on their order or repetition |
| `SshConfig.AppendedOutputKeepsVerdict` | src/ssh_mux/config.rs:35-50 | output extended after a final line feed keeps a positive verdict |
| `SshConfig.PaddingIgnored` | src/ssh_mux/config.rs:41-45 | indentation and trailing blanks around a line do not change how it is read |
| `SshConfig.MasterNeedsAuto` | src/ssh_mux/config.rs:42 | `controlmaster yes` and `controlmaster autoask` do not count |
| `SshConfig.NotMasterAuto` | src/ssh_mux/config.rs:42 | a non-empty line that neither begins nor ends with whitespace and whose length differs from that of `controlmaster auto` does not count |
| `SshConfig.PersistTakesAnyValue` | src/ssh_mux/config.rs:45 | `controlpersist` followed by any value counts |
| `SshCmd.HasUserSocket` | src/ssh_cmd.rs:4-36 | the same three error cases; otherwise the verdict of the scan over the output's lines |
| `SshCmd.ScanLines` | src/ssh_cmd.rs:22-35 | after each line the two loop flags equal the scan of the lines so far |
| `SshCmd.ScanSnoc` | src/ssh_cmd.rs:25-33 | scanning one more line is one more loop iteration |
| `SshCmd.ScanFlags` | src/ssh_cmd.rs:22-33 | each flag is raised exactly when some line so far raised it |
| `SshCmd.AgreesWithConfig` | src/ssh_cmd.rs:4-36 | this copy and the one in config.rs give the same verdict on every dump |
| `SshCmd.ScanMonotone` | src/ssh_cmd.rs:25-33 | a raised flag stays raised whatever lines follow |
| `SshCmd.ScanOrderFree` | src/ssh_cmd.rs:25-33 | reordering or repeating the lines never changes the verdict |
| `SshMux.IntoOptionBool` | src/ssh_mux/mod.rs:145-152 | `Infer` gives nothing, and an explicit value gives itself |
| `SshMux.WantsSocket` | src/ssh_mux/mod.rs:51-54 | an explicit policy decides; only `Infer` asks the inference |
| `SshMux.ExplicitPolicyIgnoresInference` | src/ssh_mux/mod.rs:51-54 | with an explicit policy the inference's answer plays no part |
| `SshMux.BootstrapArgs` | src/ssh_mux/mod.rs:57-74 | the caller's arguments come first; with a socket, `-xMTS <socket>`, ControlPersist and the five batch options follow; the vector always ends `-- <host> true` |
| `SshMux.CommandArgs` | src/ssh_mux/mod.rs:96-114 | the caller's arguments, `-S <socket>` only with a socket, `-xT` and the five batch options, then `-- <host> <command>` |
| `SshMux.CleanupArgs` | src/ssh_mux/mod.rs:120-124 | the caller's arguments, then `-S <socket> -Oexit -- <host>` |
| `SshMux.CleanupLog` | src/ssh_mux/mod.rs:116-130 | `cleanup` starts a subprocess exactly when there is a socket and the teardown ssh could be spawned |
| `SshMux.CommandOptionsComeFromMaster` | src/ssh_mux/mod.rs:57-112 | every `-o` option of a command is one the private master was started with, and every option of the master other than ControlPersist is passed to commands too; ControlPersist is the master's alone |
| `SshMux.OneSocketThroughout` | src/ssh_mux/mod.rs:59-124 | the master, every command and the teardown name the same socket; without a socket no command passes `-S` |
| `SshMux.SocketText` | src/ssh_mux/mod.rs:99-100 | there is a socket argument exactly when the mux holds a socket, and it is the socket's text |
| `SshMux.SshMux.New` | src/ssh_mux/mod.rs:46-94 | fails with no ssh recorded when the directory cannot be made; otherwise records the bootstrap once and succeeds exactly when it exits successfully; a socket made before a failure is dropped, so the tree is unchanged; on success the mux holds the chosen socket and the tree gains only its directory |
| `SshMux.SshMux.Command` | src/ssh_mux/mod.rs:96-114 | builds `ssh` with the command argument vector for the mux's own socket |
| `SshMux.SshMux.Cleanup` | src/ssh_mux/mod.rs:116-132 | the mux's socket is taken; without one nothing happens; with one the teardown runs once and the directory is removed; only a failure to run or await the teardown is an error |
| `SshMux.SshMux.Drop` | src/ssh_mux/mod.rs:135-143 | runs `cleanup` and prints its error instead of returning it |
| `SshMux.CleanupTwice` | src/ssh_mux/mod.rs:116-119 | after two `cleanup` calls the mux holds no socket, the second call succeeds, and the subprocesses started are exactly those of the first: the second starts nothing |
| `LoginHint.Fold` | src/main.rs:166-169 | upper-case ASCII letters fold to lower case, long s folds to `s` and the Kelvin sign to `k`; every other character stays as it is |
| `LoginHint.SpaceEnd` | src/main.rs:167 | the end of the longest whitespace run starting at an index |
| `LoginHint.FoundIsMatch` | src/main.rs:165-171 | the search succeeds exactly on the texts the regular expression matches somewhere |
| `LoginHint.FindFromIsMatch` | src/main.rs:166-171 | the scan from an index succeeds exactly when a match begins at or after it |
| `LoginHint.FoundAtIsMatch` | src/main.rs:167 | trying the pattern at one index succeeds exactly when a match begins there |
| `LoginHint.RunAfterSpacesIsMatch` | src/main.rs:167 | trying only the longest whitespace run before `run` loses no match |
| `LoginHint.FindHelperLoginIsMatch` | src/main.rs:167 | the scan for `<helper>\s+login` finds exactly the places `.*` can skip to |
| `LoginHint.LoginAfterSpacesIsMatch` | src/main.rs:167 | trying only the longest whitespace run before `login` loses no match |
| `LoginHint.CaseAndLineBreaksIgnored` | src/main.rs:167 | an upper-case hint broken across lines, with a tab before `login`, still matches |
| `Reauth.Boolish` | src/main.rs:192-195 | the six true words give true, the six false words give false, and nothing else gives a value |
| `Reauth.FromStr` | src/main.rs:184-199 | `infer`, a true word and a false word each give their policy in both directions; every other string is an unknown-value error carrying that string |
| `Reauth.FromStrOfSpelling` | src/main.rs:184-199 | each policy is parsed back from its advertised spelling |
| `Reauth.FromStrIsExact` | src/main.rs:188-195 | other cases, padded words and the empty string are refused |
| `Reauth.NoCreateSocketNeverCreates` | src/main.rs:80-84 | with `--no-create-socket` no socket is wanted, whatever the option and the inference say; without it the option stands |
| `Reauth.Args.ApplyNoCreateSocket` | src/main.rs:81-83 | the policy becomes `Specify(false)` when `--no-create-socket` is given, and stays as it was otherwise |
| `Reauth.Args.Frozen` | src/main.rs:84 | the read-only arguments carry every field of `Args` that `main` reads after the override; `no_create_socket` is dropped, as nothing after line 84 reads it |
| `Reauth.ProbePayload` | src/main.rs:158 | the request is the JSON head, the remote and the closing `"}` with a line feed |
| `Reauth.PayloadRoundTrip` | src/main.rs:158 | the remote can be read back from the request, so different remotes never share one |
| `Reauth.KeyName` | src/main.rs:112 | the key name is `keyring-rs:`, the remote, then `@AspectWorkflows` |
| `Reauth.KeyNameRoundTrip` | src/main.rs:112 | the remote can be read back from the key name |
| `Reauth.KeyringSelector` | src/main.rs:113 | `@s` exactly with `--session-keyring`, `@u` exactly without it |
| `Reauth.RefreshDecision` | src/main.rs:162-181 | a successful `get` means no refresh is needed; a failed one means a refresh exactly when the hint matches, and an error carrying the output otherwise; failure to spawn or await is an error of its own |
| `Reauth.Log` | src/main.rs:144-150 | a subprocess is recorded exactly when it was started |
| `Reauth.NeedsRefresh` | src/main.rs:143-182 | runs `<helper> get` through the mux once it can be spawned, writes the request to its stdin, and returns the decision |
| `Reauth.LoginResult` | src/main.rs:96-104 | the login succeeds exactly when the helper ran and exited successfully |
| `Reauth.KeyctlResult` | src/main.rs:114-134 | the push succeeds, ending in `Synced`, exactly when `keyctl` ran and exited successfully |
| `Reauth.RefreshStep` | src/main.rs:96-134 | the login, keychain read and `keyctl padd` run in order, each stopping the run on failure |
| `Reauth.SessionStep` | src/main.rs:89-134 | unless forced, the probe runs first and may end the run; then the refresh runs |
| `Reauth.Setup` | src/main.rs:86-87 | the session is up exactly when the socket step and the bootstrap succeed; on failure the tree is unchanged; on success dropping the mux restores the tree |
| `Reauth.Serve` | src/main.rs:89-141 | the session's result and subprocesses are those of `Expected`; dropping the mux restores the tree |
| `Reauth.Run` | src/main.rs:79-141 | after the override, the result, the recorded subprocesses and the printed errors are those of `Expected` on every path; the directory tree ends as it began |
| `Reauth.RunWith` | src/main.rs:86-141 | from the frozen arguments on, the result, the recorded subprocesses and the printed errors are those of `Expected`, and the directory tree ends as it began |
| `Reauth.BootstrapFirstTeardownLast` | src/main.rs:86-141 | when the session is up, the bootstrap ssh is the first subprocess recorded; with a socket whose teardown could be spawned, the `-Oexit` teardown of that socket is the last, so nothing recorded runs after the master is told to exit |
| `Reauth.FailedSetupRunsAtMostBootstrap` | src/main.rs:86-87 | a run whose setup fails returns an error, prints nothing, and records no subprocess or only the bootstrap |
| `Reauth.ReportsOnlyFailedTeardown` | src/ssh_mux/mod.rs:135-143 | the run prints an error exactly when the session came up with a socket and the teardown could not be run or awaited, and then prints only that one |
| `Reauth.ForceIgnoresProbe` | src/main.rs:89 | with `--force` the run is the same whatever the probe would have done |
| `Reauth.LoginOnlyWhenDue` | src/main.rs:89-104 | the login is attempted, and the refresh steps run, exactly when the run is forced or the probe asked for a refresh; otherwise only the probe runs |
| `Reauth.RefreshNeverNotNeeded` | src/main.rs:96-140 | a refresh never ends in "not needed" |
| `Reauth.SessionNotNeeded` | src/main.rs:89-94 | the session ends in "not needed" exactly when it was not forced and the probe succeeded |
| `Reauth.NotNeededExactly` | src/main.rs:86-94 | the run ends in "not needed" exactly when it was not forced, the session came up and the probe succeeded |
| `Reauth.SyncedPushesCredential` | src/main.rs:96-140 | a run that syncs was due, logged in, found the credential, and gave exactly that credential to a successful `keyctl padd` of the right key and keyring |

## Left out

- `infer_create_socket` is not part of this model. It is imported from
  src/ssh_mux/config.rs, but that file defines only `has_user_socket`. Its
  answer is the `inferred` field of `World`. No path in the model calls
  `has_user_socket`.
- SshMux.SshMux.New: `System.issued` does not record any subprocess that
  `infer_create_socket` may start under the `infer` policy, the default. By
  its design that is a read-only `ssh -G <host>` query, run before the
  directory is made. Its result is the `inferred` bit, and nothing is logged.
- Reauth.Run: the recorded subprocesses leave out the inference's query under
  `infer`, as for `SshMux.SshMux.New`.
- Reauth.RunWith: the recorded subprocesses leave out the inference's query
  under `infer`, as for `SshMux.SshMux.New`.
- Reauth.BootstrapFirstTeardownLast: the bootstrap is the first subprocess
  recorded. Under `infer`, the inference's query, which is not recorded, comes
  before it.
- Reauth.FailedSetupRunsAtMostBootstrap: "nothing or only the bootstrap"
  counts only recorded subprocesses. Under `infer`, the inference's query may
  also have run.
- `src/ssh_cmd.rs` is not declared as a module by the crate root. It is modelled
  only as a stand-alone copy of `has_user_socket`.
- Argument parsing by clap is not modelled: defaults, environment variables,
  `conflicts_with`, `default_missing_value` and `require_equals`. `Args` starts
  from parsed values.
- `build.rs` and the build-time defaults for the remote and the helper are not
  modelled.
- Subprocesses, the keychain and `tempfile` are oracles:
  - each subprocess is an `Exit` value;
  - the keychain is one optional credential, with `Entry::new` and
    `get_password` merged into one failure (`KeychainFailed`);
  - the random directory name is an optional string, and tempfile's retries on
    a taken name are not modelled.
- Threads, `smol` and `async` are not modelled. The writer thread that feeds a
  child's standard input is modelled as writing the whole payload. A failed
  write is ignored by the source too.
- `child.stdin.take()` cannot fail here, since standard input is always piped.
  Its error branch is left out.
- A failure to compile the regular expression is left out. With the helper's
  name escaped, the pattern always compiles.
- LoginHint.Fold: letters outside ASCII in the helper's name fold to
  themselves, so case folding beyond the ASCII letters, long s and the Kelvin
  sign is not modelled.
- Error output and `ssh -G` output are text (`seq<char>`):
  - invalid UTF-8 in error output, `from_utf8_lossy` and how a byte-oriented
    regular expression treats that output are not modelled;
  - invalid UTF-8 on `ssh -G`'s standard output is an oracle (`stdout: None`).
- Exact error messages, `println!` messages and the trimming of error output
  inside messages are not modelled. Errors are the constructors of
  `Base.Error`, and the errors `Drop` prints are logged in `System.reported`.
  The error `main` returns is the run's result.
- Reauth.LoginResult: an I/O error while awaiting the login, which `status()`
  reports like a failure to spawn, is mapped to `LoginSpawnFailed`.
- TempSocket.Drop: a failing `remove_dir_all` (for example, permissions changed
  behind the program's back) is not modelled. The removal always succeeds on
  the model's tree. The source ignores the error.
- `main` at src/main.rs:86 calls the `async fn SshMux::new` without `.await`,
  and src/main.rs uses the standard library's `Write` and `wait_with_output` on
  `smol` processes. As given, the source does not fit together on these points.
  The model takes the sequential reading: each call completes before the next
  statement.
- Only the `cfg(unix)` build is modelled: the directory always gets mode 0o700.
- Paths are sequences of components without `.`, `..` or symbolic links, and a
  path's text is its components joined by `/`.
