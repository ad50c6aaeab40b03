/** Shared vocabulary of the model: optional values, results with the tool's
    error kinds, and the observable outcome of a subprocess. */
module Base {

  datatype Option<+T> = None | Some(value: T)

  /** The failure kinds the tool distinguishes, one per error context it attaches.
      Texts carried are the captured standard-error output of the failing process. */
  datatype Error =
    | UnknownValue(text: string)        // `--create-socket` value not recognised
    | TempDirFailed                     // temporary directory could not be created
    | SshStartFailed                    // bootstrap ssh could not be spawned or awaited
    | SshFailed(stderr: string)         // bootstrap ssh exited unsuccessfully
    | CleanupFailed                     // `-Oexit` ssh could not be spawned or awaited
    | ConfigQueryFailed                 // `ssh -G` could not be spawned or awaited
    | ConfigQueryStatus(stderr: string) // `ssh -G` exited unsuccessfully
    | ConfigNotUtf8                     // `ssh -G` printed bytes that are not UTF-8
    | HelperSpawnFailed                 // credential helper `get` could not be spawned
    | HelperWaitFailed                  // credential helper `get` could not be awaited
    | HelperGetFailed(stderr: string)   // `get` failed for a reason other than "please login"
    | LoginSpawnFailed                  // credential helper `login` could not be spawned
    | LoginFailed                       // credential helper `login` exited unsuccessfully
    | KeychainFailed                    // local keychain entry missing or unreadable
    | KeyctlSpawnFailed                 // remote keyctl could not be spawned
    | KeyctlWaitFailed                  // remote keyctl could not be awaited
    | KeyctlFailed(stderr: string)      // remote keyctl exited unsuccessfully

  datatype Result<+T> = Ok(value: T) | Err(error: Error)

  /** What the tool observes of one subprocess it starts: either it could not be
      spawned, or it was spawned but could not be awaited, or it ran to an exit
      status (success or not) with the standard-error text it printed. */
  datatype Exit = SpawnFailed | WaitFailed | Exited(success: bool, stderr: string) {
    predicate Spawned() { !SpawnFailed? }
  }

  /** The captured output of `ssh -G`: `stdout` is `None` when the bytes it printed
      are not valid UTF-8 and `Some` of the decoded text otherwise. */
  datatype CapturedOutput =
    | NotCaptured
    | Captured(success: bool, stdout: Option<string>, stderr: string)
}
