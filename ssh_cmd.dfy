/** src/ssh_cmd.rs: a second, stand-alone copy of `has_user_socket` (the crate
    root does not declare it as a module). Specified here by the state of its two
    flags after each line, and proved to agree with the copy in SshConfig. */
module SshCmd {
  import opened Base
  import opened Text
  import SshConfig

  /** The two flags of the scan. */
  datatype Flags = Flags(controlMasterAuto: bool, controlPersist: bool) {
    predicate Verdict() { controlMasterAuto && controlPersist }
  }

  /** One iteration of the `for` loop on a raw line. */
  function Step(f: Flags, line: string): Flags {
    var t := Trim(line);
    Flags(f.controlMasterAuto || t == "controlmaster auto",
          f.controlPersist || StartsWith(t, "controlpersist"))
  }

  /** The flags after the loop has seen `lines`, from left to right. */
  function Scan(lines: seq<string>): Flags
    decreases |lines|
  {
    if lines == [] then Flags(false, false)
    else Step(Scan(lines[..|lines| - 1]), lines[|lines| - 1])
  }

  /** `has_user_socket` as this file writes it. */
  method HasUserSocket(output: CapturedOutput) returns (r: Result<bool>)
    ensures output.NotCaptured? ==> r == Err(ConfigQueryFailed)
    ensures output.Captured? && !output.success ==> r == Err(ConfigQueryStatus(output.stderr))
    ensures output.Captured? && output.success && output.stdout.None? ==> r == Err(ConfigNotUtf8)
    ensures output.Captured? && output.success && output.stdout.Some? ==>
              r == Ok(Scan(Lines(output.stdout.value)).Verdict())
  {
    if output.NotCaptured? {
      return Err(ConfigQueryFailed);
    }
    if !output.success {
      return Err(ConfigQueryStatus(output.stderr));
    }
    if output.stdout.None? {
      return Err(ConfigNotUtf8);
    }
    var found := ScanLines(Lines(output.stdout.value));
    return Ok(found);
  }

  /** The loop over the lines, with its two mutable flags. */
  method ScanLines(lines: seq<string>) returns (found: bool)
    ensures found == Scan(lines).Verdict()
  {
    var hasControlMasterAuto := false;
    var hasControlPersist := false;
    for n := 0 to |lines|
      invariant Flags(hasControlMasterAuto, hasControlPersist) == Scan(lines[..n])
    {
      ScanSnoc(lines, n);
      var line := Trim(lines[n]);
      if line == "controlmaster auto" {
        hasControlMasterAuto := true;
      }
      if StartsWith(line, "controlpersist") {
        hasControlPersist := true;
      }
    }
    assert lines[..|lines|] == lines;
    return hasControlMasterAuto && hasControlPersist;
  }

  /** The scan of one more line is one more step. */
  lemma ScanSnoc(lines: seq<string>, n: nat)
    requires n < |lines|
    ensures Scan(lines[..n + 1]) == Step(Scan(lines[..n]), lines[n])
  {
    assert lines[..n + 1][..n] == lines[..n];
  }

  /** Each flag of the scan is raised exactly when some line so far raised it. */
  lemma {:induction false} ScanFlags(lines: seq<string>)
    ensures Scan(lines).controlMasterAuto == SshConfig.SomeMasterLine(lines, |lines|)
    ensures Scan(lines).controlPersist == SshConfig.SomePersistLine(lines, |lines|)
    decreases |lines|
  {
    if lines != [] {
      var n := |lines| - 1;
      ScanFlags(lines[..n]);
      SomeLinePrefix(lines, n);
      SshConfig.SomeLineStep(lines, n);
    }
  }

  /** Which of the first `n` lines raise a flag does not depend on the lines after them. */
  lemma SomeLinePrefix(lines: seq<string>, n: nat)
    requires n <= |lines|
    ensures SshConfig.SomeMasterLine(lines[..n], n) == SshConfig.SomeMasterLine(lines, n)
    ensures SshConfig.SomePersistLine(lines[..n], n) == SshConfig.SomePersistLine(lines, n)
  {
    var init := lines[..n];
    assert forall i :: 0 <= i < n ==> init[i] == lines[i];
  }

  /** The two copies of `has_user_socket` compute the same verdict on every
      configuration dump. */
  lemma AgreesWithConfig(lines: seq<string>)
    ensures Scan(lines).Verdict() == SshConfig.DeclaresUserSocket(lines)
  {
    ScanFlags(lines);
  }

  /** Flags are only ever raised: whatever lines follow, a raised flag stays raised. */
  lemma {:induction false} ScanMonotone(lines: seq<string>, more: seq<string>)
    ensures Scan(lines).controlMasterAuto ==> Scan(lines + more).controlMasterAuto
    ensures Scan(lines).controlPersist ==> Scan(lines + more).controlPersist
    decreases |more|
  {
    if more == [] {
      assert lines + more == lines;
    } else {
      var init := more[..|more| - 1];
      assert (lines + more)[..|lines + more| - 1] == lines + init;
      ScanMonotone(lines, init);
    }
  }

  /** Reordering or repeating the lines of the dump never changes the verdict. */
  lemma ScanOrderFree(lines: seq<string>, other: seq<string>)
    requires forall l :: l in lines <==> l in other
    ensures Scan(lines).Verdict() == Scan(other).Verdict()
  {
    AgreesWithConfig(lines);
    AgreesWithConfig(other);
    SshConfig.DeclaresUserSocketOrderFree(lines, other);
  }
}
