/** The `ssh -G <host>` scan of src/ssh_mux/config.rs: does the host's effective
    configuration set up its own connection multiplexing? */
module SshConfig {
  import opened Base
  import opened Text

  const ControlMasterAuto: string := "controlmaster auto"
  const ControlPersistKey: string := "controlpersist"

  /** A line that, once trimmed, reads exactly "controlmaster auto". */
  predicate IsControlMasterAuto(line: string) {
    Trim(line) == ControlMasterAuto
  }

  /** A line that, once trimmed, begins with "controlpersist", whatever follows. */
  predicate IsControlPersist(line: string) {
    StartsWith(Trim(line), ControlPersistKey)
  }

  /** The configuration dump declares a user-managed control socket: some line is
      `controlmaster auto` and some line is a `controlpersist` setting. */
  predicate DeclaresUserSocket(lines: seq<string>) {
    SomeMasterLine(lines, |lines|) && SomePersistLine(lines, |lines|)
  }

  /** Some line among the first `n` is `controlmaster auto`. */
  predicate SomeMasterLine(lines: seq<string>, n: nat)
    requires n <= |lines|
  {
    exists i :: 0 <= i < n && IsControlMasterAuto(lines[i])
  }

  /** Some line among the first `n` is a `controlpersist` setting. */
  predicate SomePersistLine(lines: seq<string>, n: nat)
    requires n <= |lines|
  {
    exists i :: 0 <= i < n && IsControlPersist(lines[i])
  }

  lemma SomeLineStep(lines: seq<string>, n: nat)
    requires n < |lines|
    ensures SomeMasterLine(lines, n + 1) == (SomeMasterLine(lines, n) || IsControlMasterAuto(lines[n]))
    ensures SomePersistLine(lines, n + 1) == (SomePersistLine(lines, n) || IsControlPersist(lines[n]))
  {
  }

  /** `has_user_socket`: fails when `ssh -G` could not run, exited unsuccessfully or
      printed text that is not UTF-8; otherwise reports whether its lines declare a
      user-managed control socket. */
  method HasUserSocket(output: CapturedOutput) returns (r: Result<bool>)
    ensures output.NotCaptured? ==> r == Err(ConfigQueryFailed)
    ensures output.Captured? && !output.success ==> r == Err(ConfigQueryStatus(output.stderr))
    ensures output.Captured? && output.success && output.stdout.None? ==> r == Err(ConfigNotUtf8)
    ensures output.Captured? && output.success && output.stdout.Some? ==>
              r == Ok(DeclaresUserSocket(Lines(output.stdout.value)))
  {
    if output.NotCaptured? {
      return Err(ConfigQueryFailed);
    }
    if !output.success {
      return Err(ConfigQueryStatus(output.stderr));
    }
    if output.stdout.None? {
      return Err(ConfigNotUtf8);
    }
    var found := ScanLines(Lines(output.stdout.value));
    return Ok(found);
  }

  /** The loop of `has_user_socket` over the lines of the dump: two flags, each
      raised by a matching trimmed line and never lowered. */
  method ScanLines(lines: seq<string>) returns (found: bool)
    ensures found == DeclaresUserSocket(lines)
  {
    var hasControlMasterAuto := false;
    var hasControlPersist := false;
    for n := 0 to |lines|
      invariant hasControlMasterAuto == SomeMasterLine(lines, n)
      invariant hasControlPersist == SomePersistLine(lines, n)
    {
      SomeLineStep(lines, n);
      var line := Trim(lines[n]);
      if line == ControlMasterAuto {
        hasControlMasterAuto := true;
      }
      if StartsWith(line, ControlPersistKey) {
        hasControlPersist := true;
      }
    }
    return hasControlMasterAuto && hasControlPersist;
  }

  /** Adding configuration lines never withdraws a declared user socket. */
  lemma DeclaresUserSocketMonotone(lines: seq<string>, more: seq<string>)
    requires forall l :: l in lines ==> l in more
    requires DeclaresUserSocket(lines)
    ensures DeclaresUserSocket(more)
  {
    var i :| 0 <= i < |lines| && IsControlMasterAuto(lines[i]);
    var j :| 0 <= j < |lines| && IsControlPersist(lines[j]);
    assert lines[i] in more && lines[j] in more;
    var i' :| 0 <= i' < |more| && more[i'] == lines[i];
    var j' :| 0 <= j' < |more| && more[j'] == lines[j];
    assert IsControlMasterAuto(more[i']) && IsControlPersist(more[j']);
  }

  /** The verdict depends only on which lines occur, never on their order or on
      repetitions. */
  lemma DeclaresUserSocketOrderFree(lines: seq<string>, other: seq<string>)
    requires forall l :: l in lines <==> l in other
    ensures DeclaresUserSocket(lines) == DeclaresUserSocket(other)
  {
    if DeclaresUserSocket(lines) {
      DeclaresUserSocketMonotone(lines, other);
    }
    if DeclaresUserSocket(other) {
      DeclaresUserSocketMonotone(other, lines);
    }
  }

  /** `ssh -G` output extended by further complete lines keeps a positive verdict. */
  lemma AppendedOutputKeepsVerdict(stdout: string, extra: string)
    requires stdout == [] || stdout[|stdout| - 1] == '\n'
    requires DeclaresUserSocket(Lines(stdout))
    ensures DeclaresUserSocket(Lines(stdout + extra))
  {
    LinesOfAppend(stdout, extra);
    DeclaresUserSocketMonotone(Lines(stdout), Lines(stdout + extra));
  }

  /** Indentation and trailing blanks around a setting do not change how it is read. */
  lemma PaddingIgnored(p: string, line: string, q: string)
    requires AllWhitespace(p) && AllWhitespace(q)
    ensures IsControlMasterAuto(p + line + q) == IsControlMasterAuto(line)
    ensures IsControlPersist(p + line + q) == IsControlPersist(line)
  {
    TrimIgnoresPadding(p, line, q);
  }

  /** Only the exact value `auto` counts for ControlMaster. */
  lemma MasterNeedsAuto()
    ensures !IsControlMasterAuto("controlmaster yes")
    ensures !IsControlMasterAuto("controlmaster autoask")
  {
    NotMasterAuto("controlmaster yes");
    NotMasterAuto("controlmaster autoask");
  }

  /** A line with no whitespace around it counts only if it has the length of
      `controlmaster auto`. */
  lemma NotMasterAuto(s: string)
    requires |s| > 0 && !IsWhitespace(s[0]) && !IsWhitespace(s[|s| - 1]) && |s| != |ControlMasterAuto|
    ensures !IsControlMasterAuto(s)
  {
    TrimOfCore(s);
  }

  /** Any value at all counts for ControlPersist. */
  lemma PersistTakesAnyValue(value: string)
    ensures IsControlPersist(ControlPersistKey + " " + value)
  {
    var s := ControlPersistKey + " " + value;
    assert s[..|ControlPersistKey|] == ControlPersistKey;
    TrimKeepsPrefix(s, ControlPersistKey);
  }
}
