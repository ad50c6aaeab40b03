/** The hint src/main.rs looks for in the error output of a failed credential
    probe: the regular expression `(?mis)please\s+run.*<helper>\s+login`, the
    helper's name quoted literally. `i` makes letters match case-insensitively, `s`
    lets `.` match line feeds too, and `m` changes nothing since the pattern has no
    anchors. `IsMatch` states where a match may lie; `Found` is a search that
    decides it, and `FoundIsMatch` proves the two agree on every text. */
module LoginHint {
  import opened Text

  /** Simple case folding on the classes of the ASCII letters: an upper-case
      letter folds to its lower case, and so do U+017F (long s, in the class of s)
      and U+212A (Kelvin sign, in the class of k). Every other character folds to
      itself. */
  function Fold(c: char): (f: char)
    ensures 'A' <= c <= 'Z' ==> f as int == c as int + 32
    ensures !('A' <= c <= 'Z') && c != '\U{017F}' && c != '\U{212A}' ==> f == c
    ensures c == '\U{017F}' ==> f == 's'
    ensures c == '\U{212A}' ==> f == 'k'
  {
    if 'A' <= c <= 'Z' then (c as int + 32) as char
    else if c == '\U{017F}' then 's'
    else if c == '\U{212A}' then 'k'
    else c
  }

  /** Under `(?i)`, the pattern character `p` matches the text character `c`. */
  predicate CharMatches(p: char, c: char) {
    Fold(p) == Fold(c)
  }

  /** The literal `lit` occurs, up to case, in `text` at index `i`. */
  predicate LiteralAt(text: string, i: nat, lit: string) {
    i + |lit| <= |text| && forall k {:trigger text[i..][k]} :: 0 <= k < |lit| ==> CharMatches(lit[k], text[i..][k])
  }

  /** `text[i..j]` is what `\s+` consumes: a nonempty run of whitespace. */
  predicate SpaceRun(text: string, i: nat, j: nat) {
    i < j <= |text| && forall k {:trigger IsWhitespace(text[k])} :: i <= k < j ==> IsWhitespace(text[k])
  }

  /** `\s+login` matches from index `e`. */
  ghost predicate SpacedLoginFrom(text: string, e: nat) {
    exists d: nat :: SpaceRun(text, e, d) && LiteralAt(text, d, "login")
  }

  /** `<helper>\s+login` matches from index `c`. */
  ghost predicate HelperLoginAt(helper: string, text: string, c: nat) {
    LiteralAt(text, c, helper) && SpacedLoginFrom(text, c + |helper|)
  }

  /** `.*<helper>\s+login` matches from index `c`: the `.*` skips any characters. */
  ghost predicate HelperLoginFrom(helper: string, text: string, c: nat) {
    exists c': nat :: c <= c' && HelperLoginAt(helper, text, c')
  }

  /** `\s+run.*<helper>\s+login` matches from index `e`. */
  ghost predicate SpacedRunFrom(helper: string, text: string, e: nat) {
    exists b: nat :: SpaceRun(text, e, b) && LiteralAt(text, b, "run") && HelperLoginFrom(helper, text, b + 3)
  }

  /** The whole pattern matches starting at index `a`. */
  ghost predicate MatchAt(helper: string, text: string, a: nat) {
    LiteralAt(text, a, "please") && SpacedRunFrom(helper, text, a + 6)
  }

  /** `Regex::is_match`: the pattern matches somewhere in `text`. */
  ghost predicate IsMatch(helper: string, text: string) {
    exists a: nat :: MatchAt(helper, text, a)
  }

  /** The end of the longest whitespace run that starts at `i`. */
  function SpaceEnd(text: string, i: nat): (j: nat)
    requires i <= |text|
    ensures i <= j <= |text|
    ensures forall k {:trigger IsWhitespace(text[k])} :: i <= k < j ==> IsWhitespace(text[k])
    ensures j == |text| || !IsWhitespace(text[j])
    decreases |text| - i
  {
    if i < |text| && IsWhitespace(text[i]) then SpaceEnd(text, i + 1) else i
  }

  /** Whitespace then `login` from `e`, trying only the longest run: `login`
      begins with a letter, so no shorter run can be followed by it. */
  predicate LoginAfterSpaces(text: string, e: nat)
    requires e <= |text|
  {
    var d := SpaceEnd(text, e);
    e < d && LiteralAt(text, d, "login")
  }

  /** Some index from `c` up to `n` passes `hit`: the engine's left-to-right
      scan for a place where a match begins. */
  predicate AnyFrom(hit: nat -> bool, c: nat, n: nat)
    requires c <= n
    decreases n - c
  {
    hit(c) || (c < n && AnyFrom(hit, c + 1, n))
  }

  /** Tries `<helper>\s+login` at index `c`. */
  predicate HelperLoginHere(helper: string, text: string, c: nat) {
    LiteralAt(text, c, helper) && LoginAfterSpaces(text, c + |helper|)
  }

  function HelperLoginHit(helper: string, text: string): nat -> bool {
    (c: nat) => HelperLoginHere(helper, text, c)
  }

  /** Tries `<helper>\s+login` at every index from `c` on. */
  predicate FindHelperLogin(helper: string, text: string, c: nat)
    requires c <= |text|
  {
    AnyFrom(HelperLoginHit(helper, text), c, |text|)
  }

  /** Whitespace, `run` and then the search for `<helper>\s+login`, from `e`,
      trying only the longest run (`run` begins with a letter too). */
  predicate RunAfterSpaces(helper: string, text: string, e: nat)
    requires e <= |text|
  {
    var b := SpaceEnd(text, e);
    e < b && LiteralAt(text, b, "run") && FindHelperLogin(helper, text, b + 3)
  }

  /** Tries the whole pattern at index `a`. */
  predicate FoundAt(helper: string, text: string, a: nat) {
    LiteralAt(text, a, "please") && RunAfterSpaces(helper, text, a + 6)
  }

  function FoundAtHit(helper: string, text: string): nat -> bool {
    (a: nat) => FoundAt(helper, text, a)
  }

  /** Tries the whole pattern at every index from `a` on. */
  predicate FindFrom(helper: string, text: string, a: nat)
    requires a <= |text|
  {
    AnyFrom(FoundAtHit(helper, text), a, |text|)
  }

  /** The search for the login hint over the whole text. */
  predicate Found(helper: string, text: string) {
    FindFrom(helper, text, 0)
  }

  /** The scan succeeds only at an index that passes. */
  lemma {:induction false} AnyFromWitness(hit: nat -> bool, c: nat, n: nat) returns (i: nat)
    requires c <= n && AnyFrom(hit, c, n)
    ensures c <= i <= n && hit(i)
    decreases n - c
  {
    if hit(c) {
      i := c;
    } else {
      i := AnyFromWitness(hit, c + 1, n);
    }
  }

  /** The scan reaches every index up to `n`. */
  lemma {:induction false} AnyFromReaches(hit: nat -> bool, c: nat, i: nat, n: nat)
    requires c <= i <= n && hit(i)
    ensures AnyFrom(hit, c, n)
    decreases i - c
  {
    if c < i {
      AnyFromReaches(hit, c + 1, i, n);
    }
  }

  /** A text character that matches a lower-case ASCII letter is not whitespace. */
  lemma LetterIsNotSpace(p: char, c: char)
    requires 'a' <= p <= 'z' && CharMatches(p, c)
    ensures !IsWhitespace(c)
  {
  }

  /** The `k`-th character of a literal found at `i` matches the text at `i + k`. */
  lemma LiteralChar(text: string, i: nat, lit: string, k: nat)
    requires LiteralAt(text, i, lit) && k < |lit|
    ensures CharMatches(lit[k], text[i + k])
  {
    assert text[i..][k] == text[i + k];
  }

  /** A whitespace run followed by a literal that begins with a letter is the
      longest run there is. */
  lemma RunBeforeLetterIsLongest(text: string, i: nat, j: nat, lit: string)
    requires SpaceRun(text, i, j) && LiteralAt(text, j, lit)
    requires |lit| > 0 && 'a' <= lit[0] <= 'z'
    ensures j == SpaceEnd(text, i)
  {
    LiteralChar(text, j, lit, 0);
    LetterIsNotSpace(lit[0], text[j]);
  }

  lemma LoginAfterSpacesIsMatch(text: string, e: nat)
    requires e <= |text|
    ensures LoginAfterSpaces(text, e) <==> SpacedLoginFrom(text, e)
  {
    if SpacedLoginFrom(text, e) {
      var d: nat :| SpaceRun(text, e, d) && LiteralAt(text, d, "login");
      RunBeforeLetterIsLongest(text, e, d, "login");
    }
  }

  lemma HelperLoginHereIsAt(helper: string, text: string, c: nat)
    ensures HelperLoginHere(helper, text, c) <==> HelperLoginAt(helper, text, c)
  {
    if LiteralAt(text, c, helper) {
      LoginAfterSpacesIsMatch(text, c + |helper|);
    }
  }

  lemma FindHelperLoginIsMatch(helper: string, text: string, c: nat)
    requires c <= |text|
    ensures FindHelperLogin(helper, text, c) <==> HelperLoginFrom(helper, text, c)
  {
    var hit := HelperLoginHit(helper, text);
    if FindHelperLogin(helper, text, c) {
      var c' := AnyFromWitness(hit, c, |text|);
      HelperLoginHereIsAt(helper, text, c');
    }
    if HelperLoginFrom(helper, text, c) {
      var c': nat :| c <= c' && HelperLoginAt(helper, text, c');
      HelperLoginHereIsAt(helper, text, c');
      AnyFromReaches(hit, c, c', |text|);
    }
  }

  lemma RunAfterSpacesIsMatch(helper: string, text: string, e: nat)
    requires e <= |text|
    ensures RunAfterSpaces(helper, text, e) <==> SpacedRunFrom(helper, text, e)
  {
    if RunAfterSpaces(helper, text, e) {
      var b := SpaceEnd(text, e);
      FindHelperLoginIsMatch(helper, text, b + 3);
      assert SpaceRun(text, e, b);
    }
    if SpacedRunFrom(helper, text, e) {
      var b: nat :| SpaceRun(text, e, b) && LiteralAt(text, b, "run") && HelperLoginFrom(helper, text, b + 3);
      RunBeforeLetterIsLongest(text, e, b, "run");
      FindHelperLoginIsMatch(helper, text, b + 3);
    }
  }

  lemma FoundAtIsMatch(helper: string, text: string, a: nat)
    ensures FoundAt(helper, text, a) <==> MatchAt(helper, text, a)
  {
    if LiteralAt(text, a, "please") {
      RunAfterSpacesIsMatch(helper, text, a + 6);
    }
  }

  lemma FindFromIsMatch(helper: string, text: string, a: nat)
    requires a <= |text|
    ensures FindFrom(helper, text, a) <==> exists a': nat :: a <= a' && MatchAt(helper, text, a')
  {
    var hit := FoundAtHit(helper, text);
    if FindFrom(helper, text, a) {
      var a' := AnyFromWitness(hit, a, |text|);
      FoundAtIsMatch(helper, text, a');
    }
    if exists a': nat :: a <= a' && MatchAt(helper, text, a') {
      var a': nat :| a <= a' && MatchAt(helper, text, a');
      FoundAtIsMatch(helper, text, a');
      AnyFromReaches(hit, a, a', |text|);
    }
  }

  /** The search decides the pattern: it succeeds exactly on the texts the regular
      expression matches somewhere. */
  lemma FoundIsMatch(helper: string, text: string)
    ensures Found(helper, text) <==> IsMatch(helper, text)
  {
    FindFromIsMatch(helper, text, 0);
  }

  /** The hint is read without regard to case and across line breaks: an upper-case
      `PLEASE`, a line feed before `RUN` and a tab before `login` still match. */
  lemma CaseAndLineBreaksIgnored()
    ensures IsMatch("h", "PLEASE\nRUN h\tlogin")
  {
    var text := "PLEASE\nRUN h\tlogin";
    assert LiteralAt(text, 0, "please") by {
      forall k | 0 <= k < 6 ensures CharMatches("please"[k], text[k]) {
        assert text[k] as int == "please"[k] as int - 32;
      }
    }
    assert SpaceRun(text, 6, 7);
    assert LiteralAt(text, 7, "run") by {
      forall k | 0 <= k < 3 ensures CharMatches("run"[k], text[7 + k]) {
        assert text[7 + k] as int == "run"[k] as int - 32;
      }
    }
    assert SpaceRun(text, 12, 13);
    assert LiteralAt(text, 13, "login");
    assert SpacedLoginFrom(text, 12);
    assert HelperLoginAt("h", text, 11);
    assert HelperLoginFrom("h", text, 10);
    assert MatchAt("h", text, 0);
  }
}
