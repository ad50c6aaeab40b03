/** The string operations of Rust's `str` that the configuration scan and the
    login-hint match rely on: `char::is_whitespace`, `trim`, `starts_with` and
    `lines`. */
module Text {

  /** Unicode White_Space, the set Rust's `char::is_whitespace` (and the regex
      class `\s`) accepts. */
  predicate IsWhitespace(c: char) {
    ('\t' <= c <= '\r') || c == ' ' || c == '\U{0085}' || c == '\U{00A0}' || c == '\U{1680}'
    || ('\U{2000}' <= c <= '\U{200A}') || c == '\U{2028}' || c == '\U{2029}' || c == '\U{202F}'
    || c == '\U{205F}' || c == '\U{3000}'
  }

  /** Every character of `s` is whitespace. */
  predicate AllWhitespace(s: string)
    decreases |s|
  {
    s == [] || (IsWhitespace(s[0]) && AllWhitespace(s[1..]))
  }

  predicate StartsWith(s: string, prefix: string) {
    |prefix| <= |s| && s[..|prefix|] == prefix
  }

  /** `str::trim_start`: `s` without its leading whitespace. */
  function TrimStart(s: string): string
    decreases |s|
  {
    if s != [] && IsWhitespace(s[0]) then TrimStart(s[1..]) else s
  }

  /** What `trim_start` leaves is a suffix of `s` that does not begin with
      whitespace, and only whitespace was dropped in front of it. */
  lemma {:induction false} TrimStartFacts(s: string)
    ensures var r := TrimStart(s);
            && |r| <= |s| && r == s[|s| - |r|..]
            && AllWhitespace(s[..|s| - |r|])
            && (r == [] || !IsWhitespace(r[0]))
    decreases |s|
  {
    if s != [] && IsWhitespace(s[0]) {
      TrimStartFacts(s[1..]);
      TrimStartStep(s, TrimStart(s[1..]));
    } else {
      assert s[..0] == [];
    }
  }

  /** Dropping one more leading whitespace character keeps `r` a suffix of `s`
      behind nothing but whitespace. */
  lemma TrimStartStep(s: string, r: string)
    requires s != [] && IsWhitespace(s[0])
    requires |r| <= |s| - 1 && r == s[1..][|s| - 1 - |r|..]
    requires AllWhitespace(s[1..][..|s| - 1 - |r|])
    ensures r == s[|s| - |r|..] && AllWhitespace(s[..|s| - |r|])
  {
    var lead := s[..|s| - |r|];
    assert lead[0] == s[0] && lead[1..] == s[1..][..|s| - 1 - |r|];
  }

  /** `str::trim_end`: `s` without its trailing whitespace. */
  function TrimEnd(s: string): string
    decreases |s|
  {
    if s != [] && IsWhitespace(s[|s| - 1]) then TrimEnd(s[..|s| - 1]) else s
  }

  /** What `trim_end` leaves is a prefix of `s` that does not end with whitespace,
      and only whitespace was dropped after it. */
  lemma {:induction false} TrimEndFacts(s: string)
    ensures var r := TrimEnd(s);
            && |r| <= |s| && r == s[..|r|]
            && AllWhitespace(s[|r|..])
            && (r == [] || !IsWhitespace(r[|r| - 1]))
    decreases |s|
  {
    if s != [] && IsWhitespace(s[|s| - 1]) {
      var init := s[..|s| - 1];
      TrimEndFacts(init);
      TrimEndStep(s, TrimEnd(init));
    } else {
      assert s[|s|..] == [];
    }
  }

  /** Dropping one more trailing whitespace character keeps `r` a prefix of `s`
      followed by nothing but whitespace. */
  lemma TrimEndStep(s: string, r: string)
    requires s != [] && IsWhitespace(s[|s| - 1])
    requires |r| <= |s| - 1 && r == s[..|s| - 1][..|r|]
    requires AllWhitespace(s[..|s| - 1][|r|..])
    ensures r == s[..|r|] && AllWhitespace(s[|r|..])
  {
    var last := [s[|s| - 1]];
    assert s[|r|..] == s[..|s| - 1][|r|..] + last;
    assert AllWhitespace(last) by { assert last[1..] == []; }
    AllWhitespaceConcat(s[..|s| - 1][|r|..], last);
  }

  /** `trim_end` never removes a character that is not whitespace, nor anything before it. */
  lemma {:induction false} TrimEndKeeps(s: string, i: nat)
    requires i < |s| && !IsWhitespace(s[i])
    ensures i < |TrimEnd(s)|
    decreases |s|
  {
    if IsWhitespace(s[|s| - 1]) {
      TrimEndKeeps(s[..|s| - 1], i);
    }
  }

  /** `str::trim`: `s` with its leading and trailing whitespace removed. */
  function Trim(s: string): string {
    TrimEnd(TrimStart(s))
  }

  /** What `Trim` leaves neither starts nor ends with whitespace and sits at
      offset `i` of `s`, between two runs of whitespace. */
  lemma TrimFacts(s: string) returns (i: nat)
    ensures var r := Trim(s);
            && (r == [] || (!IsWhitespace(r[0]) && !IsWhitespace(r[|r| - 1])))
            && i + |r| <= |s| && s[i..i + |r|] == r
            && AllWhitespace(s[..i]) && AllWhitespace(s[i + |r|..])
  {
    var t := TrimStart(s);
    TrimStartFacts(s);
    TrimEndFacts(t);
    i := |s| - |t|;
    TrimSplit(s, t, TrimEnd(t), i);
  }

  /** Where the two halves of `Trim` leave their result inside `s`: `t` is what
      `trim_start` left at offset `i`, and `r` what `trim_end` left of `t`. */
  lemma TrimSplit(s: string, t: string, r: string, i: nat)
    requires i + |t| == |s| && t == s[i..] && AllWhitespace(s[..i])
    requires t == [] || !IsWhitespace(t[0])
    requires |r| <= |t| && r == t[..|r|] && AllWhitespace(t[|r|..])
    requires r == [] || !IsWhitespace(r[|r| - 1])
    ensures r == [] || (!IsWhitespace(r[0]) && !IsWhitespace(r[|r| - 1]))
    ensures i + |r| <= |s| && s[i..i + |r|] == r
    ensures AllWhitespace(s[..i]) && AllWhitespace(s[i + |r|..])
  {
    assert s[i + |r|..] == t[|r|..];
    assert s[i..i + |r|] == r;
    if r != [] {
      assert r[0] == t[0];
    }
  }

  lemma {:induction false} TrimStartOfPadded(a: string, r: string)
    requires AllWhitespace(a)
    requires r == [] || !IsWhitespace(r[0])
    ensures TrimStart(a + r) == r
    decreases |a|
  {
    if a == [] {
      assert a + r == r;
    } else {
      assert (a + r)[0] == a[0] && (a + r)[1..] == a[1..] + r;
      TrimStartOfPadded(a[1..], r);
    }
  }

  lemma {:induction false} TrimEndOfPadded(r: string, b: string)
    requires AllWhitespace(b)
    requires r == [] || !IsWhitespace(r[|r| - 1])
    ensures TrimEnd(r + b) == r
    decreases |b|
  {
    if b == [] {
      assert r + b == r;
    } else {
      var init := b[..|b| - 1];
      assert b == init + [b[|b| - 1]];
      AllWhitespaceSplit(init, [b[|b| - 1]]);
      assert (r + b)[|r + b| - 1] == b[|b| - 1];
      assert (r + b)[..|r + b| - 1] == r + init;
      TrimEndOfPadded(r, init);
    }
  }

  /** Whatever the split of a string into whitespace padding and a core that
      neither starts nor ends with whitespace, `Trim` returns that core. */
  lemma TrimOfPadded(a: string, r: string, b: string)
    requires AllWhitespace(a) && AllWhitespace(b)
    requires r == [] || (!IsWhitespace(r[0]) && !IsWhitespace(r[|r| - 1]))
    ensures Trim(a + r + b) == r
  {
    if r == [] {
      assert a + r + b == (a + b) + [];
      AllWhitespaceConcat(a, b);
      TrimStartOfPadded(a + b, []);
    } else {
      assert a + r + b == a + (r + b);
      assert (r + b)[0] == r[0];
      TrimStartOfPadded(a, r + b);
      TrimEndOfPadded(r, b);
    }
  }

  /** A string that neither starts nor ends with whitespace trims to itself. */
  lemma TrimOfCore(r: string)
    requires r != [] && !IsWhitespace(r[0]) && !IsWhitespace(r[|r| - 1])
    ensures Trim(r) == r
  {
    assert [] + r == r && r + [] == r;
    TrimStartOfPadded([], r);
    TrimEndOfPadded(r, []);
  }

  /** A prefix that begins and ends with a character that is not whitespace
      survives `Trim`. */
  lemma TrimKeepsPrefix(s: string, k: string)
    requires k != [] && StartsWith(s, k)
    requires !IsWhitespace(k[0]) && !IsWhitespace(k[|k| - 1])
    ensures StartsWith(Trim(s), k)
  {
    assert s[..|k|][0] == s[0] && s[..|k|][|k| - 1] == s[|k| - 1];
    TrimEndKeeps(s, |k| - 1);
    TrimEndFacts(s);
  }

  lemma {:induction false} AllWhitespaceConcat(x: string, y: string)
    requires AllWhitespace(x) && AllWhitespace(y)
    ensures AllWhitespace(x + y)
    decreases |x|
  {
    if x == [] {
      assert x + y == y;
    } else {
      assert (x + y)[0] == x[0] && (x + y)[1..] == x[1..] + y;
      AllWhitespaceConcat(x[1..], y);
    }
  }

  lemma {:induction false} AllWhitespaceSplit(x: string, y: string)
    requires AllWhitespace(x + y)
    ensures AllWhitespace(x) && AllWhitespace(y)
    decreases |x|
  {
    if x == [] {
      assert x + y == y;
    } else {
      assert (x + y)[0] == x[0] && (x + y)[1..] == x[1..] + y;
      AllWhitespaceSplit(x[1..], y);
    }
  }

  /** Surrounding whitespace never changes what a line trims to. */
  lemma TrimIgnoresPadding(p: string, line: string, q: string)
    requires AllWhitespace(p) && AllWhitespace(q)
    ensures Trim(p + line + q) == Trim(line)
  {
    var i := TrimFacts(line);
    var r := Trim(line);
    var lead, trail := line[..i], line[i + |r|..];
    SplitThree(line, i, i + |r|);
    AllWhitespaceConcat(p, lead);
    AllWhitespaceConcat(trail, q);
    Regroup(p, lead, r, trail, q);
    TrimOfPadded(p + lead, r, trail + q);
  }

  lemma SplitThree<T>(s: seq<T>, i: nat, j: nat)
    requires i <= j <= |s|
    ensures s == s[..i] + s[i..j] + s[j..]
  {
    assert s == s[..i] + s[i..];
    assert s[i..] == s[i..j] + s[j..];
  }

  lemma Regroup<T>(p: seq<T>, lead: seq<T>, r: seq<T>, trail: seq<T>, q: seq<T>)
    ensures p + (lead + r + trail) + q == (p + lead) + r + (trail + q)
  {
  }

  /** Index of the first line feed in `s`, or `|s|` when there is none. */
  function NewlineIndex(s: string): (k: nat)
    ensures k <= |s|
    ensures k < |s| ==> s[k] == '\n'
  {
    if s == [] || s[0] == '\n' then 0 else 1 + NewlineIndex(s[1..])
  }

  /** No line feed comes before the one `NewlineIndex` finds. */
  lemma {:induction false} NewlineIndexFirst(s: string)
    ensures '\n' !in s[..NewlineIndex(s)]
    decreases |s|
  {
    if s != [] && s[0] != '\n' {
      NewlineIndexFirst(s[1..]);
      assert s[..NewlineIndex(s)] == [s[0]] + s[1..][..NewlineIndex(s[1..])];
    }
  }

  /** Drops one trailing carriage return, as `lines` does before a line feed. */
  function StripCr(line: string): (r: string)
    ensures r == line || (line != [] && line[|line| - 1] == '\r' && r == line[..|line| - 1])
  {
    if line != [] && line[|line| - 1] == '\r' then line[..|line| - 1] else line
  }

  /** `str::lines`: the pieces of `s` between line feeds; a piece ended by a line
      feed also loses one trailing carriage return, the final piece is kept as it
      is, and a final line feed does not start an empty last line. */
  function Lines(s: string): seq<string>
    decreases |s|
  {
    if s == [] then []
    else
      var k := NewlineIndex(s);
      if k == |s| then [s]
      else [StripCr(s[..k])] + Lines(s[k + 1..])
  }

  /** No line holds a line feed, and only the empty text has no lines. */
  lemma {:induction false} LinesShape(s: string)
    ensures forall i :: 0 <= i < |Lines(s)| ==> '\n' !in Lines(s)[i]
    ensures s == [] <==> Lines(s) == []
    decreases |s|
  {
    if s != [] {
      var k := NewlineIndex(s);
      NewlineIndexFirst(s);
      if k == |s| {
        assert s[..k] == s;
      } else {
        var line, rest := StripCr(s[..k]), s[k + 1..];
        LinesStep(s);
        LinesShape(rest);
        assert forall c :: c in line ==> c in s[..k];
        var l := Lines(s);
        forall i | 0 <= i < |l| ensures '\n' !in l[i] {
          if i > 0 {
            assert l[i] == Lines(rest)[i - 1];
          }
        }
      }
    }
  }

  /** The text of `lines` written one per line, each ended by a line feed. */
  function Unlines(lines: seq<string>): string {
    if lines == [] then [] else lines[0] + "\n" + Unlines(lines[1..])
  }

  predicate IsPlainLine(line: string) {
    '\n' !in line && (line == [] || line[|line| - 1] != '\r')
  }

  lemma NewlineIndexAfter(line: string, rest: string)
    requires '\n' !in line
    ensures NewlineIndex(line + "\n" + rest) == |line|
    decreases |line|
  {
    if line != [] {
      assert (line + "\n" + rest)[1..] == line[1..] + "\n" + rest;
      NewlineIndexAfter(line[1..], rest);
    }
  }

  /** Splitting the text that `Unlines` writes gives back exactly the lines. */
  lemma {:induction false} LinesOfUnlines(lines: seq<string>)
    requires forall i :: 0 <= i < |lines| ==> IsPlainLine(lines[i])
    ensures Lines(Unlines(lines)) == lines
  {
    if lines != [] {
      LinesOfLine(lines[0], Unlines(lines[1..]));
      LinesOfUnlines(lines[1..]);
      assert lines == [lines[0]] + lines[1..];
    }
  }

  /** A plain line ended by a line feed is the first line of what it begins. */
  lemma LinesOfLine(line: string, rest: string)
    requires IsPlainLine(line)
    ensures Lines(line + "\n" + rest) == [line] + Lines(rest)
  {
    var tail := "\n" + rest;
    var s := line + tail;
    assert line + "\n" + rest == s;
    NewlineIndexAfter(line, rest);
    assert s[..|line|] == line;
    assert s[|line|..] == tail && tail[1..] == rest;
    assert StripCr(line) == line;
    LinesStep(s);
  }

  lemma NewlineIndexOfPrefix(s: string, t: string)
    requires NewlineIndex(s) < |s|
    ensures NewlineIndex(s + t) == NewlineIndex(s)
    decreases |s|
  {
    if s[0] != '\n' {
      assert (s + t)[1..] == s[1..] + t;
      NewlineIndexOfPrefix(s[1..], t);
    }
  }

  lemma LinesStep(s: string)
    requires NewlineIndex(s) < |s|
    ensures Lines(s) == [StripCr(s[..NewlineIndex(s)])] + Lines(s[NewlineIndex(s) + 1..])
  {
    if s == [] {
      // the line feed at NewlineIndex(s) rules this case out
    }
  }

  /** Text that ends at a line boundary splits independently of what follows. */
  lemma {:induction false} LinesOfAppend(s: string, t: string)
    requires s == [] || s[|s| - 1] == '\n'
    ensures Lines(s + t) == Lines(s) + Lines(t)
    decreases |s|
  {
    if s == [] {
      assert s + t == t;
    } else {
      AppendStep(s, t);
      var k := NewlineIndex(s);
      var rest := s[k + 1..];
      assert rest == [] || rest[|rest| - 1] == s[|s| - 1];
      LinesOfAppend(rest, t);
      ConcatAssoc([StripCr(s[..k])], Lines(rest), Lines(t));
    }
  }

  /** The first line of text that ends with a line feed is the first line of
      anything that extends it. */
  lemma AppendStep(s: string, t: string)
    requires s != [] && s[|s| - 1] == '\n'
    ensures var k := NewlineIndex(s);
            && k < |s|
            && Lines(s) == [StripCr(s[..k])] + Lines(s[k + 1..])
            && Lines(s + t) == [StripCr(s[..k])] + Lines(s[k + 1..] + t)
  {
    var st := s + t;
    var k := NewlineIndex(s);
    assert s[..|s|][|s| - 1] == '\n';
    NewlineIndexFirst(s);
    NewlineIndexOfPrefix(s, t);
    assert st[..k] == s[..k];
    assert st[k + 1..] == s[k + 1..] + t;
    LinesStep(st);
    LinesStep(s);
  }

  /** A line ending `lines` removes: a line feed, or a carriage return and a line feed. */
  predicate IsLineEnd(e: string) {
    e == "\n" || e == "\r\n"
  }

  /** The ending that followed each piece `lines` returns: `"\n"`, `"\r\n"`, or
      nothing after an unterminated final piece. */
  function LineEnds(s: string): seq<string>
    decreases |s|
  {
    if s == [] then []
    else
      var k := NewlineIndex(s);
      if k == |s| then [""]
      else [if StripCr(s[..k]) == s[..k] then "\n" else "\r\n"] + LineEnds(s[k + 1..])
  }

  /** Each line followed by its ending, in order. */
  function Joined(lines: seq<string>, ends: seq<string>): string
    requires |lines| == |ends|
    decreases |lines|
  {
    if lines == [] then [] else lines[0] + ends[0] + Joined(lines[1..], ends[1..])
  }

  /** One ending per line; every ending is a line ending except that the last may
      be missing, and then its line is not empty; a line ended by a bare line feed
      does not end in a carriage return (that one would have been removed too). */
  predicate WellEnded(lines: seq<string>, ends: seq<string>) {
    && |lines| == |ends|
    && (forall i :: 0 <= i < |ends| ==> IsLineEnd(ends[i]) || (i == |ends| - 1 && ends[i] == "" && lines[i] != []))
    && (forall i :: 0 <= i < |ends| && ends[i] == "\n" ==> lines[i] == [] || lines[i][|lines[i]| - 1] != '\r')
  }

  /** `lines` loses nothing but line endings: its pieces, each followed by the
      ending it lost, give back the text. */
  lemma {:induction false} LinesRebuild(s: string)
    ensures |LineEnds(s)| == |Lines(s)|
    ensures Joined(Lines(s), LineEnds(s)) == s
    decreases |s|
  {
    if s != [] {
      var k := NewlineIndex(s);
      if k == |s| {
        JoinedLast(s);
      } else {
        var line, e, rest := LineEndsStep(s);
        LinesRebuild(rest);
        PieceAndEnd(s, k);
        RebuildStep(s, k, line, e, Lines(rest), LineEnds(rest));
      }
    }
  }

  /** An unterminated text is one piece with no ending. */
  lemma JoinedLast(s: string)
    requires s != [] && NewlineIndex(s) == |s|
    ensures Lines(s) == [s] && LineEnds(s) == [""] && Joined([s], [""]) == s
  {
    assert Joined([s], [""]) == s + "" + Joined([], []);
    assert s + "" + [] == s;
  }

  /** The first piece and its ending, followed by the rest rebuilt, is the text. */
  lemma RebuildStep(s: string, k: nat, line: string, e: string, lines: seq<string>, ends: seq<string>)
    requires k < |s| && line + e == s[..k + 1]
    requires |lines| == |ends| && Joined(lines, ends) == s[k + 1..]
    ensures Joined([line] + lines, [e] + ends) == s
  {
    JoinedCons(line, e, lines, ends);
    assert s == s[..k + 1] + s[k + 1..];
  }

  /** The endings `lines` removes are well formed: see `WellEnded`. */
  lemma {:induction false} LineEndsShape(s: string)
    ensures WellEnded(Lines(s), LineEnds(s))
    decreases |s|
  {
    if s != [] {
      var k := NewlineIndex(s);
      if k < |s| {
        var line, e, rest := LineEndsStep(s);
        LineEndsShape(rest);
        PieceAndEnd(s, k);
        WellEndedCons(line, e, Lines(rest), LineEnds(rest));
      }
    }
  }

  /** The first piece, its ending and the text after it. */
  lemma LineEndsStep(s: string) returns (line: string, e: string, rest: string)
    requires NewlineIndex(s) < |s|
    ensures var k := NewlineIndex(s);
            && line == StripCr(s[..k]) && rest == s[k + 1..]
            && e == (if line == s[..k] then "\n" else "\r\n")
            && Lines(s) == [line] + Lines(rest) && LineEnds(s) == [e] + LineEnds(rest)
  {
    var k := NewlineIndex(s);
    line, rest := StripCr(s[..k]), s[k + 1..];
    e := if line == s[..k] then "\n" else "\r\n";
    LinesStep(s);
  }

  /** The piece before the first line feed, with the ending it lost, is the text
      up to and including that line feed. */
  lemma PieceAndEnd(s: string, k: nat)
    requires k == NewlineIndex(s) < |s|
    ensures var line := StripCr(s[..k]);
            var e := if line == s[..k] then "\n" else "\r\n";
            && line + e == s[..k + 1]
            && (e == "\n" ==> line == [] || line[|line| - 1] != '\r')
  {
    var piece := s[..k];
    assert s[..k + 1] == piece + "\n";
    if StripCr(piece) != piece {
      assert piece == piece[..k - 1] + "\r";
    }
  }

  lemma WellEndedCons(line: string, e: string, lines: seq<string>, ends: seq<string>)
    requires WellEnded(lines, ends) && IsLineEnd(e)
    requires e == "\n" ==> line == [] || line[|line| - 1] != '\r'
    ensures WellEnded([line] + lines, [e] + ends)
  {
    var l, t := [line] + lines, [e] + ends;
    forall i | 0 <= i < |t|
      ensures IsLineEnd(t[i]) || (i == |t| - 1 && t[i] == "" && l[i] != [])
      ensures t[i] == "\n" ==> l[i] == [] || l[i][|l[i]| - 1] != '\r'
    {
      if i > 0 {
        assert t[i] == ends[i - 1] && l[i] == lines[i - 1];
      }
    }
  }

  lemma JoinedCons(line: string, e: string, lines: seq<string>, ends: seq<string>)
    requires |lines| == |ends|
    ensures Joined([line] + lines, [e] + ends) == line + e + Joined(lines, ends)
  {
    assert ([line] + lines)[1..] == lines && ([e] + ends)[1..] == ends;
  }

  lemma ConcatAssoc<T>(x: seq<T>, a: seq<T>, b: seq<T>)
    ensures x + (a + b) == (x + a) + b
  {
  }
}
