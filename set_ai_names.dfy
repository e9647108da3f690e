/**
 * Model of dev/set_ai_names.py, the dev/release name switch for info.nut.
 *
 * Each line is searched for the first `return\s+"([a-zA-Z0-9]+)"`. A captured
 * short name ("WORM" / "WOR0") is always swapped for its counterpart; a
 * captured long name ("WormAI" / "WormAIDev") is swapped only on the first
 * line of the file that returns a long name, because one `name_found` flag,
 * set by every long-name line, freezes all later ones. Everything outside
 * the captured token, line endings included, is written back unchanged.
 */
module SetAiNames {
  import opened Text

  // Release names
  const ShortRelease: string := "WORM"
  const LongRelease: string := "WormAI"
  // Development names
  const ShortDev: string := "WOR0"
  const LongDev: string := "WormAIDev"

  predicate IsShortName(name: string) { name == ShortRelease || name == ShortDev }
  predicate IsLongName(name: string) { name == LongRelease || name == LongDev }

  /** The release/dev pairing, as a table. */
  function Counterpart(name: string): (other: string)
    requires IsShortName(name) || IsLongName(name)
    ensures IsShortName(other) == IsShortName(name) && IsLongName(other) == IsLongName(name)
    ensures other != name && (IsLongName(name) ==> |other| != |name|)
  {
    if name == ShortRelease then ShortDev
    else if name == ShortDev then ShortRelease
    else if name == LongRelease then LongDev
    else LongRelease
  }

  lemma CounterpartTwice(name: string)
    requires IsShortName(name) || IsLongName(name)
    ensures Counterpart(Counterpart(name)) == name
  {
  }

  lemma CounterpartIsToken(name: string)
    requires IsShortName(name) || IsLongName(name)
    ensures |Counterpart(name)| > 0
    ensures forall k :: 0 <= k < |Counterpart(name)| ==> IsAlnum(Counterpart(name)[k])
  {
  }

  // ---------------------------------------------------------------------
  // The pattern `return\s+"([a-zA-Z0-9]+)"`
  // ---------------------------------------------------------------------

  /** A hit of the pattern: `return` starts at `at`; the captured group is `[start, end)`. */
  datatype Match = Match(at: nat, start: nat, end: nat)

  /** Every way the pattern matches `line` with `return` at `m.at`, stated without scanning. */
  ghost predicate IsReturnMatch(line: string, m: Match) {
    && m.at + 7 < m.start < m.end < |line|
    && line[m.at..m.at + 6] == "return"
    && (forall k :: m.at + 6 <= k < m.start - 1 ==> IsSpace(line[k]))
    && line[m.start - 1] == '"'
    && (forall k :: m.start <= k < m.end ==> IsAlnum(line[k]))
    && line[m.end] == '"'
  }

  /** The pattern anchored at `i`; greedy runs need no backtracking since `"` ends both. */
  function MatchAt(line: string, i: nat): (r: Option<Match>)
    requires i <= |line|
    ensures r.Some? ==> r.value.at == i && i + 7 < r.value.start < r.value.end < |line|
  {
    if i + 6 <= |line| && line[i..i + 6] == "return" then
      var w := SkipWhile(line, i + 6, IsSpace);
      if w == i + 6 || w == |line| || line[w] != '"' then None
      else
        var t := SkipWhile(line, w + 1, IsAlnum);
        if t == w + 1 || t == |line| || line[t] != '"' then None
        else Some(Match(i, w + 1, t))
    else None
  }

  /** Every match the scan reports is a match. */
  lemma MatchAtSound(line: string, i: nat)
    requires i <= |line| && MatchAt(line, i).Some?
    ensures IsReturnMatch(line, MatchAt(line, i).value)
  {
    var w := SkipWhile(line, i + 6, IsSpace);
    SkipWhileRun(line, i + 6, IsSpace);
    SkipWhileRun(line, w + 1, IsAlnum);
  }

  /** The scan finds every match there is. */
  lemma MatchAtComplete(line: string, m: Match)
    requires IsReturnMatch(line, m)
    ensures MatchAt(line, m.at) == Some(m)
  {
    assert !IsSpace(line[m.start - 1]);
    SkipWhileEnd(line, m.at + 6, IsSpace, m.start - 1);
    assert !IsAlnum(line[m.end]);
    SkipWhileEnd(line, m.start, IsAlnum, m.end);
  }

  /** `re.search` from position `i`: the leftmost match at or after `i`. */
  function SearchFrom(line: string, i: nat): (r: Option<Match>)
    requires i <= |line|
    ensures r.Some? ==> && i <= r.value.at <= |line| && MatchAt(line, r.value.at) == r
                        && forall j :: i <= j < r.value.at ==> MatchAt(line, j).None?
    ensures r.None? ==> forall j :: i <= j <= |line| ==> MatchAt(line, j).None?
    decreases |line| - i
  {
    var m := MatchAt(line, i);
    if m.Some? || i == |line| then m else SearchFrom(line, i + 1)
  }

  /** `re.search`: the leftmost position where the pattern matches, or none. */
  function Search(line: string): (r: Option<Match>)
    ensures r.Some? ==> && r.value.at <= |line| && MatchAt(line, r.value.at) == r
                        && forall j :: 0 <= j < r.value.at ==> MatchAt(line, j).None?
    ensures r.None? ==> forall j :: 0 <= j <= |line| ==> MatchAt(line, j).None?
  {
    SearchFrom(line, 0)
  }

  /** The leftmost match is the one `re.search` reports. */
  lemma SearchFindsLeftmost(line: string, m: Match)
    requires m.at <= |line| && MatchAt(line, m.at) == Some(m)
    requires forall j :: 0 <= j < m.at ==> MatchAt(line, j).None?
    ensures Search(line) == Some(m)
  {
  }

  /** The captured group of a match. */
  function Token(line: string, m: Match): string
    requires m.start <= m.end <= |line|
  {
    line[m.start..m.end]
  }

  /** `line[:r.start(1)] + name + line[r.end(1):]` */
  function Splice(line: string, m: Match, name: string): (r: string)
    requires m.start <= m.end <= |line|
    ensures |r| == |line| - (m.end - m.start) + |name|
    ensures r[..m.start] == line[..m.start]
    ensures r[m.start..m.start + |name|] == name
    ensures r[m.start + |name|..] == line[m.end..]
  {
    line[..m.start] + name + line[m.end..]
  }

  /** A line whose first match captures one of the long names: it sets `name_found`. */
  predicate IsLongNameLine(line: string) {
    Search(line).Some? && IsLongName(Token(line, Search(line).value))
  }

  ghost predicate HasLongNameLine(lines: seq<string>) {
    exists j :: 0 <= j < |lines| && IsLongNameLine(lines[j])
  }

  // ---------------------------------------------------------------------
  // One line, then the whole file
  // ---------------------------------------------------------------------

  /** A line as written back, and `name_found` after it. */
  datatype Step = Step(line: string, nameFound: bool)

  /**
   * What one line becomes: a short name is always swapped for its counterpart, a
   * long name only while no earlier line returned a long name; a long name sets
   * the flag whether or not it is swapped.
   */
  function SwapLine(line: string, nameFound: bool): (r: Step)
    ensures r.nameFound == (nameFound || IsLongNameLine(line))
  {
    match Search(line)
    case None => Step(line, nameFound)
    case Some(m) =>
      var name := Token(line, m);
      var found := nameFound || IsLongName(name);
      if IsShortName(name) || (IsLongName(name) && !nameFound)
      then Step(Splice(line, m, Counterpart(name)), found)
      else Step(line, found)
  }

  /** A rewritten line keeps everything before and after the captured token. */
  lemma SwapLineKeepsContext(line: string, nameFound: bool)
    requires Search(line).Some?
    ensures var m := Search(line).value; var r := SwapLine(line, nameFound).line;
      && m.start <= |r| && r[..m.start] == line[..m.start]
      && |line| - m.end <= |r| && r[|r| - (|line| - m.end)..] == line[m.end..]
  {
  }

  /** Replacing the captured token by another token gives a match at the same place. */
  lemma SpliceIsReturnMatch(line: string, m: Match, name: string)
    requires IsReturnMatch(line, m)
    requires |name| > 0 && forall k :: 0 <= k < |name| ==> IsAlnum(name[k])
    ensures IsReturnMatch(Splice(line, m, name), Match(m.at, m.start, m.start + |name|))
  {
  }

  /** A splice leaves every character before the token where it was. */
  lemma SpliceKeepsPrefix(line: string, m: Match, name: string)
    requires m.start <= m.end <= |line|
    ensures forall x :: 0 <= x < m.start ==> Splice(line, m, name)[x] == line[x]
  {
  }

  /** Replacing the captured token by another token leaves the match where it was. */
  lemma SpliceKeepsMatch(line: string, m: Match, name: string)
    requires Search(line) == Some(m)
    requires |name| > 0 && forall k :: 0 <= k < |name| ==> IsAlnum(name[k])
    ensures Search(Splice(line, m, name)) == Some(Match(m.at, m.start, m.start + |name|))
  {
    var n := Splice(line, m, name);
    var m' := Match(m.at, m.start, m.start + |name|);
    MatchAtSound(line, m.at);
    SpliceIsReturnMatch(line, m, name);
    MatchAtComplete(n, m');
    SpliceKeepsMisses(line, m, name);
    SearchFindsLeftmost(n, m');
  }

  /** A splice after a match keeps every position before it a non-match. */
  lemma SpliceKeepsMisses(line: string, m: Match, name: string)
    requires IsReturnMatch(line, m)
    requires forall j :: 0 <= j < m.at ==> MatchAt(line, j).None?
    ensures forall j :: 0 <= j < m.at ==> MatchAt(Splice(line, m, name), j).None?
  {
    var n := Splice(line, m, name);
    SpliceKeepsPrefix(line, m, name);
    assert IsSpace(line[m.at + 6]);
    forall j | 0 <= j < m.at ensures MatchAt(n, j).None? {
      MatchAtSharedPrefix(line, n, m.at, j, m.start);
    }
  }

  /** Two occurrences of `return` cannot overlap. */
  lemma ReturnDoesNotOverlap(a: string, j: nat, at: nat)
    requires j < at && at + 6 <= |a|
    requires a[j..j + 6] == "return" && a[at..at + 6] == "return"
    ensures j + 6 <= at
  {
    assert a[at] == a[at..at + 6][0] && a[at + 1] == a[at..at + 6][1];
  }

  /**
   * A match at `j` before a `return` followed by a space, inside a common prefix of
   * two lines, is decided by that prefix alone: its scan stops at the `r` of that
   * `return` or at the space after it.
   */
  lemma MatchAtSharedPrefix(a: string, b: string, at: nat, j: nat, k: nat)
    requires at + 7 <= k <= |a| && k <= |b|
    requires forall x :: 0 <= x < k ==> a[x] == b[x]
    requires a[at..at + 6] == "return" && IsSpace(a[at + 6])
    requires j < at
    ensures MatchAt(a, j) == MatchAt(b, j)
  {
    assert a[j..j + 6] == b[j..j + 6];
    if a[j..j + 6] == "return" {
      ReturnDoesNotOverlap(a, j, at);
      SkipWhileSharedPrefix(a, b, j + 6, IsSpace, at, k);
      var w := SkipWhile(a, j + 6, IsSpace);
      assert a[w] == b[w];
      if w != j + 6 && a[w] == '"' {
        SkipWhileSharedPrefix(a, b, w + 1, IsAlnum, at + 6, k);
        var t := SkipWhile(a, w + 1, IsAlnum);
        assert a[t] == b[t];
      }
    }
  }

  /** Splicing the old token back over the new one restores the line. */
  lemma SpliceTwice(line: string, m: Match, name: string)
    requires m.start <= m.end <= |line|
    ensures var n := Splice(line, m, name);
      var m' := Match(m.at, m.start, m.start + |name|);
      && Token(n, m') == name
      && Splice(n, m', Token(line, m)) == line
  {
  }

  /** Swapping a line twice with the same flag gives the line back, and the same flag. */
  lemma SwapLineTwice(line: string, nameFound: bool)
    ensures SwapLine(SwapLine(line, nameFound).line, nameFound)
         == Step(line, SwapLine(line, nameFound).nameFound)
  {
    match Search(line)
    case None =>
    case Some(m) =>
      var name := Token(line, m);
      if IsShortName(name) || (IsLongName(name) && !nameFound) {
        var other := Counterpart(name);
        CounterpartIsToken(name);
        CounterpartTwice(name);
        SpliceKeepsMatch(line, m, other);
        SpliceTwice(line, m, other);
      }
  }

  /** The file after one pass so far, and `name_found`. */
  datatype Pass = Pass(lines: seq<string>, nameFound: bool)

  lemma HasLongNameLineSnoc(lines: seq<string>)
    requires lines != []
    ensures HasLongNameLine(lines)
        == (HasLongNameLine(lines[..|lines| - 1]) || IsLongNameLine(lines[|lines| - 1]))
  {
  }

  /** A pass over `lines` that rewrites each line with `step`, threading the flag from `false`. */
  function FoldLines(lines: seq<string>, step: (string, bool) -> Step): (r: Pass)
    ensures |r.lines| == |lines|
    decreases |lines|
  {
    if lines == [] then Pass([], false)
    else
      var before := FoldLines(lines[..|lines| - 1], step);
      var s := step(lines[|lines| - 1], before.nameFound);
      Pass(before.lines + [s.line], s.nameFound)
  }

  /** Line `k` of a pass is line `k` rewritten with the flag the lines before it left. */
  lemma {:induction false} FoldLinesAt(lines: seq<string>, step: (string, bool) -> Step, k: nat)
    requires k < |lines|
    ensures FoldLines(lines, step).lines[k] == step(lines[k], FoldLines(lines[..k], step).nameFound).line
    decreases |lines|
  {
    var init := lines[..|lines| - 1];
    if k < |init| {
      FoldLinesAt(init, step, k);
      assert init[k] == lines[k] && init[..k] == lines[..k];
    } else {
      assert init == lines[..k];
    }
  }

  /** A pass with a step that its own output undoes, under the same flag, is undone by a second pass. */
  lemma {:induction false} FoldLinesTwice(lines: seq<string>, step: (string, bool) -> Step)
    requires forall line, nameFound ::
      step(step(line, nameFound).line, nameFound) == Step(line, step(line, nameFound).nameFound)
    ensures FoldLines(FoldLines(lines, step).lines, step) == Pass(lines, FoldLines(lines, step).nameFound)
    decreases |lines|
  {
    if lines != [] {
      var last := |lines| - 1;
      var init := lines[..last];
      var before := FoldLines(init, step);
      FoldLinesTwice(init, step);
      var out := FoldLines(lines, step).lines;
      assert out[..last] == before.lines;
      assert lines == init + [lines[last]];
    }
  }

  /** The script's loop over all lines, with `name_found` starting as `False`. */
  function SwapAll(lines: seq<string>): (r: Pass)
    ensures |r.lines| == |lines|
  {
    FoldLines(lines, SwapLine)
  }

  /** After the loop, `name_found` tells whether some line returned a long name. */
  lemma {:induction false} SwapAllFlag(lines: seq<string>)
    ensures SwapAll(lines).nameFound == HasLongNameLine(lines)
    decreases |lines|
  {
    if lines != [] {
      SwapAllFlag(lines[..|lines| - 1]);
      HasLongNameLineSnoc(lines);
    }
  }

  /** Line `k` is rewritten with the flag that holds exactly when an earlier line returned a long name. */
  lemma SwapAllAt(lines: seq<string>, k: nat)
    requires k < |lines|
    ensures SwapAll(lines).lines[k] == SwapLine(lines[k], HasLongNameLine(lines[..k])).line
  {
    FoldLinesAt(lines, SwapLine, k);
    SwapAllFlag(lines[..k]);
  }

  /** A line without a match is written out unchanged. */
  lemma UnmatchedLineKept(lines: seq<string>, k: nat)
    requires k < |lines| && Search(lines[k]).None?
    ensures SwapAll(lines).lines[k] == lines[k]
  {
    SwapAllAt(lines, k);
  }

  /** A match that captures none of the four names leaves the line unchanged. */
  lemma UnknownNameKept(lines: seq<string>, k: nat)
    requires k < |lines| && Search(lines[k]).Some?
    requires var name := Token(lines[k], Search(lines[k]).value); !IsShortName(name) && !IsLongName(name)
    ensures SwapAll(lines).lines[k] == lines[k]
  {
    SwapAllAt(lines, k);
  }

  /** Short names are swapped on every line, whatever the flag. */
  lemma ShortNameAlwaysSwapped(lines: seq<string>, k: nat)
    requires k < |lines| && Search(lines[k]).Some?
    requires IsShortName(Token(lines[k], Search(lines[k]).value))
    ensures var m := Search(lines[k]).value;
      SwapAll(lines).lines[k] == Splice(lines[k], m, Counterpart(Token(lines[k], m)))
  {
    SwapAllAt(lines, k);
  }

  /** The first line that returns a long name has it swapped. */
  lemma FirstLongNameLineSwapped(lines: seq<string>, k: nat)
    requires k < |lines| && IsLongNameLine(lines[k])
    requires forall j :: 0 <= j < k ==> !IsLongNameLine(lines[j])
    ensures var m := Search(lines[k]).value;
      && SwapAll(lines).lines[k] == Splice(lines[k], m, Counterpart(Token(lines[k], m)))
      && SwapAll(lines).lines[k] != lines[k]
  {
    SwapAllAt(lines, k);
  }

  /** Every later line that returns a long name is left as it is. */
  lemma LaterLongNameLineKept(lines: seq<string>, j: nat, k: nat)
    requires j < k < |lines| && IsLongNameLine(lines[j]) && IsLongNameLine(lines[k])
    ensures SwapAll(lines).lines[k] == lines[k]
  {
    SwapAllAt(lines, k);
    assert lines[..k][j] == lines[j];
  }

  /** Running the switch twice gives back the original file. */
  lemma SwapAllTwice(lines: seq<string>)
    ensures SwapAll(SwapAll(lines).lines) == Pass(lines, SwapAll(lines).nameFound)
  {
    forall line, nameFound ensures SwapLine(SwapLine(line, nameFound).line, nameFound)
                                == Step(line, SwapLine(line, nameFound).nameFound) {
      SwapLineTwice(line, nameFound);
    }
    FoldLinesTwice(lines, SwapLine);
  }

  /** The file content: the written lines one after another. */
  function Concat(lines: seq<string>): (r: string)
    ensures r == [] <==> forall k :: 0 <= k < |lines| ==> lines[k] == []
    decreases |lines|
  {
    if lines == [] then [] else Concat(lines[..|lines| - 1]) + lines[|lines| - 1]
  }

  /** Writing two runs of lines one after the other gives the two contents joined. */
  lemma {:induction false} ConcatAppend(a: seq<string>, b: seq<string>)
    ensures Concat(a + b) == Concat(a) + Concat(b)
    decreases |b|
  {
    if b != [] {
      var b' := b[..|b| - 1];
      assert (a + b)[..|a + b| - 1] == a + b';
      ConcatAppend(a, b');
    } else {
      assert a + b == a;
    }
  }

  /**
   * The body of the line loop as the script writes it: search, classify the quoted
   * name into one of four cases or none, and splice in the replacement.
   */
  method RewriteLine(line: string, nameFound: bool) returns (written: string, found: bool)
    ensures Step(written, found) == SwapLine(line, nameFound)
  {
    written, found := line, nameFound;
    var r := Search(line);
    if r.Some? {
      var m := r.value;
      var quotedName := line[m.start..m.end];
      var replaceName := "";
      var doReplace := true;
      if quotedName == ShortRelease {
        replaceName := ShortDev;
      } else if quotedName == LongRelease {
        if found {
          doReplace := false;
        }
        replaceName := LongDev;
        found := true;
      } else if quotedName == ShortDev {
        replaceName := ShortRelease;
      } else if quotedName == LongDev {
        if found {
          doReplace := false;
        }
        replaceName := LongRelease;
        found := true;
      } else {
        doReplace := false;
        replaceName := "";
      }
      if doReplace {
        written := line[..m.start] + replaceName + line[m.end..];
      }
    }
  }

  /**
   * The script: every line is written back, possibly changed, and the file is then
   * truncated, so its content is exactly the written lines.
   */
  method SwitchNames(lines: seq<string>) returns (written: seq<string>, content: string)
    ensures written == SwapAll(lines).lines
    ensures content == Concat(written)
  {
    var nameFound := false;
    written, content := [], [];
    for i := 0 to |lines|
      invariant Pass(written, nameFound) == SwapAll(lines[..i])
      invariant content == Concat(written)
    {
      var line;
      line, nameFound := RewriteLine(lines[i], nameFound);
      assert lines[..i + 1][..i] == lines[..i];
      ghost var previous := written;
      written := written + [line];
      assert written[..|written| - 1] == previous;
      content := content + line;
    }
    assert lines[..|lines|] == lines;
  }
}
