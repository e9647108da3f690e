/**
 * Model of make_tar.py up to the point where it hands names to the shell.
 *
 * The script reads version.nut line by line and keeps the digits captured by
 * `SELF_VERSION\s+<-\s+([0-9]+)` on the last line that matches. With no such
 * line it stops; otherwise it names the release directory
 * `WormAI-v<version>`, its copy under the temporary directory and the archive
 * `<directory>.tar`. The version stays text: leading zeros are kept.
 */
module MakeTar {
  import opened Text

  const AiName: string := "WormAI"
  const TempDirName: string := "..\\temp"

  /** Python's `s.replace(" ", "-")`. */
  function ReplaceSpaces(s: string): (r: string)
    ensures |r| == |s|
    ensures forall k :: 0 <= k < |s| ==> r[k] == (if s[k] == ' ' then '-' else s[k])
  {
    if s == [] then [] else [if s[0] == ' ' then '-' else s[0]] + ReplaceSpaces(s[1..])
  }

  /** `ai_pack_name`: the AI's name with its spaces turned into dashes. */
  function AiPackName(): (r: string)
    ensures ' ' !in r
  {
    ReplaceSpaces(AiName)
  }

  // ---------------------------------------------------------------------
  // The pattern `SELF_VERSION\s+<-\s+([0-9]+)`
  // ---------------------------------------------------------------------

  /** A hit of the pattern: `SELF_VERSION` starts at `at`; the captured group is `[start, end)`. */
  datatype Hit = Hit(at: nat, start: nat, end: nat)

  /**
   * Every way the pattern matches `line` with `SELF_VERSION` at `at` and `<-` at
   * `arrow`, stated without scanning; the digit run is maximal because `[0-9]+` is greedy.
   */
  ghost predicate IsVersionMatch(line: string, arrow: nat, h: Hit) {
    && h.at + 12 < arrow && arrow + 2 < h.start < h.end <= |line|
    && line[h.at..h.at + 12] == "SELF_VERSION"
    && (forall k :: h.at + 12 <= k < arrow ==> IsSpace(line[k]))
    && line[arrow..arrow + 2] == "<-"
    && (forall k :: arrow + 2 <= k < h.start ==> IsSpace(line[k]))
    && (forall k :: h.start <= k < h.end ==> IsDigit(line[k]))
    && (h.end < |line| ==> !IsDigit(line[h.end]))
  }

  /** The pattern anchored at `i`. */
  function VersionAt(line: string, i: nat): (r: Option<Hit>)
    requires i <= |line|
    ensures r.Some? ==> r.value.at == i && i + 12 < r.value.start < r.value.end <= |line|
  {
    if i + 12 <= |line| && line[i..i + 12] == "SELF_VERSION" then
      var arrow := SkipWhile(line, i + 12, IsSpace);
      if arrow > i + 12 && arrow + 2 <= |line| && line[arrow..arrow + 2] == "<-" then
        var start := SkipWhile(line, arrow + 2, IsSpace);
        var end := SkipWhile(line, start, IsDigit);
        if start > arrow + 2 && end > start then Some(Hit(i, start, end))
        else None
      else None
    else None
  }

  /** Every hit the scan reports is a match. */
  lemma VersionAtSound(line: string, i: nat)
    requires i <= |line| && VersionAt(line, i).Some?
    ensures exists arrow :: IsVersionMatch(line, arrow, VersionAt(line, i).value)
  {
    var arrow := SkipWhile(line, i + 12, IsSpace);
    var start := SkipWhile(line, arrow + 2, IsSpace);
    SkipWhileRun(line, i + 12, IsSpace);
    SkipWhileRun(line, arrow + 2, IsSpace);
    SkipWhileRun(line, start, IsDigit);
    assert IsVersionMatch(line, arrow, VersionAt(line, i).value);
  }

  /** The scan finds every match there is. */
  lemma VersionAtComplete(line: string, arrow: nat, h: Hit)
    requires IsVersionMatch(line, arrow, h)
    ensures VersionAt(line, h.at) == Some(h)
  {
    assert line[arrow] == line[arrow..arrow + 2][0] == '<';
    SkipWhileEnd(line, h.at + 12, IsSpace, arrow);
    assert IsDigit(line[h.start]);
    SkipWhileEnd(line, arrow + 2, IsSpace, h.start);
    SkipWhileEnd(line, h.start, IsDigit, h.end);
  }

  /** `re.search`: the leftmost match at or after `i`. */
  function SearchVersionFrom(line: string, i: nat): (r: Option<Hit>)
    requires i <= |line|
    ensures r.Some? ==> && i <= r.value.at <= |line| && VersionAt(line, r.value.at) == r
                        && forall j :: i <= j < r.value.at ==> VersionAt(line, j).None?
    ensures r.None? ==> forall j :: i <= j <= |line| ==> VersionAt(line, j).None?
    decreases |line| - i
  {
    var g := VersionAt(line, i);
    if g.Some? || i == |line| then g else SearchVersionFrom(line, i + 1)
  }

  /** `r.group(1)` of `re.search(...)` on one line, if the line matches. */
  function SelfVersion(line: string): (r: Option<string>)
    ensures r.Some? ==> IsDigits(r.value)
  {
    match SearchVersionFrom(line, 0)
    case None => None
    case Some(h) =>
      VersionAtSound(line, h.at);
      Some(line[h.start..h.end])
  }

  // ---------------------------------------------------------------------
  // The version scan
  // ---------------------------------------------------------------------

  /** The version after reading `lines`: a later match overwrites an earlier one. */
  function LastVersion(lines: seq<string>): (v: Option<string>)
    ensures v.Some? ==> IsDigits(v.value)
    decreases |lines|
  {
    if lines == [] then None
    else
      var v := SelfVersion(lines[|lines| - 1]);
      if v.Some? then v else LastVersion(lines[..|lines| - 1])
  }

  /** No version exactly when no line matches. */
  lemma {:induction false} LastVersionNone(lines: seq<string>)
    ensures LastVersion(lines).None? <==> forall k :: 0 <= k < |lines| ==> SelfVersion(lines[k]).None?
    decreases |lines|
  {
    if lines != [] {
      var init := lines[..|lines| - 1];
      LastVersionNone(init);
      assert forall k :: 0 <= k < |init| ==> init[k] == lines[k];
    }
  }

  /** A version found is the one on the last matching line: the result names that line. */
  lemma {:induction false} LastVersionIsLastMatch(lines: seq<string>) returns (k: nat)
    requires LastVersion(lines).Some?
    ensures k < |lines| && SelfVersion(lines[k]) == LastVersion(lines)
    ensures forall j :: k < j < |lines| ==> SelfVersion(lines[j]).None?
    decreases |lines|
  {
    var last := |lines| - 1;
    if SelfVersion(lines[last]).None? {
      var init := lines[..last];
      k := LastVersionIsLastMatch(init);
      assert lines[k] == init[k];
      forall j | k < j < |lines| ensures SelfVersion(lines[j]).None? {
        if j < last { assert lines[j] == init[j]; }
      }
    } else {
      k := last;
    }
  }

  /** The loop over version.nut: `version` starts unset and every matching line overwrites it. */
  method ReadSelfVersion(lines: seq<string>) returns (version: Option<string>)
    ensures version == LastVersion(lines)
  {
    version := None;
    for i := 0 to |lines|
      invariant version == LastVersion(lines[..i])
    {
      var r := SelfVersion(lines[i]);
      if r.Some? {
        version := r;
      }
      assert lines[..i + 1][..i] == lines[..i];
    }
    assert lines[..|lines|] == lines;
  }

  // ---------------------------------------------------------------------
  // Names
  // ---------------------------------------------------------------------

  datatype ReleaseNames = ReleaseNames(baseDirName: string, dirName: string, tarName: string)

  /** `base_dir_name`, `dir_name` and `tar_name` for a version; with the name "WormAI" the base is `WormAI-v<version>`. */
  function NamesFor(version: string): (r: ReleaseNames)
    ensures |r.baseDirName| == |AiPackName()| + 2 + |version|
    ensures r.tarName == r.baseDirName + ".tar"
    ensures r.dirName == TempDirName + "\\" + r.baseDirName
    ensures r.baseDirName[..|AiPackName()| + 2] == AiPackName() + "-v"
    ensures r.baseDirName[|AiPackName()| + 2..] == version
  {
    var baseDirName := AiPackName() + "-v" + version;
    ReleaseNames(baseDirName, TempDirName + "\\" + baseDirName, baseDirName + ".tar")
  }

  /** The version an archive name carries, if it is one of ours. */
  function VersionOfTarName(tarName: string): Option<string> {
    var lead := AiPackName() + "-v";
    if |tarName| >= |lead| + 4 && tarName[..|lead|] == lead && tarName[|tarName| - 4..] == ".tar"
    then Some(tarName[|lead|..|tarName| - 4])
    else None
  }

  /** The archive name gives the version back verbatim, so distinct versions get distinct archives. */
  lemma TarNameRoundTrip(version: string)
    ensures VersionOfTarName(NamesFor(version).tarName) == Some(version)
  {
  }

  datatype Outcome = Aborted | Named(names: ReleaseNames)

  /**
   * The script up to the shell commands: with no version line it stops before
   * naming anything; otherwise it names the release after the last version found.
   */
  method MakeTar(lines: seq<string>) returns (outcome: Outcome)
    ensures outcome == Aborted <==> forall k :: 0 <= k < |lines| ==> SelfVersion(lines[k]).None?
    ensures outcome.Named? ==> LastVersion(lines).Some? && outcome.names == NamesFor(LastVersion(lines).value)
  {
    var version := ReadSelfVersion(lines);
    LastVersionNone(lines);
    if version.None? {
      return Aborted;
    }
    outcome := Named(NamesFor(version.value));
  }
}
