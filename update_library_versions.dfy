/**
 * Model of update_library_versions.py: find the newest downloaded SuperLib and
 * AILibList versions by their file names and regenerate libversions.nut.
 *
 * A file counts for SuperLib when its name starts with "SuperLib-", otherwise
 * for AILibList when it starts with "AILibList-". Its version is the text
 * between the first and the second `-` of the part before the first `.`, read
 * as a decimal number, or -1 when that text is not all digits. Each library
 * keeps the maximum, starting from 0. The directory walk is given as the
 * sequence of file names in the order the walk reports them.
 */
module UpdateLibraryVersions {
  import opened Text

  const SuperLibPrefix: string := "SuperLib-"
  const SuperLibName: string := "SUPERLIB_VERSION"
  const AILibListPrefix: string := "AILibList-"
  const AILibListName: string := "AILIBLIST_VERSION"

  // ---------------------------------------------------------------------
  // get_number
  // ---------------------------------------------------------------------

  /** Python's `s.split(c)[0]`: the text before the first `c`, or all of `s`. */
  function Before(s: string, c: char): (r: string)
    ensures r <= s && c !in r
    ensures |r| < |s| ==> s[|r|] == c
  {
    if s == [] || s[0] == c then [] else [s[0]] + Before(s[1..], c)
  }

  /** Python's `s.split(c)[1]`: the text between the first and the second `c`. */
  function SecondField(s: string, c: char): (r: string)
    requires c in s
    ensures c !in r
  {
    var first := Before(s, c);
    Before(s[|first| + 1..], c)
  }

  /** `name.split(".")[0].split("-")[1]` */
  function NumberText(name: string): (r: string)
    requires '-' in Before(name, '.')
    ensures '-' !in r && '.' !in r
  {
    SecondField(Before(name, '.'), '-')
  }

  /** `get_number`: the number in a library file name, or -1 when there is none. */
  function GetNumber(name: string): (n: int)
    requires '-' in Before(name, '.')
    ensures n >= -1
    ensures n >= 0 <==> IsDigits(NumberText(name))
  {
    var number := NumberText(name);
    if IsDigits(number) then DecimalValue(number) else -1
  }

  lemma {:induction false} BeforeAppend(a: string, b: string, c: char)
    requires c !in a
    ensures Before(a + b, c) == a + Before(b, c)
  {
    if a == [] {
      assert a + b == b;
    } else {
      var s := a + b;
      assert s[0] == a[0] && s[0] != c;
      assert s[1..] == a[1..] + b;
      BeforeAppend(a[1..], b, c);
      assert Before(s, c) == [a[0]] + (a[1..] + Before(b, c));
      assert a == [a[0]] + a[1..];
    }
  }

  lemma DigitsHaveNoSeparator(digits: string)
    requires IsDigits(digits)
    ensures '.' !in digits && '-' !in digits
  {
  }

  /** The part before the first `.` of `<library>-<digits><rest>`. */
  lemma HeadOfVersionedName(library: string, digits: string, rest: string)
    requires '.' !in library && IsDigits(digits)
    ensures Before(library + "-" + digits + rest, '.') == library + "-" + digits + Before(rest, '.')
  {
    DigitsHaveNoSeparator(digits);
    var front := library + "-" + digits;
    assert '.' !in front;
    BeforeAppend(front, rest, '.');
  }

  /** The second field of `a` `c` `b`, where `a` has no `c`, is the first field of `b`. */
  lemma SecondFieldOf(a: string, b: string, c: char)
    requires c !in a
    ensures SecondField(a + [c] + b, c) == Before(b, c)
  {
    var s := a + [c] + b;
    var tail := [c] + b;
    assert s == a + tail;
    BeforeAppend(a, tail, c);
    assert Before(tail, c) == [];
    assert a + [] == a;
    assert s[|a| + 1..] == b;
  }

  /** What `get_number` reads from a part `<library>-<digits><tail>` with no `.` in it. */
  lemma NumberTextOfHead(library: string, digits: string, tail: string)
    requires '-' !in library && IsDigits(digits)
    requires Before(tail, '-') == []
    ensures SecondField(library + "-" + digits + tail, '-') == digits
  {
    DigitsHaveNoSeparator(digits);
    assert library + "-" + digits + tail == library + ['-'] + (digits + tail);
    SecondFieldOf(library, digits + tail, '-');
    BeforeAppend(digits, tail, '-');
    assert digits + [] == digits;
  }

  /**
   * The name of a file written for version `n`: `<library>-<n>` followed by
   * nothing, by an extension, or by another `-` field. `get_number` reads `n` back.
   */
  lemma GetNumberOfVersionedName(library: string, n: nat, rest: string)
    requires '-' !in library && '.' !in library
    requires rest == [] || rest[0] == '.' || rest[0] == '-'
    ensures '-' in Before(library + "-" + NatToString(n) + rest, '.')
    ensures GetNumber(library + "-" + NatToString(n) + rest) == n
  {
    var digits := NatToString(n);
    var tail := Before(rest, '.');
    HeadOfVersionedName(library, digits, rest);
    var head := library + "-" + digits + tail;
    assert head[|library|] == '-';
    assert Before(tail, '-') == [] by {
      if rest != [] && rest[0] == '-' {
        assert tail == [rest[0]] + Before(rest[1..], '.');
      }
    }
    NumberTextOfHead(library, digits, tail);
    DecimalValueOfNatToString(n);
  }

  /** `check_version`: the larger of a found version and the current one. */
  function CheckVersion(ver: int, currentVersion: int): (r: int)
    ensures r >= ver && r >= currentVersion
    ensures r == ver || r == currentVersion
  {
    if ver > currentVersion then ver else currentVersion
  }

  // ---------------------------------------------------------------------
  // The walk
  // ---------------------------------------------------------------------

  datatype Library = SuperLib | AILibList

  lemma LibraryFileHasNumberField(name: string, prefix: string)
    requires prefix == SuperLibPrefix || prefix == AILibListPrefix
    requires StartsWith(name, prefix)
    ensures '-' in Before(name, '.')
  {
    var library := prefix[..|prefix| - 1];
    assert prefix == library + "-";
    assert '.' !in prefix;
    assert name == prefix + name[|prefix|..];
    BeforeAppend(prefix, name[|prefix|..], '.');
    assert Before(name, '.')[|prefix| - 1] == '-';
  }

  /** The `if`/`elif` on the prefixes: which library a file counts for, if any. */
  function Classify(name: string): (r: Option<Library>)
    ensures r == Some(SuperLib) <==> StartsWith(name, SuperLibPrefix)
    ensures r == Some(AILibList) <==> StartsWith(name, AILibListPrefix)
    ensures r.Some? ==> '-' in Before(name, '.')
  {
    if StartsWith(name, SuperLibPrefix) then
      LibraryFileHasNumberField(name, SuperLibPrefix);
      Some(SuperLib)
    else if StartsWith(name, AILibListPrefix) then
      LibraryFileHasNumberField(name, AILibListPrefix);
      Some(AILibList)
    else None
  }

  /** The accumulated version of `library` after the walk has seen `files`. */
  function LatestVersion(files: seq<string>, library: Library): (v: int)
    ensures v >= 0
    decreases |files|
  {
    if files == [] then 0
    else
      var current := LatestVersion(files[..|files| - 1], library);
      var name := files[|files| - 1];
      if Classify(name) == Some(library) then CheckVersion(GetNumber(name), current) else current
  }

  /**
   * The accumulated version is at least 0, at least the number of every file of
   * the library, and either 0 or the number of one of them.
   */
  lemma {:induction false} LatestVersionIsMaximum(files: seq<string>, library: Library)
    ensures forall name :: name in files && Classify(name) == Some(library) ==>
      GetNumber(name) <= LatestVersion(files, library)
    ensures LatestVersion(files, library) == 0 ||
      exists name :: name in files && Classify(name) == Some(library) &&
        GetNumber(name) == LatestVersion(files, library)
    decreases |files|
  {
    if files != [] {
      var init := files[..|files| - 1];
      LatestVersionIsMaximum(init, library);
      assert files == init + [files[|files| - 1]];
      var v := LatestVersion(files, library);
      if v != 0 && v != LatestVersion(init, library) {
        assert files[|files| - 1] in files;
      }
      if v != 0 && v == LatestVersion(init, library) {
        var name :| name in init && Classify(name) == Some(library) && GetNumber(name) == v;
        assert name in files;
      }
    }
  }

  /** The result does not depend on the order in which the walk reports the files. */
  lemma LatestVersionOrderIndependent(files: seq<string>, others: seq<string>, library: Library)
    requires multiset(files) == multiset(others)
    ensures LatestVersion(files, library) == LatestVersion(others, library)
  {
    LatestVersionIsMaximum(files, library);
    LatestVersionIsMaximum(others, library);
    forall name ensures name in files <==> name in others {
      assert name in files <==> name in multiset(files);
      assert name in others <==> name in multiset(others);
    }
  }

  /**
   * The walk loop: every file name is matched against SuperLib first and against
   * AILibList only when that fails, and the matching accumulator takes the maximum.
   */
  method ScanLibraries(files: seq<string>) returns (verSuperLib: int, verAILibList: int)
    ensures verSuperLib == LatestVersion(files, SuperLib)
    ensures verAILibList == LatestVersion(files, AILibList)
  {
    verSuperLib, verAILibList := 0, 0;
    for i := 0 to |files|
      invariant verSuperLib == LatestVersion(files[..i], SuperLib)
      invariant verAILibList == LatestVersion(files[..i], AILibList)
    {
      var filename := files[i];
      assert files[..i + 1][..i] == files[..i];
      if StartsWith(filename, SuperLibPrefix) {
        LibraryFileHasNumberField(filename, SuperLibPrefix);
        var ver := GetNumber(filename);
        verSuperLib := CheckVersion(ver, verSuperLib);
      } else if StartsWith(filename, AILibListPrefix) {
        LibraryFileHasNumberField(filename, AILibListPrefix);
        var ver := GetNumber(filename);
        verAILibList := CheckVersion(ver, verAILibList);
      }
    }
    assert files[..|files|] == files;
  }

  // ---------------------------------------------------------------------
  // libversions.nut
  // ---------------------------------------------------------------------

  // The five lines of the header comment, as the script writes them
  const HeaderOpen: string := "/*\n"
  const HeaderWarning: string := " * Warning: this is an automatically generated file. Do not change by hand.\n"
  const HeaderLost: string := " * Any changes you make will be lost the next time it's regenerated!\n"
  const HeaderClose: string := "*/\n"
  const BlankLine: string := "\n"

  const Header: string := HeaderOpen + HeaderWarning + HeaderLost + HeaderClose + BlankLine

  /** `<name> <- <version>;` and a line feed. */
  function Declaration(name: string, version: nat): (r: string)
    ensures |r| > |name| + 6
    ensures r[..|name| + 4] == name + " <- " && r[|r| - 2..] == ";\n"
    ensures IsDigits(r[|name| + 4..|r| - 2]) && DecimalValue(r[|name| + 4..|r| - 2]) == version
  {
    var digits := NatToString(version);
    var line := name + " <- " + digits + ";\n";
    DecimalValueOfNatToString(version);
    assert line[|name| + 4..|line| - 2] == digits;
    line
  }

  /** The whole generated file. */
  function LibVersionsText(verSuperLib: nat, verAILibList: nat): (r: string)
    ensures |r| >= |Header| && r[..|Header|] == Header
    ensures r[|Header|..] == Declaration(SuperLibName, verSuperLib) + Declaration(AILibListName, verAILibList)
  {
    Header + Declaration(SuperLibName, verSuperLib) + Declaration(AILibListName, verAILibList)
  }

  /** Reads one declaration line for `name` off the front of `s`: the version and what follows. */
  function ReadDeclaration(s: string, name: string): Option<(nat, string)> {
    var lead := name + " <- ";
    if !StartsWith(s, lead) then None
    else
      var end := SkipWhile(s, |lead|, IsDigit);
      SkipWhileRun(s, |lead|, IsDigit);
      if end == |lead| || !StartsWith(s[end..], ";\n") then None
      else Some((DecimalValue(s[|lead|..end]), s[end + 2..]))
  }

  /** Reads the two versions back from a generated file. */
  function ReadLibVersions(text: string): Option<(nat, nat)> {
    if !StartsWith(text, Header) then None
    else match ReadDeclaration(text[|Header|..], SuperLibName)
      case None => None
      case Some((superLib, rest)) =>
        match ReadDeclaration(rest, AILibListName)
        case None => None
        case Some((aiLibList, rest')) => if rest' == [] then Some((superLib, aiLibList)) else None
  }

  lemma ReadDeclarationOfDeclaration(name: string, version: nat, rest: string)
    ensures ReadDeclaration(Declaration(name, version) + rest, name) == Some((version, rest))
  {
    var lead := name + " <- ";
    var digits := NatToString(version);
    var s := Declaration(name, version) + rest;
    assert s == lead + digits + (";\n" + rest);
    assert s[|lead|..|lead| + |digits|] == digits;
    assert s[|lead| + |digits|] == ';';
    SkipWhileEnd(s, |lead|, IsDigit, |lead| + |digits|);
    assert s[|lead| + |digits|..] == ";\n" + rest;
    DecimalValueOfNatToString(version);
  }

  lemma PrefixOfConcat(x: string, y: string)
    ensures StartsWith(x + y, x) && (x + y)[|x|..] == y
  {
    assert (x + y)[..|x|] == x;
  }

  /** The generated file names both versions, in that order, and nothing else after the header. */
  lemma LibVersionsTextRoundTrip(verSuperLib: nat, verAILibList: nat)
    ensures ReadLibVersions(LibVersionsText(verSuperLib, verAILibList)) == Some((verSuperLib, verAILibList))
  {
    var text := LibVersionsText(verSuperLib, verAILibList);
    var first := Declaration(SuperLibName, verSuperLib);
    var second := Declaration(AILibListName, verAILibList);
    assert text == Header + (first + second);
    PrefixOfConcat(Header, first + second);
    ReadDeclarationOfDeclaration(SuperLibName, verSuperLib, second);
    ReadDeclarationOfDeclaration(AILibListName, verAILibList, []);
    assert second + [] == second;
  }

  /** The output file, opened with "wt": whatever it held before is gone. */
  class TextFile {
    var content: string

    constructor OpenForWriting()
      ensures content == []
    {
      content := [];
    }

    method Write(s: string)
      modifies this
      ensures content == old(content) + s
    {
      content := content + s;
    }
  }

  /** The script: walk, then write the file one line after another. */
  method UpdateLibraryVersions(files: seq<string>) returns (libFile: TextFile)
    ensures fresh(libFile)
    ensures libFile.content == LibVersionsText(LatestVersion(files, SuperLib), LatestVersion(files, AILibList))
  {
    var verSuperLib, verAILibList := ScanLibraries(files);
    libFile := new TextFile.OpenForWriting();
    libFile.Write(HeaderOpen);
    libFile.Write(HeaderWarning);
    libFile.Write(HeaderLost);
    libFile.Write(HeaderClose);
    libFile.Write(BlankLine);
    assert [] + HeaderOpen == HeaderOpen;
    libFile.Write(SuperLibName + " <- " + NatToString(verSuperLib) + ";\n");
    libFile.Write(AILibListName + " <- " + NatToString(verAILibList) + ";\n");
  }
}
