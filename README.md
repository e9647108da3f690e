# WormAI release scripts, modelled in Dafny

This project models the text and number logic of the three Python release scripts
of the WormAI repository and proves what each of them computes:

- `dev/set_ai_names.py` (module `SetAiNames`, file `set_ai_names.dfy`) switches
  `info.nut` between the development names and the release names. Each line is
  searched for the first `return\s+"([a-zA-Z0-9]+)"`. A captured short name
  (`WORM` / `WOR0`) is always swapped for its counterpart. A captured long name
  (`WormAI` / `WormAIDev`) is swapped only on the first line that returns a long
  name; the `name_found` flag then freezes every later one. The script loop is the
  method `SetAiNames.SwitchNames`. Each loop iteration is `SetAiNames.RewriteLine`,
  written as the script's `if`/`elif` chain. The specification of one iteration is
  the function `SwapLine`, and of the whole pass the fold `SwapAll`. The main
  result is that switching twice gives back the original file (`SwapAllTwice`).
- `update_library_versions.py` (module `UpdateLibraryVersions`) finds the newest
  SuperLib and AILibList versions among the downloaded file names. It then
  regenerates `libversions.nut`. `get_number`, `check_version`, the walk loop
  (`ScanLibraries`) and the writer (`UpdateLibraryVersions`, over a `TextFile` class
  whose `Write` appends) are modelled. The walk's result is characterised as a
  maximum that does not depend on the file order. The generated text is shown to
  read back to the two versions.
- `make_tar.py` (module `MakeTar`) reads the version from the last line of
  `version.nut` matching `SELF_VERSION\s+<-\s+([0-9]+)`. It stops when no line
  matches, and otherwise names the release directory and its archive.

The module `Text` (`text.dfy`) holds what the scripts share:
- an `Option` type;
- Python's ASCII `\s`, `[0-9]` and `[a-zA-Z0-9]` classes;
- greedy runs of one class (`SkipWhile`);
- decimal conversion, with `int(str(n)) == n` proved.

Both regular expressions are written as hand-made matchers. Each has a declarative
predicate (`IsReturnMatch`, `IsVersionMatch`) that states the pattern without
scanning, a scanning function proved sound and complete against it, and a
leftmost search that plays the part of `re.search`. Greedy runs need no
backtracking here, because the character that ends each run (`"`, `<`, end of
digits) cannot belong to it.

Some facts about the code that the contracts pin down:
- `make_tar.py` only reads `version.nut`. It never increments the version or
  rewrites the file.
- When several lines of `version.nut` match, the last of them gives the version.
- `get_number` takes the text between the first and the second `-` of the part
  of the name before the first `.`. It returns -1 when that text is not all
  digits, and the maximum, which starts from 0, never takes that -1.
- In `set_ai_names.py`, every line returning a long name after the first such
  line is left alone.

The functions `ReadDeclaration`, `ReadLibVersions` and `VersionOfTarName` stand
for no code of the repository. They are reference readers, used only to state
that the generated `libversions.nut` text and the archive name give back the
values they were built from.

## Model

| member | source | states |
|---|---|---|
| `Text.SkipWhile` | make_tar.py:21 | a greedy run of `\s+` or `[0-9]+`: it stays in bounds and the character that ends it does not belong to the class |
| `Text.SkipWhileRun` | make_tar.py:21 | every character inside the run belongs to the class |
| `Text.SkipWhileEnd` | make_tar.py:21 | the run ends exactly at the first character outside the class |
| `Text.DecimalValue` | update_library_versions.py:31 | `int` of a digit string is 0 exactly when every digit is `0` |
| `Text.NatToString` | update_library_versions.py:65-66 | `str(n)` is a non-empty digit string that starts with `0` only for 0 |
| `Text.DecimalValueOfNatToString` | update_library_versions.py:65-66 | `int(str(n)) == n`: the written version reads back as itself |
| `SetAiNames.Counterpart` | dev/set_ai_names.py:20-24 | each of the four names has a counterpart of the same kind (short or long) that differs from it |
| `SetAiNames.CounterpartTwice` | dev/set_ai_names.py:49-62 | the counterpart of the counterpart is the name itself |
| `SetAiNames.CounterpartIsToken` | dev/set_ai_names.py:20-24 | every counterpart is a non-empty alphanumeric token, so the pattern can capture it again |
| `SetAiNames.MatchAt` | dev/set_ai_names.py:44 | a hit anchored at `i` has its group strictly inside the line, after `return` and the opening quote |
| `SetAiNames.MatchAtSound` | dev/set_ai_names.py:44 | every hit the scan reports satisfies the pattern: `return`, whitespace, `"`, alphanumerics, `"` |
| `SetAiNames.MatchAtComplete` | dev/set_ai_names.py:44 | every way the pattern matches at a position is the hit the scan reports there |
| `SetAiNames.SearchFrom` | dev/set_ai_names.py:44 | `re.search` reports the leftmost hit; with none, no position matches |
| `SetAiNames.Search` | dev/set_ai_names.py:44 | `re.search` on the whole line: the hit it reports is the leftmost one, and with none no position of the line matches |
| `SetAiNames.SearchFindsLeftmost` | dev/set_ai_names.py:44 | conversely, a hit with no hit before it is what the search reports |
| `SetAiNames.Splice` | dev/set_ai_names.py:68 | `line[:start] + name + line[end:]` keeps the prefix and the suffix and puts `name` in between |
| `SetAiNames.SwapLine` | dev/set_ai_names.py:45-65 | after a line, `name_found` is set exactly when it was set before or the line's first hit captures a long name |
| `SetAiNames.SwapLineKeepsContext` | dev/set_ai_names.py:68 | a rewritten line keeps everything before the token and everything after it, including later `return "..."` text and the line ending |
| `SetAiNames.SpliceKeepsMatch` | dev/set_ai_names.py:44-68 | after a token is replaced by another token, the first hit of the line is still at the same place and captures the new token |
| `SetAiNames.SwapLineTwice` | dev/set_ai_names.py:44-68 | rewriting a rewritten line under the same flag restores it and leaves the flag as the first rewrite did |
| `SetAiNames.FoldLines` | dev/set_ai_names.py:42-70 | a pass writes exactly one line per input line |
| `SetAiNames.FoldLinesAt` | dev/set_ai_names.py:42-70 | line `k` of a pass is line `k` rewritten with the flag left by the lines before it |
| `SetAiNames.FoldLinesTwice` | dev/set_ai_names.py:42-70 | a step that its own output undoes under the same flag makes a pass that a second pass undoes |
| `SetAiNames.SwapAll` | dev/set_ai_names.py:42-70 | the loop keeps the number of lines |
| `SetAiNames.SwapAllFlag` | dev/set_ai_names.py:35-62 | after the loop `name_found` tells whether some line returned a long name |
| `SetAiNames.SwapAllAt` | dev/set_ai_names.py:42-70 | line `k` is rewritten with the flag that holds exactly when an earlier line returned a long name |
| `SetAiNames.UnmatchedLineKept` | dev/set_ai_names.py:44-70 | a line without a hit is written back unchanged |
| `SetAiNames.UnknownNameKept` | dev/set_ai_names.py:63-65 | a hit capturing none of the four names leaves the line unchanged |
| `SetAiNames.ShortNameAlwaysSwapped` | dev/set_ai_names.py:49-57 | a captured short name is swapped for its counterpart whatever the flag |
| `SetAiNames.FirstLongNameLineSwapped` | dev/set_ai_names.py:51-62 | the first line returning a long name has it swapped, and so changes |
| `SetAiNames.LaterLongNameLineKept` | dev/set_ai_names.py:51-62 | every later line returning a long name is written back as it was |
| `SetAiNames.SwapAllTwice` | dev/set_ai_names.py:42-70 | running the switch twice gives back the original lines |
| `SetAiNames.RewriteLine` | dev/set_ai_names.py:44-68 | the script's four-way `if`/`elif` chain with `do_replace` computes the same line and flag as the table in `SwapLine` |
| `SetAiNames.Concat` | dev/set_ai_names.py:70-73 | the lines written one after another, up to the truncation, leave an empty file exactly when every line is empty |
| `SetAiNames.ConcatAppend` | dev/set_ai_names.py:70-73 | writing two runs of lines in turn gives the two contents joined |
| `SetAiNames.SwitchNames` | dev/set_ai_names.py:33-73 | the written lines are the pass over the input, in order, and the truncated file holds exactly their concatenation |
| `UpdateLibraryVersions.Before` | update_library_versions.py:29 | `s.split(c)[0]` is the prefix of `s` up to, not including, the first `c` |
| `UpdateLibraryVersions.SecondField` | update_library_versions.py:29 | `s.split(c)[1]` contains no `c` |
| `UpdateLibraryVersions.NumberText` | update_library_versions.py:29 | `name.split(".")[0].split("-")[1]` holds neither a `-` nor a `.` |
| `UpdateLibraryVersions.GetNumber` | update_library_versions.py:28-33 | the result is at least -1, and is non-negative exactly when the number field is all digits |
| `UpdateLibraryVersions.GetNumberOfVersionedName` | update_library_versions.py:28-33 | the name `<library>-<n>` followed by nothing, a `.` part or a `-` part reads back as `n` |
| `UpdateLibraryVersions.CheckVersion` | update_library_versions.py:36-40 | the result is the larger of the two versions |
| `UpdateLibraryVersions.LibraryFileHasNumberField` | update_library_versions.py:47-51 | a name with either prefix has a `-` before its first `.`, so `get_number` cannot fail on it |
| `UpdateLibraryVersions.Classify` | update_library_versions.py:47-52 | a file counts for SuperLib exactly when it has that prefix, for AILibList exactly when it has that one, and never for both |
| `UpdateLibraryVersions.LatestVersion` | update_library_versions.py:44-52 | the accumulated version is never negative, since it starts at 0 |
| `UpdateLibraryVersions.LatestVersionIsMaximum` | update_library_versions.py:44-52 | the accumulated version is at least every number of the library's files, and is 0 or one of those numbers |
| `UpdateLibraryVersions.LatestVersionOrderIndependent` | update_library_versions.py:44-52 | any reordering of the walk gives the same versions |
| `UpdateLibraryVersions.ScanLibraries` | update_library_versions.py:44-52 | the walk loop computes both accumulated versions |
| `UpdateLibraryVersions.ReadDeclarationOfDeclaration` | update_library_versions.py:65-66 | a written `<name> <- <n>;` line reads back as `n`, followed by the rest of the text |
| `UpdateLibraryVersions.Declaration` | update_library_versions.py:65-66 | a declaration line is the name, ` <- `, a digit string whose value is the version, and `;` with a newline |
| `UpdateLibraryVersions.LibVersionsText` | update_library_versions.py:60-66 | the text starts with the five header lines, which are followed by the SuperLib declaration and then the AILibList declaration |
| `UpdateLibraryVersions.LibVersionsTextRoundTrip` | update_library_versions.py:60-66 | the generated text is the header, then the SuperLib line, then the AILibList line, and nothing else; both versions read back |
| `UpdateLibraryVersions.TextFile.OpenForWriting` | update_library_versions.py:59 | opening with "wt" leaves the file empty |
| `UpdateLibraryVersions.TextFile.Write` | update_library_versions.py:60-66 | each write appends the text passed to it |
| `UpdateLibraryVersions.UpdateLibraryVersions` | update_library_versions.py:57-67 | the text written to the new file is exactly the text generated from the two accumulated versions, whatever it held before; the same file names always give the same text |
| `MakeTar.ReplaceSpaces` | make_tar.py:12 | `s.replace(" ", "-")` keeps the length and changes exactly the spaces |
| `MakeTar.AiPackName` | make_tar.py:12 | the pack name has no space in it |
| `MakeTar.VersionAt` | make_tar.py:21 | a hit anchored at `i` has its group after `SELF_VERSION` and inside the line |
| `MakeTar.VersionAtSound` | make_tar.py:21 | every hit the scan reports satisfies the pattern: `SELF_VERSION`, whitespace, `<-`, whitespace, a maximal digit run |
| `MakeTar.VersionAtComplete` | make_tar.py:21 | every way the pattern matches at a position is the hit the scan reports there |
| `MakeTar.SearchVersionFrom` | make_tar.py:21 | `re.search` reports the leftmost hit; with none, no position matches |
| `MakeTar.SelfVersion` | make_tar.py:21-23 | the group of a matching line is a non-empty digit string |
| `MakeTar.LastVersion` | make_tar.py:18-23 | a version found is a digit string |
| `MakeTar.LastVersionNone` | make_tar.py:18-27 | there is no version exactly when no line matches |
| `MakeTar.LastVersionIsLastMatch` | make_tar.py:18-23 | the version is the group of a matching line after which no line matches |
| `MakeTar.ReadSelfVersion` | make_tar.py:18-23 | the loop over the lines ends with the last match's group |
| `MakeTar.NamesFor` | make_tar.py:29-32 | `base_dir_name` is the pack name, `-v` and the version text verbatim; `dir_name` is it under `..\temp`; `tar_name` is it with `.tar` |
| `MakeTar.TarNameRoundTrip` | make_tar.py:29-32 | the archive name gives the version text back, so distinct versions get distinct archives |
| `MakeTar.MakeTar` | make_tar.py:18-32 | the script aborts exactly when no line matches, and otherwise names the release after the last version found |

## Left out

- Text-mode newline translation on write is not modelled. `TextFile.content` is the text the script passes to `write`, not the bytes stored on disk, where `"wt"` on Windows turns each `\n` into `\r\n`.
- File I/O is not modelled: `io.open(..., "r+")`, `readlines`, `seek`, `write`, `truncate`, `open(..., "wt")` and `close`. File contents are given as sequences of lines or produced as text. The writer of `libversions.nut` is a small class whose `Write` appends.
- `os.walk` and `os.path.abspath` are not modelled. The walk is given as the sequence of file names it reports, since only the names are used.
- The `os.system` calls (`xcopy`, `run_tar.bat`, `del`) and the commented-out Linux commands are not modelled. They are foreign processes whose results the script never inspects. `MakeTar` ends once the three names are built.
- `exit(-1)` is modelled only as the `Aborted` outcome, with no name built.
- `print` diagnostics are not modelled, including the "Replacing" message and the two "Current ... version" lines.
- The general regular-expression engine is not modelled: only the two fixed patterns are. `\s` is ASCII whitespace, as in Python 2 `str` patterns, and `isdigit` is the ASCII digit test. Unicode digits and whitespace are not modelled.
- How `readlines` splits a file into lines is not modelled. A line is whatever the input sequence holds, and its ending is part of it.
- UpdateLibraryVersions.GetNumber: requires a `-` before the first `.`. Without one Python raises `IndexError`. No call in the script can reach that case, because both prefixes end in `-` and contain no `.` (`LibraryFileHasNumberField`).
- Integer widths are not an issue: Python integers are unbounded, like Dafny's.
