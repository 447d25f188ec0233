/** Patches that the default policy accepts although it has not inspected a protected file that a reader
    of renames and of component-stripped names finds in them. */
module PatchExamples {
  import opened Models
  import opened Paths
  import opened PatchText
  import opened Globs
  import opened Policy
  import opened DiffRoundTrip
  import opened PatchReader

  // Short texts without a marker

  /** A short line without breaks and without the letters named. */
  predicate SimpleLine(line: string, avoided: char) {
    |line| <= 60 && forall i :: 0 <= i < |line| ==> SimpleChar(line[i], avoided)
  }

  predicate SimpleChar(c: char, avoided: char) {
    !IsBreak(c) && LowerChar(c) != 'h' && LowerChar(c) != '0' && LowerChar(c) != avoided
  }

  predicate SimpleLines(lines: seq<string>, avoided: char) {
    |lines| <= 10 && forall i :: 0 <= i < |lines| ==> SimpleLine(lines[i], avoided)
  }

  lemma {:induction false} UnlinesChars(lines: seq<string>, avoided: char, c: char)
    requires forall i :: 0 <= i < |lines| ==> SimpleLine(lines[i], avoided)
    requires c in Unlines(lines)
    ensures c == '\n' || SimpleChar(c, avoided)
  {
    hide SimpleChar;
    if |lines| > 0 {
      var (first, rest) := (lines[0], Unlines(lines[1..]));
      if c in rest {
        UnlinesChars(lines[1..], avoided, c);
      } else if c != '\n' {
        assert c in first;
      }
    }
  }

  lemma {:induction false} UnlinesLength(lines: seq<string>, avoided: char)
    requires forall i :: 0 <= i < |lines| ==> SimpleLine(lines[i], avoided)
    ensures |Unlines(lines)| <= 61 * |lines|
  {
    if |lines| > 0 {
      UnlinesLength(lines[1..], avoided);
    }
  }

  lemma {:induction false} SizeBound(text: string)
    ensures Utf8Size(text) <= 4 * |text|
  {
    if text != "" {
      SizeBound(text[1..]);
    }
  }

  /** Each marker has a character that simple texts avoid. */
  lemma MarkersAreNotSimple(i: nat, avoided: char) returns (k: nat)
    requires i < |FORBIDDEN_MARKERS| && (avoided == 'l' || avoided == 'n')
    ensures k < |FORBIDDEN_MARKERS[i]| && FORBIDDEN_MARKERS[i][k] in {'h', '0', avoided}
  {
    k := if i == 0 then 15 else if i == 1 then if avoided == 'l' then 9 else 2
         else if i == 2 || i == 4 then 19 else 13;
    assert FORBIDDEN_MARKERS[0][15] == 'h' && FORBIDDEN_MARKERS[1][9] == 'l' && FORBIDDEN_MARKERS[1][2] == 'n';
    assert FORBIDDEN_MARKERS[2][19] == '0' && FORBIDDEN_MARKERS[3][13] == '0';
    assert FORBIDDEN_MARKERS[4][19] == '0' && FORBIDDEN_MARKERS[5][13] == '0';
  }

  lemma NotContained(text: string, part: string, k: nat)
    requires k < |part| && forall c :: c in text ==> c != part[k]
    ensures !Contains(text, part)
  {
    forall at | 0 <= at <= |text|
      ensures !(part <= text[at..])
    {
      if at + k < |text| {
        assert text[at..][k] == text[at + k] && text[at + k] in text;
      }
    }
  }

  lemma NoMarkerInSimpleText(text: string, avoided: char)
    requires avoided == 'l' || avoided == 'n'
    requires forall c :: c in text ==> c == '\n' || SimpleChar(c, avoided)
    ensures !HasForbiddenMarker(text)
  {
    hide Contains;
    forall i | 0 <= i < |FORBIDDEN_MARKERS|
      ensures !Contains(Lower(text), FORBIDDEN_MARKERS[i])
    {
      var k := MarkersAreNotSimple(i, avoided);
      LowerAvoids(text, avoided);
      NotContained(Lower(text), FORBIDDEN_MARKERS[i], k);
    }
  }

  lemma LowerAvoids(text: string, avoided: char)
    requires avoided == 'l' || avoided == 'n'
    requires forall c :: c in text ==> c == '\n' || SimpleChar(c, avoided)
    ensures 'h' !in Lower(text) && '0' !in Lower(text) && avoided !in Lower(text)
  {
    forall i | 0 <= i < |text|
      ensures Lower(text)[i] != 'h' && Lower(text)[i] != '0' && Lower(text)[i] != avoided
    {
      assert text[i] in text;
    }
  }

  /** Simple lines make a text the policy reads line by line. */
  lemma SimpleTexts(lines: seq<string>, avoided: char)
    requires SimpleLines(lines, avoided) && (avoided == 'l' || avoided == 'n')
    ensures var text := Unlines(lines);
      && !HasForbiddenMarker(text) && Utf8Size(text) <= DEFAULT_POLICY.maxPatchBytes
      && OnlyNewlines(text) && SplitLines(text) == lines && NewlineSplit(text) == lines
  {
    hide HasForbiddenMarker, Utf8Size, SplitLines, NewlineSplit, LowerChar;
    var text := Unlines(lines);
    forall c | c in text
      ensures c == '\n' || SimpleChar(c, avoided)
    {
      UnlinesChars(lines, avoided, c);
    }
    NoMarkerInSimpleText(text, avoided);
    UnlinesLength(lines, avoided);
    SizeBound(text);
    forall i | 0 <= i < |text| && IsBreak(text[i])
      ensures text[i] == '\n'
    {
      assert text[i] in text;
    }
    SplitUnlines(lines);
    SplitsAgree(text);
  }

  lemma FileNamesAreCanonical(name: string)
    requires name != "" && name != "." && name != ".." && name != ".git"
    requires forall i :: 0 <= i < |name| ==> name[i] != '/' && !Illegal(name[i])
    ensures Canonical(name) && NormalizeRelative(name) == Ok(name)
  {
    SplitFirst(name, "");
    CanonicalIsFixed(name);
  }

  lemma OneDeclared(path: string)
    requires NormalizeRelative(path) == Ok(path)
    ensures NormalizeAll([path]) == Ok([path])
  {
    hide NormalizeRelative;
    assert [path][1..] == [] && NormalizeAll([]) == Ok([]);
    assert [path] + [] == [path];
  }

  // A rename whose target is not inspected

  const RENAME := [FileDiff("m.py", "m.py", false, false, ["rename from m.py", "rename to conftest.py"], false, [])]

  const RENAME_LINES := ["diff --git a/m.py b/m.py", "rename from m.py", "rename to conftest.py"]

  lemma RenameLines()
    ensures DiffLines(RENAME) == RENAME_LINES
  {
    var d := RENAME[0];
    assert DiffHeader(d) == "diff --git a/m.py b/m.py";
    assert RENAME[1..] == [];
    assert DiffLines(RENAME) == FileLines(d) + DiffLines([]);
  }

  lemma RenameLinesAreSimple()
    ensures SimpleLines(RENAME_LINES, 'l')
  {
    RenameLineIsSimple();
    assert SimpleLine("rename from m.py", 'l');
    assert SimpleLine("diff --git a/m.py b/m.py", 'l');
  }

  lemma RenameLineIsSimple()
    ensures SimpleLine("rename to conftest.py", 'l')
  {
  }

  lemma RenameLinesAreQuiet()
    ensures QuietLine("rename from m.py") && QuietLine("rename to conftest.py")
  {
    hide SimpleChar, IsBreak;
    RenameLinesAreSimple();
    assert RENAME_LINES[1] == "rename from m.py" && RENAME_LINES[2] == "rename to conftest.py";
    SimpleLinesAreLines("rename from m.py");
    SimpleLinesAreLines("rename to conftest.py");
    assert "rename from m.py"[0] == 'r' && "rename to conftest.py"[0] == 'r';
  }

  lemma SimpleLinesAreLines(line: string)
    requires SimpleLine(line, 'l')
    ensures OneLine(line)
  {
  }

  lemma ShortPathIsSafe()
    ensures SafePath("m.py") && NormalizeRelative("m.py") == Ok("m.py")
  {
    hide Canonical, NormalizeRelative;
    FileNamesAreCanonical("m.py");
  }

  lemma RenameIsGood()
    ensures GoodDiffs(RENAME) && CollectPaths([], RENAME) == ["m.py"] && NormalizeAll(["m.py"]) == Ok(["m.py"])
  {
    hide SafePath, NormalizeRelative, NormalizeAll, QuietLine;
    ShortPathIsSafe();
    OneDeclared("m.py");
    RenameLinesAreQuiet();
    assert RENAME[1..] == [];
  }

  lemma ProtectedNames()
    ensures !IsProtected(DEFAULT_POLICY, "m.py") && IsProtected(DEFAULT_POLICY, "conftest.py")
  {
    hide Match;
    DefaultPatternsProtectExactly("m.py");
    DefaultPatternsProtectExactly("conftest.py");
  }

  lemma RenameText()
    ensures Render(RENAME) == Unlines(RENAME_LINES)
  {
    hide DiffLines, Unlines;
    RenameLines();
  }

  lemma RenameIsAccepted(candidate: PatchCandidate)
    requires candidate.patch == Render(RENAME) && candidate.touchedFiles == ["m.py"]
    ensures Inspected(DEFAULT_POLICY, candidate).Ok?
    ensures Inspected(DEFAULT_POLICY, candidate).value.paths == ["m.py"]
  {
    hide Inspected, GoodDiffs, CollectPaths, IsProtected, HasForbiddenMarker, Utf8Size, NormalizeAll, CountAll;
    hide Render, Unlines, SplitLines, NewlineSplit, OnlyNewlines, SimpleLines;
    RenameText();
    RenameLinesAreSimple();
    SimpleTexts(RENAME_LINES, 'l');
    RenameIsGood();
    ProtectedNames();
    RoundTrip(DEFAULT_POLICY, RENAME, candidate);
  }

  lemma ThirdLineIsAHeader(lines: seq<string>, spans: string -> (nat, nat))
    requires |lines| >= 3 && forall i :: 0 <= i < 3 ==> !("@@ " <= lines[i])
    ensures lines[2] in OutsideHunks(lines, spans, 0, 0)
  {
    assert lines[1..][1..][0] == lines[2];
    assert OutsideHunks(lines, spans, 0, 0) == [lines[0]] + OutsideHunks(lines[1..], spans, 0, 0);
    assert OutsideHunks(lines[1..], spans, 0, 0) == [lines[1]] + OutsideHunks(lines[1..][1..], spans, 0, 0);
  }

  lemma RenameHeaders(spans: string -> (nat, nat))
    ensures "rename to conftest.py" in Headers(Render(RENAME), spans)
  {
    hide NewlineSplit, OutsideHunks, Unlines, SimpleLines, HasForbiddenMarker, OnlyNewlines, Render;
    RenameText();
    RenameLinesAreSimple();
    SimpleTexts(RENAME_LINES, 'l');
    assert RENAME_LINES[0][0] == 'd' && RENAME_LINES[1][0] == 'r' && RENAME_LINES[2][0] == 'r';
    ThirdLineIsAHeader(RENAME_LINES, spans);
  }

  lemma RenameTarget(file: string)
    ensures FilesNamed("rename to " + file) == [file]
  {
    var line := "rename to " + file;
    assert "rename from "[7] == 'f' && line[7] == 't' && line[10..] == file;
    MovesAreOnlyMoves(line);
  }

  lemma RenameNames()
    ensures FilesNamed("rename to conftest.py") == ["conftest.py"] && !IsInspected("conftest.py", ["m.py"])
  {
    hide FilesNamed, Canonical, NormalizeRelative;
    RenameTarget("conftest.py");
    assert "rename to " + "conftest.py" == "rename to conftest.py";
    FileNamesAreCanonical("conftest.py");
    assert "conftest.py"[0] == 'c' && "m.py"[0] == 'm';
  }

  /** An accepted patch whose rename target is protected and was not inspected. */
  lemma RenameIsNotInspected(spans: string -> (nat, nat)) returns (candidate: PatchCandidate, line: string)
    ensures Inspected(DEFAULT_POLICY, candidate).Ok?
    ensures Inspected(DEFAULT_POLICY, candidate).value.paths == ["m.py"]
    ensures line in Headers(candidate.patch, spans) && FilesNamed(line) == ["conftest.py"]
    ensures !IsInspected("conftest.py", ["m.py"]) && IsProtected(DEFAULT_POLICY, "conftest.py")
  {
    hide *;
    candidate, line := PatchCandidate(Render(RENAME), ["m.py"], ""), "rename to conftest.py";
    RenameIsAccepted(candidate);
    RenameHeaders(spans);
    ProtectedNames();
    RenameNames();
  }

  // A prefix that is neither "a" nor "b"

  const PREFIXED := "x/.travis.yml"

  const PREFIXED_LINES :=
    ["diff --git x/.travis.yml x/.travis.yml", "--- x/.travis.yml", "+++ x/.travis.yml", "@@ -1 +1 @@", "-a", "+c"]

  lemma PrefixedLinesAreSimple()
    ensures SimpleLines(PREFIXED_LINES, 'n')
  {
    FirstPrefixedLineIsSimple();
    assert SimpleLine("--- x/.travis.yml", 'n') && SimpleLine("+++ x/.travis.yml", 'n');
    assert SimpleLine("@@ -1 +1 @@", 'n') && SimpleLine("-a", 'n') && SimpleLine("+c", 'n');
  }

  lemma FirstPrefixedLineIsSimple()
    ensures SimpleLine("diff --git x/.travis.yml x/.travis.yml", 'n')
  {
  }

  /** A path of two plain components. */
  lemma TwoComponents(first: string, second: string)
    requires first != "" && first != "." && first != ".." && first != ".git"
    requires second != "" && second != "." && second != ".."
    requires forall i :: 0 <= i < |first| ==> first[i] != '/' && !Illegal(first[i])
    requires forall i :: 0 <= i < |second| ==> second[i] != '/' && !Illegal(second[i])
    ensures NormalizeRelative(first + "/" + second) == Ok(first + "/" + second)
  {
    hide NormalizeRelative;
    SplitFirst(first, second);
    SplitFirst(second, "");
    assert [first] + [second] == [first, second];
    CanonicalIsFixed(first + "/" + second);
  }

  lemma PrefixedParts()
    ensures PREFIXED == "x" + "/" + ".travis.yml" && PlainWord(PREFIXED)
  {
  }

  lemma PrefixedIsCanonical()
    ensures NormalizeRelative(PREFIXED) == Ok(PREFIXED)
  {
    hide NormalizeRelative, PlainWord;
    TwoComponents("x", ".travis.yml");
    PrefixedParts();
  }

  lemma PrefixedDiffPath()
    ensures NormalizeDiffPath(PREFIXED) == Ok(Some(PREFIXED))
  {
    hide NormalizeRelative;
    PrefixedIsCanonical();
    assert PREFIXED[0] == 'x' && "/dev/null"[0] == '/';
  }

  const PREFIXED_SCAN := Scan([PREFIXED], 0, 0)

  lemma PrefixedHeader()
    ensures PREFIXED_LINES[0] == "diff" + " " + ("--git" + " " + (PREFIXED + " " + PREFIXED))
  {
  }

  lemma FirstPath(path: string)
    requires NormalizeDiffPath(path) == Ok(Some(path))
    ensures AddHeaderPath(EMPTY_SCAN, path) == Ok(Scan([path], 0, 0))
    ensures AddHeaderPath(Scan([path], 0, 0), path) == Ok(Scan([path], 0, 0))
  {
    hide NormalizeDiffPath;
    assert [] + [path] == [path];
  }

  lemma PrefixedHeaderScans()
    ensures ScanLine(EMPTY_SCAN, PREFIXED_LINES[0]) == Ok(PREFIXED_SCAN)
  {
    hide NormalizeDiffPath, ShellFields, PlainWord;
    PrefixedDiffPath();
    PrefixedParts();
    DiffHeaderFields(PREFIXED, PREFIXED);
    DiffHeaderIsADiffHeader(PREFIXED + " " + PREFIXED);
    PrefixedHeader();
    FirstPath(PREFIXED);
    assert ScanDiffHeader(EMPTY_SCAN, PREFIXED_LINES[0]) == Ok(PREFIXED_SCAN);
  }

  lemma PrefixedSidesScan()
    ensures ScanLine(PREFIXED_SCAN, PREFIXED_LINES[1]) == Ok(PREFIXED_SCAN)
    ensures ScanLine(PREFIXED_SCAN, PREFIXED_LINES[2]) == Ok(PREFIXED_SCAN)
  {
    hide ScanLine, NormalizeDiffPath, PlainWord;
    PrefixedDiffPath();
    PrefixedParts();
    ScanFileHeaderLine(PREFIXED_SCAN, "--- ", PREFIXED);
    ScanFileHeaderLine(PREFIXED_SCAN, "+++ ", PREFIXED);
    assert PREFIXED_LINES[1] == "--- " + PREFIXED && PREFIXED_LINES[2] == "+++ " + PREFIXED;
  }

  lemma PrefixedBodyScans()
    ensures ScanLine(PREFIXED_SCAN, PREFIXED_LINES[3]) == Ok(PREFIXED_SCAN)
    ensures ScanLine(PREFIXED_SCAN, PREFIXED_LINES[4]) == Ok(PREFIXED_SCAN.(deletions := 1))
    ensures ScanLine(PREFIXED_SCAN.(deletions := 1), PREFIXED_LINES[5]) == Ok(Scan([PREFIXED], 1, 1))
  {
    assert PREFIXED_LINES[3][0] == '@' && PREFIXED_LINES[4] == "-a" && PREFIXED_LINES[5] == "+c";
    assert DIFF_PREFIX[0] == 'd';
  }

  lemma PrefixedScans()
    ensures ScanLines(EMPTY_SCAN, PREFIXED_LINES) == Ok(Scan([PREFIXED], 1, 1))
  {
    hide ScanLine, ScanLines;
    PrefixedHeaderScans();
    PrefixedSidesScan();
    PrefixedBodyScans();
    var (l, s) := (PREFIXED_LINES, PREFIXED_SCAN);
    ScanCons(s.(deletions := 1), l[5], []);
    ScanNothing(Scan([PREFIXED], 1, 1));
    ScanCons(s, l[4], [l[5]]);
    ScanCons(s, l[3], [l[4], l[5]]);
    ScanCons(s, l[2], [l[3], l[4], l[5]]);
    ScanCons(s, l[1], [l[2], l[3], l[4], l[5]]);
    ScanCons(EMPTY_SCAN, l[0], [l[1], l[2], l[3], l[4], l[5]]);
    assert [l[5]] + [] == [l[5]] && [l[4]] + [l[5]] == [l[4], l[5]];
    assert [l[3]] + [l[4], l[5]] == [l[3], l[4], l[5]];
    assert [l[2]] + [l[3], l[4], l[5]] == [l[2], l[3], l[4], l[5]];
    assert [l[1]] + [l[2], l[3], l[4], l[5]] == [l[1], l[2], l[3], l[4], l[5]];
    assert [l[0]] + [l[1], l[2], l[3], l[4], l[5]] == l;
  }

  lemma PrefixedIsNoTestModule()
    ensures !TestModule(PREFIXED) && !DeepTestModule(PREFIXED)
  {
    assert "test_"[0] == 't' && PREFIXED[0] == 'x';
    forall i | 0 <= i < |PREFIXED| && PREFIXED[i] == '/'
      ensures !TestModule(PREFIXED[i + 1..])
    {
      assert i == 1 && PREFIXED[2..][0] == '.';
    }
  }

  lemma PrefixedIsNoStarName()
    ensures !StarName(PREFIXED)
  {
    hide TestModule, DeepTestModule;
    PrefixedIsNoTestModule();
    assert PREFIXED[0] == 'x' && PREFIXED[12] == 'l' && |PREFIXED| == 13;
    assert "benchmarks/"[0] == 'b' && "/conftest.py"[11] == 'y' && "_test.py"[7] == 'y';
  }

  lemma PrefixedIsNotFixed()
    ensures !FixedFile(PREFIXED) && !FixedFolder(PREFIXED)
  {
    assert PREFIXED[0] == 'x';
    assert ".git/"[0] == '.' && ".github/"[0] == '.' && ".circleci/"[0] == '.' && ".gitlab/"[0] == '.';
    assert ".upgradelab/"[0] == '.' && "tests/"[0] == 't' && "test/"[0] == 't';
    assert "benchmarks/verifier/"[0] == 'b' && "benchmarks/verifiers/"[0] == 'b';
  }

  lemma PrefixedNames()
    ensures !IsProtected(DEFAULT_POLICY, PREFIXED) && IsProtected(DEFAULT_POLICY, ".travis.yml")
  {
    hide Match, StarName, FixedFolder;
    PrefixedIsNoStarName();
    PrefixedIsNotFixed();
    DefaultPatternsProtectExactly(PREFIXED);
    DefaultPatternsProtectExactly(".travis.yml");
  }

  lemma PrefixedIsAccepted(candidate: PatchCandidate)
    requires candidate.patch == Unlines(PREFIXED_LINES) && candidate.touchedFiles == [PREFIXED]
    ensures Inspected(DEFAULT_POLICY, candidate).Ok?
    ensures Inspected(DEFAULT_POLICY, candidate).value.paths == [PREFIXED]
  {
    hide Inspected, Unlines, ScanLines, SplitLines, HasForbiddenMarker, Utf8Size, NormalizeAll, IsProtected;
    PrefixedLinesAreSimple();
    SimpleTexts(PREFIXED_LINES, 'n');
    hide NormalizeRelative, NewlineSplit, OnlyNewlines, SimpleLines, Judge;
    PrefixedScans();
    PrefixedIsCanonical();
    OneDeclared(PREFIXED);
    PrefixedNames();
    InspectedIsJudged(DEFAULT_POLICY, candidate, Scan([PREFIXED], 1, 1));
    JudgeAccepts(DEFAULT_POLICY, candidate, Scan([PREFIXED], 1, 1));
  }

  lemma PrefixedHeaders(spans: string -> (nat, nat))
    ensures PREFIXED_LINES[2] in Headers(Unlines(PREFIXED_LINES), spans)
    ensures forall line :: line in Headers(Unlines(PREFIXED_LINES), spans) ==> line in PREFIXED_LINES
  {
    hide NewlineSplit, OutsideHunks, Unlines, SimpleLines, HasForbiddenMarker, OnlyNewlines;
    PrefixedLinesAreSimple();
    SimpleTexts(PREFIXED_LINES, 'n');
    assert PREFIXED_LINES[0][0] == 'd' && PREFIXED_LINES[1][0] == '-' && PREFIXED_LINES[2][0] == '+';
    ThirdLineIsAHeader(PREFIXED_LINES, spans);
    forall line | line in Headers(Unlines(PREFIXED_LINES), spans)
      ensures line in PREFIXED_LINES
    {
      HeadersComeFromLines(PREFIXED_LINES, spans, 0, 0, line);
    }
  }

  lemma MovesStartOtherwise(line: string)
    requires line != "" && line[0] != 'r' && line[0] != 'c'
    ensures MovedFile(line).None?
  {
  }

  lemma PrefixedMovesNothing()
    ensures forall line :: line in PREFIXED_LINES ==> MovedFile(line).None?
  {
    hide MovedFile;
    MovesStartOtherwise("diff --git x/.travis.yml x/.travis.yml");
    MovesStartOtherwise("--- x/.travis.yml");
    MovesStartOtherwise("+++ x/.travis.yml");
    MovesStartOtherwise("@@ -1 +1 @@");
    MovesStartOtherwise("-a");
    MovesStartOtherwise("+c");
  }

  lemma PrefixedFile()
    ensures FilesNamed(PREFIXED_LINES[2]) == [".travis.yml"] && !IsInspected(".travis.yml", [PREFIXED])
  {
    hide NormalizeRelative;
    FileNamesAreCanonical(".travis.yml");
    assert ".travis.yml"[0] == '.' && PREFIXED[0] == 'x';
    SideOfPrefixed();
  }

  lemma SideStripped(first: string, rest: string)
    requires first != "" && '/' !in first
    ensures SideFile(first + "/" + rest) == [rest]
  {
    var name := first + "/" + rest;
    assert name[|first|] == '/' && name[|first| + 1..] == rest;
    assert forall i :: 0 <= i < |first| ==> name[i] == first[i];
    assert name[0] == first[0] && "/dev/null"[0] == '/';
  }

  lemma PrefixedLineName()
    ensures PREFIXED_LINES[2][4..] == PREFIXED && Find(PREFIXED, '\t') == |PREFIXED|
    ensures "+++ " <= PREFIXED_LINES[2] && !(DIFF_PREFIX <= PREFIXED_LINES[2])
  {
    assert PREFIXED_LINES[2][0] == '+' && DIFF_PREFIX[0] == 'd';
    assert forall i :: 0 <= i < |PREFIXED| ==> PREFIXED[i] != '\t';
  }

  lemma SideOfPrefixed()
    ensures FilesNamed(PREFIXED_LINES[2]) == [".travis.yml"]
  {
    hide SideFile, PlainWord, Find;
    PrefixedLineName();
    PrefixedParts();
    SideStripped("x", ".travis.yml");
    assert PREFIXED[..|PREFIXED|] == PREFIXED;
  }

  /** An accepted patch without renames or copies, of which the reader, dropping the first component of the
      names in its headers, finds a protected file that was not inspected. */
  lemma PrefixIsNotInspected(spans: string -> (nat, nat)) returns (candidate: PatchCandidate, line: string)
    ensures Inspected(DEFAULT_POLICY, candidate).Ok?
    ensures Inspected(DEFAULT_POLICY, candidate).value.paths == [PREFIXED]
    ensures forall other :: other in Headers(candidate.patch, spans) ==> MovedFile(other).None?
    ensures line in Headers(candidate.patch, spans) && FilesNamed(line) == [".travis.yml"]
    ensures !IsInspected(".travis.yml", [PREFIXED]) && IsProtected(DEFAULT_POLICY, ".travis.yml")
  {
    hide Inspected, Headers, Unlines, FilesNamed, MovedFile, IsInspected, IsProtected;
    candidate, line := PatchCandidate(Unlines(PREFIXED_LINES), [PREFIXED], ""), PREFIXED_LINES[2];
    PrefixedIsAccepted(candidate);
    PrefixedHeaders(spans);
    PrefixedMovesNothing();
    PrefixedNames();
    PrefixedFile();
  }
}
