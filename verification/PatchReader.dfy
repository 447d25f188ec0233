/** A reader of patches that knows hunks and renames, and when the policy inspects every file it finds.

    The reader shares nothing with the policy's scanner: it cuts names at fixed places, drops the first
    component of the names in diff headers, and takes the names in rename and copy lines as they are.
    Lines inside hunks are content. */
module PatchReader {
  import opened Models
  import opened Paths
  import opened PatchText
  import opened Policy
  import opened DiffRoundTrip

  /** The index of the first `c`, or the length. */
  function Find(text: string, c: char): (n: nat)
    ensures n <= |text|
    ensures forall i :: 0 <= i < n ==> text[i] != c
    ensures n < |text| ==> text[n] == c
  {
    if text == "" || text[0] == c then 0 else 1 + Find(text[1..], c)
  }

  /** The file a name in a diff header stands for, if any. */
  function SideFile(name: string): seq<string> {
    var n := Find(name, '/');
    if name == "/dev/null" then [] else if n < |name| then [name[n + 1..]] else [name]
  }

  function PairFiles(names: string): seq<string> {
    var n := Find(names, ' ');
    SideFile(names[..n]) + if n < |names| then SideFile(names[n + 1..]) else []
  }

  function MovedFile(line: string): Option<string> {
    if "rename from " <= line then Some(line[12..])
    else if "rename to " <= line then Some(line[10..])
    else if "rename old " <= line then Some(line[11..])
    else if "rename new " <= line then Some(line[11..])
    else if "copy from " <= line then Some(line[10..])
    else if "copy to " <= line then Some(line[8..])
    else None
  }

  /** The files one line names, where it is not content. */
  function FilesNamed(line: string): seq<string> {
    if DIFF_PREFIX <= line then PairFiles(line[11..])
    else if "--- " <= line || "+++ " <= line then SideFile(line[4..][..Find(line[4..], '\t')])
    else if MovedFile(line).Some? then [MovedFile(line).value]
    else []
  }

  /** The lines outside hunks. `spans` reads how many old and new lines a hunk header announces, and
      `old_` and `new_` are how many are still to come. */
  function OutsideHunks(lines: seq<string>, spans: string -> (nat, nat), old_: nat, new_: nat): seq<string> {
    if lines == [] then []
    else if old_ > 0 || new_ > 0 then
      var mark := if lines[0] == "" then ' ' else lines[0][0];
      OutsideHunks(lines[1..], spans,
                   if (mark == ' ' || mark == '-') && old_ > 0 then old_ - 1 else old_,
                   if (mark == ' ' || mark == '+') && new_ > 0 then new_ - 1 else new_)
    else if "@@ " <= lines[0] then OutsideHunks(lines[1..], spans, spans(lines[0]).0, spans(lines[0]).1)
    else [lines[0]] + OutsideHunks(lines[1..], spans, 0, 0)
  }

  /** The header lines of a patch, for this reader. */
  function Headers(text: string, spans: string -> (nat, nat)): seq<string> {
    OutsideHunks(NewlineSplit(text), spans, 0, 0)
  }

  // Names that the scanner reads otherwise

  /** The scanner cuts this name down to the same file: it drops a first component only if it is "a" or
      "b". */
  predicate ReadAlike(name: string) {
    var n := Find(name, '/');
    name == "/dev/null" || n == |name| || name[..n] == "a" || name[..n] == "b"
  }

  function DoubtfulName(name: string): seq<string> {
    if PlainWord(name) && ReadAlike(name) then [] else SideFile(name)
  }

  predicate PlainPair(names: string) {
    var n := Find(names, ' ');
    n < |names| && PlainWord(names[..n]) && PlainWord(names[n + 1..])
  }

  function DoubtfulPair(names: string): seq<string> {
    if PlainPair(names)
    then DoubtfulName(names[..Find(names, ' ')]) + DoubtfulName(names[Find(names, ' ') + 1..])
    else PairFiles(names)
  }

  /** The files of a line that the scanner may not read as this reader does: those of names that need
      quoting, those left of names whose first component is neither "a" nor "b", and those that a rename or
      copy line names. */
  function Doubtful(line: string): seq<string> {
    if DIFF_PREFIX <= line then DoubtfulPair(line[11..])
    else if "--- " <= line || "+++ " <= line then DoubtfulName(line[4..][..Find(line[4..], '\t')])
    else FilesNamed(line)
  }

  // What the policy inspects

  /** The policy has inspected the file, under its normal form. */
  ghost predicate IsInspected(file: string, paths: seq<string>) {
    NormalizeRelative(file).Ok? && NormalizeRelative(file).value in paths
  }

  /** The caller has declared the file, under its normal form. */
  ghost predicate IsDeclared(file: string, touchedFiles: seq<string>) {
    && NormalizeRelative(file).Ok?
    && exists i :: 0 <= i < |touchedFiles| && NormalizeRelative(touchedFiles[i]) == NormalizeRelative(file)
  }

  /** Of an accepted patch exactly the declared files are inspected. */
  lemma DeclaredIsInspected(policy: PatchPolicy, candidate: PatchCandidate, file: string)
    requires Inspected(policy, candidate).Ok?
    ensures IsDeclared(file, candidate.touchedFiles) <==> IsInspected(file, Inspected(policy, candidate).value.paths)
  {
    hide Inspected;
    AcceptedPatches(policy, candidate);
    var paths := Inspected(policy, candidate).value.paths;
    if NormalizeRelative(file).Ok? {
      var path := NormalizeRelative(file).value;
      assert path in paths <==>
        exists i :: 0 <= i < |candidate.touchedFiles| && NormalizeRelative(candidate.touchedFiles[i]) == Ok(path);
    }
  }

  lemma {:induction false} HeadersComeFromLines(lines: seq<string>, spans: string -> (nat, nat), old_: nat, new_: nat,
                                          line: string)
    requires line in OutsideHunks(lines, spans, old_, new_)
    ensures line in lines
  {
    if old_ > 0 || new_ > 0 {
      var mark := if lines[0] == "" then ' ' else lines[0][0];
      HeadersComeFromLines(lines[1..], spans, if (mark == ' ' || mark == '-') && old_ > 0 then old_ - 1 else old_,
                      if (mark == ' ' || mark == '+') && new_ > 0 then new_ - 1 else new_, line);
    } else if "@@ " <= lines[0] {
      HeadersComeFromLines(lines[1..], spans, spans(lines[0]).0, spans(lines[0]).1, line);
    } else if line != lines[0] {
      HeadersComeFromLines(lines[1..], spans, 0, 0, line);
    }
  }

  /** Where both read alike, the reader's file is the scanner's path. */
  lemma SideFileIsThePath(name: string, scan: Scan, file: string)
    requires name != "" && ReadAlike(name) && AddHeaderPath(scan, name).Ok? && file in SideFile(name)
    ensures IsInspected(file, AddHeaderPath(scan, name).value.paths)
  {
    var n := Find(name, '/');
    if n < |name| {
      assert n == 1 && name[0] == name[..n][0];
      assert file == name[2..];
    }
  }

  lemma HeaderPathsStay(scan: Scan, raw: string, file: string)
    requires AddHeaderPath(scan, raw).Ok? && IsInspected(file, scan.paths)
    ensures IsInspected(file, AddHeaderPath(scan, raw).value.paths)
  {
  }

  lemma PlainPairFields(line: string)
    requires DIFF_PREFIX <= line && PlainPair(line[11..])
    ensures var n := Find(line[11..], ' ');
      ShellFields(line) == Ok(["diff", "--git", line[11..][..n], line[11..][n + 1..]])
  {
    var names := line[11..];
    var n := Find(names, ' ');
    var (a, b) := (names[..n], names[n + 1..]);
    assert names == a + " " + b;
    DiffHeaderFields(a, b);
    assert DIFF_PREFIX == "diff" + " " + ("--git" + " ");
    assert line == DIFF_PREFIX + names;
    assert line == "diff" + " " + ("--git" + " " + (a + " " + b));
  }

  lemma PairFilesAreScanned(line: string, file: string)
    requires DIFF_PREFIX <= line && ScanLine(EMPTY_SCAN, line).Ok?
    requires file in PairFiles(line[11..]) && file !in DoubtfulPair(line[11..])
    ensures IsInspected(file, ScanLine(EMPTY_SCAN, line).value.paths)
  {
    hide PlainWord, IsInspected, SideFile, ReadAlike;
    var names := line[11..];
    var n := Find(names, ' ');
    var (a, b) := (names[..n], names[n + 1..]);
    PlainPairFields(line);
    PlainWordsAreNames(a);
    PlainWordsAreNames(b);
    var half := AddHeaderPath(EMPTY_SCAN, a).value;
    if file in SideFile(a) {
      SideFileIsThePath(a, EMPTY_SCAN, file);
      HeaderPathsStay(half, b, file);
    } else {
      SideFileIsThePath(b, half, file);
    }
  }

  lemma PlainWordsAreNames(word: string)
    ensures PlainWord(word) ==> word != ""
  {
  }

  lemma {:induction false} BeforeTabFinds(text: string)
    ensures BeforeTab(text) == text[..Find(text, '\t')]
  {
    if text != "" && text[0] != '\t' {
      BeforeTabFinds(text[1..]);
    }
  }

  lemma SideFilesAreScanned(line: string, file: string)
    requires ("--- " <= line || "+++ " <= line) && ScanLine(EMPTY_SCAN, line).Ok?
    requires var name := line[4..][..Find(line[4..], '\t')];
      file in SideFile(name) && file !in DoubtfulName(name)
    ensures IsInspected(file, ScanLine(EMPTY_SCAN, line).value.paths)
  {
    hide PlainWord, IsInspected, SideFile, ReadAlike;
    var name := line[4..][..Find(line[4..], '\t')];
    assert !(DIFF_PREFIX <= line);
    BeforeTabFinds(line[4..]);
    PlainWordsAreNames(name);
    PlainWordIsAField(name, "");
    SideFileIsThePath(name, EMPTY_SCAN, file);
  }

  /** Every file the reader finds is inspected or doubtful. */
  lemma FilesAreInspectedOrDoubtful(policy: PatchPolicy, candidate: PatchCandidate, spans: string -> (nat, nat),
                                    line: string, file: string)
    requires Inspected(policy, candidate).Ok? && OnlyNewlines(candidate.patch)
    requires line in Headers(candidate.patch, spans)
    requires file in FilesNamed(line) && file !in Doubtful(line)
    ensures IsInspected(file, Inspected(policy, candidate).value.paths)
  {
    hide Inspected, PairFiles, DoubtfulPair, SideFile, DoubtfulName;
    var lines := SplitLines(candidate.patch);
    SplitsAgree(candidate.patch);
    AcceptedScan(policy, candidate);
    HeadersComeFromLines(lines, spans, 0, 0, line);
    LinesScan(EMPTY_SCAN, lines, line);
    if DIFF_PREFIX <= line {
      PairFilesAreScanned(line, file);
    } else {
      SideFilesAreScanned(line, file);
    }
    var i :| 0 <= i < |lines| && lines[i] == line;
    assert NormalizeRelative(file).value in PathsNamed(lines[i]);
    ScanCollectsHeaders(EMPTY_SCAN, lines, NormalizeRelative(file).value);
  }

  lemma {:induction false} LinesScan(scan: Scan, lines: seq<string>, line: string)
    requires ScanLines(scan, lines).Ok? && line in lines
    ensures ScanLine(EMPTY_SCAN, line).Ok?
    decreases |lines|
  {
    if line == lines[0] {
      OkAnywhere(scan, line);
    } else {
      LinesScan(ScanLine(scan, lines[0]).value, lines[1..], line);
    }
  }

  lemma OkAnywhere(scan: Scan, line: string)
    requires ScanLine(scan, line).Ok?
    ensures ScanLine(EMPTY_SCAN, line).Ok?
  {
  }

  lemma DoubtfulFilesAreNamed(line: string, file: string)
    requires file in Doubtful(line)
    ensures file in FilesNamed(line)
  {
    hide SideFile, PlainWord, ReadAlike;
  }

  /** Which files of an accepted patch are inspected. Where the newline is the only line break, the policy
      has inspected every file the reader finds if and only if the caller has declared the doubtful ones. */
  lemma EveryFileIsInspectedIff(policy: PatchPolicy, candidate: PatchCandidate, spans: string -> (nat, nat))
    requires Inspected(policy, candidate).Ok? && OnlyNewlines(candidate.patch)
    ensures var (lines, paths) := (Headers(candidate.patch, spans), Inspected(policy, candidate).value.paths);
      (forall line, file :: line in lines && file in FilesNamed(line) ==> IsInspected(file, paths)) <==>
      (forall line, file :: line in lines && file in Doubtful(line) ==> IsDeclared(file, candidate.touchedFiles))
  {
    hide Inspected, IsInspected, IsDeclared, FilesNamed, Doubtful;
    var lines := Headers(candidate.patch, spans);
    forall line, file | line in lines && file in FilesNamed(line) && file !in Doubtful(line)
      ensures IsInspected(file, Inspected(policy, candidate).value.paths)
    {
      FilesAreInspectedOrDoubtful(policy, candidate, spans, line, file);
    }
    forall line, file | line in lines && file in Doubtful(line)
      ensures file in FilesNamed(line)
    {
      DoubtfulFilesAreNamed(line, file);
    }
    forall file
      ensures IsDeclared(file, candidate.touchedFiles) <==>
              IsInspected(file, Inspected(policy, candidate).value.paths)
    {
      DeclaredIsInspected(policy, candidate, file);
    }
  }

  lemma MovesAreOnlyMoves(line: string)
    requires MovedFile(line).Some?
    ensures FilesNamed(line) == [MovedFile(line).value]
  {
    assert line[0] == 'r' || line[0] == 'c';
  }

  // Rendered diffs

  /** One of the diffs has the path on one of its sides. */
  predicate OnASide(ds: seq<FileDiff>, path: string) {
    exists i :: 0 <= i < |ds| && (ds[i].oldPath == path || ds[i].newPath == path)
  }

  lemma {:induction false} CollectPathsTakesBothSides(paths: seq<string>, ds: seq<FileDiff>, path: string)
    ensures path in CollectPaths(paths, ds) <==> path in paths || OnASide(ds, path)
    decreases |ds|
  {
    if |ds| > 0 {
      CollectPathsTakesBothSides(AddNew(AddNew(paths, ds[0].oldPath), ds[0].newPath), ds[1..], path);
      if OnASide(ds[1..], path) {
        var i :| 0 <= i < |ds[1..]| && (ds[1..][i].oldPath == path || ds[1..][i].newPath == path);
        assert ds[i + 1] == ds[1..][i];
      }
      if i :| 0 <= i < |ds| && (ds[i].oldPath == path || ds[i].newPath == path) {
        assert i > 0 ==> ds[1..][i - 1] == ds[i];
      }
    }
  }

  /** The lines between the diff header and the file headers move a file. */
  predicate Moves(ds: seq<FileDiff>, file: string) {
    exists i, k :: 0 <= i < |ds| && 0 <= k < |ds[i].extended| && MovedFile(ds[i].extended[k]) == Some(file)
  }

  /** The paths returned for a rendered diff are all the paths it names if and only if its rename and copy
      lines name only files that stand on a side of one of the file diffs, as they do where git wrote them. */
  lemma RenderedMovesAreReturnedIff(policy: PatchPolicy, ds: seq<FileDiff>, candidate: PatchCandidate)
    requires GoodDiffs(ds) && |ds| > 0 && candidate.patch == Render(ds)
    requires Utf8Size(candidate.patch) <= policy.maxPatchBytes && !HasForbiddenMarker(candidate.patch)
    requires |CollectPaths([], ds)| <= policy.maxFiles
    requires NormalizeAll(candidate.touchedFiles).Ok?
    requires SameElements(NormalizeAll(candidate.touchedFiles).value, CollectPaths([], ds))
    requires forall path :: path in CollectPaths([], ds) ==> !IsProtected(policy, path)
    ensures Inspected(policy, candidate).Ok?
    ensures var paths := Inspected(policy, candidate).value.paths;
      (forall file :: OnASide(ds, file) || Moves(ds, file) ==> file in paths) <==>
      (forall file :: Moves(ds, file) ==> OnASide(ds, file))
  {
    hide *;
    RoundTrip(policy, ds, candidate);
    forall file
      ensures file in CollectPaths([], ds) <==> OnASide(ds, file)
    {
      CollectPathsTakesBothSides([], ds, file);
    }
  }
}
