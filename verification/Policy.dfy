/** The patch policy: which files a diff names, how many lines it adds and deletes, and whether it may
    be applied. */
module Policy {
  import opened Models
  import opened Paths
  import opened PatchText
  import opened Globs
  import opened Markers

  datatype PatchCandidate = PatchCandidate(patch: string, touchedFiles: seq<string>, rationale: string)

  datatype PatchPolicy = PatchPolicy(patterns: seq<string>, maxFiles: nat, maxPatchBytes: nat, version: string)

  datatype PatchInspection = PatchInspection(paths: seq<string>, additions: nat, deletions: nat, sizeBytes: nat)

  const DEFAULT_POLICY := PatchPolicy(DEFAULT_PATTERNS, 8, 200_000, "v1")

  /** What the scan has found so far. */
  datatype Scan = Scan(paths: seq<string>, additions: nat, deletions: nat)

  const EMPTY_SCAN := Scan([], 0, 0)

  function AddNew(paths: seq<string>, path: string): seq<string> {
    if path in paths then paths else paths + [path]
  }

  function AddHeaderPath(scan: Scan, raw: string): Result<Scan, Violation> {
    match NormalizeDiffPath(raw)
    case Err(violation) => Err(violation)
    case Ok(None) => Ok(scan)
    case Ok(Some(path)) => Ok(scan.(paths := AddNew(scan.paths, path)))
  }

  function ScanDiffHeader(scan: Scan, line: string): Result<Scan, Violation> {
    match ShellFields(line)
    case Err(violation) => Err(violation)
    case Ok(fields) =>
      if |fields| != 4 then Err(MalformedHeader)
      else
        match AddHeaderPath(scan, fields[2])
        case Err(violation) => Err(violation)
        case Ok(half) => AddHeaderPath(half, fields[3])
  }

  function ScanFileHeader(scan: Scan, text: string): Result<Scan, Violation> {
    match ShellFields(BeforeTab(text))
    case Err(violation) => Err(violation)
    case Ok(fields) => if |fields| == 0 then Err(MalformedHeader) else AddHeaderPath(scan, fields[0])
  }

  const DIFF_PREFIX := "diff --git "

  function ScanLine(scan: Scan, line: string): Result<Scan, Violation> {
    if DIFF_PREFIX <= line then ScanDiffHeader(scan, line)
    else if "--- " <= line || "+++ " <= line then ScanFileHeader(scan, line[4..])
    else if "+" <= line && !("+++" <= line) then Ok(scan.(additions := scan.additions + 1))
    else if "-" <= line && !("---" <= line) then Ok(scan.(deletions := scan.deletions + 1))
    else Ok(scan)
  }

  function ScanLines(scan: Scan, lines: seq<string>): Result<Scan, Violation>
    decreases |lines|
  {
    if |lines| == 0 then Ok(scan)
    else
      match ScanLine(scan, lines[0])
      case Err(violation) => Err(violation)
      case Ok(next) => ScanLines(next, lines[1..])
  }

  function NormalizeAll(raws: seq<string>): Result<seq<string>, Violation> {
    if |raws| == 0 then Ok([])
    else
      match NormalizeRelative(raws[0])
      case Err(violation) => Err(violation)
      case Ok(path) =>
        match NormalizeAll(raws[1..])
        case Err(violation) => Err(violation)
        case Ok(paths) => Ok([path] + paths)
  }

  predicate SameElements(a: seq<string>, b: seq<string>) {
    (forall x :: x in a ==> x in b) && (forall x :: x in b ==> x in a)
  }

  /** `is_protected`, on a path that is already normal. */
  predicate IsProtected(policy: PatchPolicy, path: string) {
    Protects(policy.patterns, path)
  }

  function Judge(policy: PatchPolicy, candidate: PatchCandidate, scan: Scan): Result<PatchInspection, Violation> {
    if scan.paths == [] then Err(NoFileHeader)
    else if |scan.paths| > policy.maxFiles then Err(TooManyFiles)
    else
      match NormalizeAll(candidate.touchedFiles)
      case Err(violation) => Err(violation)
      case Ok(declared) =>
        if !SameElements(declared, scan.paths) then Err(DeclarationMismatch)
        else if exists i :: 0 <= i < |scan.paths| && IsProtected(policy, scan.paths[i]) then Err(ProtectedPath)
        else Ok(PatchInspection(scan.paths, scan.additions, scan.deletions, Utf8Size(candidate.patch)))
  }

  function Inspected(policy: PatchPolicy, candidate: PatchCandidate): Result<PatchInspection, Violation> {
    if Utf8Size(candidate.patch) > policy.maxPatchBytes then Err(TooLarge)
    else if HasForbiddenMarker(candidate.patch) then Err(ForbiddenMarker)
    else
      match ScanLines(EMPTY_SCAN, SplitLines(candidate.patch))
      case Err(violation) => Err(violation)
      case Ok(scan) => Judge(policy, candidate, scan)
  }

  /** The scan runs line by line and stops at the first malformed header. */
  method Inspect(policy: PatchPolicy, candidate: PatchCandidate) returns (r: Result<PatchInspection, Violation>)
    ensures r == Inspected(policy, candidate)
    ensures r == Err(ForbiddenMarker) <==>
              Utf8Size(candidate.patch) <= policy.maxPatchBytes && ShowsAMarker(candidate.patch)
  {
    MarkersAreRefused(policy, candidate);
    if Utf8Size(candidate.patch) > policy.maxPatchBytes {
      return Err(TooLarge);
    }
    if HasForbiddenMarker(candidate.patch) {
      return Err(ForbiddenMarker);
    }
    var lines := SplitLines(candidate.patch);
    var scan := EMPTY_SCAN;
    var i := 0;
    while i < |lines|
      invariant 0 <= i <= |lines|
      invariant ScanLines(EMPTY_SCAN, lines) == ScanLines(scan, lines[i..])
    {
      var next := ScanLine(scan, lines[i]);
      if next.Err? {
        return Err(next.error);
      }
      scan := next.value;
      assert lines[i..][1..] == lines[i + 1..];
      i := i + 1;
    }
    r := Judge(policy, candidate, scan);
  }

  // What an accepted patch is

  ghost predicate GoodPaths(paths: seq<string>) {
    && (forall i :: 0 <= i < |paths| ==> Canonical(paths[i]))
    && (forall i, j :: 0 <= i < j < |paths| ==> paths[i] != paths[j])
  }

  lemma HeaderPathKeepsGood(scan: Scan, raw: string)
    requires GoodPaths(scan.paths)
    ensures AddHeaderPath(scan, raw).Ok? ==>
              GoodPaths(AddHeaderPath(scan, raw).value.paths) && scan.paths <= AddHeaderPath(scan, raw).value.paths
  {
    if raw != "/dev/null" {
      var stripped := if |raw| >= 2 && (raw[0] == 'a' || raw[0] == 'b') && raw[1] == '/' then raw[2..] else raw;
      if NormalizeRelative(stripped).Ok? {
        NormalizeIsCanonical(stripped);
      }
    }
  }

  lemma ScanLineKeepsGood(scan: Scan, line: string)
    requires GoodPaths(scan.paths) && ScanLine(scan, line).Ok?
    ensures GoodPaths(ScanLine(scan, line).value.paths) && scan.paths <= ScanLine(scan, line).value.paths
  {
    if DIFF_PREFIX <= line {
      var fields := ShellFields(line).value;
      HeaderPathKeepsGood(scan, fields[2]);
      HeaderPathKeepsGood(AddHeaderPath(scan, fields[2]).value, fields[3]);
    } else if "--- " <= line || "+++ " <= line {
      HeaderPathKeepsGood(scan, ShellFields(BeforeTab(line[4..])).value[0]);
    }
  }

  lemma {:induction false} ScanLinesKeepsGood(scan: Scan, lines: seq<string>)
    requires GoodPaths(scan.paths) && ScanLines(scan, lines).Ok?
    ensures GoodPaths(ScanLines(scan, lines).value.paths) && scan.paths <= ScanLines(scan, lines).value.paths
    decreases |lines|
  {
    if |lines| > 0 {
      ScanLineKeepsGood(scan, lines[0]);
      ScanLinesKeepsGood(ScanLine(scan, lines[0]).value, lines[1..]);
    }
  }

  lemma {:induction false} NormalizeAllIsPointwise(raws: seq<string>)
    requires NormalizeAll(raws).Ok?
    ensures |NormalizeAll(raws).value| == |raws|
    ensures forall i :: 0 <= i < |raws| ==> NormalizeRelative(raws[i]) == Ok(NormalizeAll(raws).value[i])
  {
    if |raws| > 0 {
      NormalizeAllIsPointwise(raws[1..]);
    }
  }

  /** An accepted patch touches between one and `maxFiles` distinct canonical paths, none of them
      protected, which are exactly the declared ones once normalised; and it is small and textual. */
  lemma AcceptedPatches(policy: PatchPolicy, candidate: PatchCandidate)
    requires Inspected(policy, candidate).Ok?
    ensures var paths := Inspected(policy, candidate).value.paths;
      && 1 <= |paths| <= policy.maxFiles
      && GoodPaths(paths)
      && (forall path :: path in paths ==> !IsProtected(policy, path))
      && (forall path :: path in paths <==>
            exists i :: 0 <= i < |candidate.touchedFiles| && NormalizeRelative(candidate.touchedFiles[i]) == Ok(path))
      && Utf8Size(candidate.patch) == Inspected(policy, candidate).value.sizeBytes <= policy.maxPatchBytes
      && !ShowsAMarker(candidate.patch)
  {
    hide ShowsAMarker;
    MarkerMeansSpelled(candidate.patch);
    ScanLinesKeepsGood(EMPTY_SCAN, SplitLines(candidate.patch));
    NormalizeAllIsPointwise(candidate.touchedFiles);
    var declared := NormalizeAll(candidate.touchedFiles).value;
    var paths := Inspected(policy, candidate).value.paths;
    forall path
      ensures path in paths <==>
        exists i :: 0 <= i < |candidate.touchedFiles| && NormalizeRelative(candidate.touchedFiles[i]) == Ok(path)
    {
      if path in paths {
        var i :| 0 <= i < |declared| && declared[i] == path;
        assert NormalizeRelative(candidate.touchedFiles[i]) == Ok(path);
      }
      if i :| 0 <= i < |candidate.touchedFiles| && NormalizeRelative(candidate.touchedFiles[i]) == Ok(path) {
        assert declared[i] == path;
      }
    }
  }

  // Forbidden markers

  /** A patch within the size limit is refused for a marker if and only if it spells one of the six, in any
      mixture of cases. */
  lemma MarkersAreRefused(policy: PatchPolicy, candidate: PatchCandidate)
    ensures Inspected(policy, candidate) == Err(ForbiddenMarker) <==>
              Utf8Size(candidate.patch) <= policy.maxPatchBytes && ShowsAMarker(candidate.patch)
  {
    hide HasForbiddenMarker, ShowsAMarker;
    MarkerMeansSpelled(candidate.patch);
    if Utf8Size(candidate.patch) <= policy.maxPatchBytes && !HasForbiddenMarker(candidate.patch) {
      ScansDoNotForbid(EMPTY_SCAN, SplitLines(candidate.patch));
      if ScanLines(EMPTY_SCAN, SplitLines(candidate.patch)).Ok? {
        NormalizingDoesNotForbid(candidate.touchedFiles);
      }
    }
  }

  lemma {:induction false} ScansDoNotForbid(scan: Scan, lines: seq<string>)
    ensures ScanLines(scan, lines) != Err(ForbiddenMarker)
    decreases |lines|
  {
    hide ScanLine;
    if |lines| > 0 {
      LinesDoNotForbid(scan, lines[0]);
      match ScanLine(scan, lines[0]) {
        case Ok(next) => ScansDoNotForbid(next, lines[1..]);
        case Err(_) =>
      }
    }
  }

  lemma LinesDoNotForbid(scan: Scan, line: string)
    ensures ScanLine(scan, line) != Err(ForbiddenMarker)
  {
    hide NormalizeDiffPath, ShellFields;
    FieldsDoNotForbid(line);
    if |line| >= 4 {
      FieldsDoNotForbid(BeforeTab(line[4..]));
    }
    PathsDoNotForbid();
  }

  lemma FieldsDoNotForbid(text: string)
    ensures ShellFields(text) != Err(ForbiddenMarker)
  {
    LexDoesNotForbid(text, Space, "", false);
  }

  lemma {:induction false} LexDoesNotForbid(s: string, state: LexState, token: string, quoted: bool)
    ensures Lex(s, state, token, quoted) != Err(ForbiddenMarker)
    decreases |s|
  {
    if s != "" {
      forall next: LexState, word: string, q: bool
        ensures Lex(s[1..], next, word, q) != Err(ForbiddenMarker)
      {
        LexDoesNotForbid(s[1..], next, word, q);
      }
    }
  }

  lemma PathsDoNotForbid()
    ensures forall raw :: NormalizeDiffPath(raw) != Err(ForbiddenMarker)
    ensures forall raw :: NormalizeRelative(raw) != Err(ForbiddenMarker)
  {
  }

  lemma {:induction false} NormalizingDoesNotForbid(raws: seq<string>)
    ensures NormalizeAll(raws) != Err(ForbiddenMarker)
  {
    hide NormalizeRelative;
    if |raws| > 0 {
      PathsDoNotForbid();
      NormalizingDoesNotForbid(raws[1..]);
    }
  }

  /** Git's own heading of a binary patch, wherever it stands. */
  lemma GitBinaryPatchesAreRefused(policy: PatchPolicy, candidate: PatchCandidate, before: string, after: string)
    requires candidate.patch == before + "GIT binary patch" + after
    requires Utf8Size(candidate.patch) <= policy.maxPatchBytes
    ensures Inspected(policy, candidate) == Err(ForbiddenMarker)
  {
    hide Inspected;
    HeadingSpells(before, after);
    MarkersAreRefused(policy, candidate);
  }

  /** What the default policy accepts, without patterns. */
  lemma AcceptedByDefault(candidate: PatchCandidate)
    requires Inspected(DEFAULT_POLICY, candidate).Ok?
    ensures var inspection := Inspected(DEFAULT_POLICY, candidate).value;
      && 1 <= |inspection.paths| <= 8 && inspection.sizeBytes <= 200_000
      && (forall path :: path in inspection.paths ==> Canonical(path) && !DefaultProtects(path))
      && (forall path, folders, file :: path in inspection.paths && path == Join(folders + [file]) ==>
            file != "conftest.py" && !TestModule(file) && !EndsWith(file, "_test.py"))
  {
    hide Inspected, TestModule, EndsWith, DefaultProtects, Match;
    AcceptedPatches(DEFAULT_POLICY, candidate);
    var paths := Inspected(DEFAULT_POLICY, candidate).value.paths;
    forall path | path in paths
      ensures Canonical(path) && !DefaultProtects(path)
    {
      DefaultPatternsProtectExactly(path);
      assert !IsProtected(DEFAULT_POLICY, path);
    }
    forall path, folders, file | path in paths && path == Join(folders + [file])
      ensures file != "conftest.py" && !TestModule(file) && !EndsWith(file, "_test.py")
    {
      assert !IsProtected(DEFAULT_POLICY, path);
      if file == "conftest.py" || TestModule(file) || EndsWith(file, "_test.py") {
        TestFilesAreProtectedAnywhere(folders, file);
      }
    }
  }

  lemma AcceptedScan(policy: PatchPolicy, candidate: PatchCandidate)
    requires Inspected(policy, candidate).Ok?
    ensures var scan := ScanLines(EMPTY_SCAN, SplitLines(candidate.patch));
      && scan.Ok? && scan.value.paths == Inspected(policy, candidate).value.paths
      && scan.value.additions == Inspected(policy, candidate).value.additions
      && scan.value.deletions == Inspected(policy, candidate).value.deletions
  {
  }

  // A scan that skips hunks

  predicate IsHeader(line: string) {
    DIFF_PREFIX <= line || "--- " <= line || "+++ " <= line
  }

  /** The paths one header line names. */
  function PathsNamed(line: string): seq<string> {
    match ScanLine(EMPTY_SCAN, line)
    case Ok(scan) => scan.paths
    case Err(_) => []
  }

  /** The paths in the header lines of a patch, read as the scanner reads them but not inside hunks. `spans` says
      how many old and new lines follow a line; `old` and `new` are how many are still to come. */
  function HunkAwarePaths(lines: seq<string>, spans: string -> (nat, nat), old_: nat, new_: nat): seq<string> {
    if |lines| == 0 then []
    else if old_ > 0 || new_ > 0 then
      var takesOld := lines[0] == "" || lines[0][0] == ' ' || lines[0][0] == '-';
      var takesNew := lines[0] == "" || lines[0][0] == ' ' || lines[0][0] == '+';
      HunkAwarePaths(lines[1..], spans, if takesOld && old_ > 0 then old_ - 1 else old_,
                     if takesNew && new_ > 0 then new_ - 1 else new_)
    else if IsHeader(lines[0]) then PathsNamed(lines[0]) + HunkAwarePaths(lines[1..], spans, 0, 0)
    else HunkAwarePaths(lines[1..], spans, spans(lines[0]).0, spans(lines[0]).1)
  }

  lemma AddedPathsStay(scan: Scan, raw: string, path: string)
    requires AddHeaderPath(scan, raw).Ok?
    ensures path in AddHeaderPath(scan, raw).value.paths <==>
              path in scan.paths || (NormalizeDiffPath(raw).value == Some(path))
  {
  }

  lemma HeadersAreCollected(scan: Scan, line: string, path: string)
    requires ScanLine(scan, line).Ok?
    ensures path in ScanLine(scan, line).value.paths <==> path in scan.paths || path in PathsNamed(line)
  {
    if DIFF_PREFIX <= line {
      var fields := ShellFields(line).value;
      AddedPathsStay(scan, fields[2], path);
      AddedPathsStay(AddHeaderPath(scan, fields[2]).value, fields[3], path);
      AddedPathsStay(EMPTY_SCAN, fields[2], path);
      AddedPathsStay(AddHeaderPath(EMPTY_SCAN, fields[2]).value, fields[3], path);
    } else if "--- " <= line || "+++ " <= line {
      var field := ShellFields(BeforeTab(line[4..])).value[0];
      AddedPathsStay(scan, field, path);
      AddedPathsStay(EMPTY_SCAN, field, path);
    }
  }

  lemma {:induction false} ScanCollectsHeaders(scan: Scan, lines: seq<string>, path: string)
    requires ScanLines(scan, lines).Ok?
    ensures path in ScanLines(scan, lines).value.paths <==>
              path in scan.paths || exists i :: 0 <= i < |lines| && path in PathsNamed(lines[i])
    decreases |lines|
  {
    if |lines| > 0 {
      HeadersAreCollected(scan, lines[0], path);
      var next := ScanLine(scan, lines[0]).value;
      ScanCollectsHeaders(next, lines[1..], path);
      if i :| 0 <= i < |lines[1..]| && path in PathsNamed(lines[1..][i]) {
        assert lines[i + 1] == lines[1..][i];
      }
      if i :| 0 <= i < |lines| && path in PathsNamed(lines[i]) {
        if i > 0 {
          assert lines[1..][i - 1] == lines[i];
        }
      }
    }
  }

  lemma {:induction false} HunkAwareReadsLess(lines: seq<string>, spans: string -> (nat, nat), old_: nat, new_: nat,
                                              path: string)
    requires path in HunkAwarePaths(lines, spans, old_, new_)
    ensures exists i :: 0 <= i < |lines| && path in PathsNamed(lines[i])
  {
    if old_ == 0 && new_ == 0 && IsHeader(lines[0]) && path in PathsNamed(lines[0]) {
    } else {
      var takesOld := lines[0] == "" || lines[0][0] == ' ' || lines[0][0] == '-';
      var takesNew := lines[0] == "" || lines[0][0] == ' ' || lines[0][0] == '+';
      if old_ > 0 || new_ > 0 {
        HunkAwareReadsLess(lines[1..], spans, if takesOld && old_ > 0 then old_ - 1 else old_,
                           if takesNew && new_ > 0 then new_ - 1 else new_, path);
      } else if IsHeader(lines[0]) {
        HunkAwareReadsLess(lines[1..], spans, 0, 0, path);
      } else {
        HunkAwareReadsLess(lines[1..], spans, spans(lines[0]).0, spans(lines[0]).1, path);
      }
      var i :| 0 <= i < |lines[1..]| && path in PathsNamed(lines[1..][i]);
      assert lines[i + 1] == lines[1..][i];
    }
  }

  /** Lines ended by a newline only, the way git reads a patch. */
  function NewlineSplit(text: string): seq<string>
    decreases |text|
  {
    if text == "" then []
    else
      var n := NewlineAt(text);
      if n == |text| then [text] else [text[..n]] + NewlineSplit(text[n + 1..])
  }

  function NewlineAt(text: string): (n: nat)
    ensures n <= |text|
    ensures forall i :: 0 <= i < n ==> text[i] != '\n'
    ensures n < |text| ==> text[n] == '\n'
  {
    if text == "" || text[0] == '\n' then 0 else 1 + NewlineAt(text[1..])
  }

  predicate OnlyNewlines(text: string) {
    forall i :: 0 <= i < |text| && IsBreak(text[i]) ==> text[i] == '\n'
  }

  lemma EndsAgree(text: string)
    requires OnlyNewlines(text)
    ensures LineEnd(text) == NewlineAt(text)
  {
    var (n, m) := (LineEnd(text), NewlineAt(text));
    assert n < |text| ==> text[n] == '\n';
    assert m < |text| ==> IsBreak(text[m]);
  }

  lemma OnlyNewlinesAfter(text: string, n: nat)
    requires OnlyNewlines(text) && n < |text| && IsBreak(text[n])
    ensures OnlyNewlines(text[n + 1..]) && BreakWidth(text, n) == 1
  {
    var rest := text[n + 1..];
    assert forall i :: 0 <= i < |rest| ==> rest[i] == text[n + 1 + i];
  }

  lemma {:induction false} SplitsAgree(text: string)
    requires OnlyNewlines(text)
    ensures SplitLines(text) == NewlineSplit(text)
    decreases |text|
  {
    hide OnlyNewlines, IsBreak, LineEnd, NewlineAt, BreakWidth;
    if text != "" {
      EndsAgree(text);
      var n := LineEnd(text);
      if n < |text| {
        OnlyNewlinesAfter(text, n);
        SplitsAgree(text[n + 1..]);
      }
    }
  }

  /** Taking lines inside hunks for headers, too, loses no path: in an accepted patch whose only line break
      is the newline, every path in a header line outside hunks, for any hunk sizes, is among the
      inspected paths and unprotected. */
  lemma NoHeaderPathEscapes(policy: PatchPolicy, candidate: PatchCandidate, spans: string -> (nat, nat), path: string)
    requires Inspected(policy, candidate).Ok? && OnlyNewlines(candidate.patch)
    requires path in HunkAwarePaths(NewlineSplit(candidate.patch), spans, 0, 0)
    ensures path in Inspected(policy, candidate).value.paths && !IsProtected(policy, path)
  {
    SplitsAgree(candidate.patch);
    AcceptedScan(policy, candidate);
    HeadersAreInTheScan(SplitLines(candidate.patch), spans, path);
    AcceptedPatches(policy, candidate);
  }

  lemma HeadersAreInTheScan(lines: seq<string>, spans: string -> (nat, nat), path: string)
    requires ScanLines(EMPTY_SCAN, lines).Ok? && path in HunkAwarePaths(lines, spans, 0, 0)
    ensures path in ScanLines(EMPTY_SCAN, lines).value.paths
  {
    HunkAwareReadsLess(lines, spans, 0, 0, path);
    ScanCollectsHeaders(EMPTY_SCAN, lines, path);
  }
}
