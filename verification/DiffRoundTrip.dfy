/** A renderer for structured diffs, and what the policy reads back from a rendered one. */
module DiffRoundTrip {
  import opened Models
  import opened Paths
  import opened PatchText
  import opened Policy

  /** `Plain` lines are hunk headers, index lines, mode lines and the like. */
  datatype Line = Context(text: string) | Added(text: string) | Deleted(text: string) | Plain(text: string)

  /** `sides` says whether the file headers "---" and "+++" are there: pure renames and mode changes have
      none. */
  datatype FileDiff = FileDiff(oldPath: string, newPath: string, created: bool, deleted: bool,
                               extended: seq<string>, sides: bool, body: seq<Line>)

  function RenderLine(line: Line): string {
    match line
    case Context(text) => " " + text
    case Added(text) => "+" + text
    case Deleted(text) => "-" + text
    case Plain(text) => text
  }

  function RenderBody(body: seq<Line>): seq<string> {
    if |body| == 0 then [] else [RenderLine(body[0])] + RenderBody(body[1..])
  }

  function DiffHeader(d: FileDiff): string {
    "diff" + " " + ("--git" + " " + (("a/" + d.oldPath) + " " + ("b/" + d.newPath)))
  }

  function OldHeader(d: FileDiff): string {
    "--- " + if d.created then "/dev/null" else "a/" + d.oldPath
  }

  function NewHeader(d: FileDiff): string {
    "+++ " + if d.deleted then "/dev/null" else "b/" + d.newPath
  }

  function SideHeaders(d: FileDiff): seq<string> {
    if d.sides then [OldHeader(d), NewHeader(d)] else []
  }

  function FileLines(d: FileDiff): seq<string> {
    [DiffHeader(d)] + (d.extended + (SideHeaders(d) + RenderBody(d.body)))
  }

  function DiffLines(ds: seq<FileDiff>): seq<string> {
    if |ds| == 0 then [] else FileLines(ds[0]) + DiffLines(ds[1..])
  }

  function Render(ds: seq<FileDiff>): string {
    Unlines(DiffLines(ds))
  }

  // What a diff says

  function CollectPaths(paths: seq<string>, ds: seq<FileDiff>): seq<string>
    decreases |ds|
  {
    if |ds| == 0 then paths
    else CollectPaths(AddNew(AddNew(paths, ds[0].oldPath), ds[0].newPath), ds[1..])
  }

  /** Lines of the body that satisfy a test. */
  function Count(body: seq<Line>, test: Line -> bool): nat {
    if |body| == 0 then 0 else (if test(body[0]) then 1 else 0) + Count(body[1..], test)
  }

  predicate IsAdded(line: Line) { line.Added? }
  predicate IsDeleted(line: Line) { line.Deleted? }

  /** The scanner does not count added content that starts with "++" or deleted content that starts
      with "--". */
  predicate SeenAdded(line: Line) { line.Added? && !("++" <= line.text) }
  predicate SeenDeleted(line: Line) { line.Deleted? && !("--" <= line.text) }

  function CountAll(ds: seq<FileDiff>, test: Line -> bool): nat {
    if |ds| == 0 then 0 else Count(ds[0].body, test) + CountAll(ds[1..], test)
  }

  // Well-formed diffs

  /** A canonical path that needs no quoting in a header. */
  predicate SafePath(path: string) {
    Canonical(path) && OneLine(path) && forall i :: 0 <= i < |path| ==> PlainChar(path[i])
  }

  predicate QuietLine(text: string) {
    && OneLine(text) && !("+" <= text) && !("-" <= text) && !(DIFF_PREFIX <= text)
  }

  /** A content line that cannot be taken for a file header. */
  predicate GoodLine(line: Line) {
    match line
    case Context(text) => OneLine(text)
    case Added(text) => OneLine(text) && !("++ " <= text)
    case Deleted(text) => OneLine(text) && !("-- " <= text)
    case Plain(text) => QuietLine(text)
  }

  predicate GoodDiff(d: FileDiff) {
    && SafePath(d.oldPath) && SafePath(d.newPath)
    && (forall i :: 0 <= i < |d.extended| ==> QuietLine(d.extended[i]))
    && (forall i :: 0 <= i < |d.body| ==> GoodLine(d.body[i]))
  }

  predicate GoodDiffs(ds: seq<FileDiff>) {
    forall i :: 0 <= i < |ds| ==> GoodDiff(ds[i])
  }

  /** A diff that is rendered line by line, whatever its paths and its content lines look like. */
  predicate AnyDiff(d: FileDiff) {
    && OneLine(d.oldPath) && OneLine(d.newPath)
    && (forall i :: 0 <= i < |d.extended| ==> QuietLine(d.extended[i]))
    && (forall i :: 0 <= i < |d.body| ==> AnyLine(d.body[i]))
  }

  predicate AnyLine(line: Line) {
    if line.Plain? then QuietLine(line.text) else OneLine(line.text)
  }

  predicate AnyDiffs(ds: seq<FileDiff>) {
    forall i :: 0 <= i < |ds| ==> AnyDiff(ds[i])
  }

  lemma GoodDiffsAreAny(ds: seq<FileDiff>)
    requires GoodDiffs(ds)
    ensures AnyDiffs(ds)
  {
    forall i | 0 <= i < |ds|
      ensures AnyDiff(ds[i])
    {
      assert GoodDiff(ds[i]);
      assert forall k :: 0 <= k < |ds[i].body| ==> GoodLine(ds[i].body[k]);
    }
  }

  // Scanning a rendered diff

  lemma {:induction false} ScanAppend(scan: Scan, a: seq<string>, b: seq<string>)
    requires ScanLines(scan, a).Ok?
    ensures ScanLines(scan, a + b) == ScanLines(ScanLines(scan, a).value, b)
    decreases |a|
  {
    if |a| == 0 {
      assert a + b == b;
    } else {
      ScanAppend(ScanLine(scan, a[0]).value, a[1..], b);
      assert (a + b)[1..] == a[1..] + b;
    }
  }

  lemma PrefixedPath(path: string)
    requires SafePath(path)
    ensures PlainWord("a/" + path) && PlainWord("b/" + path)
    ensures NormalizeDiffPath("a/" + path) == Ok(Some(path))
    ensures NormalizeDiffPath("b/" + path) == Ok(Some(path))
  {
    CanonicalIsFixed(path);
    assert ("a/" + path)[2..] == path && ("b/" + path)[2..] == path;
    assert ("a/" + path)[0] == 'a' && ("b/" + path)[0] == 'b' && "/dev/null"[0] == '/';
  }

  lemma DiffHeaderFields(a: string, b: string)
    requires PlainWord(a) && PlainWord(b)
    ensures ShellFields("diff" + " " + ("--git" + " " + (a + " " + b))) == Ok(["diff", "--git", a, b])
  {
    PlainWordIsAField(b, "");
    PlainWordIsAField(a, b);
    PlainWordIsAField("--git", a + " " + b);
    PlainWordIsAField("diff", "--git" + " " + (a + " " + b));
    assert ["diff"] + (["--git"] + ([a] + [b])) == ["diff", "--git", a, b];
  }

  lemma DiffHeaderIsADiffHeader(rest: string)
    ensures DIFF_PREFIX <= "diff" + " " + ("--git" + " " + rest)
  {
    var line := "diff" + " " + ("--git" + " " + rest);
    assert line[..11] == DIFF_PREFIX;
  }

  lemma ScanDiffHeaderLine(scan: Scan, d: FileDiff)
    requires GoodDiff(d)
    ensures ScanLine(scan, DiffHeader(d)) ==
              Ok(scan.(paths := AddNew(AddNew(scan.paths, d.oldPath), d.newPath)))
  {
    PrefixedPath(d.oldPath);
    PrefixedPath(d.newPath);
    DiffHeaderFields("a/" + d.oldPath, "b/" + d.newPath);
    DiffHeaderIsADiffHeader(("a/" + d.oldPath) + " " + ("b/" + d.newPath));
  }

  lemma ScanFileHeaderLine(scan: Scan, mark: string, field: string)
    requires mark == "--- " || mark == "+++ "
    requires PlainWord(field)
    ensures ScanLine(scan, mark + field) == AddHeaderPath(scan, field)
  {
    var line := mark + field;
    assert line[..4] == mark && line[4..] == field;
    assert line[0] != DIFF_PREFIX[0];
    forall i | 0 <= i < |field|
      ensures field[i] != '\t'
    {
      assert PlainChar(field[i]);
    }
    BeforeTabOfPlain(field);
    PlainWordIsAField(field, "");
  }

  lemma ScanFileHeaderLines(scan: Scan, d: FileDiff)
    requires GoodDiff(d) && d.oldPath in scan.paths && d.newPath in scan.paths
    ensures ScanLine(scan, OldHeader(d)) == Ok(scan)
    ensures ScanLine(scan, NewHeader(d)) == Ok(scan)
  {
    PrefixedPath(d.oldPath);
    PrefixedPath(d.newPath);
    assert PlainWord("/dev/null");
    ScanFileHeaderLine(scan, "--- ", if d.created then "/dev/null" else "a/" + d.oldPath);
    ScanFileHeaderLine(scan, "+++ ", if d.deleted then "/dev/null" else "b/" + d.newPath);
  }

  lemma {:induction false} ScanQuietLines(scan: Scan, lines: seq<string>)
    requires forall i :: 0 <= i < |lines| ==> QuietLine(lines[i])
    ensures ScanLines(scan, lines) == Ok(scan)
    decreases |lines|
  {
    if |lines| > 0 {
      QuietLineIsSkipped(scan, lines[0]);
      ScanQuietLines(scan, lines[1..]);
    }
  }

  lemma QuietLineIsSkipped(scan: Scan, line: string)
    requires QuietLine(line)
    ensures ScanLine(scan, line) == Ok(scan)
  {
    PrefixOfPrefix("-", "--- ", line);
    PrefixOfPrefix("+", "+++ ", line);
  }

  lemma PrefixOfPrefix(a: string, b: string, line: string)
    requires a <= b
    ensures b <= line ==> a <= line
  {
  }

  function Seen(scan: Scan, line: Line): Scan {
    scan.(additions := scan.additions + if SeenAdded(line) then 1 else 0,
          deletions := scan.deletions + if SeenDeleted(line) then 1 else 0)
  }

  lemma MarkedPrefix(mark: char, text: string, rest: string)
    ensures [mark] + rest <= [mark] + text <==> rest <= text
  {
    var line := [mark] + text;
    assert line[1..] == text;
    if [mark] + rest <= line {
      assert ([mark] + rest)[1..] == rest;
    }
  }

  lemma ScanBodyLine(scan: Scan, line: Line)
    requires GoodLine(line)
    ensures ScanLine(scan, RenderLine(line)) == Ok(Seen(scan, line))
  {
    match line
    case Plain(text) => QuietLineIsSkipped(scan, text);
    case Context(text) =>
      assert (" " + text)[0] == ' ' && DIFF_PREFIX[0] == 'd';
    case Added(text) =>
      assert ("+" + text)[0] == '+' && DIFF_PREFIX[0] == 'd';
      MarkedPrefix('+', text, "++ ");
      assert ['+'] + "++ " == "+++ ";
      MarkedPrefix('+', text, "++");
      assert ['+'] + "++" == "+++";
    case Deleted(text) =>
      assert ("-" + text)[0] == '-' && DIFF_PREFIX[0] == 'd';
      MarkedPrefix('-', text, "-- ");
      assert ['-'] + "-- " == "--- ";
      MarkedPrefix('-', text, "--");
      assert ['-'] + "--" == "---";
  }

  lemma {:induction false} ScanBody(scan: Scan, body: seq<Line>)
    requires forall i :: 0 <= i < |body| ==> GoodLine(body[i])
    ensures ScanLines(scan, RenderBody(body)) ==
              Ok(scan.(additions := scan.additions + Count(body, SeenAdded),
                       deletions := scan.deletions + Count(body, SeenDeleted)))
    decreases |body|
  {
    if |body| > 0 {
      ScanBodyLine(scan, body[0]);
      ScanBody(Seen(scan, body[0]), body[1..]);
    }
  }

  lemma ScanTwoLines(scan: Scan, a: string, b: string)
    requires ScanLine(scan, a) == Ok(scan) && ScanLine(scan, b) == Ok(scan)
    ensures ScanLines(scan, [a, b]) == Ok(scan)
  {
    assert [a, b][1..] == [b] && [b][1..] == [];
    assert ScanLines(scan, [b]) == ScanLines(scan, []);
  }

  lemma ScanCons(scan: Scan, line: string, rest: seq<string>)
    requires ScanLine(scan, line).Ok?
    ensures ScanLines(scan, [line] + rest) == ScanLines(ScanLine(scan, line).value, rest)
  {
    assert ([line] + rest)[1..] == rest;
  }

  lemma ScanFile(scan: Scan, d: FileDiff)
    requires GoodDiff(d)
    ensures ScanLines(scan, FileLines(d)) ==
              Ok(Scan(AddNew(AddNew(scan.paths, d.oldPath), d.newPath),
                      scan.additions + Count(d.body, SeenAdded), scan.deletions + Count(d.body, SeenDeleted)))
  {
    hide ScanLine;
    var named := scan.(paths := AddNew(AddNew(scan.paths, d.oldPath), d.newPath));
    var headers := SideHeaders(d);
    var tail := headers + RenderBody(d.body);
    ScanDiffHeaderLine(scan, d);
    ScanCons(scan, DiffHeader(d), d.extended + tail);
    ScanQuietLines(named, d.extended);
    ScanAppend(named, d.extended, tail);
    ScanFileHeaderLines(named, d);
    ScanTwoLines(named, OldHeader(d), NewHeader(d));
    ScanNothing(named);
    ScanAppend(named, headers, RenderBody(d.body));
    ScanBody(named, d.body);
  }

  lemma ScanNothing(scan: Scan)
    ensures ScanLines(scan, []) == Ok(scan)
  {
  }

  lemma {:induction false} ScanDiff(scan: Scan, ds: seq<FileDiff>)
    requires GoodDiffs(ds)
    ensures ScanLines(scan, DiffLines(ds)) ==
              Ok(Scan(CollectPaths(scan.paths, ds), scan.additions + CountAll(ds, SeenAdded),
                      scan.deletions + CountAll(ds, SeenDeleted)))
    decreases |ds|
  {
    hide ScanLine, ScanLines, FileLines, GoodDiff, Count, AddNew;
    if |ds| == 0 {
      ScanNothing(scan);
    } else {
      ScanFile(scan, ds[0]);
      var next := ScanLines(scan, FileLines(ds[0])).value;
      ScanDiff(next, ds[1..]);
      ScanAppend(scan, FileLines(ds[0]), DiffLines(ds[1..]));
    }
  }

  // One line per rendered line

  lemma {:induction false} BodyLinesAreLines(body: seq<Line>)
    requires forall i :: 0 <= i < |body| ==> AnyLine(body[i])
    ensures forall i :: 0 <= i < |RenderBody(body)| ==> OneLine(RenderBody(body)[i])
  {
    if |body| > 0 {
      BodyLinesAreLines(body[1..]);
      assert OneLine(RenderLine(body[0]));
    }
  }

  lemma HeadersAreLines(d: FileDiff)
    requires AnyDiff(d)
    ensures OneLine(DiffHeader(d)) && OneLine(OldHeader(d)) && OneLine(NewHeader(d))
  {
    OneLineConcat("a/", d.oldPath);
    OneLineConcat("b/", d.newPath);
    OneLineConcat("a/" + d.oldPath + " ", "b/" + d.newPath);
    OneLineConcat("a/" + d.oldPath, " ");
    assert ("a/" + d.oldPath) + " " + ("b/" + d.newPath) == ("a/" + d.oldPath + " ") + ("b/" + d.newPath);
    OneLineConcat("diff" + " " + "--git" + " ", ("a/" + d.oldPath) + " " + ("b/" + d.newPath));
    assert DiffHeader(d) == ("diff" + " " + "--git" + " ") + (("a/" + d.oldPath) + " " + ("b/" + d.newPath));
    OneLineConcat("--- ", if d.created then "/dev/null" else "a/" + d.oldPath);
    OneLineConcat("+++ ", if d.deleted then "/dev/null" else "b/" + d.newPath);
  }

  lemma OneLineConcat(a: string, b: string)
    requires OneLine(a) && OneLine(b)
    ensures OneLine(a + b)
  {
  }

  lemma {:induction false} RenderedLinesAreLines(ds: seq<FileDiff>)
    requires AnyDiffs(ds)
    ensures forall i :: 0 <= i < |DiffLines(ds)| ==> OneLine(DiffLines(ds)[i])
  {
    if |ds| > 0 {
      RenderedLinesAreLines(ds[1..]);
      HeadersAreLines(ds[0]);
      BodyLinesAreLines(ds[0].body);
      assert forall i :: 0 <= i < |FileLines(ds[0])| ==> OneLine(FileLines(ds[0])[i]);
    }
  }

  // The round trip

  lemma {:induction false} CollectGrows(paths: seq<string>, ds: seq<FileDiff>)
    ensures |CollectPaths(paths, ds)| >= |paths|
    ensures |ds| > 0 ==> CollectPaths(paths, ds) != []
    decreases |ds|
  {
    if |ds| > 0 {
      CollectGrows(AddNew(AddNew(paths, ds[0].oldPath), ds[0].newPath), ds[1..]);
    }
  }

  /** Rendering a diff and inspecting it gives back its paths in order and its line counts, less the
      lines the scanner does not see. */
  lemma RoundTrip(policy: PatchPolicy, ds: seq<FileDiff>, candidate: PatchCandidate)
    requires GoodDiffs(ds) && |ds| > 0 && candidate.patch == Render(ds)
    requires Utf8Size(candidate.patch) <= policy.maxPatchBytes && !HasForbiddenMarker(candidate.patch)
    requires |CollectPaths([], ds)| <= policy.maxFiles
    requires NormalizeAll(candidate.touchedFiles).Ok?
    requires SameElements(NormalizeAll(candidate.touchedFiles).value, CollectPaths([], ds))
    requires forall path :: path in CollectPaths([], ds) ==> !IsProtected(policy, path)
    ensures Inspected(policy, candidate) ==
              Ok(PatchInspection(CollectPaths([], ds), CountAll(ds, SeenAdded), CountAll(ds, SeenDeleted),
                                 Utf8Size(candidate.patch)))
  {
    hide *;
    var scan := Scan(CollectPaths([], ds), CountAll(ds, SeenAdded), CountAll(ds, SeenDeleted));
    GoodDiffsAreAny(ds);
    RenderedLines(ds);
    ScanRendered(SplitLines(candidate.patch), ds);
    CollectGrows([], ds);
    InspectedIsJudged(policy, candidate, scan);
    JudgeAccepts(policy, candidate, scan);
  }

  lemma RenderedLines(ds: seq<FileDiff>)
    requires AnyDiffs(ds)
    ensures SplitLines(Render(ds)) == DiffLines(ds)
  {
    RenderedLinesAreLines(ds);
    SplitUnlines(DiffLines(ds));
  }

  lemma ScanRendered(lines: seq<string>, ds: seq<FileDiff>)
    requires GoodDiffs(ds) && lines == DiffLines(ds)
    ensures ScanLines(EMPTY_SCAN, lines) ==
              Ok(Scan(CollectPaths([], ds), CountAll(ds, SeenAdded), CountAll(ds, SeenDeleted)))
  {
    hide ScanLines, CollectPaths, CountAll, DiffLines;
    ScanDiff(EMPTY_SCAN, ds);
  }

  lemma InspectedIsJudged(policy: PatchPolicy, candidate: PatchCandidate, scan: Scan)
    requires Utf8Size(candidate.patch) <= policy.maxPatchBytes && !HasForbiddenMarker(candidate.patch)
    requires ScanLines(EMPTY_SCAN, SplitLines(candidate.patch)) == Ok(scan)
    ensures Inspected(policy, candidate) == Judge(policy, candidate, scan)
  {
  }

  lemma JudgeAccepts(policy: PatchPolicy, candidate: PatchCandidate, scan: Scan)
    requires scan.paths != [] && |scan.paths| <= policy.maxFiles
    requires NormalizeAll(candidate.touchedFiles).Ok?
    requires SameElements(NormalizeAll(candidate.touchedFiles).value, scan.paths)
    requires forall path :: path in scan.paths ==> !IsProtected(policy, path)
    ensures Judge(policy, candidate, scan) ==
              Ok(PatchInspection(scan.paths, scan.additions, scan.deletions, Utf8Size(candidate.patch)))
  {
  }

  /** When each file diff names one path and the paths differ, they come back one per file, in order. */
  lemma {:induction false} DistinctPathsInOrder(paths: seq<string>, ds: seq<FileDiff>)
    requires forall i :: 0 <= i < |ds| ==> ds[i].oldPath == ds[i].newPath && ds[i].newPath !in paths
    requires forall i, j :: 0 <= i < j < |ds| ==> ds[i].newPath != ds[j].newPath
    ensures CollectPaths(paths, ds) == paths + seq(|ds|, i requires 0 <= i < |ds| => ds[i].newPath)
    decreases |ds|
  {
    if |ds| > 0 {
      DistinctPathsInOrder(paths + [ds[0].newPath], ds[1..]);
    }
  }

  lemma {:induction false} CountSeen(body: seq<Line>)
    ensures Count(body, SeenAdded) <= Count(body, IsAdded)
    ensures Count(body, SeenDeleted) <= Count(body, IsDeleted)
    ensures Count(body, SeenAdded) == Count(body, IsAdded) <==>
              forall i :: 0 <= i < |body| && body[i].Added? ==> !("++" <= body[i].text)
    ensures Count(body, SeenDeleted) == Count(body, IsDeleted) <==>
              forall i :: 0 <= i < |body| && body[i].Deleted? ==> !("--" <= body[i].text)
  {
    if |body| > 0 {
      CountSeen(body[1..]);
      assert forall i :: 0 < i < |body| ==> body[i] == body[1..][i - 1];
      assert forall i :: 0 <= i < |body[1..]| ==> body[1..][i] == body[i + 1];
    }
  }

  /** No added content starts with "++" and no deleted content with "--". */
  predicate NothingHidden(ds: seq<FileDiff>) {
    forall i, k :: 0 <= i < |ds| && 0 <= k < |ds[i].body| ==>
      && (ds[i].body[k].Added? ==> !("++" <= ds[i].body[k].text))
      && (ds[i].body[k].Deleted? ==> !("--" <= ds[i].body[k].text))
  }

  /** The returned counts are the true ones exactly when nothing is hidden. */
  lemma {:induction false} CountsAreExact(ds: seq<FileDiff>)
    ensures CountAll(ds, SeenAdded) <= CountAll(ds, IsAdded) && CountAll(ds, SeenDeleted) <= CountAll(ds, IsDeleted)
    ensures (CountAll(ds, SeenAdded) == CountAll(ds, IsAdded) && CountAll(ds, SeenDeleted) == CountAll(ds, IsDeleted))
              <==> NothingHidden(ds)
  {
    if |ds| > 0 {
      CountSeen(ds[0].body);
      CountsAreExact(ds[1..]);
      assert forall i :: 0 < i < |ds| ==> ds[i] == ds[1..][i - 1];
      assert forall i :: 0 <= i < |ds[1..]| ==> ds[1..][i] == ds[i + 1];
    }
  }

  // Counts in any accepted diff

  predicate CountsAdded(line: string) { "+" <= line && !("+++" <= line) }
  predicate CountsDeleted(line: string) { "-" <= line && !("---" <= line) }

  function Tally(lines: seq<string>, test: string -> bool): nat {
    if |lines| == 0 then 0 else (if test(lines[0]) then 1 else 0) + Tally(lines[1..], test)
  }

  lemma {:induction false} TallyAppend(a: seq<string>, b: seq<string>, test: string -> bool)
    ensures Tally(a + b, test) == Tally(a, test) + Tally(b, test)
  {
    if |a| == 0 {
      assert a + b == b;
    } else {
      assert (a + b)[1..] == a[1..] + b;
      TallyAppend(a[1..], b, test);
    }
  }

  lemma FileHeadersAreUncounted(line: string)
    requires "--- " <= line || "+++ " <= line || DIFF_PREFIX <= line
    ensures !CountsAdded(line) && !CountsDeleted(line)
  {
    if "--- " <= line {
      assert line[..3] == "---" && line[0] == '-';
    } else if "+++ " <= line {
      assert line[..3] == "+++" && line[0] == '+';
    } else {
      assert line[0] == 'd';
    }
  }

  lemma ScanLineTallies(scan: Scan, line: string)
    requires ScanLine(scan, line).Ok?
    ensures var next := ScanLine(scan, line).value;
      && next.additions == scan.additions + (if CountsAdded(line) then 1 else 0)
      && next.deletions == scan.deletions + (if CountsDeleted(line) then 1 else 0)
  {
    if "--- " <= line || "+++ " <= line || DIFF_PREFIX <= line {
      FileHeadersAreUncounted(line);
    } else {
      assert ("+" <= line ==> line[0] == '+') && ("-" <= line ==> line[0] == '-');
    }
  }

  lemma {:induction false} ScanTallies(scan: Scan, lines: seq<string>)
    requires ScanLines(scan, lines).Ok?
    ensures ScanLines(scan, lines).value.additions == scan.additions + Tally(lines, CountsAdded)
    ensures ScanLines(scan, lines).value.deletions == scan.deletions + Tally(lines, CountsDeleted)
    decreases |lines|
  {
    hide ScanLine;
    if |lines| > 0 {
      ScanLineTallies(scan, lines[0]);
      ScanTallies(ScanLine(scan, lines[0]).value, lines[1..]);
    }
  }

  lemma TallyLine(line: Line)
    requires AnyLine(line)
    ensures CountsAdded(RenderLine(line)) <==> SeenAdded(line)
    ensures CountsDeleted(RenderLine(line)) <==> SeenDeleted(line)
  {
    match line
    case Plain(text) =>
      PrefixOfPrefix("+", "+++", text);
      PrefixOfPrefix("-", "---", text);
    case Context(text) =>
      assert (" " + text)[0] == ' ';
    case Added(text) =>
      assert ("+" + text)[0] == '+';
      MarkedPrefix('+', text, "++");
      assert ['+'] + "++" == "+++";
    case Deleted(text) =>
      assert ("-" + text)[0] == '-';
      MarkedPrefix('-', text, "--");
      assert ['-'] + "--" == "---";
  }

  lemma {:induction false} TallyBody(body: seq<Line>)
    requires forall i :: 0 <= i < |body| ==> AnyLine(body[i])
    ensures Tally(RenderBody(body), CountsAdded) == Count(body, SeenAdded)
    ensures Tally(RenderBody(body), CountsDeleted) == Count(body, SeenDeleted)
  {
    hide CountsAdded, CountsDeleted, RenderLine;
    if |body| > 0 {
      TallyLine(body[0]);
      TallyBody(body[1..]);
    }
  }

  lemma {:induction false} TallyUncounted(lines: seq<string>)
    requires forall i :: 0 <= i < |lines| ==> !CountsAdded(lines[i]) && !CountsDeleted(lines[i])
    ensures Tally(lines, CountsAdded) == 0 && Tally(lines, CountsDeleted) == 0
  {
    hide CountsAdded, CountsDeleted;
    if |lines| > 0 {
      TallyUncounted(lines[1..]);
    }
  }

  lemma HeadersAreUncounted(d: FileDiff)
    ensures !CountsAdded(DiffHeader(d)) && !CountsDeleted(DiffHeader(d))
    ensures forall i :: 0 <= i < |SideHeaders(d)| ==>
              !CountsAdded(SideHeaders(d)[i]) && !CountsDeleted(SideHeaders(d)[i])
  {
    assert DiffHeader(d)[0] == 'd';
    assert OldHeader(d)[..3] == "---" && NewHeader(d)[..3] == "+++";
    assert OldHeader(d)[0] == '-' && NewHeader(d)[0] == '+';
  }

  lemma TallyFile(d: FileDiff)
    requires AnyDiff(d)
    ensures Tally(FileLines(d), CountsAdded) == Count(d.body, SeenAdded)
    ensures Tally(FileLines(d), CountsDeleted) == Count(d.body, SeenDeleted)
  {
    hide Tally, DiffHeader, SideHeaders, RenderBody, Count, CountsAdded, CountsDeleted, AnyLine;
    var lines := [DiffHeader(d)] + (d.extended + SideHeaders(d));
    assert FileLines(d) == lines + RenderBody(d.body);
    HeadersAreUncounted(d);
    QuietLinesAreUncounted(d.extended);
    TallyUncounted(lines);
    TallyBody(d.body);
    TallyAppend(lines, RenderBody(d.body), CountsAdded);
    TallyAppend(lines, RenderBody(d.body), CountsDeleted);
  }

  lemma QuietLinesAreUncounted(lines: seq<string>)
    requires forall i :: 0 <= i < |lines| ==> QuietLine(lines[i])
    ensures forall i :: 0 <= i < |lines| ==> !CountsAdded(lines[i]) && !CountsDeleted(lines[i])
  {
  }

  lemma {:induction false} TallyDiffs(ds: seq<FileDiff>)
    requires AnyDiffs(ds)
    ensures Tally(DiffLines(ds), CountsAdded) == CountAll(ds, SeenAdded)
    ensures Tally(DiffLines(ds), CountsDeleted) == CountAll(ds, SeenDeleted)
  {
    hide AnyDiff, FileLines, Count, CountsAdded, CountsDeleted;
    if |ds| > 0 {
      TallyFile(ds[0]);
      TallyDiffs(ds[1..]);
      TallyAppend(FileLines(ds[0]), DiffLines(ds[1..]), CountsAdded);
      TallyAppend(FileLines(ds[0]), DiffLines(ds[1..]), CountsDeleted);
    }
  }

  /** The inspection of an accepted patch, whatever its paths and content lines look like, reports the true
      counts if and only if nothing is hidden; otherwise it reports less. Content that the scanner takes
      for a file header is hidden, too. */
  lemma InspectedCountsAreExact(policy: PatchPolicy, ds: seq<FileDiff>, candidate: PatchCandidate)
    requires AnyDiffs(ds) && candidate.patch == Render(ds) && Inspected(policy, candidate).Ok?
    ensures var inspection := Inspected(policy, candidate).value;
      && inspection.additions <= CountAll(ds, IsAdded) && inspection.deletions <= CountAll(ds, IsDeleted)
      && (inspection.additions == CountAll(ds, IsAdded) && inspection.deletions == CountAll(ds, IsDeleted) <==>
            NothingHidden(ds))
  {
    hide *;
    RenderedLines(ds);
    AcceptedScan(policy, candidate);
    ScanTallies(EMPTY_SCAN, SplitLines(candidate.patch));
    NothingCounted();
    TallyDiffs(ds);
    CountsAreExact(ds);
  }

  lemma NothingCounted()
    ensures EMPTY_SCAN == Scan([], 0, 0)
  {
  }
}
