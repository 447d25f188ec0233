/** Where context candidates come from: the module index, imports resolved to files, trace seeds, and
    the files around each seed. Parsing, the filesystem and trace matching are inputs. */
module ContextCandidates {
  import opened Models
  import opened TextOrder
  import opened Paths
  import opened Context

  // Dotted names

  function DotSplit(s: string): (parts: seq<string>)
    ensures |parts| >= 1
  {
    if s == "" then [""]
    else
      var rest := DotSplit(s[1..]);
      if s[0] == '.' then [""] + rest else [[s[0]] + rest[0]] + rest[1..]
  }

  function DotJoin(parts: seq<string>): string {
    if |parts| == 0 then "" else if |parts| == 1 then parts[0] else parts[0] + "." + DotJoin(parts[1..])
  }

  /** A dotted prefix of a module name: the name itself, or what stands before one of its dots. */
  predicate Ancestor(prefix: string, name: string) {
    prefix == name || prefix + "." <= name
  }

  function Head(name: string, length: nat): string
    requires length <= |DotSplit(name)|
  {
    DotJoin(DotSplit(name)[..length])
  }

  lemma DotJoinOneMore(first: string, rest: seq<string>)
    ensures DotJoin([first] + rest) == if rest == [] then first else first + "." + DotJoin(rest)
  {
    assert ([first] + rest)[1..] == rest;
  }

  lemma HeadAtDot(name: string, length: nat)
    requires name != "" && 1 <= length <= |DotSplit(name)| && name[0] == '.'
    ensures Head(name, length) == if length == 1 then "" else "." + Head(name[1..], length - 1)
  {
    var more := DotSplit(name[1..])[..length - 1];
    assert DotSplit(name)[..length] == [""] + more;
    DotJoinOneMore("", more);
    hide *;
    assert "" + "." + DotJoin(more) == "." + DotJoin(more);
  }

  lemma HeadAtLetter(name: string, length: nat)
    requires name != "" && 1 <= length <= |DotSplit(name)| && name[0] != '.'
    ensures Head(name, length) == [name[0]] + Head(name[1..], length)
  {
    var rest := DotSplit(name[1..]);
    var more := rest[1..length];
    assert DotSplit(name)[..length] == [[name[0]] + rest[0]] + more;
    assert rest[..length] == [rest[0]] + more;
    DotJoinOneMore([name[0]] + rest[0], more);
    DotJoinOneMore(rest[0], more);
    LetterFirst(name[0], rest[0], DotJoin(more));
  }

  lemma LetterFirst(letter: char, part: string, more: string)
    ensures [letter] + (part + "." + more) == [letter] + part + "." + more
  {
  }

  lemma {:induction false} HeadUnfolds(name: string, length: nat)
    requires name != "" && 1 <= length <= |DotSplit(name)|
    ensures name[0] == '.' && length == 1 ==> Head(name, length) == ""
    ensures name[0] == '.' && length > 1 ==> Head(name, length) == "." + Head(name[1..], length - 1)
    ensures name[0] != '.' ==> Head(name, length) == [name[0]] + Head(name[1..], length)
  {
    hide *;
    if name[0] == '.' {
      HeadAtDot(name, length);
    } else {
      HeadAtLetter(name, length);
    }
  }

  lemma {:induction false} HeadsAreAncestors(name: string, length: nat)
    requires 1 <= length <= |DotSplit(name)|
    ensures Ancestor(Head(name, length), name)
  {
    if name != "" {
      HeadUnfolds(name, length);
      var tail := name[1..];
      if name[0] != '.' {
        HeadsAreAncestors(tail, length);
        assert name == [name[0]] + tail;
      } else if length > 1 {
        HeadsAreAncestors(tail, length - 1);
        assert name == "." + tail;
      }
    }
  }

  lemma {:induction false} AncestorsAreHeads(prefix: string, name: string) returns (length: nat)
    requires Ancestor(prefix, name)
    ensures 1 <= length <= |DotSplit(name)| && prefix == Head(name, length)
  {
    length := 1;
    if name != "" {
      HeadUnfolds(name, 1);
      if prefix != "" {
        length := AncestorsAreHeads(prefix[1..], name[1..]);
        if name[0] == '.' {
          length := length + 1;
        }
        HeadUnfolds(name, length);
        assert prefix == [prefix[0]] + prefix[1..];
      }
    }
  }

  lemma {:induction false} HeadsGrow(name: string, shorter: nat, longer: nat)
    requires 1 <= shorter <= longer <= |DotSplit(name)|
    ensures |Head(name, shorter)| <= |Head(name, longer)|
  {
    if name != "" && shorter < longer {
      HeadUnfolds(name, shorter);
      HeadUnfolds(name, longer);
      if name[0] != '.' {
        HeadsGrow(name[1..], shorter, longer);
      } else if shorter > 1 {
        HeadsGrow(name[1..], shorter - 1, longer - 1);
      }
    }
  }

  // The module index

  function LastDot(name: string): (i: int)
    ensures -1 <= i < |name|
  {
    if name == "" then -1 else if name[|name| - 1] == '.' then |name| - 1 else LastDot(name[..|name| - 1])
  }

  /** The name without its suffix; a leading or trailing dot starts no suffix. */
  function Stem(name: string): string {
    var i := LastDot(name);
    if 0 < i < |name| - 1 then name[..i] else name
  }

  /** The dotted module name of a Python file; an `__init__` file stands for its package, and the one
      at the top for no module. */
  function ModuleOf(path: string): Option<string> {
    var parts := Split(path);
    var (folders, stem) := (parts[..|parts| - 1], Stem(parts[|parts| - 1]));
    if stem != "__init__" then Some(DotJoin(folders + [stem]))
    else if folders != [] then Some(DotJoin(folders))
    else None
  }

  /** Of two files of one module the later one is kept, so the choice depends on the order in which
      the set of files is iterated. */
  function IndexOf(paths: seq<string>): map<string, string> {
    if paths == [] then map[]
    else
      var (earlier, last) := (IndexOf(paths[..|paths| - 1]), paths[|paths| - 1]);
      if ModuleOf(last).Some? then earlier[ModuleOf(last).value := last] else earlier
  }

  method ModuleIndex(paths: seq<string>) returns (index: map<string, string>)
    ensures index == IndexOf(paths)
  {
    index := map[];
    for i := 0 to |paths|
      invariant index == IndexOf(paths[..i])
    {
      assert paths[..i + 1][..i] == paths[..i];
      var key := ModuleOf(paths[i]);
      if key.Some? {
        index := index[key.value := paths[i]];
      }
    }
    assert paths[..|paths|] == paths;
  }

  /** A module is indexed exactly when one of the files is its, and then under one of its files. */
  lemma {:induction false} IndexHoldsTheModules(paths: seq<string>, key: string)
    ensures key in IndexOf(paths) <==> exists path :: path in paths && ModuleOf(path) == Some(key)
    ensures key in IndexOf(paths) ==> IndexOf(paths)[key] in paths && ModuleOf(IndexOf(paths)[key]) == Some(key)
  {
    hide ModuleOf;
    if paths != [] {
      var before, last := paths[..|paths| - 1], paths[|paths| - 1];
      assert paths == before + [last];
      IndexHoldsTheModules(before, key);
    }
  }

  // Which module a file is

  /** The text of the parts with one dot between two of them. */
  predicate Dotted(text: string, parts: seq<string>)
    decreases |parts|
  {
    if |parts| == 0 then false
    else if |parts| == 1 then text == parts[0]
    else |parts[0]| < |text| && text[..|parts[0]|] == parts[0] && text[|parts[0]|] == '.'
         && Dotted(text[|parts[0]| + 1..], parts[1..])
  }

  lemma {:induction false} JoinIsDotted(parts: seq<string>)
    requires parts != []
    ensures Dotted(DotJoin(parts), parts)
  {
    if |parts| > 1 {
      var rest := DotJoin(parts[1..]);
      JoinIsDotted(parts[1..]);
      var text := parts[0] + "." + rest;
      assert text[..|parts[0]|] == parts[0] && text[|parts[0]| + 1..] == rest;
    }
  }

  lemma {:induction false} NoDotInSuffix(name: string, tail: string)
    requires '.' !in tail
    ensures LastDot(name + "." + tail) == |name|
    decreases |tail|
  {
    var text := name + "." + tail;
    if tail == "" {
      assert text == name + ".";
    } else {
      var shorter := tail[..|tail| - 1];
      NoDotInSuffix(name, shorter);
      assert text[..|text| - 1] == name + "." + shorter;
    }
  }

  /** The suffix is dropped, whatever the rest of the name is. */
  lemma SuffixIsDropped(name: string)
    requires name != ""
    ensures Stem(name + ".py") == name
  {
    NoDotInSuffix(name, "py");
    assert name + ".py" == name + "." + "py";
    assert (name + ".py")[..|name|] == name;
  }

  /** The path of a file in folders. */
  function FileIn(folders: seq<string>, name: string): string {
    Join(folders + [name])
  }

  lemma FileInSplits(folders: seq<string>, name: string)
    requires '/' !in name && forall i :: 0 <= i < |folders| ==> '/' !in folders[i]
    ensures Split(FileIn(folders, name)) == folders + [name]
  {
    SplitJoin(folders + [name]);
  }

  /** A file in folders is the module whose dotted parts are the folders and its name without the suffix; an
      `__init__` file is the module of its folders, and at the top it is none. */
  lemma {:induction false} FilesAreTheirModules(folders: seq<string>, name: string)
    requires name != "" && '/' !in name && forall i :: 0 <= i < |folders| ==> '/' !in folders[i]
    ensures var key := ModuleOf(FileIn(folders, name + ".py"));
      if name != "__init__" then key.Some? && Dotted(key.value, folders + [name])
      else if folders != [] then key.Some? && Dotted(key.value, folders)
      else key.None?
  {
    hide Stem, Join, Dotted, DotJoin;
    FileInSplits(folders, name + ".py");
    SuffixIsDropped(name);
    assert (folders + [name + ".py"])[..|folders|] == folders;
    JoinIsDotted(folders + [name]);
    if folders != [] {
      JoinIsDotted(folders);
    }
  }

  // Imports

  ghost predicate IsLongest(index: map<string, string>, name: string, key: string) {
    && key in index && Ancestor(key, name)
    && forall other :: other in index && Ancestor(other, name) ==> |other| <= |key|
  }

  ghost predicate Resolves(index: map<string, string>, name: string, path: string) {
    exists key :: IsLongest(index, name, key) && index[key] == path
  }

  /** The file of the longest known dotted prefix, if any prefix is known. */
  method Resolve(name: string, index: map<string, string>) returns (path: Option<string>)
    ensures path.None? <==> forall key :: key in index ==> !Ancestor(key, name)
    ensures path.Some? ==> Resolves(index, name, path.value)
  {
    var parts := DotSplit(name);
    var length := |parts|;
    while length > 0
      invariant 0 <= length <= |parts|
      invariant forall k :: length < k <= |parts| ==> Head(name, k) !in index
    {
      var candidate := DotJoin(parts[..length]);
      if candidate in index {
        HeadsAreAncestors(name, length);
        forall other | other in index && Ancestor(other, name)
          ensures |other| <= |candidate|
        {
          var k := AncestorsAreHeads(other, name);
          HeadsGrow(name, k, length);
        }
        assert IsLongest(index, name, candidate);
        return Some(index[candidate]);
      }
      length := length - 1;
    }
    forall key | key in index
      ensures !Ancestor(key, name)
    {
      if Ancestor(key, name) {
        var k := AncestorsAreHeads(key, name);
      }
    }
    path := None;
  }

  lemma ResolvesToOne(index: map<string, string>, name: string, path: string, path': string)
    requires Resolves(index, name, path) && Resolves(index, name, path')
    ensures path == path'
  {
    var key :| IsLongest(index, name, key) && index[key] == path;
    var key' :| IsLongest(index, name, key') && index[key'] == path';
    assert |key| == |key'|;
    assert key == name[..|key|] == key';
  }

  lemma NothingKnown(index: map<string, string>, name: string)
    requires forall key :: key in index ==> !Ancestor(key, name)
    ensures forall path :: !Resolves(index, name, path)
  {
  }

  lemma ResolvedFilesAreIndexed(index: map<string, string>)
    ensures forall name, path :: Resolves(index, name, path) ==> path in index.Values
  {
  }

  ghost function ResolvedSet(names: set<string>, index: map<string, string>): set<string> {
    set path | path in index.Values && exists name :: name in names && Resolves(index, name, path)
  }

  /** The files a file's imports resolve to, sorted and without repetition. */
  method ResolveImports(names: set<string>, index: map<string, string>) returns (paths: seq<string>)
    ensures paths == Sorted(ResolvedSet(names, index))
    ensures forall path :: path in paths <==> exists name :: name in names && Resolves(index, name, path)
    ensures forall i, j :: 0 <= i < j < |paths| ==> TextLeq(paths[i], paths[j]) && paths[i] != paths[j]
  {
    hide TextLeq, Resolves, Ancestor;
    var resolved: set<string>, waiting := {}, names;
    while waiting != {}
      invariant waiting <= names
      invariant forall path :: path in resolved <==>
                                 exists name :: name in names - waiting && Resolves(index, name, path)
      decreases |waiting|
    {
      var name :| name in waiting;
      var path := Resolve(name, index);
      if path.Some? {
        forall other
          ensures other in resolved + {path.value} <==>
                  exists done :: done in names - (waiting - {name}) && Resolves(index, done, other)
        {
          if Resolves(index, name, other) {
            ResolvesToOne(index, name, other, path.value);
          }
        }
        resolved := resolved + {path.value};
      } else {
        NothingKnown(index, name);
      }
      waiting := waiting - {name};
    }
    ResolvedFilesAreIndexed(index);
    assert resolved == ResolvedSet(names, index);
    paths := SortedList(resolved);
    SortedHoldsTheSet(resolved);
    forall i, j | 0 <= i < j < |paths|
      ensures TextLeq(paths[i], paths[j]) && paths[i] != paths[j]
    {
      SortedAscends(resolved, i, j);
    }
  }

  // Seeds

  function SeedsOf(traces: seq<Option<string>>, files: seq<string>): seq<string> {
    if traces == [] then []
    else
      var (before, last) := (SeedsOf(traces[..|traces| - 1], files), traces[|traces| - 1]);
      if last.Some? && last.value in files && last.value !in before then before + [last.value] else before
  }

  method Seeds(traces: seq<Option<string>>, files: seq<string>) returns (seeds: seq<string>)
    ensures seeds == SeedsOf(traces, files)
  {
    seeds := [];
    for i := 0 to |traces|
      invariant seeds == SeedsOf(traces[..i], files)
    {
      assert traces[..i + 1][..i] == traces[..i];
      if traces[i].Some? && traces[i].value in files && traces[i].value !in seeds {
        seeds := seeds + [traces[i].value];
      }
    }
    assert traces[..|traces|] == traces;
  }

  /** The seeds are the traced files of the workspace, each once, in the order the trace first names them. */
  lemma {:induction false} SeedsAreTheTracedFiles(traces: seq<Option<string>>, files: seq<string>)
    returns (places: seq<nat>)
    ensures Distinct(SeedsOf(traces, files))
    ensures forall path :: path in SeedsOf(traces, files) <==> Some(path) in traces && path in files
    ensures |places| == |SeedsOf(traces, files)|
    ensures forall i, j :: 0 <= i < j < |places| ==> places[i] < places[j]
    ensures forall i :: 0 <= i < |places| ==>
              && places[i] < |traces| && traces[places[i]] == Some(SeedsOf(traces, files)[i])
              && forall k :: 0 <= k < places[i] ==> traces[k] != traces[places[i]]
  {
    places := [];
    if traces != [] {
      var before, last := traces[..|traces| - 1], traces[|traces| - 1];
      places := SeedsAreTheTracedFiles(before, files);
      assert traces == before + [last];
      if |SeedsOf(traces, files)| > |places| {
        assert last !in before;
        places := places + [|traces| - 1];
      }
    }
  }

  // Candidates

  type ImportMap = map<string, seq<string>>

  function ImportsIn(imports: ImportMap, path: string): seq<string> {
    if path in imports then imports[path] else []
  }

  function Imported(seed: string, paths: seq<string>): seq<Candidate> {
    seq(|paths|, i requires 0 <= i < |paths| => Candidate(paths[i], ImportedBy(seed)))
  }

  function Importers(seed: string, files: seq<string>, imports: ImportMap): seq<Candidate> {
    if files == [] then []
    else
      var last := files[|files| - 1];
      Importers(seed, files[..|files| - 1], imports) +
      if seed in ImportsIn(imports, last) then [Candidate(last, Reason.Imports(seed))] else []
  }

  function AroundSeeds(seeds: seq<string>, files: seq<string>, imports: ImportMap): seq<Candidate> {
    if seeds == [] then []
    else
      var last := seeds[|seeds| - 1];
      AroundSeeds(seeds[..|seeds| - 1], files, imports) +
      (Imported(last, ImportsIn(imports, last)) + Importers(last, files, imports))
  }

  function CandidatesOf(seeds: seq<string>, files: seq<string>, imports: ImportMap): seq<Candidate> {
    Tracebacks(seeds) + AroundSeeds(seeds, files, imports)
  }

  method Candidates(seeds: seq<string>, files: seq<string>, imports: ImportMap) returns (candidates: seq<Candidate>)
    ensures candidates == CandidatesOf(seeds, files, imports)
  {
    hide Imported, Importers, ImportsIn;
    candidates := Tracebacks(seeds);
    for i := 0 to |seeds|
      invariant candidates == Tracebacks(seeds) + AroundSeeds(seeds[..i], files, imports)
    {
      assert seeds[..i + 1][..i] == seeds[..i];
      var around := Around(seeds[i], files, imports);
      candidates := candidates + around;
    }
    assert seeds[..|seeds|] == seeds;
  }

  method Around(seed: string, files: seq<string>, imports: ImportMap) returns (around: seq<Candidate>)
    ensures around == Imported(seed, ImportsIn(imports, seed)) + Importers(seed, files, imports)
  {
    hide Imported;
    around := Imported(seed, ImportsIn(imports, seed));
    for j := 0 to |files|
      invariant around == Imported(seed, ImportsIn(imports, seed)) + Importers(seed, files[..j], imports)
    {
      assert files[..j + 1][..j] == files[..j];
      if seed in ImportsIn(imports, files[j]) {
        around := around + [Candidate(files[j], Reason.Imports(seed))];
      }
    }
    assert files[..|files|] == files;
  }

  /** The reason given for a candidate is true. */
  predicate Explained(candidate: Candidate, seeds: seq<string>, files: seq<string>, imports: ImportMap) {
    match candidate.reason
    case Traceback => candidate.path in seeds
    case ImportedBy(seed) => seed in seeds && candidate.path in ImportsIn(imports, seed)
    case Imports(seed) => seed in seeds && candidate.path in files && seed in ImportsIn(imports, candidate.path)
  }

  lemma {:induction false} ImportersAreThose(seed: string, files: seq<string>, imports: ImportMap, candidate: Candidate)
    ensures candidate in Importers(seed, files, imports) <==>
              && candidate.reason == Reason.Imports(seed) && candidate.path in files
              && seed in ImportsIn(imports, candidate.path)
  {
    if files != [] {
      var before, last := files[..|files| - 1], files[|files| - 1];
      assert files == before + [last];
      ImportersAreThose(seed, before, imports, candidate);
    }
  }

  lemma ImportedAreThose(seed: string, paths: seq<string>, candidate: Candidate)
    ensures candidate in Imported(seed, paths) <==> candidate.reason == ImportedBy(seed) && candidate.path in paths
  {
    if candidate.reason == ImportedBy(seed) && candidate.path in paths {
      var i :| 0 <= i < |paths| && paths[i] == candidate.path;
      assert Imported(seed, paths)[i] == candidate;
    }
  }

  lemma {:induction false} AroundSeedsAreThose(seeds: seq<string>, files: seq<string>, imports: ImportMap,
                                               candidate: Candidate)
    ensures candidate in AroundSeeds(seeds, files, imports) <==>
              !candidate.reason.Traceback? && Explained(candidate, seeds, files, imports)
  {
    hide Imported, Importers;
    if seeds != [] {
      var before, last := seeds[..|seeds| - 1], seeds[|seeds| - 1];
      assert seeds == before + [last];
      AroundSeedsAreThose(before, files, imports, candidate);
      ImportedAreThose(last, ImportsIn(imports, last), candidate);
      ImportersAreThose(last, files, imports, candidate);
    }
  }

  /** The candidates are exactly the pairs of a path and a true reason for it. */
  lemma CandidatesAreExplained(seeds: seq<string>, files: seq<string>, imports: ImportMap, candidate: Candidate)
    ensures candidate in CandidatesOf(seeds, files, imports) <==> Explained(candidate, seeds, files, imports)
  {
    AroundSeedsAreThose(seeds, files, imports, candidate);
    if candidate.reason.Traceback? && candidate.path in seeds {
      var i :| 0 <= i < |seeds| && seeds[i] == candidate.path;
      assert Tracebacks(seeds)[i] == candidate;
    }
  }

  /** The place of a seed. */
  function Place(seeds: seq<string>, seed: string): (i: nat)
    ensures i <= |seeds| && (i < |seeds| ==> seeds[i] == seed)
    ensures seed in seeds ==> i < |seeds|
  {
    if seeds == [] then 0
    else if seeds[0] == seed then 0
    else 1 + Place(seeds[1..], seed)
  }

  /** One candidate may stand before another: tracebacks first, then by seed, and around one seed the files it
      imports before the files that import it. */
  predicate MayPrecede(seeds: seq<string>, a: Candidate, b: Candidate) {
    if a.reason.Traceback? || b.reason.Traceback? then a.reason.Traceback?
    else
      || Place(seeds, a.reason.seed) < Place(seeds, b.reason.seed)
      || (a.reason.seed == b.reason.seed && (a.reason.ImportedBy? || b.reason.Imports?))
  }

  lemma {:induction false} PlaceOfLast(before: seq<string>, last: string, seed: string)
    requires Distinct(before + [last])
    ensures seed in before ==> Place(before + [last], seed) == Place(before, seed) < |before|
    ensures Place(before + [last], last) == |before|
  {
    var seeds := before + [last];
    if before != [] {
      assert seeds[1..] == before[1..] + [last];
      assert before[0] == seeds[0] && last == seeds[|before|];
      forall i, j | 0 <= i < j < |before[1..] + [last]|
        ensures (before[1..] + [last])[i] != (before[1..] + [last])[j]
      {
        assert (before[1..] + [last])[i] == seeds[i + 1] && (before[1..] + [last])[j] == seeds[j + 1];
      }
      PlaceOfLast(before[1..], last, seed);
      assert seed in before ==> seed == before[0] || seed in before[1..];
    }
  }

  lemma ReasonsAround(seeds: seq<string>, files: seq<string>, imports: ImportMap, i: nat)
    requires i < |AroundSeeds(seeds, files, imports)|
    ensures var candidate := AroundSeeds(seeds, files, imports)[i];
      !candidate.reason.Traceback? && candidate.reason.seed in seeds
  {
    AroundSeedsAreThose(seeds, files, imports, AroundSeeds(seeds, files, imports)[i]);
  }

  lemma AroundOneInOrder(seed: string, files: seq<string>, imports: ImportMap, i: nat, j: nat)
    requires var around := Imported(seed, ImportsIn(imports, seed)) + Importers(seed, files, imports);
      i <= j < |around|
    ensures var around := Imported(seed, ImportsIn(imports, seed)) + Importers(seed, files, imports);
      && around[i].reason.Traceback? == around[j].reason.Traceback? == false
      && around[i].reason.seed == around[j].reason.seed == seed
      && (around[i].reason.ImportedBy? || around[j].reason.Imports?)
  {
    hide ImportsIn;
    var (first, second) := (Imported(seed, ImportsIn(imports, seed)), Importers(seed, files, imports));
    forall k | 0 <= k < |second|
      ensures second[k].reason == Reason.Imports(seed)
    {
      ImportersAreThose(seed, files, imports, second[k]);
    }
    assert forall k :: 0 <= k < |first| ==> first[k].reason == ImportedBy(seed);
  }

  lemma {:induction false} AroundSeedsInOrder(seeds: seq<string>, files: seq<string>, imports: ImportMap,
                                              i: nat, j: nat)
    requires Distinct(seeds) && i < j < |AroundSeeds(seeds, files, imports)|
    ensures MayPrecede(seeds, AroundSeeds(seeds, files, imports)[i], AroundSeeds(seeds, files, imports)[j])
    decreases |seeds|
  {
    hide Imported, Importers, ImportsIn;
    var before, last := seeds[..|seeds| - 1], seeds[|seeds| - 1];
    var earlier := AroundSeeds(before, files, imports);
    var around := Imported(last, ImportsIn(imports, last)) + Importers(last, files, imports);
    var whole := AroundSeeds(seeds, files, imports);
    assert seeds == before + [last] && whole == earlier + around;
    if j < |earlier| {
      ReasonsAround(before, files, imports, i);
      ReasonsAround(before, files, imports, j);
      PlaceOfLast(before, last, earlier[i].reason.seed);
      PlaceOfLast(before, last, earlier[j].reason.seed);
      AroundSeedsInOrder(before, files, imports, i, j);
    } else if i < |earlier| {
      ReasonsAround(before, files, imports, i);
      PlaceOfLast(before, last, earlier[i].reason.seed);
      AroundOneInOrder(last, files, imports, j - |earlier|, j - |earlier|);
    } else {
      AroundOneInOrder(last, files, imports, i - |earlier|, j - |earlier|);
    }
  }

  /** The candidates stand in order: the seeds themselves, and then, seed by seed, the files it imports before
      the files that import it. */
  lemma CandidatesInOrder(seeds: seq<string>, files: seq<string>, imports: ImportMap, i: nat, j: nat)
    requires Distinct(seeds) && i < j < |CandidatesOf(seeds, files, imports)|
    ensures MayPrecede(seeds, CandidatesOf(seeds, files, imports)[i], CandidatesOf(seeds, files, imports)[j])
  {
    hide MayPrecede, AroundSeeds, Distinct;
    var n := |seeds|;
    if i < n {
      TracebacksPrecede(seeds, CandidatesOf(seeds, files, imports)[i], CandidatesOf(seeds, files, imports)[j]);
    } else {
      AroundSeedsInOrder(seeds, files, imports, i - n, j - n);
    }
  }

  lemma TracebacksPrecede(seeds: seq<string>, a: Candidate, b: Candidate)
    requires a.reason.Traceback?
    ensures MayPrecede(seeds, a, b)
  {
  }

  // The selection

  function NamesIn(names: map<string, set<string>>, path: string): set<string> {
    if path in names then names[path] else {}
  }

  /** For each file, the files its imports resolve to. */
  ghost function ResolvedImports(files: seq<string>, names: map<string, set<string>>): ImportMap {
    map path | path in files :: Sorted(ResolvedSet(NamesIn(names, path), IndexOf(files)))
  }

  /** `files` is the set of Python files in the order it is iterated, `names` the modules each parsed
      file imports, and `traces` the paths the failure names, where they lie in the workspace. */
  method Select(selector: Selector, files: seq<string>, names: map<string, set<string>>, traces: seq<Option<string>>)
    returns (manifest: Manifest)
    ensures var choice := Chosen(selector, CandidatesOf(SeedsOf(traces, files), files, ResolvedImports(files, names)));
      manifest == Manifest(choice.files, choice.total, choice.truncated)
  {
    var index := ModuleIndex(files);
    var imports: ImportMap := map[];
    for i := 0 to |files|
      invariant imports.Keys == set path | path in files[..i]
      invariant forall path :: path in imports ==> imports[path] == ResolvedImports(files, names)[path]
    {
      var targets := ResolveImports(NamesIn(names, files[i]), index);
      imports := imports[files[i] := targets];
    }
    assert files[..|files|] == files;
    assert imports == ResolvedImports(files, names);
    var seeds := Seeds(traces, files);
    var candidates := Candidates(seeds, files, imports);
    manifest := Choose(selector, candidates);
  }

  // A package that is imported

  lemma OnlyFileIsIndexed(files: seq<string>, name: string, path: string)
    requires path in files && ModuleOf(path) == Some(name)
    requires forall file :: file in files && ModuleOf(file) == Some(name) ==> file == path
    ensures Resolves(IndexOf(files), name, path)
  {
    hide ModuleOf, IndexOf;
    IndexHoldsTheModules(files, name);
    assert IsLongest(IndexOf(files), name, name);
  }

  lemma ImportedFilesAreCandidates(seeds: seq<string>, files: seq<string>, names: map<string, set<string>>,
                                   seed: string, name: string, path: string)
    requires seed in seeds && seed in files && seed in names && name in names[seed]
    requires Resolves(IndexOf(files), name, path)
    ensures Candidate(path, ImportedBy(seed)) in CandidatesOf(seeds, files, ResolvedImports(files, names))
  {
    hide IndexOf, Resolves, CandidatesOf, Sorted;
    ResolvedFilesAreIndexed(IndexOf(files));
    SortedHoldsTheSet(ResolvedSet(names[seed], IndexOf(files)));
    var imports := ResolvedImports(files, names);
    assert path in ImportsIn(imports, seed);
    CandidatesAreExplained(seeds, files, imports, Candidate(path, ImportedBy(seed)));
  }

  /** An import of a package resolves to its `__init__` file, when no other file is that module, and the file
      becomes a candidate wherever a seed imports the package. */
  lemma PackagesResolve(folders: seq<string>, files: seq<string>, names: map<string, set<string>>, name: string,
                        seeds: seq<string>, seed: string)
    requires folders != [] && (forall i :: 0 <= i < |folders| ==> '/' !in folders[i]) && Dotted(name, folders)
    requires FileIn(folders, "__init__.py") in files
    requires forall file :: file in files && ModuleOf(file) == Some(name) ==> file == FileIn(folders, "__init__.py")
    requires seed in seeds && seed in files && seed in names && name in names[seed]
    ensures Resolves(IndexOf(files), name, FileIn(folders, "__init__.py"))
    ensures Candidate(FileIn(folders, "__init__.py"), ImportedBy(seed)) in
            CandidatesOf(seeds, files, ResolvedImports(files, names))
  {
    hide *;
    PackageFile(folders, name);
    OnlyFileIsIndexed(files, name, FileIn(folders, "__init__.py"));
    ImportedFilesAreCandidates(seeds, files, names, seed, name, FileIn(folders, "__init__.py"));
  }

  lemma {:induction false} PackageFile(folders: seq<string>, name: string)
    requires folders != [] && (forall i :: 0 <= i < |folders| ==> '/' !in folders[i]) && Dotted(name, folders)
    ensures ModuleOf(FileIn(folders, "__init__.py")) == Some(name)
  {
    hide ModuleOf, Dotted, Join;
    assert "__init__" + ".py" == "__init__.py";
    FilesAreTheirModules(folders, "__init__");
    var key := ModuleOf(FileIn(folders, "__init__.py"));
    DottedIsUnique(key.value, name, folders);
  }

  lemma {:induction false} DottedIsUnique(a: string, b: string, parts: seq<string>)
    requires Dotted(a, parts) && Dotted(b, parts)
    ensures a == b
    decreases |parts|
  {
    if |parts| > 1 {
      var n := |parts[0]|;
      DottedIsUnique(a[n + 1..], b[n + 1..], parts[1..]);
      assert a == a[..n] + [a[n]] + a[n + 1..] && b == b[..n] + [b[n]] + b[n + 1..];
    }
  }

  /** For instance: "app.py" imports "pkg", whose only file is "pkg/__init__.py". */
  lemma ThePackageIsFound(names: map<string, set<string>>)
    requires "app.py" in names && "pkg" in names["app.py"]
    ensures Resolves(IndexOf(["app.py", "pkg/__init__.py"]), "pkg", "pkg/__init__.py")
  {
    hide ModuleOf, Join, Dotted, CandidatesOf, ResolvedImports, IndexOf;
    var files := ["app.py", "pkg/__init__.py"];
    PackagePath();
    AppIsNotThePackage();
    PackagesResolve(["pkg"], files, names, "pkg", ["app.py"], "app.py");
  }

  lemma PackagePath()
    ensures FileIn(["pkg"], "__init__.py") == "pkg/__init__.py" && Dotted("pkg", ["pkg"]) && '/' !in "pkg"
  {
    assert ["pkg"] + ["__init__.py"] == ["pkg", "__init__.py"];
    assert ["pkg", "__init__.py"][1..] == ["__init__.py"];
    assert Join(["__init__.py"]) == "__init__.py";
    assert "pkg" + "/" + "__init__.py" == "pkg/__init__.py";
  }

  lemma AppIsNotThePackage()
    ensures ModuleOf("app.py") != Some("pkg")
  {
    hide ModuleOf;
    FilesAreTheirModules([], "app");
    assert [] + ["app"] == ["app"] && [] + ["app.py"] == ["app.py"] && "app" + ".py" == "app.py";
    assert FileIn([], "app.py") == "app.py";
    assert "app"[0] == 'a' && "pkg"[0] == 'p';
  }
}
