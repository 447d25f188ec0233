/** The repair context: candidates explained by a failure trace, and the greedy choice among them. */
module Context {
  datatype Reason = Traceback | ImportedBy(seed: string) | Imports(seed: string)

  datatype Candidate = Candidate(path: string, reason: Reason)

  datatype ContextFile = ContextFile(path: string, reason: Reason, sizeBytes: nat)

  datatype Manifest = Manifest(files: seq<ContextFile>, totalBytes: nat, truncated: bool)

  /** The limits, the exclusion rule, and the sizes the filesystem reports. */
  datatype Selector = Selector(maxFiles: int, maxBytes: int, exclude: string -> bool, size: string -> nat)

  // The greedy choice

  datatype Choice = Choice(files: seq<ContextFile>, seen: set<string>, total: nat, truncated: bool)

  predicate Fits(selector: Selector, choice: Choice, path: string) {
    |choice.files| < selector.maxFiles && choice.total + selector.size(path) <= selector.maxBytes
  }

  function Consider(selector: Selector, choice: Choice, candidate: Candidate): Choice {
    var path := candidate.path;
    if path in choice.seen then choice
    else if selector.exclude(path) then choice.(seen := choice.seen + {path})
    else if !Fits(selector, choice, path) then choice.(seen := choice.seen + {path}, truncated := true)
    else choice.(seen := choice.seen + {path}, total := choice.total + selector.size(path),
                 files := choice.files + [ContextFile(path, candidate.reason, selector.size(path))])
  }

  /** The choice after all candidates, in order. */
  function Chosen(selector: Selector, candidates: seq<Candidate>): Choice {
    if candidates == [] then Choice([], {}, 0, false)
    else Consider(selector, Chosen(selector, candidates[..|candidates| - 1]), candidates[|candidates| - 1])
  }

  method Choose(selector: Selector, candidates: seq<Candidate>) returns (manifest: Manifest)
    ensures var choice := Chosen(selector, candidates);
      manifest == Manifest(choice.files, choice.total, choice.truncated)
  {
    var selected: seq<ContextFile>, seen: set<string>, total: nat, truncated := [], {}, 0, false;
    for i := 0 to |candidates|
      invariant Choice(selected, seen, total, truncated) == Chosen(selector, candidates[..i])
    {
      assert candidates[..i + 1][..i] == candidates[..i];
      var candidate := candidates[i];
      if candidate.path in seen {
        continue;
      }
      seen := seen + {candidate.path};
      if selector.exclude(candidate.path) {
        continue;
      }
      var size := selector.size(candidate.path);
      if |selected| >= selector.maxFiles || total + size > selector.maxBytes {
        truncated := true;
        continue;
      }
      selected := selected + [ContextFile(candidate.path, candidate.reason, size)];
      total := total + size;
    }
    assert candidates[..|candidates|] == candidates;
    manifest := Manifest(selected, total, truncated);
  }

  function TotalSize(files: seq<ContextFile>): nat {
    if files == [] then 0 else TotalSize(files[..|files| - 1]) + files[|files| - 1].sizeBytes
  }

  predicate Has(files: seq<ContextFile>, path: string) {
    exists i :: 0 <= i < |files| && files[i].path == path
  }

  /** The candidate is the first to name its path. */
  predicate FirstNamed(candidates: seq<Candidate>, k: nat)
    requires k < |candidates|
  {
    forall j :: 0 <= j < k ==> candidates[j].path != candidates[k].path
  }

  /** A choice that keeps the budget: the total is exact, nothing is excluded or repeated, and
      `truncated` says exactly that some path that is not excluded was left out. */
  ghost predicate Sound(selector: Selector, choice: Choice) {
    && choice.total == TotalSize(choice.files)
    && (choice.files != [] ==> |choice.files| <= selector.maxFiles && choice.total <= selector.maxBytes)
    && (forall i :: 0 <= i < |choice.files| ==>
          && choice.files[i].path in choice.seen && !selector.exclude(choice.files[i].path)
          && choice.files[i].sizeBytes == selector.size(choice.files[i].path))
    && (forall i, j :: 0 <= i < j < |choice.files| ==> choice.files[i].path != choice.files[j].path)
    && (choice.truncated <==> exists path :: LeftOut(selector, choice, path))
  }

  predicate LeftOut(selector: Selector, choice: Choice, path: string) {
    path in choice.seen && !selector.exclude(path) && !Has(choice.files, path)
  }

  lemma HasOneMore(files: seq<ContextFile>, file: ContextFile, path: string)
    ensures Has(files + [file], path) <==> Has(files, path) || path == file.path
    ensures TotalSize(files + [file]) == TotalSize(files) + file.sizeBytes
  {
    var more := files + [file];
    assert more[..|files|] == files;
    assert more[|files|] == file;
    if Has(files, path) {
      var i :| 0 <= i < |files| && files[i].path == path;
      assert more[i].path == path;
    }
  }

  lemma SelectKeepsSound(selector: Selector, choice: Choice, candidate: Candidate)
    requires Sound(selector, choice) && candidate.path !in choice.seen
    requires !selector.exclude(candidate.path) && Fits(selector, choice, candidate.path)
    ensures Sound(selector, Consider(selector, choice, candidate))
  {
    hide Has, TotalSize;
    var next := Consider(selector, choice, candidate);
    var file := ContextFile(candidate.path, candidate.reason, selector.size(candidate.path));
    assert next.files == choice.files + [file];
    HasOneMore(choice.files, file, file.path);
    forall other
      ensures LeftOut(selector, next, other) <==> LeftOut(selector, choice, other)
    {
      HasOneMore(choice.files, file, other);
    }
  }

  lemma ConsiderKeepsSound(selector: Selector, choice: Choice, candidate: Candidate)
    requires Sound(selector, choice)
    ensures Sound(selector, Consider(selector, choice, candidate))
  {
    hide TotalSize;
    var next := Consider(selector, choice, candidate);
    var path := candidate.path;
    if path !in choice.seen {
      if selector.exclude(path) {
        assert forall other :: LeftOut(selector, next, other) <==> LeftOut(selector, choice, other);
      } else if Fits(selector, choice, path) {
        SelectKeepsSound(selector, choice, candidate);
      } else {
        assert LeftOut(selector, next, path);
      }
    }
  }

  predicate Named(candidates: seq<Candidate>, path: string) {
    exists k :: 0 <= k < |candidates| && candidates[k].path == path
  }

  lemma NamedOneMore(candidates: seq<Candidate>, path: string)
    requires candidates != []
    ensures Named(candidates, path) <==>
              Named(candidates[..|candidates| - 1], path) || path == candidates[|candidates| - 1].path
  {
    var before := candidates[..|candidates| - 1];
    if Named(before, path) {
      var k :| 0 <= k < |before| && before[k].path == path;
      assert candidates[k].path == path;
    }
    if Named(candidates, path) {
      var k :| 0 <= k < |candidates| && candidates[k].path == path;
      assert k < |before| ==> before[k].path == path;
    }
  }

  /** Every selection keeps the budget, and `seen` holds the candidates' paths. */
  lemma {:induction false} ChosenIsSound(selector: Selector, candidates: seq<Candidate>)
    ensures Sound(selector, Chosen(selector, candidates))
    ensures forall path :: path in Chosen(selector, candidates).seen <==> Named(candidates, path)
  {
    hide Named, Sound;
    if candidates == [] {
      NothingChosen(selector);
    } else {
      var before, last := candidates[..|candidates| - 1], candidates[|candidates| - 1];
      ChosenIsSound(selector, before);
      ConsiderKeepsSound(selector, Chosen(selector, before), last);
      forall path
        ensures path in Chosen(selector, candidates).seen <==> Named(candidates, path)
      {
        NamedOneMore(candidates, path);
      }
    }
  }

  lemma NothingChosen(selector: Selector)
    ensures Sound(selector, Chosen(selector, [])) && forall path :: !Named([], path)
  {
  }

  /** The selected files are a subsequence of the candidates, each with the reason under which its
      path was first named. */
  lemma {:induction false} FilesFollowTheCandidates(selector: Selector, candidates: seq<Candidate>)
    returns (places: seq<nat>)
    ensures |places| == |Chosen(selector, candidates).files|
    ensures forall i, j :: 0 <= i < j < |places| ==> places[i] < places[j]
    ensures forall i :: 0 <= i < |places| ==>
              && places[i] < |candidates| && FirstNamed(candidates, places[i])
              && var file := Chosen(selector, candidates).files[i];
              && candidates[places[i]] == Candidate(file.path, file.reason)
  {
    hide Sound;
    places := [];
    if candidates != [] {
      var before, last := candidates[..|candidates| - 1], candidates[|candidates| - 1];
      places := FilesFollowTheCandidates(selector, before);
      forall i | 0 <= i < |places|
        ensures FirstNamed(candidates, places[i])
      {
        assert FirstNamed(before, places[i]);
      }
      ChosenIsSound(selector, before);
      if last.path !in Chosen(selector, before).seen {
        forall j | 0 <= j < |candidates| - 1
          ensures candidates[j].path != last.path
        {
          assert before[j].path in Chosen(selector, before).seen;
        }
        assert FirstNamed(candidates, |candidates| - 1);
        if |Chosen(selector, candidates).files| > |places| {
          places := places + [|candidates| - 1];
        }
      }
    }
  }

  /** Choosing from more candidates keeps what was chosen. */
  lemma {:induction false} ChosenGrows(selector: Selector, candidates: seq<Candidate>, k: nat)
    requires k <= |candidates|
    ensures var (part, whole) := (Chosen(selector, candidates[..k]), Chosen(selector, candidates));
      part.files <= whole.files && part.seen <= whole.seen && (part.truncated ==> whole.truncated)
    decreases |candidates|
  {
    if k == |candidates| {
      assert candidates[..k] == candidates;
    } else {
      var before := candidates[..|candidates| - 1];
      assert before[..k] == candidates[..k];
      ChosenGrows(selector, before, k);
    }
  }

  lemma SelectedIffItFits(selector: Selector, candidates: seq<Candidate>, k: nat)
    requires k < |candidates| && FirstNamed(candidates, k)
    ensures var path := candidates[k].path;
      Has(Chosen(selector, candidates).files, path) <==>
      !selector.exclude(path) && Fits(selector, Chosen(selector, candidates[..k]), path)
  {
    var path := candidates[k].path;
    var (part, next, whole) :=
      (Chosen(selector, candidates[..k]), Chosen(selector, candidates[..k + 1]), Chosen(selector, candidates));
    assert candidates[..k + 1][..k] == candidates[..k];
    ChosenIsSound(selector, candidates[..k]);
    assert path !in part.seen;
    ChosenGrows(selector, candidates, k + 1);
    if !selector.exclude(path) && Fits(selector, part, path) {
      assert next.files[|part.files|].path == path;
      assert whole.files[|part.files|].path == path;
    } else if Has(whole.files, path) {
      var i :| 0 <= i < |whole.files| && whole.files[i].path == path;
      ChosenIsSound(selector, candidates);
      NamedBefore(selector, candidates, k, i);
    }
  }

  /** First fit, exactly: a path is selected if and only if it is not excluded and, when it is first
      named, one more file and its bytes fit beside what was selected before it. */
  lemma SelectedIff(selector: Selector, candidates: seq<Candidate>, k: nat)
    requires k < |candidates| && FirstNamed(candidates, k)
    ensures var (path, before) := (candidates[k].path, Chosen(selector, candidates[..k]));
      Has(Chosen(selector, candidates).files, path) <==>
      && !selector.exclude(path) && |before.files| + 1 <= selector.maxFiles
      && TotalSize(before.files) + selector.size(path) <= selector.maxBytes
  {
    hide Chosen, Has, TotalSize;
    SelectedIffItFits(selector, candidates, k);
    ChosenIsSound(selector, candidates[..k]);
  }

  /** A path that was not selected when first named is not selected later. */
  lemma {:induction false} NamedBefore(selector: Selector, candidates: seq<Candidate>, k: nat, i: nat)
    requires k < |candidates| && i < |Chosen(selector, candidates).files|
    requires Chosen(selector, candidates).files[i].path == candidates[k].path
    ensures i < |Chosen(selector, candidates[..k + 1]).files|
    decreases |candidates|
  {
    if k + 1 == |candidates| {
      assert candidates[..k + 1] == candidates;
    } else {
      var before := candidates[..|candidates| - 1];
      assert before[..k + 1] == candidates[..k + 1];
      ChosenIsSound(selector, before);
      assert before[k].path in Chosen(selector, before).seen;
      NamedBefore(selector, before, k, i);
    }
  }

  // Seeds first

  predicate Distinct(paths: seq<string>) {
    forall i, j :: 0 <= i < j < |paths| ==> paths[i] != paths[j]
  }

  function Tracebacks(seeds: seq<string>): seq<Candidate> {
    seq(|seeds|, i requires 0 <= i < |seeds| => Candidate(seeds[i], Traceback))
  }

  /** The paths that are not excluded, in order. */
  function Allowed(selector: Selector, paths: seq<string>): seq<ContextFile> {
    if paths == [] then []
    else
      var last := paths[|paths| - 1];
      Allowed(selector, paths[..|paths| - 1]) +
      if selector.exclude(last) then [] else [ContextFile(last, Traceback, selector.size(last))]
  }

  lemma {:induction false} SeedsAreChosen(selector: Selector, seeds: seq<string>)
    requires Distinct(seeds)
    requires |Allowed(selector, seeds)| <= selector.maxFiles
    requires TotalSize(Allowed(selector, seeds)) <= selector.maxBytes
    ensures var choice := Chosen(selector, Tracebacks(seeds));
      choice.files == Allowed(selector, seeds) && choice.total == TotalSize(choice.files) && !choice.truncated
  {
    hide Sound, Has;
    if seeds != [] {
      var before, last := seeds[..|seeds| - 1], seeds[|seeds| - 1];
      assert Tracebacks(seeds)[..|seeds| - 1] == Tracebacks(before);
      var allowed := Allowed(selector, before);
      if selector.exclude(last) {
        assert Allowed(selector, seeds) == allowed;
      } else {
        HasOneMore(allowed, ContextFile(last, Traceback, selector.size(last)), last);
      }
      SeedsAreChosen(selector, before);
      ChosenIsSound(selector, Tracebacks(before));
      assert last !in Chosen(selector, Tracebacks(before)).seen;
    }
  }

  /** When the seeds that are not excluded fit the budget, all of them are selected, and they come
      first. */
  lemma SeedsAreSelected(selector: Selector, seeds: seq<string>, others: seq<Candidate>)
    requires Distinct(seeds)
    requires |Allowed(selector, seeds)| <= selector.maxFiles
    requires TotalSize(Allowed(selector, seeds)) <= selector.maxBytes
    ensures Allowed(selector, seeds) <= Chosen(selector, Tracebacks(seeds) + others).files
  {
    var candidates := Tracebacks(seeds) + others;
    assert candidates[..|seeds|] == Tracebacks(seeds);
    SeedsAreChosen(selector, seeds);
    ChosenGrows(selector, candidates, |seeds|);
  }
}
