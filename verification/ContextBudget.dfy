/** What a larger byte budget does to a selection: first fit can lose files, and exactly when it cannot. */
module ContextBudget {
  import opened Context

  function WithBudget(selector: Selector, budget: int): Selector {
    selector.(maxBytes := budget)
  }

  /** The choice just before candidate k. */
  function Before(selector: Selector, candidates: seq<Candidate>, k: nat): Choice
    requires k <= |candidates|
  {
    Chosen(selector, candidates[..k])
  }

  /** Candidate k is refused because of its bytes: there is a slot left, but not the room. */
  predicate RefusedForBytes(selector: Selector, candidates: seq<Candidate>, k: nat)
    requires k < |candidates|
  {
    && FirstNamed(candidates, k) && !selector.exclude(candidates[k].path)
    && |Before(selector, candidates, k).files| < selector.maxFiles
    && Before(selector, candidates, k).total + selector.size(candidates[k].path) > selector.maxBytes
  }

  /** Candidate k is selected. */
  predicate Picked(selector: Selector, candidates: seq<Candidate>, k: nat)
    requires k < |candidates|
  {
    && FirstNamed(candidates, k) && !selector.exclude(candidates[k].path)
    && Fits(selector, Before(selector, candidates, k), candidates[k].path)
  }

  /** The distinct paths that are not excluded, and their bytes. */
  function Wanted(selector: Selector, candidates: seq<Candidate>): nat {
    if candidates == [] then 0
    else
      var last := |candidates| - 1;
      Wanted(selector, candidates[..last]) +
      if FirstNamed(candidates, last) && !selector.exclude(candidates[last].path) then 1 else 0
  }

  function WantedBytes(selector: Selector, candidates: seq<Candidate>): nat {
    if candidates == [] then 0
    else
      var last := |candidates| - 1;
      WantedBytes(selector, candidates[..last]) +
      if FirstNamed(candidates, last) && !selector.exclude(candidates[last].path)
      then selector.size(candidates[last].path) else 0
  }

  /** Every file selected within the selector's budget is selected within the other budget, too. */
  ghost predicate Keeps(selector: Selector, budget: int, candidates: seq<Candidate>) {
    forall path :: Has(Chosen(selector, candidates).files, path) ==>
                     Has(Chosen(WithBudget(selector, budget), candidates).files, path)
  }

  /** Whatever is selected after a candidate was refused for its bytes is empty, and there would have been
      a slot for it even if nothing had been refused before it. */
  ghost predicate NothingToLose(selector: Selector, candidates: seq<Candidate>) {
    forall k, j :: 0 <= k < j < |candidates|
                   && RefusedForBytes(selector, candidates, k) && Picked(selector, candidates, j) ==>
      selector.size(candidates[j].path) == 0 && Wanted(selector, candidates[..j]) < selector.maxFiles
  }

  lemma SeenMeansNamed(selector: Selector, candidates: seq<Candidate>, k: nat)
    requires k < |candidates|
    ensures FirstNamed(candidates, k) <==> candidates[k].path !in Before(selector, candidates, k).seen
  {
    hide Sound;
    ChosenIsSound(selector, candidates[..k]);
    if j :| 0 <= j < k && candidates[j].path == candidates[k].path {
      assert candidates[..k][j].path == candidates[k].path;
    }
  }

  /** One more candidate. */
  lemma BeforeNext(selector: Selector, candidates: seq<Candidate>, k: nat)
    requires k < |candidates|
    ensures Before(selector, candidates, k + 1) == Consider(selector, Before(selector, candidates, k), candidates[k])
  {
    assert candidates[..k + 1][..k] == candidates[..k];
  }

  // Where nothing was refused for bytes

  /** Without a refusal for bytes, a larger budget changes nothing. */
  lemma {:induction false} SameChoice(selector: Selector, budget: int, candidates: seq<Candidate>, n: nat)
    requires selector.maxBytes <= budget && n <= |candidates|
    requires forall k :: 0 <= k < n ==> !RefusedForBytes(selector, candidates, k)
    ensures Before(WithBudget(selector, budget), candidates, n) == Before(selector, candidates, n)
  {
    if n > 0 {
      SameChoice(selector, budget, candidates, n - 1);
      BeforeNext(selector, candidates, n - 1);
      BeforeNext(WithBudget(selector, budget), candidates, n - 1);
      SeenMeansNamed(selector, candidates, n - 1);
      assert !RefusedForBytes(selector, candidates, n - 1);
    }
  }

  lemma {:induction false} RefusalsShow(selector: Selector, candidates: seq<Candidate>, k: nat)
    requires k < |candidates| && RefusedForBytes(selector, candidates, k)
    ensures Chosen(selector, candidates).truncated
  {
    SeenMeansNamed(selector, candidates, k);
    BeforeNext(selector, candidates, k);
    ChosenGrows(selector, candidates, k + 1);
  }

  /** A selection that is not truncated is the selection within every larger budget. */
  lemma CompleteSelectionsStay(selector: Selector, budget: int, candidates: seq<Candidate>)
    requires selector.maxBytes <= budget && !Chosen(selector, candidates).truncated
    ensures Chosen(WithBudget(selector, budget), candidates) == Chosen(selector, candidates)
  {
    forall k | 0 <= k < |candidates|
      ensures !RefusedForBytes(selector, candidates, k)
    {
      if RefusedForBytes(selector, candidates, k) {
        RefusalsShow(selector, candidates, k);
      }
    }
    SameChoice(selector, budget, candidates, |candidates|);
    assert candidates[..|candidates|] == candidates;
  }

  // Counting

  lemma {:induction false} ChosenAmongWanted(selector: Selector, candidates: seq<Candidate>)
    ensures |Chosen(selector, candidates).files| <= Wanted(selector, candidates)
  {
    if candidates != [] {
      var last := |candidates| - 1;
      ChosenAmongWanted(selector, candidates[..last]);
      SeenMeansNamed(selector, candidates, last);
    }
  }

  /** Within a budget for everything, the slots are filled in order. */
  lemma {:induction false} RichSelection(selector: Selector, candidates: seq<Candidate>)
    requires WantedBytes(selector, candidates) <= selector.maxBytes
    ensures var choice := Chosen(selector, candidates);
      && choice.total <= WantedBytes(selector, candidates)
      && (|choice.files| == Wanted(selector, candidates) || |choice.files| >= selector.maxFiles)
  {
    if candidates != [] {
      var last := |candidates| - 1;
      RichSelection(selector, candidates[..last]);
      SeenMeansNamed(selector, candidates, last);
    }
  }

  // The exact condition

  /** A file that is selected is selected where its path is first named. */
  lemma SelectedWhereNamed(selector: Selector, candidates: seq<Candidate>, path: string) returns (j: nat)
    requires Has(Chosen(selector, candidates).files, path)
    ensures j < |candidates| && candidates[j].path == path && Picked(selector, candidates, j)
  {
    var places := FilesFollowTheCandidates(selector, candidates);
    var i :| 0 <= i < |Chosen(selector, candidates).files| && Chosen(selector, candidates).files[i].path == path;
    j := places[i];
    SelectedIffItFits(selector, candidates, j);
  }

  lemma NothingToLoseKeeps(selector: Selector, budget: int, candidates: seq<Candidate>)
    requires selector.maxBytes <= budget && NothingToLose(selector, candidates)
    ensures Keeps(selector, budget, candidates)
  {
    var larger := WithBudget(selector, budget);
    forall path | Has(Chosen(selector, candidates).files, path)
      ensures Has(Chosen(larger, candidates).files, path)
    {
      var j := SelectedWhereNamed(selector, candidates, path);
      if k :| 0 <= k < j && RefusedForBytes(selector, candidates, k) {
        EmptyFilesFit(selector, budget, candidates, j);
      } else {
        SameChoice(selector, budget, candidates, j);
      }
      SelectedIffItFits(larger, candidates, j);
    }
  }

  lemma EmptyFilesFit(selector: Selector, budget: int, candidates: seq<Candidate>, j: nat)
    requires selector.maxBytes <= budget && j < |candidates| && Picked(selector, candidates, j)
    requires selector.size(candidates[j].path) == 0 && Wanted(selector, candidates[..j]) < selector.maxFiles
    ensures Picked(WithBudget(selector, budget), candidates, j)
  {
    var larger := WithBudget(selector, budget);
    ChosenAmongWanted(larger, candidates[..j]);
    SameWanted(selector, budget, candidates[..j]);
    ChosenIsSound(larger, candidates[..j]);
  }

  lemma {:induction false} SameWanted(selector: Selector, budget: int, candidates: seq<Candidate>)
    ensures Wanted(WithBudget(selector, budget), candidates) == Wanted(selector, candidates)
    ensures WantedBytes(WithBudget(selector, budget), candidates) == WantedBytes(selector, candidates)
  {
    if candidates != [] {
      SameWanted(selector, budget, candidates[..|candidates| - 1]);
    }
  }

  /** The first candidate refused for its bytes. */
  lemma FirstRefusal(selector: Selector, candidates: seq<Candidate>, j: nat) returns (k: nat)
    requires j <= |candidates| && exists i :: 0 <= i < j && RefusedForBytes(selector, candidates, i)
    ensures k < j && RefusedForBytes(selector, candidates, k)
    ensures forall i :: 0 <= i < k ==> !RefusedForBytes(selector, candidates, i)
  {
    k := 0;
    while !RefusedForBytes(selector, candidates, k)
      invariant k < j
      invariant forall i :: 0 <= i < k ==> !RefusedForBytes(selector, candidates, i)
      decreases j - k
    {
      k := k + 1;
    }
  }

  /** A budget that just takes the first candidate refused leaves no byte for later ones. */
  lemma TightBudgetLoses(selector: Selector, candidates: seq<Candidate>, k: nat, j: nat) returns (budget: int)
    requires k < j < |candidates| && RefusedForBytes(selector, candidates, k) && Picked(selector, candidates, j)
    requires forall i :: 0 <= i < k ==> !RefusedForBytes(selector, candidates, i)
    requires selector.size(candidates[j].path) > 0
    ensures selector.maxBytes <= budget && !Keeps(selector, budget, candidates)
  {
    budget := Before(selector, candidates, k).total + selector.size(candidates[k].path);
    var larger := WithBudget(selector, budget);
    SameChoice(selector, budget, candidates, k);
    SeenMeansNamed(larger, candidates, k);
    BeforeNext(larger, candidates, k);
    assert Before(larger, candidates, k + 1).total == budget;
    TotalsGrow(larger, candidates, k + 1, j);
    LosesOne(selector, budget, candidates, j);
  }

  lemma LosesOne(selector: Selector, budget: int, candidates: seq<Candidate>, j: nat)
    requires j < |candidates| && Picked(selector, candidates, j)
    requires var larger := WithBudget(selector, budget);
      !Fits(larger, Before(larger, candidates, j), candidates[j].path)
    ensures !Keeps(selector, budget, candidates)
  {
    SelectedIffItFits(selector, candidates, j);
    SelectedIffItFits(WithBudget(selector, budget), candidates, j);
  }

  lemma {:induction false} TotalsGrow(selector: Selector, candidates: seq<Candidate>, i: nat, j: nat)
    requires i <= j <= |candidates|
    ensures Before(selector, candidates, i).total <= Before(selector, candidates, j).total
  {
    if i < j {
      TotalsGrow(selector, candidates, i, j - 1);
      BeforeNext(selector, candidates, j - 1);
    }
  }

  /** A budget for everything fills the slots before a late file. */
  lemma LooseBudgetLoses(selector: Selector, candidates: seq<Candidate>, j: nat) returns (budget: int)
    requires j < |candidates| && Picked(selector, candidates, j)
    requires Wanted(selector, candidates[..j]) >= selector.maxFiles
    ensures selector.maxBytes <= budget && !Keeps(selector, budget, candidates)
  {
    var bytes := WantedBytes(selector, candidates[..j]);
    budget := if bytes <= selector.maxBytes then selector.maxBytes else bytes;
    SameWanted(selector, budget, candidates[..j]);
    RichSelection(WithBudget(selector, budget), candidates[..j]);
    LosesOne(selector, budget, candidates, j);
  }

  /** No larger budget loses a file if and only if nothing is to lose: whatever is selected after a refusal
      for bytes is an empty file with a slot of its own. */
  lemma LargerBudgetsKeepIff(selector: Selector, candidates: seq<Candidate>)
    ensures (forall budget :: selector.maxBytes <= budget ==> Keeps(selector, budget, candidates)) <==>
            NothingToLose(selector, candidates)
  {
    hide Keeps, Picked, RefusedForBytes;
    if NothingToLose(selector, candidates) {
      forall budget | selector.maxBytes <= budget
        ensures Keeps(selector, budget, candidates)
      {
        NothingToLoseKeeps(selector, budget, candidates);
      }
    } else {
      var i, j :| 0 <= i < j < |candidates|
                  && RefusedForBytes(selector, candidates, i) && Picked(selector, candidates, j)
                  && !(selector.size(candidates[j].path) == 0 && Wanted(selector, candidates[..j]) < selector.maxFiles);
      var budget;
      if selector.size(candidates[j].path) > 0 {
        var k := FirstRefusal(selector, candidates, j);
        budget := TightBudgetLoses(selector, candidates, k, j);
      } else {
        budget := LooseBudgetLoses(selector, candidates, j);
      }
      assert !Keeps(selector, budget, candidates);
    }
  }

  /** First fit is not monotone: a larger byte budget can lose files. */
  lemma LargerBudgetCanLoseFiles() returns (selector: Selector, candidates: seq<Candidate>)
    ensures var small := Chosen(selector, candidates);
      var large := Chosen(WithBudget(selector, selector.maxBytes + 1), candidates);
      |large.files| < |small.files|
  {
    selector := Selector(24, 2, path => false, path => if path == "a" then 3 else 1);
    var a, b, c := Candidate("a", Traceback), Candidate("b", Traceback), Candidate("c", Traceback);
    candidates := [a, b, c];
    var larger := WithBudget(selector, 3);
    assert [a, b, c][..2] == [a, b] && [a, b][..1] == [a] && [a][..0] == [];
    assert Chosen(selector, [a]) == Choice([], {"a"}, 0, true);
    assert Chosen(selector, [a, b]) == Choice([ContextFile("b", Traceback, 1)], {"a", "b"}, 1, true);
    assert Chosen(larger, [a]) == Choice([ContextFile("a", Traceback, 3)], {"a"}, 3, false);
    assert Chosen(larger, [a, b]) == Choice([ContextFile("a", Traceback, 3)], {"a", "b"}, 3, true);
  }
}
