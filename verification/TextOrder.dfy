/** Text ordered by code point, and the sorted list of a set of texts. */
module TextOrder {

  predicate TextLeq(a: string, b: string) {
    a == [] || (b != [] && (a[0] < b[0] || (a[0] == b[0] && TextLeq(a[1..], b[1..]))))
  }

  lemma {:induction false} TextLeqTotal(a: string, b: string)
    ensures TextLeq(a, b) || TextLeq(b, a)
  {
    if a != [] && b != [] {
      TextLeqTotal(a[1..], b[1..]);
    }
  }

  lemma {:induction false} TextLeqAntisymmetric(a: string, b: string)
    requires TextLeq(a, b) && TextLeq(b, a)
    ensures a == b
  {
    if a != [] && b != [] {
      TextLeqAntisymmetric(a[1..], b[1..]);
      assert a == [a[0]] + a[1..] && b == [b[0]] + b[1..];
    }
  }

  lemma {:induction false} TextLeqTransitive(a: string, b: string, c: string)
    requires TextLeq(a, b) && TextLeq(b, c)
    ensures TextLeq(a, c)
  {
    if a != [] && b != [] && c != [] && a[0] == b[0] == c[0] {
      TextLeqTransitive(a[1..], b[1..], c[1..]);
    }
  }

  /** At the first place where two texts differ the first has the smaller character, or it ends there. */
  predicate InOrder(a: string, b: string) {
    a <= b || exists k :: 0 <= k < |a| && k < |b| && a[..k] == b[..k] && a[k] < b[k]
  }

  lemma OrderOfTails(a: string, b: string)
    requires a != [] && b != [] && a[0] == b[0]
    ensures InOrder(a, b) <==> InOrder(a[1..], b[1..])
  {
    var (c, d) := (a[1..], b[1..]);
    assert a == [a[0]] + c && b == [b[0]] + d;
    assert a <= b <==> c <= d;
    if k :| 0 <= k < |c| && k < |d| && c[..k] == d[..k] && c[k] < d[k] {
      assert a[..k + 1] == [a[0]] + c[..k] && b[..k + 1] == [b[0]] + d[..k];
      assert a[k + 1] < b[k + 1];
    }
    if k :| 0 <= k < |a| && k < |b| && a[..k] == b[..k] && a[k] < b[k] {
      assert c[..k - 1] == a[..k][1..] && d[..k - 1] == b[..k][1..];
      assert c[k - 1] < d[k - 1];
    }
  }

  lemma OrderOfHeads(a: string, b: string)
    requires a != [] && b != [] && a[0] != b[0]
    ensures InOrder(a, b) <==> a[0] < b[0]
  {
    if a[0] < b[0] {
      assert a[..0] == b[..0];
    }
    if k :| 0 <= k < |a| && k < |b| && a[..k] == b[..k] && a[k] < b[k] {
      assert k > 0 ==> a[..k][0] == b[..k][0];
    }
  }

  lemma {:induction false} TextLeqMeansInOrder(a: string, b: string)
    ensures TextLeq(a, b) <==> InOrder(a, b)
  {
    if a != [] && b != [] {
      if a[0] == b[0] {
        TextLeqMeansInOrder(a[1..], b[1..]);
        OrderOfTails(a, b);
      } else {
        OrderOfHeads(a, b);
      }
    }
  }

  ghost predicate IsLeast(texts: set<string>, text: string) {
    text in texts && forall other :: other in texts ==> TextLeq(text, other)
  }

  lemma LeastOfMore(texts: set<string>, any: string, best: string)
    requires any in texts && IsLeast(texts - {any}, best)
    ensures IsLeast(texts, any) || IsLeast(texts, best)
  {
    hide TextLeq;
    TextLeqTotal(any, best);
    TextLeqTotal(any, any);
    if TextLeq(any, best) {
      forall other | other in texts
        ensures TextLeq(any, other)
      {
        if other != any {
          TextLeqTransitive(any, best, other);
        }
      }
    }
  }

  lemma {:induction false} LeastExists(texts: set<string>)
    requires texts != {}
    ensures exists least :: IsLeast(texts, least)
    decreases |texts|
  {
    hide TextLeq;
    var any :| any in texts;
    var rest := texts - {any};
    if rest == {} {
      TextLeqTotal(any, any);
      assert texts == {any};
      assert IsLeast(texts, any);
    } else {
      LeastExists(rest);
      var best :| IsLeast(rest, best);
      LeastOfMore(texts, any, best);
    }
  }

  ghost function Least(texts: set<string>): (least: string)
    requires texts != {}
    ensures IsLeast(texts, least)
  {
    LeastExists(texts);
    var least :| IsLeast(texts, least);
    least
  }

  lemma LeastIsUnique(texts: set<string>, text: string)
    requires IsLeast(texts, text)
    ensures Least(texts) == text
  {
    TextLeqAntisymmetric(Least(texts), text);
  }

  /** `sorted` of a set. */
  ghost function Sorted(texts: set<string>): seq<string>
    decreases |texts|
  {
    if texts == {} then [] else [Least(texts)] + Sorted(texts - {Least(texts)})
  }

  lemma {:induction false} SortedHoldsTheSet(texts: set<string>)
    ensures forall text :: text in Sorted(texts) <==> text in texts
    ensures |Sorted(texts)| == |texts|
    decreases |texts|
  {
    if texts != {} {
      SortedHoldsTheSet(texts - {Least(texts)});
    }
  }

  lemma {:induction false} SortedAscends(texts: set<string>, i: nat, j: nat)
    requires i < j < |Sorted(texts)|
    ensures TextLeq(Sorted(texts)[i], Sorted(texts)[j]) && Sorted(texts)[i] != Sorted(texts)[j]
    decreases |texts|
  {
    hide TextLeq;
    var rest := texts - {Least(texts)};
    SortedHoldsTheSet(rest);
    if i == 0 {
      assert Sorted(texts)[j] == Sorted(rest)[j - 1] && Sorted(rest)[j - 1] in Sorted(rest);
    } else {
      SortedAscends(rest, i - 1, j - 1);
    }
  }

  /** A sorted list is in order, spelled out. */
  lemma SortedIsInOrder(texts: set<string>, i: nat, j: nat)
    requires i < j < |Sorted(texts)|
    ensures InOrder(Sorted(texts)[i], Sorted(texts)[j]) && Sorted(texts)[i] != Sorted(texts)[j]
  {
    hide TextLeq, InOrder;
    SortedAscends(texts, i, j);
    TextLeqMeansInOrder(Sorted(texts)[i], Sorted(texts)[j]);
  }

  method SortedList(texts: set<string>) returns (sorted: seq<string>)
    ensures sorted == Sorted(texts)
  {
    hide TextLeq;
    sorted := [];
    var rest := texts;
    while rest != {}
      invariant sorted + Sorted(rest) == Sorted(texts)
      decreases |rest|
    {
      ghost var first := Least(rest);
      var least :| least in rest && forall other | other in rest :: TextLeq(least, other);
      LeastIsUnique(rest, least);
      sorted := sorted + [least];
      rest := rest - {least};
    }
  }
}
