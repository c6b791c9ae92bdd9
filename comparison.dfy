/**
 * The product comparison (calculators/comparison.py): the results are kept
 * sorted by their value after tax, highest first, with ties in their input
 * order; the first one is recommended and every other one is reported by
 * how far it falls short of it.
 */
module Comparison {
  import opened Kernel

  /** Highest value after tax first. */
  ghost predicate SortedByValue(results: seq<InvestmentResult>)
  {
    forall i, j :: 0 <= i < j < |results| ==> results[i].totalValue >= results[j].totalValue
  }

  /** The results whose value after tax is exactly `v`, in their order. */
  function WithValue(results: seq<InvestmentResult>, v: real): (matching: seq<InvestmentResult>)
    ensures |matching| <= |results|
    decreases |results|
  {
    if |results| == 0 then []
    else (if results[0].totalValue == v then [results[0]] else []) + WithValue(results[1..], v)
  }

  /**
   * Places `r` into a list sorted highest first, behind every result worth at
   * least as much, so that a tie keeps the earlier result in front.
   */
  function Insert(sorted: seq<InvestmentResult>, r: InvestmentResult): seq<InvestmentResult>
    decreases |sorted|
  {
    if |sorted| == 0 then [r]
    else if sorted[0].totalValue >= r.totalValue then [sorted[0]] + Insert(sorted[1..], r)
    else [r] + sorted
  }

  /** Python's stable `sorted(results, key=total_value, reverse=True)`. */
  function SortByValue(results: seq<InvestmentResult>): seq<InvestmentResult>
    decreases |results|
  {
    if |results| == 0 then []
    else Insert(SortByValue(results[..|results| - 1]), results[|results| - 1])
  }

  lemma {:induction false} WithValueAppend(a: seq<InvestmentResult>, b: seq<InvestmentResult>, v: real)
    ensures WithValue(a + b, v) == WithValue(a, v) + WithValue(b, v)
    decreases |a|
  {
    if |a| > 0 {
      WithValueAppend(a[1..], b, v);
      assert (a + b)[0] == a[0];
      assert (a + b)[1..] == a[1..] + b;
    } else {
      assert a + b == b;
    }
  }

  /** No result is worth `v` when all are worth less. */
  lemma {:induction false} WithValueNone(results: seq<InvestmentResult>, v: real)
    requires AtMost(results, v) && forall i :: 0 <= i < |results| ==> results[i].totalValue != v
    ensures WithValue(results, v) == []
    decreases |results|
  {
    if |results| > 0 {
      WithValueNone(results[1..], v);
    }
  }

  /** No result is worth more than `bound`. */
  ghost predicate AtMost(results: seq<InvestmentResult>, bound: real)
  {
    forall i :: 0 <= i < |results| ==> results[i].totalValue <= bound
  }

  /** A list is sorted when its head bounds the tail and the tail is sorted. */
  lemma SortedCons(x: InvestmentResult, tail: seq<InvestmentResult>)
    requires AtMost(tail, x.totalValue) && SortedByValue(tail)
    ensures SortedByValue([x] + tail)
  {
    var s := [x] + tail;
    forall i, j | 0 <= i < j < |s|
      ensures s[i].totalValue >= s[j].totalValue
    {
      assert s[j] == tail[j - 1];
      if i > 0 {
        assert s[i] == tail[i - 1];
      }
    }
  }

  /** Inserting never lifts a bound that the list and the new result both respect. */
  lemma {:induction false} InsertAtMost(sorted: seq<InvestmentResult>, r: InvestmentResult, bound: real)
    requires AtMost(sorted, bound) && r.totalValue <= bound
    ensures AtMost(Insert(sorted, r), bound)
    decreases |sorted|
  {
    if |sorted| > 0 && sorted[0].totalValue >= r.totalValue {
      InsertAtMost(sorted[1..], r, bound);
      var out := Insert(sorted, r);
      assert out == [sorted[0]] + Insert(sorted[1..], r);
      forall i | 0 <= i < |out|
        ensures out[i].totalValue <= bound
      {
        if i > 0 {
          assert out[i] == Insert(sorted[1..], r)[i - 1];
        }
      }
    } else if |sorted| > 0 {
      assert Insert(sorted, r) == [r] + sorted;
      assert forall i :: 0 < i < |sorted| + 1 ==> ([r] + sorted)[i] == sorted[i - 1];
    }
  }

  /** Inserting into a list sorted highest first keeps it sorted. */
  lemma {:induction false} InsertKeepsOrder(sorted: seq<InvestmentResult>, r: InvestmentResult)
    requires SortedByValue(sorted)
    ensures SortedByValue(Insert(sorted, r))
    decreases |sorted|
  {
    if |sorted| == 0 {
    } else if sorted[0].totalValue >= r.totalValue {
      var rest := sorted[1..];
      SortedTail(sorted);
      InsertKeepsOrder(rest, r);
      assert AtMost(rest, sorted[0].totalValue);
      InsertAtMost(rest, r, sorted[0].totalValue);
      SortedCons(sorted[0], Insert(rest, r));
    } else {
      assert AtMost(sorted, r.totalValue);
      SortedCons(r, sorted);
    }
  }

  /** Inserting adds exactly the new result. */
  lemma {:induction false} InsertAddsOne(sorted: seq<InvestmentResult>, r: InvestmentResult)
    ensures multiset(Insert(sorted, r)) == multiset(sorted) + multiset{r}
    ensures |Insert(sorted, r)| == |sorted| + 1
    decreases |sorted|
  {
    if |sorted| > 0 && sorted[0].totalValue >= r.totalValue {
      InsertAddsOne(sorted[1..], r);
      assert sorted == [sorted[0]] + sorted[1..];
    }
  }

  /** The tail of a sorted list is sorted. */
  lemma SortedTail(sorted: seq<InvestmentResult>)
    requires |sorted| > 0 && SortedByValue(sorted)
    ensures SortedByValue(sorted[1..]) && AtMost(sorted, sorted[0].totalValue)
  {
    var rest := sorted[1..];
    forall i, j | 0 <= i < j < |rest|
      ensures rest[i].totalValue >= rest[j].totalValue
    {
      assert rest[i] == sorted[i + 1] && rest[j] == sorted[j + 1];
    }
  }

  /** A result worth more than the head goes in front, and nothing else has its value. */
  lemma InsertInFront(sorted: seq<InvestmentResult>, r: InvestmentResult, v: real)
    requires |sorted| > 0 && SortedByValue(sorted) && sorted[0].totalValue < r.totalValue
    ensures WithValue(Insert(sorted, r), v) == WithValue(sorted, v) + (if r.totalValue == v then [r] else [])
  {
    assert Insert(sorted, r) == [r] + sorted;
    WithValueAppend([r], sorted, v);
    if r.totalValue == v {
      SortedTail(sorted);
      WithValueNone(sorted, v);
    }
  }

  /** One step of the insertion behind the head: the head's contribution is unchanged. */
  lemma InsertBehindHead(sorted: seq<InvestmentResult>, r: InvestmentResult, v: real)
    requires |sorted| > 0 && sorted[0].totalValue >= r.totalValue
    requires WithValue(Insert(sorted[1..], r), v) == WithValue(sorted[1..], v) + (if r.totalValue == v then [r] else [])
    ensures WithValue(Insert(sorted, r), v) == WithValue(sorted, v) + (if r.totalValue == v then [r] else [])
  {
    var head := if sorted[0].totalValue == v then [sorted[0]] else [];
    var out := Insert(sorted, r);
    assert out[0] == sorted[0] && out[1..] == Insert(sorted[1..], r);
    assert WithValue(out, v) == head + WithValue(Insert(sorted[1..], r), v);
    assert WithValue(sorted, v) == head + WithValue(sorted[1..], v);
  }

  /** Inserting `r` behind everything worth at least as much appends it to the results of its own value. */
  lemma {:induction false} InsertIsStable(sorted: seq<InvestmentResult>, r: InvestmentResult, v: real)
    requires SortedByValue(sorted)
    ensures WithValue(Insert(sorted, r), v) == WithValue(sorted, v) + (if r.totalValue == v then [r] else [])
    decreases |sorted|
  {
    if |sorted| == 0 {
    } else if sorted[0].totalValue >= r.totalValue {
      SortedTail(sorted);
      InsertIsStable(sorted[1..], r, v);
      InsertBehindHead(sorted, r, v);
    } else {
      InsertInFront(sorted, r, v);
    }
  }

  /** The comparison's order: highest value first, with as many results as went in. */
  lemma {:induction false} SortIsSorted(results: seq<InvestmentResult>)
    ensures SortedByValue(SortByValue(results))
    decreases |results|
  {
    if |results| > 0 {
      SortIsSorted(results[..|results| - 1]);
      InsertKeepsOrder(SortByValue(results[..|results| - 1]), results[|results| - 1]);
    }
  }

  /** Sorting only reorders: the ranked results are a permutation of the input. */
  lemma {:induction false} SortIsPermutation(results: seq<InvestmentResult>)
    ensures multiset(SortByValue(results)) == multiset(results)
    ensures |SortByValue(results)| == |results|
    decreases |results|
  {
    if |results| > 0 {
      var front := results[..|results| - 1];
      SortIsPermutation(front);
      InsertAddsOne(SortByValue(front), results[|results| - 1]);
      assert results == front + [results[|results| - 1]];
    }
  }

  /** Results of equal value keep their input order. */
  lemma {:induction false} SortIsStable(results: seq<InvestmentResult>, v: real)
    ensures WithValue(SortByValue(results), v) == WithValue(results, v)
    decreases |results|
  {
    if |results| > 0 {
      var front := results[..|results| - 1];
      var last := results[|results| - 1];
      SortIsStable(front, v);
      SortIsSorted(front);
      InsertIsStable(SortByValue(front), last, v);
      assert SortByValue(results) == Insert(SortByValue(front), last);
      assert results == front + [last];
      WithValueAppend(front, [last], v);
      assert WithValue([last], v) == (if last.totalValue == v then [last] else []);
    }
  }

  /** A comparison holds its results in ranked order. */
  datatype Comparison = Comparison(results: seq<InvestmentResult>)

  /** `Comparison.__init__`: keeps the results sorted by value after tax, highest first. */
  function NewComparison(results: seq<InvestmentResult>): (c: Comparison)
    ensures SortedByValue(c.results)
    ensures multiset(c.results) == multiset(results) && |c.results| == |results|
    ensures forall v :: WithValue(c.results, v) == WithValue(results, v)
  {
    SortIsSorted(results);
    SortIsPermutation(results);
    assert forall v :: WithValue(SortByValue(results), v) == WithValue(results, v) by {
      forall v
        ensures WithValue(SortByValue(results), v) == WithValue(results, v)
      {
        SortIsStable(results, v);
      }
    }
    Comparison(SortByValue(results))
  }

  /**
   * The product `get_recommendation` names: the first of the ranked results.
   * It is one of the inputs, no input is worth more, and among the inputs of
   * its value it is the first.
   */
  function Recommended(results: seq<InvestmentResult>): (best: InvestmentResult)
    requires |results| > 0
    ensures best in results
    ensures forall i :: 0 <= i < |results| ==> results[i].totalValue <= best.totalValue
    ensures |WithValue(results, best.totalValue)| > 0 && WithValue(results, best.totalValue)[0] == best
  {
    var c := NewComparison(results);
    assert c.results[0] in multiset(results);
    assert forall i :: 0 <= i < |results| ==> results[i].totalValue <= c.results[0].totalValue by {
      forall i | 0 <= i < |results|
        ensures results[i].totalValue <= c.results[0].totalValue
      {
        assert results[i] in multiset(c.results);
        var k :| 0 <= k < |c.results| && c.results[k] == results[i];
      }
    }
    assert WithValue(c.results, c.results[0].totalValue)[0] == c.results[0];
    c.results[0]
  }

  /**
   * The shortfalls `print_summary` reports: the best value less each later
   * result's value, in ranked order, never negative.
   */
  function Shortfalls(c: Comparison): (d: seq<real>)
    requires |c.results| > 0
    ensures |d| == |c.results| - 1
    ensures forall i :: 0 <= i < |d| ==> d[i] + c.results[i + 1].totalValue == c.results[0].totalValue
    ensures SortedByValue(c.results) ==> forall i :: 0 <= i < |d| ==> d[i] >= 0.0
  {
    seq(|c.results| - 1, i requires 0 <= i < |c.results| - 1 => c.results[0].totalValue - c.results[i + 1].totalValue)
  }

  /** The shortfalls of a built comparison grow down the ranking. */
  lemma ShortfallsGrow(results: seq<InvestmentResult>)
    requires |results| > 0
    ensures var d := Shortfalls(NewComparison(results));
      forall i, j :: 0 <= i < j < |d| ==> d[i] <= d[j]
  {
  }
}
