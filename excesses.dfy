/**
 * The lists the validator accumulates and adds up: the amounts by which
 * homopolymer runs exceed the bound, and the totals of every pair of
 * runs that meet across an element.
 */
module Excesses {
  import opened Nucleotides
  import opened Scores

  /** [x - bound for x in xs if x - bound > 0], in order. */
  function Over(xs: seq<int>, bound: int): (r: seq<int>)
    ensures |r| <= |xs|
    ensures forall y :: y in r ==> y > 0
  {
    if xs == [] then []
    else Over(xs[..|xs| - 1], bound) + (if xs[|xs| - 1] - bound > 0 then [xs[|xs| - 1] - bound] else [])
  }

  lemma {:induction false} OverAppend(xs: seq<int>, ys: seq<int>, bound: int)
    ensures Over(xs + ys, bound) == Over(xs, bound) + Over(ys, bound)
    decreases |ys|
  {
    if ys == [] {
      assert xs + ys == xs;
    } else {
      var ys' := ys[..|ys| - 1];
      assert (xs + ys)[..|xs + ys| - 1] == xs + ys';
      OverAppend(xs, ys', bound);
    }
  }

  /** Nothing is kept exactly when no entry exceeds the bound. */
  lemma {:induction false} OverEmpty(xs: seq<int>, bound: int)
    ensures Over(xs, bound) == [] <==> forall i :: 0 <= i < |xs| ==> xs[i] <= bound
    decreases |xs|
  {
    if xs != [] {
      var xs' := xs[..|xs| - 1];
      OverEmpty(xs', bound);
      assert forall i :: 0 <= i < |xs'| ==> xs'[i] == xs[i];
    }
  }

  /** Every entry above the bound leaves its excess in the list. */
  lemma {:induction false} OverHas(xs: seq<int>, bound: int, i: int)
    requires 0 <= i < |xs| && xs[i] > bound
    ensures xs[i] - bound in Over(xs, bound)
    decreases |xs|
  {
    if i < |xs| - 1 {
      OverHas(xs[..|xs| - 1], bound, i);
    }
  }

  /** Every kept amount is the excess of some entry. */
  lemma {:induction false} OverFrom(xs: seq<int>, bound: int, y: int)
    requires y in Over(xs, bound)
    ensures exists i :: 0 <= i < |xs| && xs[i] > bound && y == xs[i] - bound
    decreases |xs|
  {
    var xs' := xs[..|xs| - 1];
    if y in Over(xs', bound) {
      OverFrom(xs', bound, y);
      var i :| 0 <= i < |xs'| && xs'[i] > bound && y == xs'[i] - bound;
      assert xs[i] == xs'[i];
    } else {
      assert xs[|xs| - 1] > bound && y == xs[|xs| - 1] - bound;
    }
  }

  /** The runs of a run list that touch neither end. */
  function Interior(runs: seq<nat>): (r: seq<int>)
    ensures |runs| >= 2 ==> r == runs[1..|runs| - 1]
    ensures |runs| <= 2 ==> r == []
  {
    if |runs| <= 1 then [] else runs[1..|runs| - 1]
  }

  /** [d + x for x in xs]. */
  function Shift(xs: seq<nat>, d: int): (r: seq<int>)
    ensures |r| == |xs|
    ensures forall i :: 0 <= i < |xs| ==> r[i] == d + xs[i]
  {
    seq(|xs|, i requires 0 <= i < |xs| => d + xs[i])
  }

  /** [d + x + y for x in xs for y in ys], with x in the outer loop. */
  function PairTotals(xs: seq<nat>, ys: seq<nat>, d: int): seq<int>
  {
    if xs == [] then [] else PairTotals(xs[..|xs| - 1], ys, d) + Shift(ys, d + xs[|xs| - 1])
  }

  /** One total per pair. */
  lemma {:induction false} PairTotalsSize(xs: seq<nat>, ys: seq<nat>, d: int)
    ensures |PairTotals(xs, ys, d)| == |xs| * |ys|
    decreases |xs|
  {
    if xs != [] {
      PairTotalsSize(xs[..|xs| - 1], ys, d);
      assert (|xs| - 1) * |ys| + |ys| == |xs| * |ys|;
    }
  }

  /** Every pair contributes its total. */
  lemma {:induction false} PairTotalsHas(xs: seq<nat>, ys: seq<nat>, d: int, i: int, j: int)
    requires 0 <= i < |xs| && 0 <= j < |ys|
    ensures d + xs[i] + ys[j] in PairTotals(xs, ys, d)
    decreases |xs|
  {
    if i < |xs| - 1 {
      PairTotalsHas(xs[..|xs| - 1], ys, d, i, j);
    } else {
      assert Shift(ys, d + xs[i])[j] == d + xs[i] + ys[j];
    }
  }

  /** Every total comes from a pair. */
  lemma {:induction false} PairTotalsFrom(xs: seq<nat>, ys: seq<nat>, d: int, t: int)
    requires t in PairTotals(xs, ys, d)
    ensures exists i, j :: 0 <= i < |xs| && 0 <= j < |ys| && t == d + xs[i] + ys[j]
    decreases |xs|
  {
    var xs' := xs[..|xs| - 1];
    if t in PairTotals(xs', ys, d) {
      PairTotalsFrom(xs', ys, d, t);
      var i, j :| 0 <= i < |xs'| && 0 <= j < |ys| && t == d + xs'[i] + ys[j];
      assert xs[i] == xs'[i];
    } else {
      var j :| 0 <= j < |ys| && Shift(ys, d + xs[|xs| - 1])[j] == t;
    }
  }

  lemma {:induction false} SumIntsAppend(xs: seq<int>, ys: seq<int>)
    ensures SumInts(xs + ys) == SumInts(xs) + SumInts(ys)
    decreases |ys|
  {
    if ys == [] {
      assert xs + ys == xs;
    } else {
      var ys' := ys[..|ys| - 1];
      assert (xs + ys)[..|xs + ys| - 1] == xs + ys';
      SumIntsAppend(xs, ys');
    }
  }

  lemma {:induction false} SumRealsAppend(xs: seq<real>, ys: seq<real>)
    ensures SumReals(xs + ys) == SumReals(xs) + SumReals(ys)
    decreases |ys|
  {
    if ys == [] {
      assert xs + ys == xs;
    } else {
      var ys' := ys[..|ys| - 1];
      assert (xs + ys)[..|xs + ys| - 1] == xs + ys';
      SumRealsAppend(xs, ys');
    }
  }

  /** A sum of positive amounts is non-negative, and zero only when there is nothing to add. */
  lemma {:induction false} SumPositiveInts(xs: seq<int>)
    requires forall y :: y in xs ==> y > 0
    ensures SumInts(xs) >= 0
    ensures SumInts(xs) == 0 <==> xs == []
    decreases |xs|
  {
    if xs != [] {
      var xs' := xs[..|xs| - 1];
      forall y | y in xs' ensures y > 0 {
        var i :| 0 <= i < |xs'| && xs'[i] == y;
        assert xs[i] == y && xs[i] in xs;
      }
      SumPositiveInts(xs');
      assert xs[|xs| - 1] in xs;
    }
  }

  lemma {:induction false} SumPositiveReals(xs: seq<real>)
    requires forall y :: y in xs ==> y > 0.0
    ensures SumReals(xs) >= 0.0
    ensures SumReals(xs) == 0.0 <==> xs == []
    decreases |xs|
  {
    if xs != [] {
      var xs' := xs[..|xs| - 1];
      forall y | y in xs' ensures y > 0.0 {
        var i :| 0 <= i < |xs'| && xs'[i] == y;
        assert xs[i] == y && xs[i] in xs;
      }
      SumPositiveReals(xs');
      assert xs[|xs| - 1] in xs;
    }
  }

  /** A concatenation is empty exactly when both parts are. */
  lemma EmptyConcat<T>(a: seq<T>, b: seq<T>)
    ensures a + b == [] <==> a == [] && b == []
  {
    if a + b == [] {
      assert |a + b| == |a| + |b|;
    }
  }

  /** Sequence concatenation regroups. */
  lemma Regroup<T>(a: seq<T>, b: seq<T>, c: seq<T>)
    ensures a + b + c == a + (b + c)
  {
  }
}
