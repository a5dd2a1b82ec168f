/**
 * The GC-content arithmetic shared by the engines and the validator:
 * percentages are exact rationals, and a content outside the window
 * [minGc, maxGc] is penalised by its distance past the violated bound.
 */
module GcContent {
  import opened Scores

  /** 100 * gc / len, the GC percentage of `len` bases of which `gc` are G or C. */
  function Pct(gc: int, len: int): real
    requires len > 0
  {
    (100 * gc) as real / len as real
  }

  /** max(0, pct - maxGc, minGc - pct): how far pct lies outside [minGc, maxGc]. */
  function Excess(pct: real, minGc: int, maxGc: int): (e: real)
    requires minGc <= maxGc
    ensures e >= 0.0
    ensures e == 0.0 <==> minGc as real <= pct <= maxGc as real
    ensures pct > maxGc as real ==> e == pct - maxGc as real
    ensures pct < minGc as real ==> e == minGc as real - pct
  {
    MaxReal(MaxReal(0.0, pct - maxGc as real), minGc as real - pct)
  }

  /**
   * The motif-level score: max(0, weight * (minGc - minContent),
   * weight * (maxContent - maxGc)), where minContent and maxContent are
   * the lowest and highest GC percentages the finished motif can reach.
   */
  function WindowScore(weight: real, minContent: real, maxContent: real, minGc: int, maxGc: int): (s: real)
    requires weight > 0.0
    ensures s >= 0.0
    ensures s == 0.0 <==> minGc as real <= minContent && maxContent <= maxGc as real
  {
    MaxReal(MaxReal(0.0, weight * (minGc as real - minContent)), weight * (maxContent - maxGc as real))
  }

  /** Pct grows with the GC count. */
  lemma PctMonotone(g1: int, g2: int, n: int)
    requires n > 0 && g1 <= g2
    ensures Pct(g1, n) <= Pct(g2, n)
  {
    var d := (100 * g2) as real - (100 * g1) as real;
    assert d >= 0.0;
    assert Pct(g2, n) - Pct(g1, n) == d / n as real;
  }

  lemma ScaleNonneg(e: real, f: real)
    requires e >= 0.0 && f > 0.0
    ensures e * f >= 0.0
    ensures e * f == 0.0 <==> e == 0.0
  {
  }

  /**
   * The motif score of a part of `span` bases holding `own` G/C bases,
   * when the rest of the motif adds between lo and hi G/C bases.
   */
  function MotifWindowScore(own: int, lo: int, hi: int, span: int, motifSize: int, minGc: int, maxGc: int): (r: real)
    requires span > 0 && motifSize > 0
    ensures r >= 0.0
  {
    WindowScore(span as real / motifSize as real, Pct(own + lo, span), Pct(own + hi, span), minGc, maxGc)
  }

  /** Adding any count of S to own G/C bases out of span keeps the GC% in [minGc, maxGc]. */
  predicate AllInWindow(S: set<int>, own: int, span: int, minGc: int, maxGc: int)
    requires span > 0
  {
    forall x :: x in S ==> minGc as real <= Pct(own + x, span) <= maxGc as real
  }

  /**
   * When lo and hi are the least and greatest members of S, the motif
   * score is zero exactly when the GC% of own + x stays in the window for
   * every x of S.
   */
  lemma WindowOverRange(S: set<int>, lo: int, hi: int, own: int, span: int, motifSize: int, minGc: int, maxGc: int)
    requires lo in S && hi in S && span > 0 && motifSize > 0
    requires forall x :: x in S ==> lo <= x <= hi
    ensures MotifWindowScore(own, lo, hi, span, motifSize, minGc, maxGc) == 0.0 <==> AllInWindow(S, own, span, minGc, maxGc)
  {
    forall x | x in S
      ensures Pct(own + lo, span) <= Pct(own + x, span) <= Pct(own + hi, span)
    {
      PctMonotone(own + lo, own + x, span);
      PctMonotone(own + x, own + hi, span);
    }
  }
}
