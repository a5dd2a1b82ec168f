/**
 * Penalty values. The repository evaluates its exponential penalties
 * (hyperparameter ** (count / bound)) in floating point; here each such
 * term is kept symbolic so that no floating-point arithmetic is modelled.
 */
module Scores {
  /** coeff * base ^ (num / den), unevaluated. */
  datatype Power = Power(coeff: real, base: real, num: int, den: int)

  /**
   * The Python exceptions that stop the scoring of a candidate or a
   * build: IndexError from a hairpin search, ZeroDivisionError from a term
   * h ** (k / 0), KeyError for an active tag with no weight, and
   * ValueError when numpy cannot combine the lists of penalties.
   */
  datatype BuildError = IndexError | ZeroDivisionError | KeyError(tag: string) | ValueError

  /** exact + the sum of the terms in `powers`. */
  datatype Penalty = Penalty(exact: real, powers: seq<Power>)
  {
    function Plus(other: Penalty): (p: Penalty)
      ensures p.exact == exact + other.exact
      ensures p.powers == powers + other.powers
    {
      Penalty(exact + other.exact, powers + other.powers)
    }
  }

  const Zero: Penalty := Penalty(0.0, [])

  function Exact(x: real): Penalty { Penalty(x, []) }

  /**
   * Python computes each term h ** (num / den) with a true division,
   * which raises ZeroDivisionError when den is 0: a penalty can be
   * evaluated exactly when none of its terms divides by zero.
   */
  predicate Evaluable(p: Penalty)
  {
    forall i :: 0 <= i < |p.powers| ==> p.powers[i].den != 0
  }

  /** The single term base ^ (num / den), which can be evaluated exactly when den is not 0. */
  function Single(base: real, num: int, den: int): (p: Penalty)
    ensures Evaluable(p) <==> den != 0
  {
    var p := Penalty(0.0, [Power(1.0, base, num, den)]);
    assert p.powers[0].den == den;
    p
  }

  /** The terms base ^ (k / den), one per k of `nums`, in order. */
  function PowersOf(base: real, nums: seq<int>, den: int): (ps: seq<Power>)
    ensures |ps| == |nums|
    ensures forall i :: 0 <= i < |nums| ==> ps[i] == Power(1.0, base, nums[i], den)
  {
    seq(|nums|, i requires 0 <= i < |nums| => Power(1.0, base, nums[i], den))
  }

  function SumReals(xs: seq<real>): real
  {
    if xs == [] then 0.0 else SumReals(xs[..|xs| - 1]) + xs[|xs| - 1]
  }

  function SumInts(xs: seq<int>): int
  {
    if xs == [] then 0 else SumInts(xs[..|xs| - 1]) + xs[|xs| - 1]
  }

  function MaxReal(x: real, y: real): real { if x >= y then x else y }
}
