/**
 * The hairpin counters of basePenalties.py: for every start position of
 * the first stem near the end of the current element and every loop size
 * of the configuration, run the hairpin search forward (second stem after
 * the loop) or backward (second stem before it), and total the recorded
 * hairpins either as a count or as a sum of h ^ (length / maxHairpin).
 */
module BasePenalties {
  import opened Nucleotides
  import opened Outcomes
  import opened Scores
  import opened Configuration
  import opened HairpinSearch

  /** elem1 has the kind of the current element, elem2 the other kind. */
  function Elem1Size(c: Constraints, isKey: bool): int { if isKey then c.keySize else c.payloadSize }

  function Elem2Size(c: Constraints, isKey: bool): int { if isKey then c.payloadSize else c.keySize }

  /** The search window of one start position and one loop size. */
  function MakeWindow(c: Constraints, curElem: Elem, elems1: seq<Elem>, elems2: seq<Elem>, isKey: bool,
                      forward: bool, stem1Start: int, loopSize: int): (w: Window)
    requires Valid(c)
    ensures WellFormed(w) && w.motifSize == c.motifSize && w.maxHairpin == c.maxHairpin
    ensures w.stem1Start == stem1Start
    ensures w.stem2Start == if forward then stem1Start + loopSize + c.maxHairpin else stem1Start - loopSize - c.maxHairpin
    ensures w.curElem == curElem && w.elems1 == elems1 && w.elems2 == elems2
    ensures w.elem1Size == Elem1Size(c, isKey) && w.elem2Size == Elem2Size(c, isKey)
  {
    Window(c.motifSize, c.maxHairpin, curElem, elems1, Elem1Size(c, isKey), elems2, Elem2Size(c, isKey),
           stem1Start,
           if forward then stem1Start + loopSize + c.maxHairpin else stem1Start - loopSize - c.maxHairpin)
  }

  /** The current element and the pools have the sizes of their kinds. */
  predicate Sized(c: Constraints, curElem: Elem, elems1: seq<Elem>, elems2: seq<Elem>, isKey: bool)
  {
    && |curElem| <= Elem1Size(c, isKey)
    && (forall i :: 0 <= i < |elems1| ==> |elems1[i]| <= Elem1Size(c, isKey))
    && (forall i :: 0 <= i < |elems2| ==> |elems2[i]| == Elem2Size(c, isKey))
  }

  /** One top-level search: send_to_all_check from j = maxHairpin - 1 with length 0. */
  function SearchAt(c: Constraints, curElem: Elem, elems1: seq<Elem>, elems2: seq<Elem>, isKey: bool,
                    forward: bool, stem1Start: int, loopSize: int): (r: Outcome<seq<nat>>)
    requires Valid(c)
    ensures r.Ok? ==> AllIn(r.value, c.maxHairpin)
    ensures (Sized(c, curElem, elems1, elems2, isKey)
             && (elems2 != [] ==> forward && stem1Start + loopSize + c.maxHairpin >= 0)) ==> r.Ok?
    ensures c.maxHairpin <= 0 ==> r.Ok?
  {
    var w := MakeWindow(c, curElem, elems1, elems2, isKey, forward, stem1Start, loopSize);
    var walk :- SendToAllCheck(w, c.maxHairpin - 1, 0, [], [], [], []);
    Ok(walk.samples)
  }

  /** The loop over loop sizes lo..hi of one *_hairpin_counter_at_startPos call. */
  function LoopLengths(c: Constraints, curElem: Elem, elems1: seq<Elem>, elems2: seq<Elem>, isKey: bool,
                       forward: bool, stem1Start: int, lo: int, hi: int): (r: Outcome<seq<nat>>)
    requires Valid(c)
    decreases hi - lo + 1
    ensures r.Ok? ==> AllIn(r.value, c.maxHairpin)
    ensures (Sized(c, curElem, elems1, elems2, isKey) && 0 <= lo
             && (elems2 != [] ==> forward && (stem1Start + c.maxHairpin >= 0 || c.maxHairpin <= 0))) ==> r.Ok?
  {
    if lo > hi then Ok([])
    else
      var s :- SearchAt(c, curElem, elems1, elems2, isKey, forward, stem1Start, lo);
      var rest :- LoopLengths(c, curElem, elems1, elems2, isKey, forward, stem1Start, lo + 1, hi);
      Ok(s + rest)
  }

  /** A negative loop bound stands for the configured loop range. */
  function LoopRange(c: Constraints, loopSizeMin: int, loopSizeMax: int): (r: (int, int))
    requires Valid(c)
    ensures 0 <= r.0
    ensures loopSizeMin >= 0 && loopSizeMax >= 0 ==> r == (loopSizeMin, loopSizeMax)
  {
    if loopSizeMin < 0 || loopSizeMax < 0 then (c.loopSizeMin, c.loopSizeMax) else (loopSizeMin, loopSizeMax)
  }

  /** The hairpin lengths one *_hairpin_counter_at_startPos call appends. */
  function AtStartPosLengths(c: Constraints, curElem: Elem, elems1: seq<Elem>, elems2: seq<Elem>, isKey: bool,
                             forward: bool, stem1Start: int, loopSizeMin: int, loopSizeMax: int): (r: Outcome<seq<nat>>)
    requires Valid(c)
    ensures r.Ok? ==> AllIn(r.value, c.maxHairpin)
    ensures (Sized(c, curElem, elems1, elems2, isKey)
             && (elems2 != [] ==> forward && (stem1Start + c.maxHairpin >= 0 || c.maxHairpin <= 0))) ==> r.Ok?
  {
    var range := LoopRange(c, loopSizeMin, loopSizeMax);
    LoopLengths(c, curElem, elems1, elems2, isKey, forward, stem1Start, range.0, range.1)
  }

  /** The start positions len(curElem)-1-i for i in [from, maxHairpin). */
  function CounterLengths(c: Constraints, curElem: Elem, elems1: seq<Elem>, elems2: seq<Elem>, isKey: bool,
                          forward: bool, from: nat): (r: Outcome<seq<nat>>)
    requires Valid(c)
    decreases c.maxHairpin - from
    ensures r.Ok? ==> AllIn(r.value, c.maxHairpin)
    ensures Sized(c, curElem, elems1, elems2, isKey) && (elems2 != [] ==> forward) ==> r.Ok?
  {
    if from >= c.maxHairpin then Ok([])
    else
      var s :- AtStartPosLengths(c, curElem, elems1, elems2, isKey, forward, |curElem| - 1 - from, -1, -1);
      var rest :- CounterLengths(c, curElem, elems1, elems2, isKey, forward, from + 1);
      Ok(s + rest)
  }

  /** np.sum of the recorded hairpins: 1 each in counting mode, h ^ (length / maxHairpin) each otherwise. */
  function Tally(lengths: seq<nat>, hairpinCount: bool, h: real, maxHairpin: int): (p: Penalty)
    ensures hairpinCount ==> p == Exact(|lengths| as real)
    ensures !hairpinCount ==> p.exact == 0.0 && |p.powers| == |lengths|
    ensures !hairpinCount ==> forall i :: 0 <= i < |lengths| ==> p.powers[i] == Power(1.0, h, lengths[i], maxHairpin)
  {
    if hairpinCount then Exact(|lengths| as real) else Penalty(0.0, PowersOf(h, lengths, maxHairpin))
  }

  /**
   * What a counter's total is made of: in counting mode a natural number
   * and no exponential terms; in scoring mode only terms h ^ (k / maxHairpin)
   * with 1 <= k <= maxHairpin.
   */
  predicate HairpinTotal(p: Penalty, hairpinCount: bool, h: real, maxHairpin: int)
  {
    if hairpinCount then p.powers == [] && p.exact >= 0.0 && p.exact == p.exact.Floor as real
    else p.exact == 0.0 && forall t :: t in p.powers ==>
      t.coeff == 1.0 && t.base == h && 1 <= t.num <= maxHairpin && t.den == maxHairpin
  }

  lemma TallyIsHairpinTotal(lengths: seq<nat>, hairpinCount: bool, h: real, maxHairpin: int)
    requires AllIn(lengths, maxHairpin)
    ensures HairpinTotal(Tally(lengths, hairpinCount, h, maxHairpin), hairpinCount, h, maxHairpin)
  {
    var p := Tally(lengths, hairpinCount, h, maxHairpin);
    if !hairpinCount {
      forall t | t in p.powers
        ensures t.coeff == 1.0 && t.base == h && 1 <= t.num <= maxHairpin && t.den == maxHairpin
      {
        var i :| 0 <= i < |p.powers| && p.powers[i] == t;
        assert lengths[i] in lengths;
      }
    }
  }

  /** forward_hairpin_counter (scoring mode unless asked to count). */
  function ForwardHairpinCounter(c: Constraints, h: real, curElem: Elem, elems1: seq<Elem>, elems2: seq<Elem>,
                                 isKey: bool, hairpinCount: bool): (r: Outcome<Penalty>)
    requires Valid(c)
    ensures Sized(c, curElem, elems1, elems2, isKey) ==> r.Ok?
    ensures r.Ok? ==> HairpinTotal(r.value, hairpinCount, h, c.maxHairpin)
  {
    var ls :- CounterLengths(c, curElem, elems1, elems2, isKey, true, 0);
    TallyIsHairpinTotal(ls, hairpinCount, h, c.maxHairpin);
    Ok(Tally(ls, hairpinCount, h, c.maxHairpin))
  }

  /** backward_hairpin_counter: it can fail only when the opposite-kind pool is non-empty. */
  function BackwardHairpinCounter(c: Constraints, h: real, curElem: Elem, elems1: seq<Elem>, elems2: seq<Elem>,
                                  isKey: bool, hairpinCount: bool): (r: Outcome<Penalty>)
    requires Valid(c)
    ensures Sized(c, curElem, elems1, elems2, isKey) && elems2 == [] ==> r.Ok?
    ensures r.Ok? ==> HairpinTotal(r.value, hairpinCount, h, c.maxHairpin)
  {
    var ls :- CounterLengths(c, curElem, elems1, elems2, isKey, false, 0);
    TallyIsHairpinTotal(ls, hairpinCount, h, c.maxHairpin);
    Ok(Tally(ls, hairpinCount, h, c.maxHairpin))
  }

  /** hairpin_penalty: the forward plus the backward score. */
  function HairpinPenalty(c: Constraints, h: real, curElem: Elem, elems1: seq<Elem>, elems2: seq<Elem>,
                          isKey: bool): (r: Outcome<Penalty>)
    requires Valid(c)
    ensures Sized(c, curElem, elems1, elems2, isKey) && elems2 == [] ==> r.Ok?
    ensures r.Ok? ==> HairpinTotal(r.value, false, h, c.maxHairpin)
  {
    var f :- ForwardHairpinCounter(c, h, curElem, elems1, elems2, isKey, false);
    var b :- BackwardHairpinCounter(c, h, curElem, elems1, elems2, isKey, false);
    Ok(f.Plus(b))
  }
}
