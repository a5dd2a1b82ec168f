/**
 * What the hairpin search of basePenalties.py finds, stated without the
 * search: when both stems lie inside the current element, the search
 * records exactly one hairpin, of the length of the stems, if and only if
 * every base of the first stem is the complement of the facing base of
 * the second stem, and records nothing otherwise. Stem positions beyond
 * the end of a partial element are skipped, and the walk records only if
 * the innermost step is present and pairs.
 */
module HairpinMeaning {
  import opened Nucleotides
  import opened Outcomes
  import opened Configuration
  import opened HairpinSearch
  import opened BasePenalties

  // ---------------------------------------------------------------------
  // Steps of a walk inside one element

  /** Both stems fit inside the current-kind region from step 0 to step curJ. */
  predicate Inside(w: Window, curJ: int)
  {
    && 0 <= w.stem1Start && Stem1Pos(w, curJ) < w.elem1Size
    && 0 <= Stem2Pos(w, curJ) && Stem2Pos(w, 0) < w.elem1Size
    && w.elem1Size <= w.motifSize
  }

  /** Both bases of step j lie inside e. */
  predicate Present(w: Window, e: Elem, j: int)
  {
    0 <= Stem1Pos(w, j) < |e| && 0 <= Stem2Pos(w, j) < |e|
  }

  /** At step j the base of the first stem is the complement of the base facing it. */
  predicate StepPairs(w: Window, e: Elem, j: int)
    requires Present(w, e, j)
  {
    e[Stem1Pos(w, j)] == Complement(e[Stem2Pos(w, j)])
  }

  /** Every present step from 0 to j pairs. */
  predicate Unbroken(w: Window, e: Elem, j: int)
    decreases j
  {
    j < 0 || (Unbroken(w, e, j - 1) && (Present(w, e, j) ==> StepPairs(w, e, j)))
  }

  /** The number of present steps from 0 to j. */
  function PresentSteps(w: Window, e: Elem, j: int): (n: nat)
    decreases j
    ensures n <= if j < 0 then 0 else j + 1
  {
    if j < 0 then 0 else PresentSteps(w, e, j - 1) + (if Present(w, e, j) then 1 else 0)
  }

  /** Inside the current element a step is of the same-kind class only, and positions are not reduced. */
  lemma StepInside(w: Window, curJ: int, j: int)
    requires WellFormed(w) && Inside(w, curJ) && 0 <= j <= curJ
    ensures PosA(w, j) == Stem1Pos(w, j) && PosB(w, j) == Stem2Pos(w, j)
    ensures InClass(w, Elem1Elem1, j)
    ensures !InClass(w, Elem1Elem2, j) && !InClass(w, Elem2Elem1, j) && !InClass(w, Elem2Elem2, j)
  {
    ModUnique(Stem1Pos(w, j), w.motifSize, 0, Stem1Pos(w, j));
    ModUnique(Stem2Pos(w, j), w.motifSize, 0, Stem2Pos(w, j));
  }

  /** When no dispatcher but the same-kind one applies at step j, none of them interrupts a same-kind walk. */
  lemma Interrupts11Quiet(w: Window, a: Elem, b: Elem, curJ: int, j: int, len: nat)
    requires WellFormed(w) && InClass(w, Elem1Elem1, curJ) && 0 <= j <= curJ
    requires !InClass(w, Elem1Elem2, j) && !InClass(w, Elem2Elem1, j) && !InClass(w, Elem2Elem2, j)
    ensures Interrupts11(w, a, b, curJ, j, len) == Ok(Walk(false, []))
  {
    assert SendToElem2Elem1(w, j, len, [], b) == Ok(Walk(false, []));
    assert SendToElem2Elem2(w, j, len, [], []) == Ok(Walk(false, []));
    assert SendToElem1Elem2(w, j, len, a, []) == Ok(Walk(false, []));
    assert Interrupts11(w, a, b, curJ, j, len).Ok?;
    assert !Interrupts11(w, a, b, curJ, j, len).value.found;
    assert Interrupts11(w, a, b, curJ, j, len).value.samples == [];
  }

  /**
   * The same-kind stem walk over one element e inside the current region:
   * it records len plus the number of present steps exactly when every
   * present step pairs and the innermost step is present, and nothing
   * otherwise; it never fails.
   */
  lemma {:induction false} Walk11Within(w: Window, e: Elem, curJ: int, j: int, len: nat)
    requires WellFormed(w) && Inside(w, curJ) && InClass(w, Elem1Elem1, curJ) && j <= curJ
    ensures Walk11(w, e, e, curJ, j, len) == Ok(Expected(w, e, j, len))
    decreases j
  {
    if j >= 0 {
      if !Present(w, e, j) {
        Walk11Within(w, e, curJ, j - 1, len);
        Walk11Absent(w, e, curJ, j, len);
        ExpectedAbsent(w, e, j, len);
      } else if StepPairs(w, e, j) {
        Walk11Within(w, e, curJ, j - 1, len + 1);
        Walk11Pairs(w, e, curJ, j, len);
        ExpectedPairs(w, e, j, len);
      } else {
        Walk11Breaks(w, e, curJ, j, len);
        ExpectedBreaks(w, e, j, len);
      }
    }
  }

  /** What a walk from step j with length len records: one stem when it is unbroken and reaches step 0. */
  function Expected(w: Window, e: Elem, j: int, len: nat): seq<nat>
  {
    if 0 <= j && Unbroken(w, e, j) && Present(w, e, 0) then [len + PresentSteps(w, e, j)] else []
  }

  lemma ExpectedAbsent(w: Window, e: Elem, j: int, len: nat)
    requires 0 <= j && !Present(w, e, j)
    ensures Expected(w, e, j, len) == Expected(w, e, j - 1, len)
  {
  }

  lemma ExpectedPairs(w: Window, e: Elem, j: int, len: nat)
    requires 0 <= j && Present(w, e, j) && StepPairs(w, e, j)
    ensures Expected(w, e, j, len) == (if j == 0 then [len + 1] else []) + Expected(w, e, j - 1, len + 1)
  {
    if j > 0 {
      Glue([], Expected(w, e, j - 1, len + 1));
    }
  }

  lemma ExpectedBreaks(w: Window, e: Elem, j: int, len: nat)
    requires 0 <= j && Present(w, e, j) && !StepPairs(w, e, j)
    ensures Expected(w, e, j, len) == []
  {
  }

  /** A step whose positions fall outside the element records nothing and walks on with the same length. */
  lemma Walk11Absent(w: Window, e: Elem, curJ: int, j: int, len: nat)
    requires WellFormed(w) && Inside(w, curJ) && InClass(w, Elem1Elem1, curJ) && 0 <= j <= curJ
    requires !Present(w, e, j) && Walk11(w, e, e, curJ, j - 1, len).Ok?
    ensures Walk11(w, e, e, curJ, j, len) == Walk11(w, e, e, curJ, j - 1, len)
  {
    StepInside(w, curJ, j);
    Interrupts11Quiet(w, e, e, curJ, j, len);
    var rest := Walk11(w, e, e, curJ, j - 1, len).value;
    assert Walk11(w, e, e, curJ, j, len) == Ok([] + rest);
    Glue([], rest);
  }

  /** A step that pairs lengthens the stem by one, and records it when it is the innermost step. */
  lemma Walk11Pairs(w: Window, e: Elem, curJ: int, j: int, len: nat)
    requires WellFormed(w) && Inside(w, curJ) && InClass(w, Elem1Elem1, curJ) && 0 <= j <= curJ
    requires Present(w, e, j) && StepPairs(w, e, j) && Walk11(w, e, e, curJ, j - 1, len + 1).Ok?
    ensures Walk11(w, e, e, curJ, j, len)
            == Ok((if j == 0 then [len + 1] else []) + Walk11(w, e, e, curJ, j - 1, len + 1).value)
  {
    StepInside(w, curJ, j);
    Interrupts11Quiet(w, e, e, curJ, j, len);
    var own: seq<nat> := if j == 0 then [len + 1] else [];
    var rest := Walk11(w, e, e, curJ, j - 1, len + 1).value;
    assert Walk11(w, e, e, curJ, j, len) == Ok([] + own + rest);
    Glue(own, rest);
  }

  /** A step whose bases do not pair ends the walk with nothing recorded. */
  lemma Walk11Breaks(w: Window, e: Elem, curJ: int, j: int, len: nat)
    requires WellFormed(w) && Inside(w, curJ) && InClass(w, Elem1Elem1, curJ) && 0 <= j <= curJ
    requires Present(w, e, j) && !StepPairs(w, e, j)
    ensures Walk11(w, e, e, curJ, j, len) == Ok([])
  {
    StepInside(w, curJ, j);
    Interrupts11Quiet(w, e, e, curJ, j, len);
  }

  /** Concatenation with empty lists, as the walks use it. */
  lemma Glue(own: seq<nat>, rest: seq<nat>)
    ensures [] + own + rest == own + rest
    ensures rest == [] ==> own + rest == own
    ensures own == [] ==> own + rest == rest
  {
  }

  /** A single pair of elements gets a single stem walk. */
  lemma CountAllOne(w: Window, k: Kind, a: Elem, b: Elem, j: int, len: nat)
    requires WellFormed(w) && InClass(w, k, j)
    ensures CountAll(w, k, [(a, b)], j, len) == HairpinCount(w, k, a, b, j, len)
  {
    assert [(a, b)][1..] == [];
    assert CountAll(w, k, [], j, len) == Ok([]);
    var h := HairpinCount(w, k, a, b, j, len);
    if h.Ok? {
      assert h.value + [] == h.value;
    }
  }

  /**
   * From the top: a search whose first step is of the same-kind class
   * alone, with no element given, walks the current element against itself.
   */
  lemma {:induction false} TopWalksCurrent(w: Window, m: int)
    requires WellFormed(w) && m >= 0 && InClass(w, Elem1Elem1, m)
    requires InCurElem(w, Stem1Pos(w, m)) && InCurElem(w, Stem2Pos(w, m))
    requires Walk11(w, w.curElem, w.curElem, m, m, 0).Ok?
    ensures SendToAllCheck(w, m, 0, [], [], [], [])
            == Ok(Walk(true, Walk11(w, w.curElem, w.curElem, m, m, 0).value))
  {
    var e := w.curElem;
    var s := Walk11(w, e, e, m, m, 0).value;
    assert Pairs11(w, m, [], []) == [(e, e)];
    CountAllOne(w, Elem1Elem1, e, e, m, 0);
    assert SendToElem1Elem1(w, m, 0, [], []) == Ok(Walk(true, s));
    assert SendToAllPos1Elem1(w, m, 0, [], [], []) == Ok(Walk(true, s));
    assert AllCheckLoop(w, m, 0, [], [], [], []) == Ok(Walk(true, s));
    assert SendToAllCheck(w, m, 0, [], [], [], []) == Ok(Walk(true, [] + s));
    Glue([], s);
  }

  /**
   * One top-level search whose stems lie inside the current element:
   * exactly one hairpin, of as many bases as are present, when every
   * present step pairs and the innermost is present; otherwise none.
   */
  lemma SearchWithin(c: Constraints, e: Elem, elems1: seq<Elem>, elems2: seq<Elem>, isKey: bool,
                     forward: bool, stem1Start: int, loopSize: int)
    requires Valid(c) && c.maxHairpin >= 1
    requires Inside(MakeWindow(c, e, elems1, elems2, isKey, forward, stem1Start, loopSize), c.maxHairpin - 1)
    ensures var w := MakeWindow(c, e, elems1, elems2, isKey, forward, stem1Start, loopSize);
            SearchAt(c, e, elems1, elems2, isKey, forward, stem1Start, loopSize)
            == Ok(if Unbroken(w, e, c.maxHairpin - 1) && Present(w, e, 0)
                  then [PresentSteps(w, e, c.maxHairpin - 1)] else [])
  {
    var w := MakeWindow(c, e, elems1, elems2, isKey, forward, stem1Start, loopSize);
    var m := c.maxHairpin - 1;
    StepInside(w, m, m);
    Walk11Within(w, e, m, m, 0);
    TopWalksCurrent(w, m);
  }

  // ---------------------------------------------------------------------
  // Stems read off the element itself

  /**
   * The m bases from s1 on pair, outermost first, with the m bases that
   * end at s2 + m - 1, read backwards.
   */
  predicate StemsPair(e: Elem, s1: int, s2: int, m: int)
    requires 0 <= s1 && s1 + m <= |e| && 0 <= s2 && s2 + m <= |e|
  {
    forall j :: 0 <= j < m ==> BasesPair(e, s1, s2, m, j)
  }

  /** Base j of the first stem is the complement of base j of the second stem, counted from its end. */
  predicate BasesPair(e: Elem, s1: int, s2: int, m: int, j: int)
    requires 0 <= s1 && s1 + m <= |e| && 0 <= s2 && s2 + m <= |e| && 0 <= j < m
  {
    e[s1 + j] == Complement(e[s2 + m - 1 - j])
  }

  /** With every step present, the walk is unbroken exactly when all steps pair, and counts every step. */
  lemma {:induction false} AllPresentSteps(w: Window, e: Elem, j: int)
    requires 0 <= w.stem1Start && Stem1Pos(w, j) < |e| && 0 <= Stem2Pos(w, j) && Stem2Pos(w, 0) < |e|
    ensures PresentSteps(w, e, j) == if j < 0 then 0 else j + 1
    ensures Unbroken(w, e, j) <==>
            forall k :: 0 <= k <= j ==> e[Stem1Pos(w, k)] == Complement(e[Stem2Pos(w, k)])
    decreases j
  {
    if j >= 0 {
      AllPresentSteps(w, e, j - 1);
      assert Present(w, e, j);
    }
  }

  /** StemsPair read as the steps of a walk: every step pairs. */
  lemma StemsPairSteps(w: Window, e: Elem)
    requires w.maxHairpin >= 1
    requires 0 <= w.stem1Start && w.stem1Start + w.maxHairpin <= |e|
    requires 0 <= w.stem2Start && w.stem2Start + w.maxHairpin <= |e|
    ensures Present(w, e, 0)
    ensures StemsPair(e, w.stem1Start, w.stem2Start, w.maxHairpin) <==>
            forall k :: 0 <= k <= w.maxHairpin - 1 ==> e[Stem1Pos(w, k)] == Complement(e[Stem2Pos(w, k)])
  {
    var m := w.maxHairpin;
    if StemsPair(e, w.stem1Start, w.stem2Start, m) {
      forall k | 0 <= k <= m - 1
        ensures e[Stem1Pos(w, k)] == Complement(e[Stem2Pos(w, k)])
      {
        assert BasesPair(e, w.stem1Start, w.stem2Start, m, k);
      }
    } else {
      var k :| 0 <= k < m && !BasesPair(e, w.stem1Start, w.stem2Start, m, k);
      assert e[Stem1Pos(w, k)] != Complement(e[Stem2Pos(w, k)]);
    }
  }

  /**
   * A search whose two stems of maxHairpin bases lie inside the current
   * element, full or partial, records [maxHairpin] if the stems pair base by base and
   * nothing otherwise.
   */
  lemma SearchWithinFull(c: Constraints, e: Elem, elems1: seq<Elem>, elems2: seq<Elem>, isKey: bool,
                         forward: bool, stem1Start: int, loopSize: int)
    requires Valid(c) && c.maxHairpin >= 1
    requires |e| <= Elem1Size(c, isKey)
    requires var s2 := MakeWindow(c, e, elems1, elems2, isKey, forward, stem1Start, loopSize).stem2Start;
             0 <= stem1Start && stem1Start + c.maxHairpin <= |e| && 0 <= s2 && s2 + c.maxHairpin <= |e|
    ensures var s2 := MakeWindow(c, e, elems1, elems2, isKey, forward, stem1Start, loopSize).stem2Start;
            SearchAt(c, e, elems1, elems2, isKey, forward, stem1Start, loopSize)
            == Ok(if StemsPair(e, stem1Start, s2, c.maxHairpin) then [c.maxHairpin] else [])
  {
    var w := MakeWindow(c, e, elems1, elems2, isKey, forward, stem1Start, loopSize);
    var m := c.maxHairpin;
    SearchWithin(c, e, elems1, elems2, isKey, forward, stem1Start, loopSize);
    AllPresentSteps(w, e, m - 1);
    StemsPairSteps(w, e);
  }

}
