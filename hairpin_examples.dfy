/**
 * The hairpin counters of basePenalties.py on concrete inputs: the
 * configurations and strands of the empty-strand cases in
 * key_penalties_tests.py and payload_penalties_tests.py, where the score is
 * zero, and an input on which backward_hairpin_counter raises IndexError.
 * Each search is evaluated step by step, one dispatcher or stem walk per
 * assertion, innermost first.
 */
module HairpinExamples {
  import opened Nucleotides
  import opened Outcomes
  import opened Scores
  import opened Configuration
  import opened HairpinSearch
  import opened BasePenalties

  /** get_constraints(maxHairpin=2, loopSize=10) of key_penalties_tests.py. */
  const KeyTest := Constraints(10, 5, 12, 5, 2, 1, 1, 2, 10, 10, 25, 60)

  /** get_constraints(maxHairpin=2, loopSize=1) of payload_penalties_tests.py. */
  const PayloadTest := Constraints(10, 5, 12, 5, 2, 1, 1, 2, 1, 1, 25, 60)

  /** payloadSize 6, keySize 4, maxHairpin 3 and loop size 3. */
  const ErrTest := Constraints(6, 1, 10, 1, 4, 1, 1, 3, 3, 3, 25, 60)

  /** The three configurations are what the Constraints constructor builds from those arguments. */
  lemma ExampleConfigurations()
    ensures NewConstraints(10, 5, 1, 2, 10, 25, 60, 2, 1, -1, -1) == Ok(KeyTest)
    ensures NewConstraints(10, 5, 1, 2, 1, 25, 60, 2, 1, -1, -1) == Ok(PayloadTest)
    ensures NewConstraints(6, 1, 1, 3, 3, 25, 60, 4, 1, -1, -1) == Ok(ErrTest)
  {
  }


  /** The stem walks of KeyBackwardAt0, part 1. */
  lemma KeyBackwardAt0Part1(z: nat)
    requires z == 0
    ensures SendToElem1Elem1(Window(12, 2, [], [[A, G], [G, C]], 2, [], 10, -1, -13), 1, z, [], []) == Ok(Walk(false, []))
  {
    var nil: seq<nat> := [];
    assert nil + nil == nil && nil + nil + nil == nil;
    var w := Window(12, 2, [], [[A, G], [G, C]], 2, [], 10, -1, -13);
    assert Shaped(w);
    assert !InClass(w, Elem1Elem1, 1);
    assert InClass(w, Elem1Elem2, 1);
    assert !InClass(w, Elem2Elem1, 1);
    assert !InClass(w, Elem2Elem2, 1);
    assert SendToElem1Elem1(w, 1, z, [], []) == Ok(Walk(false, []));
  }

  /** The stem walks of KeyBackwardAt0, part 2. */
  lemma KeyBackwardAt0Part2(z: nat)
    requires z == 0
    ensures Pairs12(Window(12, 2, [], [[A, G], [G, C]], 2, [], 10, -1, -13), 1, [], []) == []
  {
    assert Pairs12(Window(12, 2, [], [[A, G], [G, C]], 2, [], 10, -1, -13), 1, [], []) == [];
  }

  /** The stem walks of KeyBackwardAt0, part 3. */
  lemma KeyBackwardAt0Part3(z: nat)
    requires z == 0
    ensures CountAll(Window(12, 2, [], [[A, G], [G, C]], 2, [], 10, -1, -13), Elem1Elem2, [], 1, z) == Ok([])
  {
    assert CountAll(Window(12, 2, [], [[A, G], [G, C]], 2, [], 10, -1, -13), Elem1Elem2, [], 1, z) == Ok([]);
  }

  /** The stem walks of KeyBackwardAt0, part 4. */
  lemma KeyBackwardAt0Part4(z: nat)
    requires z == 0
    ensures SendToElem1Elem1(Window(12, 2, [], [[A, G], [G, C]], 2, [], 10, -1, -13), 0, z, [], []) == Ok(Walk(false, []))
  {
    assert SendToElem1Elem1(Window(12, 2, [], [[A, G], [G, C]], 2, [], 10, -1, -13), 0, z, [], []) == Ok(Walk(false, []));
  }

  /** The stem walks of KeyBackwardAt0, part 5. */
  lemma KeyBackwardAt0Part5(z: nat)
    requires z == 0
    ensures SendToElem1Elem2(Window(12, 2, [], [[A, G], [G, C]], 2, [], 10, -1, -13), 0, z, [], []) == Ok(Walk(false, []))
  {
    assert SendToElem1Elem2(Window(12, 2, [], [[A, G], [G, C]], 2, [], 10, -1, -13), 0, z, [], []) == Ok(Walk(false, []));
  }

  /** The stem walks of KeyBackwardAt0, part 6. */
  lemma KeyBackwardAt0Part6(z: nat)
    requires z == 0
    ensures SendToAllPos1Elem1(Window(12, 2, [], [[A, G], [G, C]], 2, [], 10, -1, -13), 0, z, [], [], []) == Ok(Walk(false, []))
  {
    KeyBackwardAt0Part4(z);
    KeyBackwardAt0Part5(z);
    var nil: seq<nat> := [];
    assert nil + nil == nil && nil + nil + nil == nil;
    assert SendToAllPos1Elem1(Window(12, 2, [], [[A, G], [G, C]], 2, [], 10, -1, -13), 0, z, [], [], []) == Ok(Walk(false, []));
  }

  /** The stem walks of KeyBackwardAt0, part 7. */
  lemma KeyBackwardAt0Part7(z: nat)
    requires z == 0
    ensures Pairs21(Window(12, 2, [], [[A, G], [G, C]], 2, [], 10, -1, -13), 0, [], []) == []
  {
    assert Pairs21(Window(12, 2, [], [[A, G], [G, C]], 2, [], 10, -1, -13), 0, [], []) == [];
  }

  /** The stem walks of KeyBackwardAt0, part 8. */
  lemma KeyBackwardAt0Part8(z: nat)
    requires z == 0
    ensures CountAll(Window(12, 2, [], [[A, G], [G, C]], 2, [], 10, -1, -13), Elem2Elem1, [], 0, z) == Ok([])
  {
    assert CountAll(Window(12, 2, [], [[A, G], [G, C]], 2, [], 10, -1, -13), Elem2Elem1, [], 0, z) == Ok([]);
  }

  /** The stem walks of KeyBackwardAt0, part 9. */
  lemma KeyBackwardAt0Part9(z: nat)
    requires z == 0
    ensures AllCheckLoop(Window(12, 2, [], [[A, G], [G, C]], 2, [], 10, -1, -13), -1, z, [], [], [], []) == Ok(Walk(false, []))
  {
    assert AllCheckLoop(Window(12, 2, [], [[A, G], [G, C]], 2, [], 10, -1, -13), -1, z, [], [], [], []) == Ok(Walk(false, []));
  }

  /** The stem walks of KeyBackwardAt0, part 10. */
  lemma KeyBackwardAt0Part10(z: nat)
    requires z == 0
    ensures SendToAllCheck(Window(12, 2, [], [[A, G], [G, C]], 2, [], 10, -1, -13), -1, z, [], [], [], []) == Ok(Walk(false, []))
  {
    KeyBackwardAt0Part9(z);
    var nil: seq<nat> := [];
    assert nil + nil == nil && nil + nil + nil == nil;
    assert SendToAllCheck(Window(12, 2, [], [[A, G], [G, C]], 2, [], 10, -1, -13), -1, z, [], [], [], []) == Ok(Walk(false, []));
  }

  /** The stem walks of KeyBackwardAt0, part 11. */
  lemma KeyBackwardAt0Part11(z: nat)
    requires z == 0
    ensures SendToElem2Elem1(Window(12, 2, [], [[A, G], [G, C]], 2, [], 10, -1, -13), 0, z, [], []) == Ok(Walk(false, []))
  {
    KeyBackwardAt0Part7(z);
    KeyBackwardAt0Part8(z);
    KeyBackwardAt0Part10(z);
    assert SendToElem2Elem1(Window(12, 2, [], [[A, G], [G, C]], 2, [], 10, -1, -13), 0, z, [], []) == Ok(Walk(false, []));
  }

  /** The stem walks of KeyBackwardAt0, part 12. */
  lemma KeyBackwardAt0Part12(z: nat)
    requires z == 0
    ensures SendToElem2Elem2(Window(12, 2, [], [[A, G], [G, C]], 2, [], 10, -1, -13), 0, z, [], []) == Ok(Walk(false, []))
  {
    assert SendToElem2Elem2(Window(12, 2, [], [[A, G], [G, C]], 2, [], 10, -1, -13), 0, z, [], []) == Ok(Walk(false, []));
  }

  /** The stem walks of KeyBackwardAt0, part 13. */
  lemma KeyBackwardAt0Part13(z: nat)
    requires z == 0
    ensures SendToAllPos1Elem2(Window(12, 2, [], [[A, G], [G, C]], 2, [], 10, -1, -13), 0, z, [], [], []) == Ok(Walk(false, []))
  {
    KeyBackwardAt0Part11(z);
    KeyBackwardAt0Part12(z);
    assert SendToAllPos1Elem2(Window(12, 2, [], [[A, G], [G, C]], 2, [], 10, -1, -13), 0, z, [], [], []) == Ok(Walk(false, []));
  }

  /** The stem walks of KeyBackwardAt0, part 14. */
  lemma KeyBackwardAt0Part14(z: nat)
    requires z == 0
    ensures AllCheckLoop(Window(12, 2, [], [[A, G], [G, C]], 2, [], 10, -1, -13), 0, z, [], [], [], []) == Ok(Walk(false, []))
  {
    KeyBackwardAt0Part6(z);
    KeyBackwardAt0Part9(z);
    KeyBackwardAt0Part13(z);
    assert AllCheckLoop(Window(12, 2, [], [[A, G], [G, C]], 2, [], 10, -1, -13), 0, z, [], [], [], []) == Ok(Walk(false, []));
  }

  /** The stem walks of KeyBackwardAt0, part 15. */
  lemma KeyBackwardAt0Part15(z: nat)
    requires z == 0
    ensures SendToAllCheck(Window(12, 2, [], [[A, G], [G, C]], 2, [], 10, -1, -13), 0, z, [], [], [], []) == Ok(Walk(false, []))
  {
    KeyBackwardAt0Part14(z);
    assert SendToAllCheck(Window(12, 2, [], [[A, G], [G, C]], 2, [], 10, -1, -13), 0, z, [], [], [], []) == Ok(Walk(false, []));
  }

  /** The stem walks of KeyBackwardAt0, part 16. */
  lemma KeyBackwardAt0Part16(z: nat)
    requires z == 0
    ensures SendToElem1Elem2(Window(12, 2, [], [[A, G], [G, C]], 2, [], 10, -1, -13), 1, z, [], []) == Ok(Walk(false, []))
  {
    KeyBackwardAt0Part2(z);
    KeyBackwardAt0Part3(z);
    KeyBackwardAt0Part15(z);
    assert SendToElem1Elem2(Window(12, 2, [], [[A, G], [G, C]], 2, [], 10, -1, -13), 1, z, [], []) == Ok(Walk(false, []));
  }

  /** The stem walks of KeyBackwardAt0, part 17. */
  lemma KeyBackwardAt0Part17(z: nat)
    requires z == 0
    ensures SendToAllPos1Elem1(Window(12, 2, [], [[A, G], [G, C]], 2, [], 10, -1, -13), 1, z, [], [], []) == Ok(Walk(false, []))
  {
    KeyBackwardAt0Part1(z);
    KeyBackwardAt0Part16(z);
    assert SendToAllPos1Elem1(Window(12, 2, [], [[A, G], [G, C]], 2, [], 10, -1, -13), 1, z, [], [], []) == Ok(Walk(false, []));
  }

  /** The stem walks of KeyBackwardAt0, part 18. */
  lemma KeyBackwardAt0Part18(z: nat)
    requires z == 0
    ensures SendToElem2Elem1(Window(12, 2, [], [[A, G], [G, C]], 2, [], 10, -1, -13), 1, z, [], []) == Ok(Walk(false, []))
  {
    assert SendToElem2Elem1(Window(12, 2, [], [[A, G], [G, C]], 2, [], 10, -1, -13), 1, z, [], []) == Ok(Walk(false, []));
  }

  /** The stem walks of KeyBackwardAt0, part 19. */
  lemma KeyBackwardAt0Part19(z: nat)
    requires z == 0
    ensures SendToElem2Elem2(Window(12, 2, [], [[A, G], [G, C]], 2, [], 10, -1, -13), 1, z, [], []) == Ok(Walk(false, []))
  {
    assert SendToElem2Elem2(Window(12, 2, [], [[A, G], [G, C]], 2, [], 10, -1, -13), 1, z, [], []) == Ok(Walk(false, []));
  }

  /** The stem walks of KeyBackwardAt0, part 20. */
  lemma KeyBackwardAt0Part20(z: nat)
    requires z == 0
    ensures SendToAllPos1Elem2(Window(12, 2, [], [[A, G], [G, C]], 2, [], 10, -1, -13), 1, z, [], [], []) == Ok(Walk(false, []))
  {
    KeyBackwardAt0Part18(z);
    KeyBackwardAt0Part19(z);
    var nil: seq<nat> := [];
    assert nil + nil == nil && nil + nil + nil == nil;
    assert SendToAllPos1Elem2(Window(12, 2, [], [[A, G], [G, C]], 2, [], 10, -1, -13), 1, z, [], [], []) == Ok(Walk(false, []));
  }

  /** The stem walks of KeyBackwardAt0, part 21. */
  lemma KeyBackwardAt0Part21(z: nat)
    requires z == 0
    ensures AllCheckLoop(Window(12, 2, [], [[A, G], [G, C]], 2, [], 10, -1, -13), 1, z, [], [], [], []) == Ok(Walk(false, []))
  {
    KeyBackwardAt0Part14(z);
    KeyBackwardAt0Part17(z);
    KeyBackwardAt0Part20(z);
    assert AllCheckLoop(Window(12, 2, [], [[A, G], [G, C]], 2, [], 10, -1, -13), 1, z, [], [], [], []) == Ok(Walk(false, []));
  }

  /** The stem walks of KeyBackwardAt0. */
  lemma KeyBackwardAt0Walks(z: nat)
    requires z == 0
    ensures SendToAllCheck(Window(12, 2, [], [[A, G], [G, C]], 2, [], 10, -1, -13), 1, z, [], [], [], []) == Ok(Walk(false, []))
  {
    KeyBackwardAt0Part21(z);
    assert SendToAllCheck(Window(12, 2, [], [[A, G], [G, C]], 2, [], 10, -1, -13), 1, z, [], [], [], []) == Ok(Walk(false, []));
  }

  /** The search from start position -1, backward, empty key, keys AG and GC, loop size 10: nothing is recorded. */
  lemma KeyBackwardAt0()
    ensures SearchAt(KeyTest, [], [[A, G], [G, C]], [], true, false, -1, 10) == Ok([])
  {
    KeyBackwardAt0Walks(0);
    assert MakeWindow(KeyTest, [], [[A, G], [G, C]], [], true, false, -1, 10) == Window(12, 2, [], [[A, G], [G, C]], 2, [], 10, -1, -13);
  }

  /** The stem walks of KeyBackwardAt1, part 1. */
  lemma KeyBackwardAt1Part1(z: nat)
    requires z == 0
    ensures SendToElem1Elem1(Window(12, 2, [], [[A, G], [G, C]], 2, [], 10, -2, -14), 1, z, [], []) == Ok(Walk(false, []))
  {
    assert SendToElem1Elem1(Window(12, 2, [], [[A, G], [G, C]], 2, [], 10, -2, -14), 1, z, [], []) == Ok(Walk(false, []));
  }

  /** The stem walks of KeyBackwardAt1, part 2. */
  lemma KeyBackwardAt1Part2(z: nat)
    requires z == 0
    ensures SendToElem1Elem2(Window(12, 2, [], [[A, G], [G, C]], 2, [], 10, -2, -14), 1, z, [], []) == Ok(Walk(false, []))
  {
    assert SendToElem1Elem2(Window(12, 2, [], [[A, G], [G, C]], 2, [], 10, -2, -14), 1, z, [], []) == Ok(Walk(false, []));
  }

  /** The stem walks of KeyBackwardAt1, part 3. */
  lemma KeyBackwardAt1Part3(z: nat)
    requires z == 0
    ensures SendToAllPos1Elem1(Window(12, 2, [], [[A, G], [G, C]], 2, [], 10, -2, -14), 1, z, [], [], []) == Ok(Walk(false, []))
  {
    KeyBackwardAt1Part1(z);
    KeyBackwardAt1Part2(z);
    var nil: seq<nat> := [];
    assert nil + nil == nil && nil + nil + nil == nil;
    assert SendToAllPos1Elem1(Window(12, 2, [], [[A, G], [G, C]], 2, [], 10, -2, -14), 1, z, [], [], []) == Ok(Walk(false, []));
  }

  /** The stem walks of KeyBackwardAt1, part 4. */
  lemma KeyBackwardAt1Part4(z: nat)
    requires z == 0
    ensures SendToElem2Elem1(Window(12, 2, [], [[A, G], [G, C]], 2, [], 10, -2, -14), 1, z, [], []) == Ok(Walk(false, []))
  {
    assert SendToElem2Elem1(Window(12, 2, [], [[A, G], [G, C]], 2, [], 10, -2, -14), 1, z, [], []) == Ok(Walk(false, []));
  }

  /** The stem walks of KeyBackwardAt1, part 5. */
  lemma KeyBackwardAt1Part5(z: nat)
    requires z == 0
    ensures Pairs22(Window(12, 2, [], [[A, G], [G, C]], 2, [], 10, -2, -14), 1, [], []) == []
  {
    assert Pairs22(Window(12, 2, [], [[A, G], [G, C]], 2, [], 10, -2, -14), 1, [], []) == [];
  }

  /** The stem walks of KeyBackwardAt1, part 6. */
  lemma KeyBackwardAt1Part6(z: nat)
    requires z == 0
    ensures CountAll(Window(12, 2, [], [[A, G], [G, C]], 2, [], 10, -2, -14), Elem2Elem2, [], 1, z) == Ok([])
  {
    assert CountAll(Window(12, 2, [], [[A, G], [G, C]], 2, [], 10, -2, -14), Elem2Elem2, [], 1, z) == Ok([]);
  }

  /** The stem walks of KeyBackwardAt1, part 7. */
  lemma KeyBackwardAt1Part7(z: nat)
    requires z == 0
    ensures SendToElem1Elem1(Window(12, 2, [], [[A, G], [G, C]], 2, [], 10, -2, -14), 0, z, [], []) == Ok(Walk(false, []))
  {
    assert SendToElem1Elem1(Window(12, 2, [], [[A, G], [G, C]], 2, [], 10, -2, -14), 0, z, [], []) == Ok(Walk(false, []));
  }

  /** The stem walks of KeyBackwardAt1, part 8. */
  lemma KeyBackwardAt1Part8(z: nat)
    requires z == 0
    ensures SendToElem1Elem2(Window(12, 2, [], [[A, G], [G, C]], 2, [], 10, -2, -14), 0, z, [], []) == Ok(Walk(false, []))
  {
    assert SendToElem1Elem2(Window(12, 2, [], [[A, G], [G, C]], 2, [], 10, -2, -14), 0, z, [], []) == Ok(Walk(false, []));
  }

  /** The stem walks of KeyBackwardAt1, part 9. */
  lemma KeyBackwardAt1Part9(z: nat)
    requires z == 0
    ensures SendToAllPos1Elem1(Window(12, 2, [], [[A, G], [G, C]], 2, [], 10, -2, -14), 0, z, [], [], []) == Ok(Walk(false, []))
  {
    KeyBackwardAt1Part7(z);
    KeyBackwardAt1Part8(z);
    var nil: seq<nat> := [];
    assert nil + nil == nil && nil + nil + nil == nil;
    assert SendToAllPos1Elem1(Window(12, 2, [], [[A, G], [G, C]], 2, [], 10, -2, -14), 0, z, [], [], []) == Ok(Walk(false, []));
  }

  /** The stem walks of KeyBackwardAt1, part 10. */
  lemma KeyBackwardAt1Part10(z: nat)
    requires z == 0
    ensures SendToElem2Elem1(Window(12, 2, [], [[A, G], [G, C]], 2, [], 10, -2, -14), 0, z, [], []) == Ok(Walk(false, []))
  {
    assert SendToElem2Elem1(Window(12, 2, [], [[A, G], [G, C]], 2, [], 10, -2, -14), 0, z, [], []) == Ok(Walk(false, []));
  }

  /** The stem walks of KeyBackwardAt1, part 11. */
  lemma KeyBackwardAt1Part11(z: nat)
    requires z == 0
    ensures Pairs22(Window(12, 2, [], [[A, G], [G, C]], 2, [], 10, -2, -14), 0, [], []) == []
  {
    assert Pairs22(Window(12, 2, [], [[A, G], [G, C]], 2, [], 10, -2, -14), 0, [], []) == [];
  }

  /** The stem walks of KeyBackwardAt1, part 12. */
  lemma KeyBackwardAt1Part12(z: nat)
    requires z == 0
    ensures CountAll(Window(12, 2, [], [[A, G], [G, C]], 2, [], 10, -2, -14), Elem2Elem2, [], 0, z) == Ok([])
  {
    assert CountAll(Window(12, 2, [], [[A, G], [G, C]], 2, [], 10, -2, -14), Elem2Elem2, [], 0, z) == Ok([]);
  }

  /** The stem walks of KeyBackwardAt1, part 13. */
  lemma KeyBackwardAt1Part13(z: nat)
    requires z == 0
    ensures AllCheckLoop(Window(12, 2, [], [[A, G], [G, C]], 2, [], 10, -2, -14), -1, z, [], [], [], []) == Ok(Walk(false, []))
  {
    assert AllCheckLoop(Window(12, 2, [], [[A, G], [G, C]], 2, [], 10, -2, -14), -1, z, [], [], [], []) == Ok(Walk(false, []));
  }

  /** The stem walks of KeyBackwardAt1, part 14. */
  lemma KeyBackwardAt1Part14(z: nat)
    requires z == 0
    ensures SendToAllCheck(Window(12, 2, [], [[A, G], [G, C]], 2, [], 10, -2, -14), -1, z, [], [], [], []) == Ok(Walk(false, []))
  {
    KeyBackwardAt1Part13(z);
    var nil: seq<nat> := [];
    assert nil + nil == nil && nil + nil + nil == nil;
    assert SendToAllCheck(Window(12, 2, [], [[A, G], [G, C]], 2, [], 10, -2, -14), -1, z, [], [], [], []) == Ok(Walk(false, []));
  }

  /** The stem walks of KeyBackwardAt1, part 15. */
  lemma KeyBackwardAt1Part15(z: nat)
    requires z == 0
    ensures SendToElem2Elem2(Window(12, 2, [], [[A, G], [G, C]], 2, [], 10, -2, -14), 0, z, [], []) == Ok(Walk(false, []))
  {
    KeyBackwardAt1Part11(z);
    KeyBackwardAt1Part12(z);
    KeyBackwardAt1Part14(z);
    assert SendToElem2Elem2(Window(12, 2, [], [[A, G], [G, C]], 2, [], 10, -2, -14), 0, z, [], []) == Ok(Walk(false, []));
  }

  /** The stem walks of KeyBackwardAt1, part 16. */
  lemma KeyBackwardAt1Part16(z: nat)
    requires z == 0
    ensures SendToAllPos1Elem2(Window(12, 2, [], [[A, G], [G, C]], 2, [], 10, -2, -14), 0, z, [], [], []) == Ok(Walk(false, []))
  {
    KeyBackwardAt1Part10(z);
    KeyBackwardAt1Part15(z);
    assert SendToAllPos1Elem2(Window(12, 2, [], [[A, G], [G, C]], 2, [], 10, -2, -14), 0, z, [], [], []) == Ok(Walk(false, []));
  }

  /** The stem walks of KeyBackwardAt1, part 17. */
  lemma KeyBackwardAt1Part17(z: nat)
    requires z == 0
    ensures AllCheckLoop(Window(12, 2, [], [[A, G], [G, C]], 2, [], 10, -2, -14), 0, z, [], [], [], []) == Ok(Walk(false, []))
  {
    KeyBackwardAt1Part9(z);
    KeyBackwardAt1Part13(z);
    KeyBackwardAt1Part16(z);
    assert AllCheckLoop(Window(12, 2, [], [[A, G], [G, C]], 2, [], 10, -2, -14), 0, z, [], [], [], []) == Ok(Walk(false, []));
  }

  /** The stem walks of KeyBackwardAt1, part 18. */
  lemma KeyBackwardAt1Part18(z: nat)
    requires z == 0
    ensures SendToAllCheck(Window(12, 2, [], [[A, G], [G, C]], 2, [], 10, -2, -14), 0, z, [], [], [], []) == Ok(Walk(false, []))
  {
    KeyBackwardAt1Part17(z);
    assert SendToAllCheck(Window(12, 2, [], [[A, G], [G, C]], 2, [], 10, -2, -14), 0, z, [], [], [], []) == Ok(Walk(false, []));
  }

  /** The stem walks of KeyBackwardAt1, part 19. */
  lemma KeyBackwardAt1Part19(z: nat)
    requires z == 0
    ensures SendToElem2Elem2(Window(12, 2, [], [[A, G], [G, C]], 2, [], 10, -2, -14), 1, z, [], []) == Ok(Walk(false, []))
  {
    KeyBackwardAt1Part5(z);
    KeyBackwardAt1Part6(z);
    KeyBackwardAt1Part18(z);
    assert SendToElem2Elem2(Window(12, 2, [], [[A, G], [G, C]], 2, [], 10, -2, -14), 1, z, [], []) == Ok(Walk(false, []));
  }

  /** The stem walks of KeyBackwardAt1, part 20. */
  lemma KeyBackwardAt1Part20(z: nat)
    requires z == 0
    ensures SendToAllPos1Elem2(Window(12, 2, [], [[A, G], [G, C]], 2, [], 10, -2, -14), 1, z, [], [], []) == Ok(Walk(false, []))
  {
    KeyBackwardAt1Part4(z);
    KeyBackwardAt1Part19(z);
    assert SendToAllPos1Elem2(Window(12, 2, [], [[A, G], [G, C]], 2, [], 10, -2, -14), 1, z, [], [], []) == Ok(Walk(false, []));
  }

  /** The stem walks of KeyBackwardAt1, part 21. */
  lemma KeyBackwardAt1Part21(z: nat)
    requires z == 0
    ensures AllCheckLoop(Window(12, 2, [], [[A, G], [G, C]], 2, [], 10, -2, -14), 1, z, [], [], [], []) == Ok(Walk(false, []))
  {
    KeyBackwardAt1Part3(z);
    KeyBackwardAt1Part17(z);
    KeyBackwardAt1Part20(z);
    assert AllCheckLoop(Window(12, 2, [], [[A, G], [G, C]], 2, [], 10, -2, -14), 1, z, [], [], [], []) == Ok(Walk(false, []));
  }

  /** The stem walks of KeyBackwardAt1. */
  lemma KeyBackwardAt1Walks(z: nat)
    requires z == 0
    ensures SendToAllCheck(Window(12, 2, [], [[A, G], [G, C]], 2, [], 10, -2, -14), 1, z, [], [], [], []) == Ok(Walk(false, []))
  {
    KeyBackwardAt1Part21(z);
    assert SendToAllCheck(Window(12, 2, [], [[A, G], [G, C]], 2, [], 10, -2, -14), 1, z, [], [], [], []) == Ok(Walk(false, []));
  }

  /** The search from start position -2, backward, empty key, keys AG and GC, loop size 10: nothing is recorded. */
  lemma KeyBackwardAt1()
    ensures SearchAt(KeyTest, [], [[A, G], [G, C]], [], true, false, -2, 10) == Ok([])
  {
    KeyBackwardAt1Walks(0);
    assert MakeWindow(KeyTest, [], [[A, G], [G, C]], [], true, false, -2, 10) == Window(12, 2, [], [[A, G], [G, C]], 2, [], 10, -2, -14);
  }

  /** The stem walks of PayloadBackwardAt0, part 1. */
  lemma PayloadBackwardAt0Part1(z: nat)
    requires z == 0
    ensures Pairs11(Window(12, 2, [], [], 10, [[A, T], [G, C]], 2, -1, -4), 1, [], []) == [([], [])]
  {
    assert Pairs11(Window(12, 2, [], [], 10, [[A, T], [G, C]], 2, -1, -4), 1, [], []) == [([], [])];
  }

  /** The stem walks of PayloadBackwardAt0, part 2. */
  lemma PayloadBackwardAt0Part2(z: nat)
    requires z == 0
    ensures SendToElem2Elem1(Window(12, 2, [], [], 10, [[A, T], [G, C]], 2, -1, -4), 1, z, [], []) == Ok(Walk(false, []))
  {
    assert SendToElem2Elem1(Window(12, 2, [], [], 10, [[A, T], [G, C]], 2, -1, -4), 1, z, [], []) == Ok(Walk(false, []));
  }

  /** The stem walks of PayloadBackwardAt0, part 3. */
  lemma PayloadBackwardAt0Part3(z: nat)
    requires z == 0
    ensures SendToElem2Elem2(Window(12, 2, [], [], 10, [[A, T], [G, C]], 2, -1, -4), 1, z, [], []) == Ok(Walk(false, []))
  {
    assert SendToElem2Elem2(Window(12, 2, [], [], 10, [[A, T], [G, C]], 2, -1, -4), 1, z, [], []) == Ok(Walk(false, []));
  }

  /** The stem walks of PayloadBackwardAt0, part 4. */
  lemma PayloadBackwardAt0Part4(z: nat)
    requires z == 0
    ensures SendToElem1Elem2(Window(12, 2, [], [], 10, [[A, T], [G, C]], 2, -1, -4), 1, z, [], []) == Ok(Walk(false, []))
  {
    var nil: seq<nat> := [];
    assert nil + nil == nil && nil + nil + nil == nil;
    var w := Window(12, 2, [], [], 10, [[A, T], [G, C]], 2, -1, -4);
    assert !Shaped(w);
    assert InClass(w, Elem1Elem1, 1);
    assert !InClass(w, Elem1Elem2, 1);
    assert !InClass(w, Elem2Elem1, 1);
    assert !InClass(w, Elem2Elem2, 1);
    assert SendToElem1Elem2(w, 1, z, [], []) == Ok(Walk(false, []));
  }

  /** The stem walks of PayloadBackwardAt0, part 5. */
  lemma PayloadBackwardAt0Part5(z: nat)
    requires z == 0
    ensures Interrupts11(Window(12, 2, [], [], 10, [[A, T], [G, C]], 2, -1, -4), [], [], 1, 1, z) == Ok(Walk(false, []))
  {
    PayloadBackwardAt0Part2(z);
    PayloadBackwardAt0Part3(z);
    PayloadBackwardAt0Part4(z);
    var nil: seq<nat> := [];
    assert nil + nil == nil && nil + nil + nil == nil;
    assert Interrupts11(Window(12, 2, [], [], 10, [[A, T], [G, C]], 2, -1, -4), [], [], 1, 1, z) == Ok(Walk(false, []));
  }

  /** The stem walks of PayloadBackwardAt0, part 6. */
  lemma PayloadBackwardAt0Part6(z: nat)
    requires z == 0
    ensures Pairs21(Window(12, 2, [], [], 10, [[A, T], [G, C]], 2, -1, -4), 0, [], []) == [([A, T], []), ([G, C], [])]
  {
    var nil: seq<nat> := [];
    assert nil + nil == nil && nil + nil + nil == nil;
    var w := Window(12, 2, [], [], 10, [[A, T], [G, C]], 2, -1, -4);
    assert !Shaped(w);
    assert !InClass(w, Elem1Elem1, 0);
    assert !InClass(w, Elem1Elem2, 0);
    assert InClass(w, Elem2Elem1, 0);
    assert !InClass(w, Elem2Elem2, 0);
    assert Pairs21(w, 0, [], []) == [([A, T], []), ([G, C], [])];
  }

  /** The stem walks of PayloadBackwardAt0, part 7. */
  lemma PayloadBackwardAt0Part7(z: nat)
    requires z == 0
    ensures SendToElem1Elem1(Window(12, 2, [], [], 10, [[A, T], [G, C]], 2, -1, -4), 0, z, [], []) == Ok(Walk(false, []))
  {
    assert SendToElem1Elem1(Window(12, 2, [], [], 10, [[A, T], [G, C]], 2, -1, -4), 0, z, [], []) == Ok(Walk(false, []));
  }

  /** The stem walks of PayloadBackwardAt0, part 8. */
  lemma PayloadBackwardAt0Part8(z: nat)
    requires z == 0
    ensures SendToElem1Elem2(Window(12, 2, [], [], 10, [[A, T], [G, C]], 2, -1, -4), 0, z, [], []) == Ok(Walk(false, []))
  {
    assert SendToElem1Elem2(Window(12, 2, [], [], 10, [[A, T], [G, C]], 2, -1, -4), 0, z, [], []) == Ok(Walk(false, []));
  }

  /** The stem walks of PayloadBackwardAt0, part 9. */
  lemma PayloadBackwardAt0Part9(z: nat)
    requires z == 0
    ensures SendToElem2Elem2(Window(12, 2, [], [], 10, [[A, T], [G, C]], 2, -1, -4), 0, z, [A, T], []) == Ok(Walk(false, []))
  {
    assert SendToElem2Elem2(Window(12, 2, [], [], 10, [[A, T], [G, C]], 2, -1, -4), 0, z, [A, T], []) == Ok(Walk(false, []));
  }

  /** The stem walks of PayloadBackwardAt0, part 10. */
  lemma PayloadBackwardAt0Part10(z: nat)
    requires z == 0
    ensures Interrupts21(Window(12, 2, [], [], 10, [[A, T], [G, C]], 2, -1, -4), [A, T], [], 0, 0, z) == Ok(Walk(false, []))
  {
    PayloadBackwardAt0Part7(z);
    PayloadBackwardAt0Part8(z);
    PayloadBackwardAt0Part9(z);
    var nil: seq<nat> := [];
    assert nil + nil == nil && nil + nil + nil == nil;
    assert Interrupts21(Window(12, 2, [], [], 10, [[A, T], [G, C]], 2, -1, -4), [A, T], [], 0, 0, z) == Ok(Walk(false, []));
  }

  /** The stem walks of PayloadBackwardAt0, part 11. */
  lemma PayloadBackwardAt0Part11(z: nat)
    requires z == 0
    ensures Walk21(Window(12, 2, [], [], 10, [[A, T], [G, C]], 2, -1, -4), [A, T], [], 0, -1, z) == Ok([])
  {
    assert Walk21(Window(12, 2, [], [], 10, [[A, T], [G, C]], 2, -1, -4), [A, T], [], 0, -1, z) == Ok([]);
  }

  /** The stem walks of PayloadBackwardAt0, part 12. */
  lemma PayloadBackwardAt0Part12(z: nat)
    requires z == 0
    ensures Walk21(Window(12, 2, [], [], 10, [[A, T], [G, C]], 2, -1, -4), [A, T], [], 0, 0, z) == Ok([])
  {
    PayloadBackwardAt0Part10(z);
    PayloadBackwardAt0Part11(z);
    assert Walk21(Window(12, 2, [], [], 10, [[A, T], [G, C]], 2, -1, -4), [A, T], [], 0, 0, z) == Ok([]);
  }

  /** The stem walks of PayloadBackwardAt0, part 13. */
  lemma PayloadBackwardAt0Part13(z: nat)
    requires z == 0
    ensures SendToElem2Elem2(Window(12, 2, [], [], 10, [[A, T], [G, C]], 2, -1, -4), 0, z, [G, C], []) == Ok(Walk(false, []))
  {
    assert SendToElem2Elem2(Window(12, 2, [], [], 10, [[A, T], [G, C]], 2, -1, -4), 0, z, [G, C], []) == Ok(Walk(false, []));
  }

  /** The stem walks of PayloadBackwardAt0, part 14. */
  lemma PayloadBackwardAt0Part14(z: nat)
    requires z == 0
    ensures Interrupts21(Window(12, 2, [], [], 10, [[A, T], [G, C]], 2, -1, -4), [G, C], [], 0, 0, z) == Ok(Walk(false, []))
  {
    PayloadBackwardAt0Part7(z);
    PayloadBackwardAt0Part8(z);
    PayloadBackwardAt0Part13(z);
    var nil: seq<nat> := [];
    assert nil + nil == nil && nil + nil + nil == nil;
    assert Interrupts21(Window(12, 2, [], [], 10, [[A, T], [G, C]], 2, -1, -4), [G, C], [], 0, 0, z) == Ok(Walk(false, []));
  }

  /** The stem walks of PayloadBackwardAt0, part 15. */
  lemma PayloadBackwardAt0Part15(z: nat)
    requires z == 0
    ensures Walk21(Window(12, 2, [], [], 10, [[A, T], [G, C]], 2, -1, -4), [G, C], [], 0, -1, z) == Ok([])
  {
    assert Walk21(Window(12, 2, [], [], 10, [[A, T], [G, C]], 2, -1, -4), [G, C], [], 0, -1, z) == Ok([]);
  }

  /** The stem walks of PayloadBackwardAt0, part 16. */
  lemma PayloadBackwardAt0Part16(z: nat)
    requires z == 0
    ensures Walk21(Window(12, 2, [], [], 10, [[A, T], [G, C]], 2, -1, -4), [G, C], [], 0, 0, z) == Ok([])
  {
    PayloadBackwardAt0Part14(z);
    PayloadBackwardAt0Part15(z);
    assert Walk21(Window(12, 2, [], [], 10, [[A, T], [G, C]], 2, -1, -4), [G, C], [], 0, 0, z) == Ok([]);
  }

  /** The stem walks of PayloadBackwardAt0, part 17. */
  lemma PayloadBackwardAt0Part17(z: nat)
    requires z == 0
    ensures CountAll(Window(12, 2, [], [], 10, [[A, T], [G, C]], 2, -1, -4), Elem2Elem1, [], 0, z) == Ok([])
  {
    assert CountAll(Window(12, 2, [], [], 10, [[A, T], [G, C]], 2, -1, -4), Elem2Elem1, [], 0, z) == Ok([]);
  }

  /** The stem walks of PayloadBackwardAt0, part 18. */
  lemma PayloadBackwardAt0Part18(z: nat)
    requires z == 0
    ensures CountAll(Window(12, 2, [], [], 10, [[A, T], [G, C]], 2, -1, -4), Elem2Elem1, [([G, C], [])], 0, z) == Ok([])
  {
    PayloadBackwardAt0Part16(z);
    PayloadBackwardAt0Part17(z);
    var nil: seq<nat> := [];
    assert nil + nil == nil && nil + nil + nil == nil;
    var w := Window(12, 2, [], [], 10, [[A, T], [G, C]], 2, -1, -4);
    assert !Shaped(w);
    assert !InClass(w, Elem1Elem1, 0);
    assert !InClass(w, Elem1Elem2, 0);
    assert InClass(w, Elem2Elem1, 0);
    assert !InClass(w, Elem2Elem2, 0);
    assert InClass(w, Elem1Elem1, 1);
    assert !InClass(w, Elem1Elem2, 1);
    assert !InClass(w, Elem2Elem1, 1);
    assert !InClass(w, Elem2Elem2, 1);
    assert CountAll(w, Elem2Elem1, [([G, C], [])], 0, z) == Ok([]);
  }

  /** The stem walks of PayloadBackwardAt0, part 19. */
  lemma PayloadBackwardAt0Part19(z: nat)
    requires z == 0
    ensures CountAll(Window(12, 2, [], [], 10, [[A, T], [G, C]], 2, -1, -4), Elem2Elem1, [([A, T], []), ([G, C], [])], 0, z) == Ok([])
  {
    PayloadBackwardAt0Part12(z);
    PayloadBackwardAt0Part18(z);
    var nil: seq<nat> := [];
    assert nil + nil == nil && nil + nil + nil == nil;
    var w := Window(12, 2, [], [], 10, [[A, T], [G, C]], 2, -1, -4);
    assert !Shaped(w);
    assert !InClass(w, Elem1Elem1, 0);
    assert !InClass(w, Elem1Elem2, 0);
    assert InClass(w, Elem2Elem1, 0);
    assert !InClass(w, Elem2Elem2, 0);
    assert InClass(w, Elem1Elem1, 1);
    assert !InClass(w, Elem1Elem2, 1);
    assert !InClass(w, Elem2Elem1, 1);
    assert !InClass(w, Elem2Elem2, 1);
    assert CountAll(w, Elem2Elem1, [([A, T], []), ([G, C], [])], 0, z) == Ok([]);
  }

  /** The stem walks of PayloadBackwardAt0, part 20. */
  lemma PayloadBackwardAt0Part20(z: nat)
    requires z == 0
    ensures SendToElem2Elem1(Window(12, 2, [], [], 10, [[A, T], [G, C]], 2, -1, -4), 0, z, [], []) == Ok(Walk(true, []))
  {
    PayloadBackwardAt0Part6(z);
    PayloadBackwardAt0Part19(z);
    assert SendToElem2Elem1(Window(12, 2, [], [], 10, [[A, T], [G, C]], 2, -1, -4), 0, z, [], []) == Ok(Walk(true, []));
  }

  /** The stem walks of PayloadBackwardAt0, part 21. */
  lemma PayloadBackwardAt0Part21(z: nat)
    requires z == 0
    ensures Interrupts11(Window(12, 2, [], [], 10, [[A, T], [G, C]], 2, -1, -4), [], [], 1, 0, z) == Ok(Walk(true, []))
  {
    PayloadBackwardAt0Part20(z);
    assert Interrupts11(Window(12, 2, [], [], 10, [[A, T], [G, C]], 2, -1, -4), [], [], 1, 0, z) == Ok(Walk(true, []));
  }

  /** The stem walks of PayloadBackwardAt0, part 22. */
  lemma PayloadBackwardAt0Part22(z: nat)
    requires z == 0
    ensures Walk11(Window(12, 2, [], [], 10, [[A, T], [G, C]], 2, -1, -4), [], [], 1, 0, z) == Ok([])
  {
    PayloadBackwardAt0Part21(z);
    assert Walk11(Window(12, 2, [], [], 10, [[A, T], [G, C]], 2, -1, -4), [], [], 1, 0, z) == Ok([]);
  }

  /** The stem walks of PayloadBackwardAt0, part 23. */
  lemma PayloadBackwardAt0Part23(z: nat)
    requires z == 0
    ensures Walk11(Window(12, 2, [], [], 10, [[A, T], [G, C]], 2, -1, -4), [], [], 1, 1, z) == Ok([])
  {
    PayloadBackwardAt0Part5(z);
    PayloadBackwardAt0Part22(z);
    assert Walk11(Window(12, 2, [], [], 10, [[A, T], [G, C]], 2, -1, -4), [], [], 1, 1, z) == Ok([]);
  }

  /** The stem walks of PayloadBackwardAt0, part 24. */
  lemma PayloadBackwardAt0Part24(z: nat)
    requires z == 0
    ensures CountAll(Window(12, 2, [], [], 10, [[A, T], [G, C]], 2, -1, -4), Elem1Elem1, [], 1, z) == Ok([])
  {
    assert CountAll(Window(12, 2, [], [], 10, [[A, T], [G, C]], 2, -1, -4), Elem1Elem1, [], 1, z) == Ok([]);
  }

  /** The stem walks of PayloadBackwardAt0, part 25. */
  lemma PayloadBackwardAt0Part25(z: nat)
    requires z == 0
    ensures CountAll(Window(12, 2, [], [], 10, [[A, T], [G, C]], 2, -1, -4), Elem1Elem1, [([], [])], 1, z) == Ok([])
  {
    PayloadBackwardAt0Part23(z);
    PayloadBackwardAt0Part24(z);
    assert CountAll(Window(12, 2, [], [], 10, [[A, T], [G, C]], 2, -1, -4), Elem1Elem1, [([], [])], 1, z) == Ok([]);
  }

  /** The stem walks of PayloadBackwardAt0, part 26. */
  lemma PayloadBackwardAt0Part26(z: nat)
    requires z == 0
    ensures SendToElem1Elem1(Window(12, 2, [], [], 10, [[A, T], [G, C]], 2, -1, -4), 1, z, [], []) == Ok(Walk(true, []))
  {
    PayloadBackwardAt0Part1(z);
    PayloadBackwardAt0Part25(z);
    assert SendToElem1Elem1(Window(12, 2, [], [], 10, [[A, T], [G, C]], 2, -1, -4), 1, z, [], []) == Ok(Walk(true, []));
  }

  /** The stem walks of PayloadBackwardAt0, part 27. */
  lemma PayloadBackwardAt0Part27(z: nat)
    requires z == 0
    ensures SendToAllPos1Elem1(Window(12, 2, [], [], 10, [[A, T], [G, C]], 2, -1, -4), 1, z, [], [], []) == Ok(Walk(true, []))
  {
    PayloadBackwardAt0Part26(z);
    assert SendToAllPos1Elem1(Window(12, 2, [], [], 10, [[A, T], [G, C]], 2, -1, -4), 1, z, [], [], []) == Ok(Walk(true, []));
  }

  /** The stem walks of PayloadBackwardAt0, part 28. */
  lemma PayloadBackwardAt0Part28(z: nat)
    requires z == 0
    ensures AllCheckLoop(Window(12, 2, [], [], 10, [[A, T], [G, C]], 2, -1, -4), 1, z, [], [], [], []) == Ok(Walk(true, []))
  {
    PayloadBackwardAt0Part27(z);
    assert AllCheckLoop(Window(12, 2, [], [], 10, [[A, T], [G, C]], 2, -1, -4), 1, z, [], [], [], []) == Ok(Walk(true, []));
  }

  /** The stem walks of PayloadBackwardAt0. */
  lemma PayloadBackwardAt0Walks(z: nat)
    requires z == 0
    ensures SendToAllCheck(Window(12, 2, [], [], 10, [[A, T], [G, C]], 2, -1, -4), 1, z, [], [], [], []) == Ok(Walk(true, []))
  {
    PayloadBackwardAt0Part28(z);
    assert SendToAllCheck(Window(12, 2, [], [], 10, [[A, T], [G, C]], 2, -1, -4), 1, z, [], [], [], []) == Ok(Walk(true, []));
  }

  /** The search from start position -1, backward, empty payload, joints AT and GC, loop size 1: nothing is recorded. */
  lemma PayloadBackwardAt0()
    ensures SearchAt(PayloadTest, [], [], [[A, T], [G, C]], false, false, -1, 1) == Ok([])
  {
    PayloadBackwardAt0Walks(0);
    assert MakeWindow(PayloadTest, [], [], [[A, T], [G, C]], false, false, -1, 1) == Window(12, 2, [], [], 10, [[A, T], [G, C]], 2, -1, -4);
  }

  /** The stem walks of PayloadBackwardAt1, part 1. */
  lemma PayloadBackwardAt1Part1(z: nat)
    requires z == 0
    ensures SendToElem1Elem1(Window(12, 2, [], [], 10, [[A, T], [G, C]], 2, -2, -5), 1, z, [], []) == Ok(Walk(false, []))
  {
    assert SendToElem1Elem1(Window(12, 2, [], [], 10, [[A, T], [G, C]], 2, -2, -5), 1, z, [], []) == Ok(Walk(false, []));
  }

  /** The stem walks of PayloadBackwardAt1, part 2. */
  lemma PayloadBackwardAt1Part2(z: nat)
    requires z == 0
    ensures SendToElem1Elem2(Window(12, 2, [], [], 10, [[A, T], [G, C]], 2, -2, -5), 1, z, [], []) == Ok(Walk(false, []))
  {
    assert SendToElem1Elem2(Window(12, 2, [], [], 10, [[A, T], [G, C]], 2, -2, -5), 1, z, [], []) == Ok(Walk(false, []));
  }

  /** The stem walks of PayloadBackwardAt1, part 3. */
  lemma PayloadBackwardAt1Part3(z: nat)
    requires z == 0
    ensures SendToAllPos1Elem1(Window(12, 2, [], [], 10, [[A, T], [G, C]], 2, -2, -5), 1, z, [], [], []) == Ok(Walk(false, []))
  {
    PayloadBackwardAt1Part1(z);
    PayloadBackwardAt1Part2(z);
    var nil: seq<nat> := [];
    assert nil + nil == nil && nil + nil + nil == nil;
    assert SendToAllPos1Elem1(Window(12, 2, [], [], 10, [[A, T], [G, C]], 2, -2, -5), 1, z, [], [], []) == Ok(Walk(false, []));
  }

  /** The stem walks of PayloadBackwardAt1, part 4. */
  lemma PayloadBackwardAt1Part4(z: nat)
    requires z == 0
    ensures Pairs21(Window(12, 2, [], [], 10, [[A, T], [G, C]], 2, -2, -5), 1, [], []) == [([A, T], []), ([G, C], [])]
  {
    var nil: seq<nat> := [];
    assert nil + nil == nil && nil + nil + nil == nil;
    var w := Window(12, 2, [], [], 10, [[A, T], [G, C]], 2, -2, -5);
    assert !Shaped(w);
    assert !InClass(w, Elem1Elem1, 1);
    assert !InClass(w, Elem1Elem2, 1);
    assert InClass(w, Elem2Elem1, 1);
    assert !InClass(w, Elem2Elem2, 1);
    assert Pairs21(w, 1, [], []) == [([A, T], []), ([G, C], [])];
  }

  /** The stem walks of PayloadBackwardAt1, part 5. */
  lemma PayloadBackwardAt1Part5(z: nat)
    requires z == 0
    ensures SendToElem2Elem2(Window(12, 2, [], [], 10, [[A, T], [G, C]], 2, -2, -5), 1, z, [A, T], []) == Ok(Walk(false, []))
  {
    assert SendToElem2Elem2(Window(12, 2, [], [], 10, [[A, T], [G, C]], 2, -2, -5), 1, z, [A, T], []) == Ok(Walk(false, []));
  }

  /** The stem walks of PayloadBackwardAt1, part 6. */
  lemma PayloadBackwardAt1Part6(z: nat)
    requires z == 0
    ensures Interrupts21(Window(12, 2, [], [], 10, [[A, T], [G, C]], 2, -2, -5), [A, T], [], 1, 1, z) == Ok(Walk(false, []))
  {
    PayloadBackwardAt1Part1(z);
    PayloadBackwardAt1Part2(z);
    PayloadBackwardAt1Part5(z);
    var nil: seq<nat> := [];
    assert nil + nil == nil && nil + nil + nil == nil;
    assert Interrupts21(Window(12, 2, [], [], 10, [[A, T], [G, C]], 2, -2, -5), [A, T], [], 1, 1, z) == Ok(Walk(false, []));
  }

  /** The stem walks of PayloadBackwardAt1, part 7. */
  lemma PayloadBackwardAt1Part7(z: nat)
    requires z == 0
    ensures SendToElem1Elem1(Window(12, 2, [], [], 10, [[A, T], [G, C]], 2, -2, -5), 0, z, [], []) == Ok(Walk(false, []))
  {
    assert SendToElem1Elem1(Window(12, 2, [], [], 10, [[A, T], [G, C]], 2, -2, -5), 0, z, [], []) == Ok(Walk(false, []));
  }

  /** The stem walks of PayloadBackwardAt1, part 8. */
  lemma PayloadBackwardAt1Part8(z: nat)
    requires z == 0
    ensures SendToElem1Elem2(Window(12, 2, [], [], 10, [[A, T], [G, C]], 2, -2, -5), 0, z, [], []) == Ok(Walk(false, []))
  {
    assert SendToElem1Elem2(Window(12, 2, [], [], 10, [[A, T], [G, C]], 2, -2, -5), 0, z, [], []) == Ok(Walk(false, []));
  }

  /** The stem walks of PayloadBackwardAt1, part 9. */
  lemma PayloadBackwardAt1Part9(z: nat)
    requires z == 0
    ensures SendToElem2Elem2(Window(12, 2, [], [], 10, [[A, T], [G, C]], 2, -2, -5), 0, z, [A, T], []) == Ok(Walk(false, []))
  {
    assert SendToElem2Elem2(Window(12, 2, [], [], 10, [[A, T], [G, C]], 2, -2, -5), 0, z, [A, T], []) == Ok(Walk(false, []));
  }

  /** The stem walks of PayloadBackwardAt1, part 10. */
  lemma PayloadBackwardAt1Part10(z: nat)
    requires z == 0
    ensures Interrupts21(Window(12, 2, [], [], 10, [[A, T], [G, C]], 2, -2, -5), [A, T], [], 1, 0, z) == Ok(Walk(false, []))
  {
    PayloadBackwardAt1Part7(z);
    PayloadBackwardAt1Part8(z);
    PayloadBackwardAt1Part9(z);
    var nil: seq<nat> := [];
    assert nil + nil == nil && nil + nil + nil == nil;
    assert Interrupts21(Window(12, 2, [], [], 10, [[A, T], [G, C]], 2, -2, -5), [A, T], [], 1, 0, z) == Ok(Walk(false, []));
  }

  /** The stem walks of PayloadBackwardAt1, part 11. */
  lemma PayloadBackwardAt1Part11(z: nat)
    requires z == 0
    ensures Walk21(Window(12, 2, [], [], 10, [[A, T], [G, C]], 2, -2, -5), [A, T], [], 1, -1, z) == Ok([])
  {
    assert Walk21(Window(12, 2, [], [], 10, [[A, T], [G, C]], 2, -2, -5), [A, T], [], 1, -1, z) == Ok([]);
  }

  /** The stem walks of PayloadBackwardAt1, part 12. */
  lemma PayloadBackwardAt1Part12(z: nat)
    requires z == 0
    ensures Walk21(Window(12, 2, [], [], 10, [[A, T], [G, C]], 2, -2, -5), [A, T], [], 1, 0, z) == Ok([])
  {
    PayloadBackwardAt1Part10(z);
    PayloadBackwardAt1Part11(z);
    assert Walk21(Window(12, 2, [], [], 10, [[A, T], [G, C]], 2, -2, -5), [A, T], [], 1, 0, z) == Ok([]);
  }

  /** The stem walks of PayloadBackwardAt1, part 13. */
  lemma PayloadBackwardAt1Part13(z: nat)
    requires z == 0
    ensures Walk21(Window(12, 2, [], [], 10, [[A, T], [G, C]], 2, -2, -5), [A, T], [], 1, 1, z) == Ok([])
  {
    PayloadBackwardAt1Part6(z);
    PayloadBackwardAt1Part12(z);
    assert Walk21(Window(12, 2, [], [], 10, [[A, T], [G, C]], 2, -2, -5), [A, T], [], 1, 1, z) == Ok([]);
  }

  /** The stem walks of PayloadBackwardAt1, part 14. */
  lemma PayloadBackwardAt1Part14(z: nat)
    requires z == 0
    ensures SendToElem2Elem2(Window(12, 2, [], [], 10, [[A, T], [G, C]], 2, -2, -5), 1, z, [G, C], []) == Ok(Walk(false, []))
  {
    assert SendToElem2Elem2(Window(12, 2, [], [], 10, [[A, T], [G, C]], 2, -2, -5), 1, z, [G, C], []) == Ok(Walk(false, []));
  }

  /** The stem walks of PayloadBackwardAt1, part 15. */
  lemma PayloadBackwardAt1Part15(z: nat)
    requires z == 0
    ensures Interrupts21(Window(12, 2, [], [], 10, [[A, T], [G, C]], 2, -2, -5), [G, C], [], 1, 1, z) == Ok(Walk(false, []))
  {
    PayloadBackwardAt1Part1(z);
    PayloadBackwardAt1Part2(z);
    PayloadBackwardAt1Part14(z);
    var nil: seq<nat> := [];
    assert nil + nil == nil && nil + nil + nil == nil;
    assert Interrupts21(Window(12, 2, [], [], 10, [[A, T], [G, C]], 2, -2, -5), [G, C], [], 1, 1, z) == Ok(Walk(false, []));
  }

  /** The stem walks of PayloadBackwardAt1, part 16. */
  lemma PayloadBackwardAt1Part16(z: nat)
    requires z == 0
    ensures SendToElem2Elem2(Window(12, 2, [], [], 10, [[A, T], [G, C]], 2, -2, -5), 0, z, [G, C], []) == Ok(Walk(false, []))
  {
    assert SendToElem2Elem2(Window(12, 2, [], [], 10, [[A, T], [G, C]], 2, -2, -5), 0, z, [G, C], []) == Ok(Walk(false, []));
  }

  /** The stem walks of PayloadBackwardAt1, part 17. */
  lemma PayloadBackwardAt1Part17(z: nat)
    requires z == 0
    ensures Interrupts21(Window(12, 2, [], [], 10, [[A, T], [G, C]], 2, -2, -5), [G, C], [], 1, 0, z) == Ok(Walk(false, []))
  {
    PayloadBackwardAt1Part7(z);
    PayloadBackwardAt1Part8(z);
    PayloadBackwardAt1Part16(z);
    var nil: seq<nat> := [];
    assert nil + nil == nil && nil + nil + nil == nil;
    assert Interrupts21(Window(12, 2, [], [], 10, [[A, T], [G, C]], 2, -2, -5), [G, C], [], 1, 0, z) == Ok(Walk(false, []));
  }

  /** The stem walks of PayloadBackwardAt1, part 18. */
  lemma PayloadBackwardAt1Part18(z: nat)
    requires z == 0
    ensures Walk21(Window(12, 2, [], [], 10, [[A, T], [G, C]], 2, -2, -5), [G, C], [], 1, -1, z) == Ok([])
  {
    assert Walk21(Window(12, 2, [], [], 10, [[A, T], [G, C]], 2, -2, -5), [G, C], [], 1, -1, z) == Ok([]);
  }

  /** The stem walks of PayloadBackwardAt1, part 19. */
  lemma PayloadBackwardAt1Part19(z: nat)
    requires z == 0
    ensures Walk21(Window(12, 2, [], [], 10, [[A, T], [G, C]], 2, -2, -5), [G, C], [], 1, 0, z) == Ok([])
  {
    PayloadBackwardAt1Part17(z);
    PayloadBackwardAt1Part18(z);
    assert Walk21(Window(12, 2, [], [], 10, [[A, T], [G, C]], 2, -2, -5), [G, C], [], 1, 0, z) == Ok([]);
  }

  /** The stem walks of PayloadBackwardAt1, part 20. */
  lemma PayloadBackwardAt1Part20(z: nat)
    requires z == 0
    ensures Walk21(Window(12, 2, [], [], 10, [[A, T], [G, C]], 2, -2, -5), [G, C], [], 1, 1, z) == Ok([])
  {
    PayloadBackwardAt1Part15(z);
    PayloadBackwardAt1Part19(z);
    assert Walk21(Window(12, 2, [], [], 10, [[A, T], [G, C]], 2, -2, -5), [G, C], [], 1, 1, z) == Ok([]);
  }

  /** The stem walks of PayloadBackwardAt1, part 21. */
  lemma PayloadBackwardAt1Part21(z: nat)
    requires z == 0
    ensures CountAll(Window(12, 2, [], [], 10, [[A, T], [G, C]], 2, -2, -5), Elem2Elem1, [], 1, z) == Ok([])
  {
    assert CountAll(Window(12, 2, [], [], 10, [[A, T], [G, C]], 2, -2, -5), Elem2Elem1, [], 1, z) == Ok([]);
  }

  /** The stem walks of PayloadBackwardAt1, part 22. */
  lemma PayloadBackwardAt1Part22(z: nat)
    requires z == 0
    ensures CountAll(Window(12, 2, [], [], 10, [[A, T], [G, C]], 2, -2, -5), Elem2Elem1, [([G, C], [])], 1, z) == Ok([])
  {
    PayloadBackwardAt1Part20(z);
    PayloadBackwardAt1Part21(z);
    var nil: seq<nat> := [];
    assert nil + nil == nil && nil + nil + nil == nil;
    assert CountAll(Window(12, 2, [], [], 10, [[A, T], [G, C]], 2, -2, -5), Elem2Elem1, [([G, C], [])], 1, z) == Ok([]);
  }

  /** The stem walks of PayloadBackwardAt1, part 23. */
  lemma PayloadBackwardAt1Part23(z: nat)
    requires z == 0
    ensures CountAll(Window(12, 2, [], [], 10, [[A, T], [G, C]], 2, -2, -5), Elem2Elem1, [([A, T], []), ([G, C], [])], 1, z) == Ok([])
  {
    PayloadBackwardAt1Part13(z);
    PayloadBackwardAt1Part22(z);
    assert CountAll(Window(12, 2, [], [], 10, [[A, T], [G, C]], 2, -2, -5), Elem2Elem1, [([A, T], []), ([G, C], [])], 1, z) == Ok([]);
  }

  /** The stem walks of PayloadBackwardAt1, part 24. */
  lemma PayloadBackwardAt1Part24(z: nat)
    requires z == 0
    ensures SendToElem2Elem1(Window(12, 2, [], [], 10, [[A, T], [G, C]], 2, -2, -5), 1, z, [], []) == Ok(Walk(true, []))
  {
    PayloadBackwardAt1Part4(z);
    PayloadBackwardAt1Part23(z);
    assert SendToElem2Elem1(Window(12, 2, [], [], 10, [[A, T], [G, C]], 2, -2, -5), 1, z, [], []) == Ok(Walk(true, []));
  }

  /** The stem walks of PayloadBackwardAt1, part 25. */
  lemma PayloadBackwardAt1Part25(z: nat)
    requires z == 0
    ensures SendToAllPos1Elem2(Window(12, 2, [], [], 10, [[A, T], [G, C]], 2, -2, -5), 1, z, [], [], []) == Ok(Walk(true, []))
  {
    PayloadBackwardAt1Part24(z);
    assert SendToAllPos1Elem2(Window(12, 2, [], [], 10, [[A, T], [G, C]], 2, -2, -5), 1, z, [], [], []) == Ok(Walk(true, []));
  }

  /** The stem walks of PayloadBackwardAt1, part 26. */
  lemma PayloadBackwardAt1Part26(z: nat)
    requires z == 0
    ensures AllCheckLoop(Window(12, 2, [], [], 10, [[A, T], [G, C]], 2, -2, -5), 1, z, [], [], [], []) == Ok(Walk(true, []))
  {
    PayloadBackwardAt1Part3(z);
    PayloadBackwardAt1Part25(z);
    assert AllCheckLoop(Window(12, 2, [], [], 10, [[A, T], [G, C]], 2, -2, -5), 1, z, [], [], [], []) == Ok(Walk(true, []));
  }

  /** The stem walks of PayloadBackwardAt1. */
  lemma PayloadBackwardAt1Walks(z: nat)
    requires z == 0
    ensures SendToAllCheck(Window(12, 2, [], [], 10, [[A, T], [G, C]], 2, -2, -5), 1, z, [], [], [], []) == Ok(Walk(true, []))
  {
    PayloadBackwardAt1Part26(z);
    assert SendToAllCheck(Window(12, 2, [], [], 10, [[A, T], [G, C]], 2, -2, -5), 1, z, [], [], [], []) == Ok(Walk(true, []));
  }

  /** The search from start position -2, backward, empty payload, joints AT and GC, loop size 1: nothing is recorded. */
  lemma PayloadBackwardAt1()
    ensures SearchAt(PayloadTest, [], [], [[A, T], [G, C]], false, false, -2, 1) == Ok([])
  {
    PayloadBackwardAt1Walks(0);
    assert MakeWindow(PayloadTest, [], [], [[A, T], [G, C]], false, false, -2, 1) == Window(12, 2, [], [], 10, [[A, T], [G, C]], 2, -2, -5);
  }

  /** The stem walks of PayloadForwardAt0, part 1. */
  lemma PayloadForwardAt0Part1(z: nat)
    requires z == 0
    ensures Pairs11(Window(12, 2, [], [], 10, [[A, T], [G, C]], 2, -1, 2), 1, [], []) == [([], [])]
  {
    assert Pairs11(Window(12, 2, [], [], 10, [[A, T], [G, C]], 2, -1, 2), 1, [], []) == [([], [])];
  }

  /** The stem walks of PayloadForwardAt0, part 2. */
  lemma PayloadForwardAt0Part2(z: nat)
    requires z == 0
    ensures SendToElem2Elem1(Window(12, 2, [], [], 10, [[A, T], [G, C]], 2, -1, 2), 1, z, [], []) == Ok(Walk(false, []))
  {
    assert SendToElem2Elem1(Window(12, 2, [], [], 10, [[A, T], [G, C]], 2, -1, 2), 1, z, [], []) == Ok(Walk(false, []));
  }

  /** The stem walks of PayloadForwardAt0, part 3. */
  lemma PayloadForwardAt0Part3(z: nat)
    requires z == 0
    ensures SendToElem2Elem2(Window(12, 2, [], [], 10, [[A, T], [G, C]], 2, -1, 2), 1, z, [], []) == Ok(Walk(false, []))
  {
    assert SendToElem2Elem2(Window(12, 2, [], [], 10, [[A, T], [G, C]], 2, -1, 2), 1, z, [], []) == Ok(Walk(false, []));
  }

  /** The stem walks of PayloadForwardAt0, part 4. */
  lemma PayloadForwardAt0Part4(z: nat)
    requires z == 0
    ensures SendToElem1Elem2(Window(12, 2, [], [], 10, [[A, T], [G, C]], 2, -1, 2), 1, z, [], []) == Ok(Walk(false, []))
  {
    assert SendToElem1Elem2(Window(12, 2, [], [], 10, [[A, T], [G, C]], 2, -1, 2), 1, z, [], []) == Ok(Walk(false, []));
  }

  /** The stem walks of PayloadForwardAt0, part 5. */
  lemma PayloadForwardAt0Part5(z: nat)
    requires z == 0
    ensures Interrupts11(Window(12, 2, [], [], 10, [[A, T], [G, C]], 2, -1, 2), [], [], 1, 1, z) == Ok(Walk(false, []))
  {
    PayloadForwardAt0Part2(z);
    PayloadForwardAt0Part3(z);
    PayloadForwardAt0Part4(z);
    var nil: seq<nat> := [];
    assert nil + nil == nil && nil + nil + nil == nil;
    assert Interrupts11(Window(12, 2, [], [], 10, [[A, T], [G, C]], 2, -1, 2), [], [], 1, 1, z) == Ok(Walk(false, []));
  }

  /** The stem walks of PayloadForwardAt0, part 6. */
  lemma PayloadForwardAt0Part6(z: nat)
    requires z == 0
    ensures SendToElem2Elem1(Window(12, 2, [], [], 10, [[A, T], [G, C]], 2, -1, 2), 0, z, [], []) == Ok(Walk(false, []))
  {
    assert SendToElem2Elem1(Window(12, 2, [], [], 10, [[A, T], [G, C]], 2, -1, 2), 0, z, [], []) == Ok(Walk(false, []));
  }

  /** The stem walks of PayloadForwardAt0, part 7. */
  lemma PayloadForwardAt0Part7(z: nat)
    requires z == 0
    ensures SendToElem2Elem2(Window(12, 2, [], [], 10, [[A, T], [G, C]], 2, -1, 2), 0, z, [], []) == Ok(Walk(false, []))
  {
    assert SendToElem2Elem2(Window(12, 2, [], [], 10, [[A, T], [G, C]], 2, -1, 2), 0, z, [], []) == Ok(Walk(false, []));
  }

  /** The stem walks of PayloadForwardAt0, part 8. */
  lemma PayloadForwardAt0Part8(z: nat)
    requires z == 0
    ensures SendToElem1Elem2(Window(12, 2, [], [], 10, [[A, T], [G, C]], 2, -1, 2), 0, z, [], []) == Ok(Walk(false, []))
  {
    assert SendToElem1Elem2(Window(12, 2, [], [], 10, [[A, T], [G, C]], 2, -1, 2), 0, z, [], []) == Ok(Walk(false, []));
  }

  /** The stem walks of PayloadForwardAt0, part 9. */
  lemma PayloadForwardAt0Part9(z: nat)
    requires z == 0
    ensures Interrupts11(Window(12, 2, [], [], 10, [[A, T], [G, C]], 2, -1, 2), [], [], 1, 0, z) == Ok(Walk(false, []))
  {
    PayloadForwardAt0Part6(z);
    PayloadForwardAt0Part7(z);
    PayloadForwardAt0Part8(z);
    var nil: seq<nat> := [];
    assert nil + nil == nil && nil + nil + nil == nil;
    assert Interrupts11(Window(12, 2, [], [], 10, [[A, T], [G, C]], 2, -1, 2), [], [], 1, 0, z) == Ok(Walk(false, []));
  }

  /** The stem walks of PayloadForwardAt0, part 10. */
  lemma PayloadForwardAt0Part10(z: nat)
    requires z == 0
    ensures Walk11(Window(12, 2, [], [], 10, [[A, T], [G, C]], 2, -1, 2), [], [], 1, -1, z) == Ok([])
  {
    assert Walk11(Window(12, 2, [], [], 10, [[A, T], [G, C]], 2, -1, 2), [], [], 1, -1, z) == Ok([]);
  }

  /** The stem walks of PayloadForwardAt0, part 11. */
  lemma PayloadForwardAt0Part11(z: nat)
    requires z == 0
    ensures Walk11(Window(12, 2, [], [], 10, [[A, T], [G, C]], 2, -1, 2), [], [], 1, 0, z) == Ok([])
  {
    PayloadForwardAt0Part9(z);
    PayloadForwardAt0Part10(z);
    assert Walk11(Window(12, 2, [], [], 10, [[A, T], [G, C]], 2, -1, 2), [], [], 1, 0, z) == Ok([]);
  }

  /** The stem walks of PayloadForwardAt0, part 12. */
  lemma PayloadForwardAt0Part12(z: nat)
    requires z == 0
    ensures Walk11(Window(12, 2, [], [], 10, [[A, T], [G, C]], 2, -1, 2), [], [], 1, 1, z) == Ok([])
  {
    PayloadForwardAt0Part5(z);
    PayloadForwardAt0Part11(z);
    assert Walk11(Window(12, 2, [], [], 10, [[A, T], [G, C]], 2, -1, 2), [], [], 1, 1, z) == Ok([]);
  }

  /** The stem walks of PayloadForwardAt0, part 13. */
  lemma PayloadForwardAt0Part13(z: nat)
    requires z == 0
    ensures CountAll(Window(12, 2, [], [], 10, [[A, T], [G, C]], 2, -1, 2), Elem1Elem1, [], 1, z) == Ok([])
  {
    assert CountAll(Window(12, 2, [], [], 10, [[A, T], [G, C]], 2, -1, 2), Elem1Elem1, [], 1, z) == Ok([]);
  }

  /** The stem walks of PayloadForwardAt0, part 14. */
  lemma PayloadForwardAt0Part14(z: nat)
    requires z == 0
    ensures CountAll(Window(12, 2, [], [], 10, [[A, T], [G, C]], 2, -1, 2), Elem1Elem1, [([], [])], 1, z) == Ok([])
  {
    PayloadForwardAt0Part12(z);
    PayloadForwardAt0Part13(z);
    var nil: seq<nat> := [];
    assert nil + nil == nil && nil + nil + nil == nil;
    var w := Window(12, 2, [], [], 10, [[A, T], [G, C]], 2, -1, 2);
    assert Shaped(w);
    assert InClass(w, Elem1Elem1, 1);
    assert !InClass(w, Elem1Elem2, 1);
    assert !InClass(w, Elem2Elem1, 1);
    assert !InClass(w, Elem2Elem2, 1);
    assert CountAll(w, Elem1Elem1, [([], [])], 1, z) == Ok([]);
  }

  /** The stem walks of PayloadForwardAt0, part 15. */
  lemma PayloadForwardAt0Part15(z: nat)
    requires z == 0
    ensures SendToElem1Elem1(Window(12, 2, [], [], 10, [[A, T], [G, C]], 2, -1, 2), 1, z, [], []) == Ok(Walk(true, []))
  {
    PayloadForwardAt0Part1(z);
    PayloadForwardAt0Part14(z);
    assert SendToElem1Elem1(Window(12, 2, [], [], 10, [[A, T], [G, C]], 2, -1, 2), 1, z, [], []) == Ok(Walk(true, []));
  }

  /** The stem walks of PayloadForwardAt0, part 16. */
  lemma PayloadForwardAt0Part16(z: nat)
    requires z == 0
    ensures SendToAllPos1Elem1(Window(12, 2, [], [], 10, [[A, T], [G, C]], 2, -1, 2), 1, z, [], [], []) == Ok(Walk(true, []))
  {
    PayloadForwardAt0Part15(z);
    assert SendToAllPos1Elem1(Window(12, 2, [], [], 10, [[A, T], [G, C]], 2, -1, 2), 1, z, [], [], []) == Ok(Walk(true, []));
  }

  /** The stem walks of PayloadForwardAt0, part 17. */
  lemma PayloadForwardAt0Part17(z: nat)
    requires z == 0
    ensures AllCheckLoop(Window(12, 2, [], [], 10, [[A, T], [G, C]], 2, -1, 2), 1, z, [], [], [], []) == Ok(Walk(true, []))
  {
    PayloadForwardAt0Part16(z);
    assert AllCheckLoop(Window(12, 2, [], [], 10, [[A, T], [G, C]], 2, -1, 2), 1, z, [], [], [], []) == Ok(Walk(true, []));
  }

  /** The stem walks of PayloadForwardAt0. */
  lemma PayloadForwardAt0Walks(z: nat)
    requires z == 0
    ensures SendToAllCheck(Window(12, 2, [], [], 10, [[A, T], [G, C]], 2, -1, 2), 1, z, [], [], [], []) == Ok(Walk(true, []))
  {
    PayloadForwardAt0Part17(z);
    assert SendToAllCheck(Window(12, 2, [], [], 10, [[A, T], [G, C]], 2, -1, 2), 1, z, [], [], [], []) == Ok(Walk(true, []));
  }

  /** The search from start position -1, forward, empty payload, joints AT and GC, loop size 1: nothing is recorded. */
  lemma PayloadForwardAt0()
    ensures SearchAt(PayloadTest, [], [], [[A, T], [G, C]], false, true, -1, 1) == Ok([])
  {
    PayloadForwardAt0Walks(0);
    assert MakeWindow(PayloadTest, [], [], [[A, T], [G, C]], false, true, -1, 1) == Window(12, 2, [], [], 10, [[A, T], [G, C]], 2, -1, 2);
  }

  /** The stem walks of PayloadForwardAt1, part 1. */
  lemma PayloadForwardAt1Part1(z: nat)
    requires z == 0
    ensures SendToElem1Elem1(Window(12, 2, [], [], 10, [[A, T], [G, C]], 2, -2, 1), 1, z, [], []) == Ok(Walk(false, []))
  {
    assert SendToElem1Elem1(Window(12, 2, [], [], 10, [[A, T], [G, C]], 2, -2, 1), 1, z, [], []) == Ok(Walk(false, []));
  }

  /** The stem walks of PayloadForwardAt1, part 2. */
  lemma PayloadForwardAt1Part2(z: nat)
    requires z == 0
    ensures SendToElem1Elem2(Window(12, 2, [], [], 10, [[A, T], [G, C]], 2, -2, 1), 1, z, [], []) == Ok(Walk(false, []))
  {
    assert SendToElem1Elem2(Window(12, 2, [], [], 10, [[A, T], [G, C]], 2, -2, 1), 1, z, [], []) == Ok(Walk(false, []));
  }

  /** The stem walks of PayloadForwardAt1, part 3. */
  lemma PayloadForwardAt1Part3(z: nat)
    requires z == 0
    ensures SendToAllPos1Elem1(Window(12, 2, [], [], 10, [[A, T], [G, C]], 2, -2, 1), 1, z, [], [], []) == Ok(Walk(false, []))
  {
    PayloadForwardAt1Part1(z);
    PayloadForwardAt1Part2(z);
    var nil: seq<nat> := [];
    assert nil + nil == nil && nil + nil + nil == nil;
    assert SendToAllPos1Elem1(Window(12, 2, [], [], 10, [[A, T], [G, C]], 2, -2, 1), 1, z, [], [], []) == Ok(Walk(false, []));
  }

  /** The stem walks of PayloadForwardAt1, part 4. */
  lemma PayloadForwardAt1Part4(z: nat)
    requires z == 0
    ensures SendToElem2Elem1(Window(12, 2, [], [], 10, [[A, T], [G, C]], 2, -2, 1), 1, z, [], []) == Ok(Walk(false, []))
  {
    assert SendToElem2Elem1(Window(12, 2, [], [], 10, [[A, T], [G, C]], 2, -2, 1), 1, z, [], []) == Ok(Walk(false, []));
  }

  /** The stem walks of PayloadForwardAt1, part 5. */
  lemma PayloadForwardAt1Part5(z: nat)
    requires z == 0
    ensures SendToElem2Elem2(Window(12, 2, [], [], 10, [[A, T], [G, C]], 2, -2, 1), 1, z, [], []) == Ok(Walk(false, []))
  {
    assert SendToElem2Elem2(Window(12, 2, [], [], 10, [[A, T], [G, C]], 2, -2, 1), 1, z, [], []) == Ok(Walk(false, []));
  }

  /** The stem walks of PayloadForwardAt1, part 6. */
  lemma PayloadForwardAt1Part6(z: nat)
    requires z == 0
    ensures SendToAllPos1Elem2(Window(12, 2, [], [], 10, [[A, T], [G, C]], 2, -2, 1), 1, z, [], [], []) == Ok(Walk(false, []))
  {
    PayloadForwardAt1Part4(z);
    PayloadForwardAt1Part5(z);
    var nil: seq<nat> := [];
    assert nil + nil == nil && nil + nil + nil == nil;
    assert SendToAllPos1Elem2(Window(12, 2, [], [], 10, [[A, T], [G, C]], 2, -2, 1), 1, z, [], [], []) == Ok(Walk(false, []));
  }

  /** The stem walks of PayloadForwardAt1, part 7. */
  lemma PayloadForwardAt1Part7(z: nat)
    requires z == 0
    ensures SendToElem1Elem1(Window(12, 2, [], [], 10, [[A, T], [G, C]], 2, -2, 1), 0, z, [], []) == Ok(Walk(false, []))
  {
    assert SendToElem1Elem1(Window(12, 2, [], [], 10, [[A, T], [G, C]], 2, -2, 1), 0, z, [], []) == Ok(Walk(false, []));
  }

  /** The stem walks of PayloadForwardAt1, part 8. */
  lemma PayloadForwardAt1Part8(z: nat)
    requires z == 0
    ensures SendToElem1Elem2(Window(12, 2, [], [], 10, [[A, T], [G, C]], 2, -2, 1), 0, z, [], []) == Ok(Walk(false, []))
  {
    assert SendToElem1Elem2(Window(12, 2, [], [], 10, [[A, T], [G, C]], 2, -2, 1), 0, z, [], []) == Ok(Walk(false, []));
  }

  /** The stem walks of PayloadForwardAt1, part 9. */
  lemma PayloadForwardAt1Part9(z: nat)
    requires z == 0
    ensures SendToAllPos1Elem1(Window(12, 2, [], [], 10, [[A, T], [G, C]], 2, -2, 1), 0, z, [], [], []) == Ok(Walk(false, []))
  {
    PayloadForwardAt1Part7(z);
    PayloadForwardAt1Part8(z);
    var nil: seq<nat> := [];
    assert nil + nil == nil && nil + nil + nil == nil;
    assert SendToAllPos1Elem1(Window(12, 2, [], [], 10, [[A, T], [G, C]], 2, -2, 1), 0, z, [], [], []) == Ok(Walk(false, []));
  }

  /** The stem walks of PayloadForwardAt1, part 10. */
  lemma PayloadForwardAt1Part10(z: nat)
    requires z == 0
    ensures SendToElem2Elem1(Window(12, 2, [], [], 10, [[A, T], [G, C]], 2, -2, 1), 0, z, [], []) == Ok(Walk(false, []))
  {
    assert SendToElem2Elem1(Window(12, 2, [], [], 10, [[A, T], [G, C]], 2, -2, 1), 0, z, [], []) == Ok(Walk(false, []));
  }

  /** The stem walks of PayloadForwardAt1, part 11. */
  lemma PayloadForwardAt1Part11(z: nat)
    requires z == 0
    ensures SendToElem2Elem2(Window(12, 2, [], [], 10, [[A, T], [G, C]], 2, -2, 1), 0, z, [], []) == Ok(Walk(false, []))
  {
    assert SendToElem2Elem2(Window(12, 2, [], [], 10, [[A, T], [G, C]], 2, -2, 1), 0, z, [], []) == Ok(Walk(false, []));
  }

  /** The stem walks of PayloadForwardAt1, part 12. */
  lemma PayloadForwardAt1Part12(z: nat)
    requires z == 0
    ensures SendToAllPos1Elem2(Window(12, 2, [], [], 10, [[A, T], [G, C]], 2, -2, 1), 0, z, [], [], []) == Ok(Walk(false, []))
  {
    PayloadForwardAt1Part10(z);
    PayloadForwardAt1Part11(z);
    var nil: seq<nat> := [];
    assert nil + nil == nil && nil + nil + nil == nil;
    assert SendToAllPos1Elem2(Window(12, 2, [], [], 10, [[A, T], [G, C]], 2, -2, 1), 0, z, [], [], []) == Ok(Walk(false, []));
  }

  /** The stem walks of PayloadForwardAt1, part 13. */
  lemma PayloadForwardAt1Part13(z: nat)
    requires z == 0
    ensures AllCheckLoop(Window(12, 2, [], [], 10, [[A, T], [G, C]], 2, -2, 1), -1, z, [], [], [], []) == Ok(Walk(false, []))
  {
    assert AllCheckLoop(Window(12, 2, [], [], 10, [[A, T], [G, C]], 2, -2, 1), -1, z, [], [], [], []) == Ok(Walk(false, []));
  }

  /** The stem walks of PayloadForwardAt1, part 14. */
  lemma PayloadForwardAt1Part14(z: nat)
    requires z == 0
    ensures AllCheckLoop(Window(12, 2, [], [], 10, [[A, T], [G, C]], 2, -2, 1), 0, z, [], [], [], []) == Ok(Walk(false, []))
  {
    PayloadForwardAt1Part9(z);
    PayloadForwardAt1Part12(z);
    PayloadForwardAt1Part13(z);
    assert AllCheckLoop(Window(12, 2, [], [], 10, [[A, T], [G, C]], 2, -2, 1), 0, z, [], [], [], []) == Ok(Walk(false, []));
  }

  /** The stem walks of PayloadForwardAt1, part 15. */
  lemma PayloadForwardAt1Part15(z: nat)
    requires z == 0
    ensures AllCheckLoop(Window(12, 2, [], [], 10, [[A, T], [G, C]], 2, -2, 1), 1, z, [], [], [], []) == Ok(Walk(false, []))
  {
    PayloadForwardAt1Part3(z);
    PayloadForwardAt1Part6(z);
    PayloadForwardAt1Part14(z);
    assert AllCheckLoop(Window(12, 2, [], [], 10, [[A, T], [G, C]], 2, -2, 1), 1, z, [], [], [], []) == Ok(Walk(false, []));
  }

  /** The stem walks of PayloadForwardAt1. */
  lemma PayloadForwardAt1Walks(z: nat)
    requires z == 0
    ensures SendToAllCheck(Window(12, 2, [], [], 10, [[A, T], [G, C]], 2, -2, 1), 1, z, [], [], [], []) == Ok(Walk(false, []))
  {
    PayloadForwardAt1Part15(z);
    assert SendToAllCheck(Window(12, 2, [], [], 10, [[A, T], [G, C]], 2, -2, 1), 1, z, [], [], [], []) == Ok(Walk(false, []));
  }

  /** The search from start position -2, forward, empty payload, joints AT and GC, loop size 1: nothing is recorded. */
  lemma PayloadForwardAt1()
    ensures SearchAt(PayloadTest, [], [], [[A, T], [G, C]], false, true, -2, 1) == Ok([])
  {
    PayloadForwardAt1Walks(0);
    assert MakeWindow(PayloadTest, [], [], [[A, T], [G, C]], false, true, -2, 1) == Window(12, 2, [], [], 10, [[A, T], [G, C]], 2, -2, 1);
  }

  /** An empty key scores zero backward against the keys AG and GC (key_penalties_tests.py:367-380). */
  lemma EmptyKeyBackwardScoresZero()
    ensures BackwardHairpinCounter(KeyTest, 5.0, [], [[A, G], [G, C]], [], true, false) == Ok(Penalty(0.0, []))
  {
    var nil: seq<nat> := [];
    assert nil + nil == nil;
    KeyBackwardAt0();
    assert LoopLengths(KeyTest, [], [[A, G], [G, C]], [], true, false, -1, 11, 10) == Ok([]);
    assert LoopLengths(KeyTest, [], [[A, G], [G, C]], [], true, false, -1, 10, 10) == Ok([]);
    assert AtStartPosLengths(KeyTest, [], [[A, G], [G, C]], [], true, false, -1, -1, -1) == Ok([]);
    KeyBackwardAt1();
    assert LoopLengths(KeyTest, [], [[A, G], [G, C]], [], true, false, -2, 11, 10) == Ok([]);
    assert LoopLengths(KeyTest, [], [[A, G], [G, C]], [], true, false, -2, 10, 10) == Ok([]);
    assert AtStartPosLengths(KeyTest, [], [[A, G], [G, C]], [], true, false, -2, -1, -1) == Ok([]);
    assert CounterLengths(KeyTest, [], [[A, G], [G, C]], [], true, false, 2) == Ok([]);
    assert CounterLengths(KeyTest, [], [[A, G], [G, C]], [], true, false, 1) == Ok([]);
    assert CounterLengths(KeyTest, [], [[A, G], [G, C]], [], true, false, 0) == Ok([]);
  }

  /** An empty payload scores zero backward against the joints AT and GC (payload_penalties_tests.py:444-457). */
  lemma EmptyPayloadBackwardScoresZero()
    ensures BackwardHairpinCounter(PayloadTest, 5.0, [], [], [[A, T], [G, C]], false, false) == Ok(Penalty(0.0, []))
  {
    var nil: seq<nat> := [];
    assert nil + nil == nil;
    PayloadBackwardAt0();
    assert LoopLengths(PayloadTest, [], [], [[A, T], [G, C]], false, false, -1, 2, 1) == Ok([]);
    assert LoopLengths(PayloadTest, [], [], [[A, T], [G, C]], false, false, -1, 1, 1) == Ok([]);
    assert AtStartPosLengths(PayloadTest, [], [], [[A, T], [G, C]], false, false, -1, -1, -1) == Ok([]);
    PayloadBackwardAt1();
    assert LoopLengths(PayloadTest, [], [], [[A, T], [G, C]], false, false, -2, 2, 1) == Ok([]);
    assert LoopLengths(PayloadTest, [], [], [[A, T], [G, C]], false, false, -2, 1, 1) == Ok([]);
    assert AtStartPosLengths(PayloadTest, [], [], [[A, T], [G, C]], false, false, -2, -1, -1) == Ok([]);
    assert CounterLengths(PayloadTest, [], [], [[A, T], [G, C]], false, false, 2) == Ok([]);
    assert CounterLengths(PayloadTest, [], [], [[A, T], [G, C]], false, false, 1) == Ok([]);
    assert CounterLengths(PayloadTest, [], [], [[A, T], [G, C]], false, false, 0) == Ok([]);
  }

  /** An empty payload scores zero forward against the joints AT and GC (payload_penalties_tests.py:685-698). */
  lemma EmptyPayloadForwardScoresZero()
    ensures ForwardHairpinCounter(PayloadTest, 5.0, [], [], [[A, T], [G, C]], false, false) == Ok(Penalty(0.0, []))
  {
    var nil: seq<nat> := [];
    assert nil + nil == nil;
    PayloadForwardAt0();
    assert LoopLengths(PayloadTest, [], [], [[A, T], [G, C]], false, true, -1, 2, 1) == Ok([]);
    assert LoopLengths(PayloadTest, [], [], [[A, T], [G, C]], false, true, -1, 1, 1) == Ok([]);
    assert AtStartPosLengths(PayloadTest, [], [], [[A, T], [G, C]], false, true, -1, -1, -1) == Ok([]);
    PayloadForwardAt1();
    assert LoopLengths(PayloadTest, [], [], [[A, T], [G, C]], false, true, -2, 2, 1) == Ok([]);
    assert LoopLengths(PayloadTest, [], [], [[A, T], [G, C]], false, true, -2, 1, 1) == Ok([]);
    assert AtStartPosLengths(PayloadTest, [], [], [[A, T], [G, C]], false, true, -2, -1, -1) == Ok([]);
    assert CounterLengths(PayloadTest, [], [], [[A, T], [G, C]], false, true, 2) == Ok([]);
    assert CounterLengths(PayloadTest, [], [], [[A, T], [G, C]], false, true, 1) == Ok([]);
    assert CounterLengths(PayloadTest, [], [], [[A, T], [G, C]], false, true, 0) == Ok([]);
  }

  /** hairpin_penalty of the empty payload against the joints AT and GC: both directions score zero. */
  lemma EmptyPayloadHairpinPenaltyZero()
    ensures HairpinPenalty(PayloadTest, 5.0, [], [], [[A, T], [G, C]], false) == Ok(Zero)
  {
    EmptyPayloadForwardScoresZero();
    EmptyPayloadBackwardScoresZero();
    var nil: seq<Power> := [];
    assert nil + nil == nil;
  }

  /** The stem walks of BackwardIndexErrorAt, part 1. */
  lemma BackwardIndexErrorAtPart1(z: nat)
    requires z == 0
    ensures SendToElem1Elem1(Window(10, 3, [T, C, C, C, G, G], [], 6, [[C, A, G, T]], 4, 5, -1), 2, z, [], []) == Ok(Walk(false, []))
  {
    assert SendToElem1Elem1(Window(10, 3, [T, C, C, C, G, G], [], 6, [[C, A, G, T]], 4, 5, -1), 2, z, [], []) == Ok(Walk(false, []));
  }

  /** The stem walks of BackwardIndexErrorAt, part 2. */
  lemma BackwardIndexErrorAtPart2(z: nat)
    requires z == 0
    ensures SendToElem1Elem2(Window(10, 3, [T, C, C, C, G, G], [], 6, [[C, A, G, T]], 4, 5, -1), 2, z, [], []) == Ok(Walk(false, []))
  {
    assert SendToElem1Elem2(Window(10, 3, [T, C, C, C, G, G], [], 6, [[C, A, G, T]], 4, 5, -1), 2, z, [], []) == Ok(Walk(false, []));
  }

  /** The stem walks of BackwardIndexErrorAt, part 3. */
  lemma BackwardIndexErrorAtPart3(z: nat)
    requires z == 0
    ensures SendToAllPos1Elem1(Window(10, 3, [T, C, C, C, G, G], [], 6, [[C, A, G, T]], 4, 5, -1), 2, z, [], [], []) == Ok(Walk(false, []))
  {
    BackwardIndexErrorAtPart1(z);
    BackwardIndexErrorAtPart2(z);
    var nil: seq<nat> := [];
    assert nil + nil == nil && nil + nil + nil == nil;
    assert SendToAllPos1Elem1(Window(10, 3, [T, C, C, C, G, G], [], 6, [[C, A, G, T]], 4, 5, -1), 2, z, [], [], []) == Ok(Walk(false, []));
  }

  /** The stem walks of BackwardIndexErrorAt, part 4. */
  lemma BackwardIndexErrorAtPart4(z: nat)
    requires z == 0
    ensures SendToElem2Elem1(Window(10, 3, [T, C, C, C, G, G], [], 6, [[C, A, G, T]], 4, 5, -1), 2, z, [], []) == Ok(Walk(false, []))
  {
    assert SendToElem2Elem1(Window(10, 3, [T, C, C, C, G, G], [], 6, [[C, A, G, T]], 4, 5, -1), 2, z, [], []) == Ok(Walk(false, []));
  }

  /** The stem walks of BackwardIndexErrorAt, part 5. */
  lemma BackwardIndexErrorAtPart5(z: nat)
    requires z == 0
    ensures Pairs22(Window(10, 3, [T, C, C, C, G, G], [], 6, [[C, A, G, T]], 4, 5, -1), 2, [], []) == [([C, A, G, T], [C, A, G, T])]
  {
    assert Pairs22(Window(10, 3, [T, C, C, C, G, G], [], 6, [[C, A, G, T]], 4, 5, -1), 2, [], []) == [([C, A, G, T], [C, A, G, T])];
  }

  /** The stem walks of BackwardIndexErrorAt, part 6. */
  lemma BackwardIndexErrorAtPart6(z: nat)
    requires z == 0
    ensures SendToElem1Elem2(Window(10, 3, [T, C, C, C, G, G], [], 6, [[C, A, G, T]], 4, 5, -1), 2, z, [], [C, A, G, T]) == Ok(Walk(false, []))
  {
    var nil: seq<nat> := [];
    assert nil + nil == nil && nil + nil + nil == nil;
    assert SendToElem1Elem2(Window(10, 3, [T, C, C, C, G, G], [], 6, [[C, A, G, T]], 4, 5, -1), 2, z, [], [C, A, G, T]) == Ok(Walk(false, []));
  }

  /** The stem walks of BackwardIndexErrorAt, part 7. */
  lemma BackwardIndexErrorAtPart7(z: nat)
    requires z == 0
    ensures SendToElem2Elem1(Window(10, 3, [T, C, C, C, G, G], [], 6, [[C, A, G, T]], 4, 5, -1), 2, z, [C, A, G, T], []) == Ok(Walk(false, []))
  {
    assert SendToElem2Elem1(Window(10, 3, [T, C, C, C, G, G], [], 6, [[C, A, G, T]], 4, 5, -1), 2, z, [C, A, G, T], []) == Ok(Walk(false, []));
  }

  /** The stem walks of BackwardIndexErrorAt, part 8. */
  lemma BackwardIndexErrorAtPart8(z: nat)
    requires z == 0
    ensures Interrupts22(Window(10, 3, [T, C, C, C, G, G], [], 6, [[C, A, G, T]], 4, 5, -1), [C, A, G, T], [C, A, G, T], 2, 2, z) == Ok(Walk(false, []))
  {
    BackwardIndexErrorAtPart1(z);
    BackwardIndexErrorAtPart6(z);
    BackwardIndexErrorAtPart7(z);
    var nil: seq<nat> := [];
    assert nil + nil == nil && nil + nil + nil == nil;
    assert Interrupts22(Window(10, 3, [T, C, C, C, G, G], [], 6, [[C, A, G, T]], 4, 5, -1), [C, A, G, T], [C, A, G, T], 2, 2, z) == Ok(Walk(false, []));
  }

  /** The stem walks of BackwardIndexErrorAt, part 9. */
  lemma BackwardIndexErrorAtPart9(z: nat)
    requires z == 0
    ensures SendToElem1Elem1(Window(10, 3, [T, C, C, C, G, G], [], 6, [[C, A, G, T]], 4, 5, -1), 1, z + 1, [], []) == Ok(Walk(false, []))
  {
    assert SendToElem1Elem1(Window(10, 3, [T, C, C, C, G, G], [], 6, [[C, A, G, T]], 4, 5, -1), 1, z + 1, [], []) == Ok(Walk(false, []));
  }

  /** The stem walks of BackwardIndexErrorAt, part 10. */
  lemma BackwardIndexErrorAtPart10(z: nat)
    requires z == 0
    ensures SendToElem1Elem2(Window(10, 3, [T, C, C, C, G, G], [], 6, [[C, A, G, T]], 4, 5, -1), 1, z + 1, [], [C, A, G, T]) == Ok(Walk(false, []))
  {
    assert SendToElem1Elem2(Window(10, 3, [T, C, C, C, G, G], [], 6, [[C, A, G, T]], 4, 5, -1), 1, z + 1, [], [C, A, G, T]) == Ok(Walk(false, []));
  }

  /** The stem walks of BackwardIndexErrorAt, part 11. */
  lemma BackwardIndexErrorAtPart11(z: nat)
    requires z == 0
    ensures SendToElem2Elem1(Window(10, 3, [T, C, C, C, G, G], [], 6, [[C, A, G, T]], 4, 5, -1), 1, z + 1, [C, A, G, T], []) == Ok(Walk(false, []))
  {
    assert SendToElem2Elem1(Window(10, 3, [T, C, C, C, G, G], [], 6, [[C, A, G, T]], 4, 5, -1), 1, z + 1, [C, A, G, T], []) == Ok(Walk(false, []));
  }

  /** The stem walks of BackwardIndexErrorAt, part 12. */
  lemma BackwardIndexErrorAtPart12(z: nat)
    requires z == 0
    ensures Interrupts22(Window(10, 3, [T, C, C, C, G, G], [], 6, [[C, A, G, T]], 4, 5, -1), [C, A, G, T], [C, A, G, T], 2, 1, z + 1) == Ok(Walk(false, []))
  {
    BackwardIndexErrorAtPart9(z);
    BackwardIndexErrorAtPart10(z);
    BackwardIndexErrorAtPart11(z);
    var nil: seq<nat> := [];
    assert nil + nil == nil && nil + nil + nil == nil;
    assert Interrupts22(Window(10, 3, [T, C, C, C, G, G], [], 6, [[C, A, G, T]], 4, 5, -1), [C, A, G, T], [C, A, G, T], 2, 1, z + 1) == Ok(Walk(false, []));
  }

  /** The stem walks of BackwardIndexErrorAt, part 13. */
  lemma BackwardIndexErrorAtPart13(z: nat)
    requires z == 0
    ensures Walk22(Window(10, 3, [T, C, C, C, G, G], [], 6, [[C, A, G, T]], 4, 5, -1), [C, A, G, T], [C, A, G, T], 2, 1, z + 1).Err?
  {
    BackwardIndexErrorAtPart12(z);
    assert Walk22(Window(10, 3, [T, C, C, C, G, G], [], 6, [[C, A, G, T]], 4, 5, -1), [C, A, G, T], [C, A, G, T], 2, 1, z + 1).Err?;
  }

  /** The stem walks of BackwardIndexErrorAt, part 14. */
  lemma BackwardIndexErrorAtPart14(z: nat)
    requires z == 0
    ensures Walk22(Window(10, 3, [T, C, C, C, G, G], [], 6, [[C, A, G, T]], 4, 5, -1), [C, A, G, T], [C, A, G, T], 2, 2, z).Err?
  {
    BackwardIndexErrorAtPart8(z);
    BackwardIndexErrorAtPart13(z);
    assert Walk22(Window(10, 3, [T, C, C, C, G, G], [], 6, [[C, A, G, T]], 4, 5, -1), [C, A, G, T], [C, A, G, T], 2, 2, z).Err?;
  }

  /** The stem walks of BackwardIndexErrorAt, part 15. */
  lemma BackwardIndexErrorAtPart15(z: nat)
    requires z == 0
    ensures CountAll(Window(10, 3, [T, C, C, C, G, G], [], 6, [[C, A, G, T]], 4, 5, -1), Elem2Elem2, [([C, A, G, T], [C, A, G, T])], 2, z).Err?
  {
    BackwardIndexErrorAtPart14(z);
    assert CountAll(Window(10, 3, [T, C, C, C, G, G], [], 6, [[C, A, G, T]], 4, 5, -1), Elem2Elem2, [([C, A, G, T], [C, A, G, T])], 2, z).Err?;
  }

  /** The stem walks of BackwardIndexErrorAt, part 16. */
  lemma BackwardIndexErrorAtPart16(z: nat)
    requires z == 0
    ensures SendToElem2Elem2(Window(10, 3, [T, C, C, C, G, G], [], 6, [[C, A, G, T]], 4, 5, -1), 2, z, [], []).Err?
  {
    BackwardIndexErrorAtPart5(z);
    BackwardIndexErrorAtPart15(z);
    assert SendToElem2Elem2(Window(10, 3, [T, C, C, C, G, G], [], 6, [[C, A, G, T]], 4, 5, -1), 2, z, [], []).Err?;
  }

  /** The stem walks of BackwardIndexErrorAt, part 17. */
  lemma BackwardIndexErrorAtPart17(z: nat)
    requires z == 0
    ensures SendToAllPos1Elem2(Window(10, 3, [T, C, C, C, G, G], [], 6, [[C, A, G, T]], 4, 5, -1), 2, z, [], [], []).Err?
  {
    BackwardIndexErrorAtPart4(z);
    BackwardIndexErrorAtPart16(z);
    assert SendToAllPos1Elem2(Window(10, 3, [T, C, C, C, G, G], [], 6, [[C, A, G, T]], 4, 5, -1), 2, z, [], [], []).Err?;
  }

  /** The stem walks of BackwardIndexErrorAt, part 18. */
  lemma BackwardIndexErrorAtPart18(z: nat)
    requires z == 0
    ensures AllCheckLoop(Window(10, 3, [T, C, C, C, G, G], [], 6, [[C, A, G, T]], 4, 5, -1), 2, z, [], [], [], []).Err?
  {
    BackwardIndexErrorAtPart3(z);
    BackwardIndexErrorAtPart17(z);
    assert AllCheckLoop(Window(10, 3, [T, C, C, C, G, G], [], 6, [[C, A, G, T]], 4, 5, -1), 2, z, [], [], [], []).Err?;
  }

  /** The stem walks of BackwardIndexErrorAt. */
  lemma BackwardIndexErrorAtWalks(z: nat)
    requires z == 0
    ensures SendToAllCheck(Window(10, 3, [T, C, C, C, G, G], [], 6, [[C, A, G, T]], 4, 5, -1), 2, z, [], [], [], []).Err?
  {
    BackwardIndexErrorAtPart18(z);
    assert SendToAllCheck(Window(10, 3, [T, C, C, C, G, G], [], 6, [[C, A, G, T]], 4, 5, -1), 2, z, [], [], [], []).Err?;
  }

  /** The backward search from position 5 of TCCCGG against the joint CAGT with loop size 3 reads the joint at index -6, before its start. */
  lemma BackwardIndexErrorAt()
    ensures SearchAt(ErrTest, [T, C, C, C, G, G], [], [[C, A, G, T]], false, false, 5, 3).Err?
  {
    BackwardIndexErrorAtWalks(0);
    assert MakeWindow(ErrTest, [T, C, C, C, G, G], [], [[C, A, G, T]], false, false, 5, 3) == Window(10, 3, [T, C, C, C, G, G], [], 6, [[C, A, G, T]], 4, 5, -1);
  }

  /**
   * backward_hairpin_counter raises IndexError with an opposite pool: the
   * payload TCCCGG against the joint CAGT fails at its first start position.
   */
  lemma BackwardCounterRaises()
    ensures BackwardHairpinCounter(ErrTest, 5.0, [T, C, C, C, G, G], [], [[C, A, G, T]], false, false).Err?
  {
    BackwardIndexErrorAt();
    assert LoopLengths(ErrTest, [T, C, C, C, G, G], [], [[C, A, G, T]], false, false, 5, 3, 3).Err?;
    assert AtStartPosLengths(ErrTest, [T, C, C, C, G, G], [], [[C, A, G, T]], false, false, 5, -1, -1).Err?;
    assert CounterLengths(ErrTest, [T, C, C, C, G, G], [], [[C, A, G, T]], false, false, 0).Err?;
  }
}
