/**
 * The homopolymer runs that add_homopolymer_over_motifs_stats
 * (validation.py) finds where motif parts meet: a run through a payload
 * that is one nucleotide throughout, a run through such a joint, and the
 * runs where a payload's first or last run meets a joint's run of the same
 * nucleotide. Every amount is the run's excess over maxHom, kept when
 * positive, nucleotide by nucleotide in the order A, T, C, G; a nucleotide
 * for which some payload and some joint are both one run throughout stops
 * the scan with the worst case, motifSize * maxPossibleMotifNum.
 */
module MotifBoundaries {
  import opened Nucleotides
  import opened Scores
  import opened Excesses
  import opened Configuration
  import opened MotifStatistics

  /**
   * The runs through an element of one run of `size` bases of n alone
   * (whole > 0), extended on its left by the runs S and on its right by
   * the runs E of n of its neighbours.
   */
  function Across(whole: nat, S: seq<nat>, E: seq<nat>, size: int, maxHom: int): seq<int>
  {
    if whole > 0 then
      if S == [] && E == [] then Over([size], maxHom)
      else if S == [] then Over(Shift(E, size), maxHom)
      else if E == [] then Over(Shift(S, size), maxHom)
      else Over(PairTotals(S, E, size), maxHom)
    else []
  }

  /**
   * Runs through a payload made of n alone, extended by the start joints'
   * last runs and the end joints' first runs of n (validation.py:216-232).
   */
  function AcrossPayload(st: MotifStats, n: Nuc, payloadSize: int, maxHom: int): seq<int>
  {
    Across(st.wholeHomPayload.At(n), st.startJointHom.At(n), st.endJointHom.At(n), payloadSize, maxHom)
  }

  /**
   * validation.py:216-232 as written: when the joints have both last and
   * first runs of n, it pairs the payloads' own first and last runs instead.
   */
  function AcrossPayloadAsWritten(st: MotifStats, n: Nuc, payloadSize: int, maxHom: int): seq<int>
  {
    if st.wholeHomPayload.At(n) > 0 then
      var S, E := st.startJointHom.At(n), st.endJointHom.At(n);
      if S == [] && E == [] then Over([payloadSize], maxHom)
      else if S == [] then Over(Shift(E, payloadSize), maxHom)
      else if E == [] then Over(Shift(S, payloadSize), maxHom)
      else Over(PairTotals(st.startHomPayload.At(n), st.endHomPayload.At(n), payloadSize), maxHom)
    else []
  }

  /**
   * Runs through a joint made of n alone, extended by the payloads' first
   * runs and last runs of n (validation.py:234-250).
   */
  function AcrossJoint(st: MotifStats, n: Nuc, keySize: int, maxHom: int): seq<int>
  {
    Across(st.wholeJointHom.At(n), st.startHomPayload.At(n), st.endHomPayload.At(n), keySize, maxHom)
  }

  /**
   * A payload's last run followed by an end joint's first run, then a start
   * joint's last run followed by a payload's first run (validation.py:252-260).
   */
  function AtEdges(st: MotifStats, n: Nuc, maxHom: int): seq<int>
  {
    Over(PairTotals(st.endHomPayload.At(n), st.endJointHom.At(n), 0), maxHom)
    + Over(PairTotals(st.startHomPayload.At(n), st.startJointHom.At(n), 0), maxHom)
  }

  /** What one nucleotide adds to homOutBoundary when it is not a worst case. */
  function NucBoundary(st: MotifStats, n: Nuc, c: Constraints): (r: seq<int>)
    ensures forall y :: y in r ==> y > 0
  {
    AcrossPayload(st, n, c.payloadSize, c.maxHom) + AcrossJoint(st, n, c.keySize, c.maxHom) + AtEdges(st, n, c.maxHom)
  }

  /** What one nucleotide adds as validation.py:216-260 is written, pairing the payloads' own runs at 229-232. */
  function NucBoundaryAsWritten(st: MotifStats, n: Nuc, c: Constraints): (r: seq<int>)
    ensures |r| >= |AcrossJoint(st, n, c.keySize, c.maxHom) + AtEdges(st, n, c.maxHom)|
  {
    AcrossPayloadAsWritten(st, n, c.payloadSize, c.maxHom) + AcrossJoint(st, n, c.keySize, c.maxHom) + AtEdges(st, n, c.maxHom)
  }

  /** Some payload and some joint are both made of n alone (validation.py:213). */
  predicate Worst(st: MotifStats, n: Nuc)
  {
    st.wholeHomPayload.At(n) > 0 && st.wholeJointHom.At(n) > 0
  }

  /** The index in A, T, C, G of the first worst-case nucleotide from i on, 4 when there is none. */
  function FirstWorst(st: MotifStats, i: nat): (k: nat)
    requires i <= 4
    decreases 4 - i
    ensures i <= k <= 4
  {
    if i == 4 then 4 else if Worst(st, Alphabet[i]) then i else FirstWorst(st, i + 1)
  }

  /** What the first k nucleotides add, in order. */
  function NucsBoundary(st: MotifStats, c: Constraints, k: nat): (r: seq<int>)
    requires k <= 4
    ensures forall y :: y in r ==> y > 0
  {
    if k == 0 then [] else NucsBoundary(st, c, k - 1) + NucBoundary(st, Alphabet[k - 1], c)
  }

  /**
   * One call: the statistics with homOutBoundary extended by the
   * nucleotides scanned before the scan stops, and the returned list.
   */
  function HomCall(st: MotifStats, c: Constraints): (MotifStats, seq<int>)
  {
    var k := FirstWorst(st, 0);
    var st' := st.(homOutBoundary := st.homOutBoundary + NucsBoundary(st, c, k));
    (st', if k < 4 then [c.motifSize * c.maxPossibleMotifNum] else st'.homOutBoundary)
  }

  /** A call that meets a worst case at the i-th nucleotide returns the worst case. */
  lemma HomCallStops(st: MotifStats, c: Constraints, i: nat)
    requires i < 4 && FirstWorst(st, i) == FirstWorst(st, 0) && Worst(st, Alphabet[i])
    ensures HomCall(st, c).0 == st.(homOutBoundary := st.homOutBoundary + NucsBoundary(st, c, i))
    ensures HomCall(st, c).1 == [c.motifSize * c.maxPossibleMotifNum]
  {
  }

  /** A call that meets no worst case returns the extended homOutBoundary. */
  lemma HomCallCompletes(st: MotifStats, c: Constraints)
    requires FirstWorst(st, 0) == 4
    ensures HomCall(st, c).0 == st.(homOutBoundary := st.homOutBoundary + NucsBoundary(st, c, 4))
    ensures HomCall(st, c).1 == st.homOutBoundary + NucsBoundary(st, c, 4)
  {
  }

  /** get_motif_and_key_homopolymer_penalty: 0 for an empty list, else its sum. */
  function HomTotal(out: seq<int>): int
  {
    if |out| == 0 then 0 else SumInts(out)
  }

  /** The scan stops exactly at the first worst-case nucleotide, if there is one. */
  lemma {:induction false} FirstWorstMeaning(st: MotifStats, i: nat)
    requires i <= 4
    decreases 4 - i
    ensures FirstWorst(st, i) < 4 <==> exists t :: i <= t < 4 && Worst(st, Alphabet[t])
    ensures FirstWorst(st, i) < 4 ==> Worst(st, Alphabet[FirstWorst(st, i)])
    ensures forall t :: i <= t < FirstWorst(st, i) ==> !Worst(st, Alphabet[t])
  {
    if i < 4 && !Worst(st, Alphabet[i]) {
      FirstWorstMeaning(st, i + 1);
    }
  }

  /**
   * When some nucleotide has both a one-run payload and a one-run joint,
   * the penalty is exactly motifSize * maxPossibleMotifNum; otherwise it is
   * the sum of homOutBoundary extended by every nucleotide's runs.
   */
  lemma WorstCasePenalty(st: MotifStats, c: Constraints)
    ensures (exists n :: Worst(st, n)) ==> HomTotal(HomCall(st, c).1) == c.motifSize * c.maxPossibleMotifNum
    ensures !(exists n :: Worst(st, n)) ==>
            HomCall(st, c).1 == st.homOutBoundary + NucsBoundary(st, c, 4)
  {
    FirstWorstMeaning(st, 0);
    var k := FirstWorst(st, 0);
    if k < 4 {
      assert Worst(st, Alphabet[k]);
      assert SumInts([c.motifSize * c.maxPossibleMotifNum]) == SumInts([]) + c.motifSize * c.maxPossibleMotifNum;
    }
    if exists n :: Worst(st, n) {
      var n :| Worst(st, n);
      assert Worst(st, Alphabet[IndexOf(n)]);
    }
  }

  /** The position of n in the alphabet. */
  function IndexOf(n: Nuc): (i: nat)
    ensures i < 4 && Alphabet[i] == n
  {
    match n
    case A => 0
    case T => 1
    case C => 2
    case G => 3
  }

  /** What a nucleotide adds does not depend on homOutBoundary. */
  lemma {:induction false} NucsBoundaryIgnoresOut(st: MotifStats, out: seq<int>, c: Constraints, k: nat)
    requires k <= 4
    ensures NucsBoundary(st.(homOutBoundary := out), c, k) == NucsBoundary(st, c, k)
  {
    if k > 0 {
      NucsBoundaryIgnoresOut(st, out, c, k - 1);
    }
  }

  /**
   * The penalty is never negative while homOutBoundary holds only positive
   * amounts, and a call keeps it so.
   */
  lemma HomCallNonNegative(st: MotifStats, c: ValidConstraints)
    requires forall y :: y in st.homOutBoundary ==> y > 0
    ensures forall y :: y in HomCall(st, c).0.homOutBoundary ==> y > 0
    ensures HomTotal(HomCall(st, c).1) >= 0
  {
    var k := FirstWorst(st, 0);
    var out := st.homOutBoundary + NucsBoundary(st, c, k);
    if k == 4 {
      SumPositiveInts(out);
    } else {
      assert c.motifSize > 0 && c.maxPossibleMotifNum > 0;
      assert SumInts([c.motifSize * c.maxPossibleMotifNum]) == SumInts([]) + c.motifSize * c.maxPossibleMotifNum;
    }
  }

  /**
   * homOutBoundary is a field that every call extends: calling again adds
   * the same amounts once more, so the penalty never decreases, and it is
   * zero after the second call exactly when it was zero after the first.
   */
  lemma RecallNeverDecreases(st: MotifStats, c: ValidConstraints)
    requires forall y :: y in st.homOutBoundary ==> y > 0
    ensures var (st1, out1) := HomCall(st, c);
            var (st2, out2) := HomCall(st1, c);
            && st2 == st1.(homOutBoundary := st1.homOutBoundary + NucsBoundary(st, c, FirstWorst(st, 0)))
            && HomTotal(out2) >= HomTotal(out1)
            && (HomTotal(out2) == 0 <==> HomTotal(out1) == 0)
  {
    var (st1, out1) := HomCall(st, c);
    var k := FirstWorst(st, 0);
    var B := NucsBoundary(st, c, k);
    assert st1 == st.(homOutBoundary := st.homOutBoundary + B);
    assert FirstWorst(st1, 0) == k by {
      WorstIgnoresOut(st, st.homOutBoundary + B, 0);
    }
    NucsBoundaryIgnoresOut(st, st.homOutBoundary + B, c, k);
    HomCallNonNegative(st, c);
    if k == 4 {
      var h := st.homOutBoundary;
      SumIntsAppend(h + B, B);
      SumPositiveInts(B);
      SumPositiveInts(h + B);
      SumPositiveInts(h + B + B);
    }
  }

  /** Where the scan stops does not depend on homOutBoundary. */
  lemma {:induction false} WorstIgnoresOut(st: MotifStats, out: seq<int>, i: nat)
    requires i <= 4
    decreases 4 - i
    ensures FirstWorst(st.(homOutBoundary := out), i) == FirstWorst(st, i)
  {
    if i < 4 {
      WorstIgnoresOut(st, out, i + 1);
    }
  }

  // ---------------------------------------------------------------------
  // The loops that append the amounts

  /** The loop `for hom in xs: if d + hom - maxHom > 0: append(d + hom - maxHom)`. */
  method AppendOver(acc: seq<int>, xs: seq<nat>, d: int, maxHom: int) returns (r: seq<int>)
    ensures r == acc + Over(Shift(xs, d), maxHom)
  {
    r := acc;
    var i := 0;
    while i < |xs|
      invariant 0 <= i <= |xs|
      invariant r == acc + Over(Shift(xs, d)[..i], maxHom)
    {
      var hom := xs[i];
      assert Shift(xs, d)[..i + 1][..i] == Shift(xs, d)[..i];
      if d + hom - maxHom > 0 {
        r := r + [d + hom - maxHom];
      }
      i := i + 1;
    }
    assert Shift(xs, d)[..|xs|] == Shift(xs, d);
  }

  /** One more outer row of the pair totals adds its row's amounts. */
  lemma PairTotalsPrefixStep(xs: seq<nat>, ys: seq<nat>, d: int, i: int, maxHom: int)
    requires 0 <= i < |xs|
    ensures Over(PairTotals(xs[..i + 1], ys, d), maxHom) == Over(PairTotals(xs[..i], ys, d), maxHom) + Over(Shift(ys, d + xs[i]), maxHom)
  {
    assert xs[..i + 1][..i] == xs[..i];
    assert PairTotals(xs[..i + 1], ys, d) == PairTotals(xs[..i], ys, d) + Shift(ys, d + xs[i]);
    OverAppend(PairTotals(xs[..i], ys, d), Shift(ys, d + xs[i]), maxHom);
  }

  /** The nested loops over xs (outer) and ys (inner) appending d + x + y - maxHom when positive. */
  method AppendPairOver(acc: seq<int>, xs: seq<nat>, ys: seq<nat>, d: int, maxHom: int) returns (r: seq<int>)
    ensures r == acc + Over(PairTotals(xs, ys, d), maxHom)
  {
    r := acc;
    var i := 0;
    assert xs[..0] == [];
    while i < |xs|
      invariant 0 <= i <= |xs|
      invariant r == acc + Over(PairTotals(xs[..i], ys, d), maxHom)
    {
      PairTotalsPrefixStep(xs, ys, d, i, maxHom);
      ghost var before := Over(PairTotals(xs[..i], ys, d), maxHom);
      ghost var row := Over(Shift(ys, d + xs[i]), maxHom);
      r := AppendOver(r, ys, d + xs[i], maxHom);
      Regroup(acc, before, row);
      i := i + 1;
    }
    assert xs[..|xs|] == xs;
  }

  /** The four-way case split on S and E for an element of one run (whole > 0). */
  method AppendAcross(acc: seq<int>, whole: nat, S: seq<nat>, E: seq<nat>, size: int, maxHom: int) returns (r: seq<int>)
    ensures r == acc + Across(whole, S, E, size, maxHom)
  {
    r := acc;
    if whole > 0 {
      if S == [] && E == [] {
        if size - maxHom > 0 {
          r := r + [size - maxHom];
        }
      } else if S == [] {
        r := AppendOver(r, E, size, maxHom);
      } else if E == [] {
        r := AppendOver(r, S, size, maxHom);
      } else {
        r := AppendPairOver(r, S, E, size, maxHom);
      }
    }
  }

  /** What the loop body for one nucleotide n appends (validation.py:216-260), when n is not a worst case. */
  method NucBoundaryAppend(acc: seq<int>, st: MotifStats, n: Nuc, c: Constraints) returns (r: seq<int>)
    ensures r == acc + NucBoundary(st, n, c)
  {
    // start and end joints around a payload of one run
    r := AppendAcross(acc, st.wholeHomPayload.At(n), st.startJointHom.At(n), st.endJointHom.At(n), c.payloadSize, c.maxHom);
    // start and end payloads around a joint of one run
    r := AppendAcross(r, st.wholeJointHom.At(n), st.startHomPayload.At(n), st.endHomPayload.At(n), c.keySize, c.maxHom);
    // end payload with end joint, start payload with start joint
    r := AppendPairOver(r, st.endHomPayload.At(n), st.endJointHom.At(n), 0, c.maxHom);
    r := AppendPairOver(r, st.startHomPayload.At(n), st.startJointHom.At(n), 0, c.maxHom);
  }

  /** One nucleotide that is not a worst case: what it adds is appended. */
  method ExtendNuc(extended: seq<int>, st: MotifStats, c: Constraints, i: nat) returns (r: seq<int>)
    requires i < 4 && extended == st.homOutBoundary + NucsBoundary(st, c, i)
    ensures r == st.homOutBoundary + NucsBoundary(st, c, i + 1)
  {
    r := NucBoundaryAppend(extended, st, Alphabet[i], c);
    Regroup(st.homOutBoundary, NucsBoundary(st, c, i), NucBoundary(st, Alphabet[i], c));
  }

  /**
   * The loop of add_homopolymer_over_motifs_stats on a copy of
   * homOutBoundary: nucleotide by nucleotide it appends what the
   * nucleotide adds, and it stops at the first worst case, returning the
   * worst-case list instead of the extended one.
   */
  method ScanBoundaries(st: MotifStats, c: Constraints) returns (extended: seq<int>, out: seq<int>)
    ensures HomCall(st, c).0 == st.(homOutBoundary := extended)
    ensures HomCall(st, c).1 == out
  {
    extended := st.homOutBoundary;
    var i := 0;
    while i < 4
      invariant 0 <= i <= 4 && FirstWorst(st, i) == FirstWorst(st, 0)
      invariant extended == st.homOutBoundary + NucsBoundary(st, c, i)
    {
      var n := Alphabet[i];
      if Worst(st, n) {
        HomCallStops(st, c, i);
        out := [c.motifSize * c.maxPossibleMotifNum];
        return;
      }
      extended := ExtendNuc(extended, st, c, i);
      i := i + 1;
    }
    HomCallCompletes(st, c);
    out := extended;
  }

  // ---------------------------------------------------------------------
  // The pairing of validation.py:229-232

  /**
   * Every run that a start joint's last run of n, a payload made of n and
   * an end joint's first run of n form together is counted when it exceeds
   * maxHom, and every amount counted is of such a run.
   */
  lemma AcrossPayloadPairs(st: MotifStats, n: Nuc, payloadSize: int, maxHom: int)
    requires st.wholeHomPayload.At(n) > 0
    requires st.startJointHom.At(n) != [] && st.endJointHom.At(n) != []
    ensures var S, E := st.startJointHom.At(n), st.endJointHom.At(n);
            && (forall i, j :: 0 <= i < |S| && 0 <= j < |E| && S[i] + payloadSize + E[j] > maxHom ==>
                  S[i] + payloadSize + E[j] - maxHom in AcrossPayload(st, n, payloadSize, maxHom))
            && (forall y :: y in AcrossPayload(st, n, payloadSize, maxHom) ==>
                  exists i, j :: 0 <= i < |S| && 0 <= j < |E| && y == S[i] + payloadSize + E[j] - maxHom)
  {
    var S, E := st.startJointHom.At(n), st.endJointHom.At(n);
    var T := PairTotals(S, E, payloadSize);
    forall i, j | 0 <= i < |S| && 0 <= j < |E| && S[i] + payloadSize + E[j] > maxHom
      ensures S[i] + payloadSize + E[j] - maxHom in AcrossPayload(st, n, payloadSize, maxHom)
    {
      PairTotalsHas(S, E, payloadSize, i, j);
      var t :| 0 <= t < |T| && T[t] == payloadSize + S[i] + E[j];
      OverHas(T, maxHom, t);
    }
    forall y | y in AcrossPayload(st, n, payloadSize, maxHom)
      ensures exists i, j :: 0 <= i < |S| && 0 <= j < |E| && y == S[i] + payloadSize + E[j] - maxHom
    {
      OverFrom(T, maxHom, y);
      var t :| 0 <= t < |T| && T[t] > maxHom && y == T[t] - maxHom;
      PairTotalsFrom(S, E, payloadSize, T[t]);
    }
  }

  /** The keys TTCC and CCTT and the payload AAAAA, recorded with keySize 4 and maxHom 2. */
  function Witness(): MotifStats
  {
    PayloadsRecorded(KeysRecorded(NoStats, [[T, T, C, C], [C, C, T, T]], 2, 2, 2), [[A, A, A, A, A]], 1, 2)
  }

  /** The runs of A before any payload is recorded, as the witness needs them. */
  predicate NoPayloadRuns(st: MotifStats)
  {
    st.wholeHomPayload.At(A) == 0 && st.startHomPayload.At(A) == [] && st.endHomPayload.At(A) == []
  }

  /** Recording the key TTCC files the joint GGAA's last run of two A's. */
  lemma WitnessFirstKey()
    ensures var st1 := RecordKeyStep(2, 2)(NoStats, [T, T, C, C]);
            st1.startJointHom.At(A) == [2] && st1.endJointHom.At(A) == [] && NoPayloadRuns(st1)
  {
    var k: Strand := [T, T, C, C];
    assert !Uniform(k) by {
      assert k[2] != k[0];
    }
    assert LeadingRun(k) == 2 by {
      assert k[1..][1..] == [C, C];
    }
  }

  /** Recording the key CCTT files the joint AAGG's first run of two A's. */
  lemma WitnessSecondKey(st1: MotifStats)
    requires st1.startJointHom.At(A) == [2] && st1.endJointHom.At(A) == [] && NoPayloadRuns(st1)
    ensures var st2 := RecordKeyStep(2, 2)(st1, [C, C, T, T]);
            st2.startJointHom.At(A) == [2] && st2.endJointHom.At(A) == [2] && NoPayloadRuns(st2)
  {
    var k: Strand := [C, C, T, T];
    assert !Uniform(k) by {
      assert k[2] != k[0];
    }
    assert TrailingRun(k) == 2 by {
      assert k[..3][..2] == [C, C];
    }
  }

  /** Recording the payload AAAAA counts one payload of five A's and keeps the joint runs. */
  lemma WitnessPayload(st2: MotifStats)
    requires st2.startJointHom.At(A) == [2] && st2.endJointHom.At(A) == [2] && NoPayloadRuns(st2)
    ensures var st := RecordPayloadStep(2)(st2, [A, A, A, A, A]);
            && st.wholeHomPayload.At(A) == 5 && st.startHomPayload.At(A) == [] && st.endHomPayload.At(A) == []
            && st.startJointHom.At(A) == [2] && st.endJointHom.At(A) == [2]
  {
    var p: Strand := [A, A, A, A, A];
    assert Uniform(p);
  }

  /** What the validator records for A from the keys TTCC, CCTT and the payload AAAAA. */
  lemma WitnessStats()
    ensures Witness().wholeHomPayload.At(A) == 5
    ensures Witness().startJointHom.At(A) == [2] && Witness().endJointHom.At(A) == [2]
    ensures Witness().startHomPayload.At(A) == [] && Witness().endHomPayload.At(A) == []
  {
    var keys, payloads: seq<Strand> := [[T, T, C, C], [C, C, T, T]], [[A, A, A, A, A]];
    var keyStep, payloadStep := RecordKeyStep(2, 2), RecordPayloadStep(2);
    var st1 := Recorded(NoStats, keys, 1, keyStep);
    assert st1 == keyStep(NoStats, keys[0]);
    WitnessFirstKey();
    var st2 := Recorded(NoStats, keys, 2, keyStep);
    assert st2 == keyStep(st1, keys[1]);
    WitnessSecondKey(st1);
    assert Witness() == Recorded(st2, payloads, 1, payloadStep);
    assert Recorded(st2, payloads, 1, payloadStep) == payloadStep(st2, payloads[0]);
    WitnessPayload(st2);
  }

  /**
   * With the joints GGAA and AAGG around the payload AAAAA, the motif
   * AA + AAAAA + AA (the last half of GGAA, the payload, the first half
   * of AAGG) holds a run of nine A's, seven over maxHom 2; the pairing as
   * written counts nothing for it.
   */
  lemma AcrossPayloadAsWrittenMissesRun()
    ensures AcrossPayloadAsWritten(Witness(), A, 5, 2) == []
    ensures AcrossPayload(Witness(), A, 5, 2) == [7]
  {
    WitnessStats();
    assert PairTotals([2], [2], 5) == [9] by {
      assert [2][..0] == [];
      assert PairTotals([2], [2], 5) == PairTotals([], [2], 5) + Shift([2], 7);
    }
    assert Over([9], 2) == [7] by {
      assert [9][..0] == [];
    }
  }

  /**
   * For A, the scan as written adds one amount fewer than the corrected
   * scan on the same statistics: the seven A's over maxHom 2 in the motif
   * AA + AAAAA + AA (the last half of GGAA, the payload, the first half of
   * AAGG) are missing from homOutBoundary.
   */
  lemma NucBoundaryAsWrittenDiffers(c: Constraints)
    requires c.payloadSize == 5 && c.maxHom == 2
    ensures |NucBoundaryAsWritten(Witness(), A, c)| + 1 == |NucBoundary(Witness(), A, c)|
    ensures NucBoundary(Witness(), A, c)[0] == 7
  {
    AcrossPayloadAsWrittenMissesRun();
  }
}
