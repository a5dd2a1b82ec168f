/**
 * What the validator of validation.py learns from finished keys and
 * payloads, as values: the joints, the first and last homopolymer runs of
 * every joint and payload (or that it is one run throughout), the excess
 * of every run that touches neither end, and the GC counts of payloads and
 * of the two halves of every key.
 */
module MotifStatistics {
  import opened Nucleotides
  import opened Configuration
  import opened KeyHalves
  import opened Excesses
  import opened RunScans
  import PayloadPenaltyEngine

  datatype MotifStats = MotifStats(
    joints: seq<Strand>,
    startJointHom: PerNuc<seq<nat>>,
    endJointHom: PerNuc<seq<nat>>,
    wholeJointHom: PerNuc<nat>,
    wholeHomPayload: PerNuc<nat>,
    startHomPayload: PerNuc<seq<nat>>,
    endHomPayload: PerNuc<seq<nat>>,
    startJointsGcCount: seq<nat>,
    endJointsGcCount: seq<nat>,
    payloadsGcCount: seq<nat>,
    homOutBoundary: seq<int>)

  const NoRuns: PerNuc<seq<nat>> := PerNuc([], [], [], [])
  const NoCounts: PerNuc<nat> := PerNuc(0, 0, 0, 0)

  /** The statistics of a fresh validator. */
  const NoStats: MotifStats := MotifStats([], NoRuns, NoRuns, NoCounts, NoCounts, NoRuns, NoRuns, [], [], [], [])

  /**
   * What the scan of one key k adds: its joint (the reverse complement), the
   * joint's first and last runs under the complemented nucleotide (or one
   * more single-run joint), the excess over maxHom of every interior run,
   * and the GC counts of k[:js] and k[js:].
   */
  function KeyRecorded(st: MotifStats, k: Strand, js: nat, maxHom: int): MotifStats
  {
    if k == [] then st
    else ScannedKey(st, k, ReverseComplement(k), Uniform(k), LeadingRun(k), TrailingRun(k),
                    Over(Interior(Runs(k)), maxHom), GcCount(HalfOf(k, js, FirstHalf)), GcCount(HalfOf(k, js, SecondHalf)))
  }

  /**
   * What the scan of one payload p adds: its first and last runs (or its
   * length, when it is one run), the excess of every interior run and its
   * GC count.
   */
  function PayloadRecorded(st: MotifStats, p: Strand, maxHom: int): MotifStats
  {
    if p == [] then st
    else
      var first, last, one := p[0], p[|p| - 1], Uniform(p);
      MotifStats(
        st.joints, st.startJointHom, st.endJointHom, st.wholeJointHom,
        if one then st.wholeHomPayload.With(first, st.wholeHomPayload.At(first) + |p|) else st.wholeHomPayload,
        if one then st.startHomPayload else st.startHomPayload.With(first, st.startHomPayload.At(first) + [LeadingRun(p)]),
        if one then st.endHomPayload else st.endHomPayload.With(last, st.endHomPayload.At(last) + [TrailingRun(p)]),
        st.startJointsGcCount, st.endJointsGcCount,
        st.payloadsGcCount + [GcCount(p)],
        st.homOutBoundary + Over(Interior(Runs(p)), maxHom))
  }

  /** The statistics after recording the first n strands in order, one step each. */
  function Recorded(st: MotifStats, strands: seq<Strand>, n: nat, step: (MotifStats, Strand) -> MotifStats): MotifStats
    requires n <= |strands|
  {
    if n == 0 then st else step(Recorded(st, strands, n - 1, step), strands[n - 1])
  }

  /** The loop body of generate_motifs_stats for one key. */
  function RecordKeyStep(js: nat, maxHom: int): (MotifStats, Strand) -> MotifStats
  {
    (st: MotifStats, k: Strand) => KeyRecorded(st, k, js, maxHom)
  }

  /** The loop body of generate_motifs_stats for one payload. */
  function RecordPayloadStep(maxHom: int): (MotifStats, Strand) -> MotifStats
  {
    (st: MotifStats, p: Strand) => PayloadRecorded(st, p, maxHom)
  }

  /** The first n keys recorded in order. */
  function KeysRecorded(st: MotifStats, keys: seq<Strand>, n: nat, js: nat, maxHom: int): MotifStats
    requires n <= |keys|
  {
    Recorded(st, keys, n, RecordKeyStep(js, maxHom))
  }

  /** The first n payloads recorded in order. */
  function PayloadsRecorded(st: MotifStats, payloads: seq<Strand>, n: nat, maxHom: int): MotifStats
    requires n <= |payloads|
  {
    Recorded(st, payloads, n, RecordPayloadStep(maxHom))
  }

  /**
   * The joint statistics the validator keeps from a key agree with those
   * the payload engine keeps from the key's joint: the key's first run is
   * the joint's last run and the other way round, under complemented
   * nucleotides.
   */
  lemma KeyRecordedIsJointRecorded(st: MotifStats, k: Strand, js: nat, maxHom: int)
    requires k != []
    ensures var after := KeyRecorded(st, k, js, maxHom);
            PayloadPenaltyEngine.RecordJoint(PayloadPenaltyEngine.JointHoms(st.startJointHom, st.endJointHom, st.wholeJointHom),
                                             ReverseComplement(k))
            == PayloadPenaltyEngine.JointHoms(after.startJointHom, after.endJointHom, after.wholeJointHom)
  {
    var j := ReverseComplement(k);
    ReverseComplementUniform(k);
    ReverseComplementRuns(k);
    if Uniform(k) {
      assert k[|k| - 1] == k[0];
    }
  }

  /**
   * The GC count the validator files under endJointsGcCount, taken from the
   * key's first half, is that of its joint's second half, and the other
   * way round.
   */
  lemma KeyHalvesAreJointHalves(k: Strand, js: nat)
    requires |k| == 2 * js
    ensures GcCount(HalfOf(k, js, FirstHalf)) == GcCount(HalfOf(ReverseComplement(k), js, SecondHalf))
    ensures GcCount(HalfOf(k, js, SecondHalf)) == GcCount(HalfOf(ReverseComplement(k), js, FirstHalf))
  {
    var a, b := k[..js], k[js..];
    assert k == a + b;
    ReverseComplementAppend(a, b);
    var r := ReverseComplement(k);
    assert r[..js] == ReverseComplement(b) && r[js..] == ReverseComplement(a);
    GcCountReverseComplement(a);
    GcCountReverseComplement(b);
  }

  /**
   * The statistics after the loop body of one key, in terms of what the
   * scan of the key found: the joint, whether the key is one run, its
   * first and last runs, the interior excesses and the two half GC counts.
   * The one-run and last-run entries go under the complement of the key's
   * last base, the first-run entry under that of its first base.
   */
  function ScannedKey(st: MotifStats, k: Strand, joint: Strand, single: bool, first: nat, last: nat,
                      excess: seq<int>, endGc: nat, startGc: nat): MotifStats
    requires k != []
  {
    var n, m := Complement(k[|k| - 1]), Complement(k[0]);
    MotifStats(
      Added(st.joints, joint),
      if single then st.startJointHom else st.startJointHom.With(m, st.startJointHom.At(m) + [first]),
      if single then st.endJointHom else st.endJointHom.With(n, st.endJointHom.At(n) + [last]),
      if single then st.wholeJointHom.With(n, st.wholeJointHom.At(n) + 1) else st.wholeJointHom,
      st.wholeHomPayload, st.startHomPayload, st.endHomPayload,
      st.startJointsGcCount + [startGc], st.endJointsGcCount + [endGc], st.payloadsGcCount,
      st.homOutBoundary + excess)
  }

  /** What the scan of a key reports makes the loop body record exactly KeyRecorded. */
  lemma KeyRecordedByScan(st: MotifStats, k: Strand, js: nat, maxHom: int, joint: Strand, single: bool,
                          first: nat, last: nat, excess: seq<int>, endGc: nat, startGc: nat)
    requires k != []
    requires joint == ReverseComplement(k)
    requires single <==> Uniform(k)
    requires !single ==> first == LeadingRun(k)
    requires last == TrailingRun(k)
    requires excess == Over(Interior(Runs(k)), maxHom)
    requires endGc == GcCount(HalfOf(k, js, FirstHalf)) && startGc == GcCount(HalfOf(k, js, SecondHalf))
    ensures KeyRecorded(st, k, js, maxHom) == ScannedKey(st, k, joint, single, first, last, excess, endGc, startGc)
  {
    if single {
      var r := ScannedKey(st, k, joint, single, first, last, excess, endGc, startGc);
      assert r == ScannedKey(st, k, joint, single, LeadingRun(k), last, excess, endGc, startGc);
    }
  }

  /** The statistics after the loop body of one payload, in terms of what its scan found. */
  function ScannedPayload(st: MotifStats, p: Strand, single: bool, first: nat, last: nat,
                          excess: seq<int>, gc: nat): MotifStats
    requires p != []
  {
    var n := p[|p| - 1];
    MotifStats(
      st.joints, st.startJointHom, st.endJointHom, st.wholeJointHom,
      if single then st.wholeHomPayload.With(n, st.wholeHomPayload.At(n) + last) else st.wholeHomPayload,
      if single then st.startHomPayload else st.startHomPayload.With(p[0], st.startHomPayload.At(p[0]) + [first]),
      if single then st.endHomPayload else st.endHomPayload.With(n, st.endHomPayload.At(n) + [last]),
      st.startJointsGcCount, st.endJointsGcCount, st.payloadsGcCount + [gc],
      st.homOutBoundary + excess)
  }

  /** What the scan of a payload reports makes the loop body record exactly PayloadRecorded. */
  lemma PayloadRecordedByScan(st: MotifStats, p: Strand, maxHom: int, single: bool, first: nat, last: nat,
                              excess: seq<int>, gc: nat)
    requires p != []
    requires single <==> Uniform(p)
    requires !single ==> first == LeadingRun(p)
    requires last == TrailingRun(p)
    requires excess == Over(Interior(Runs(p)), maxHom)
    requires gc == GcCount(p)
    ensures PayloadRecorded(st, p, maxHom) == ScannedPayload(st, p, single, first, last, excess, gc)
  {
    if single {
      assert p[|p| - 1] == p[0];
      UniformRuns(p);
    }
  }

  /** Recording a key adds its joint; recording a payload keeps the joints. */
  lemma RecordedJoints(st: MotifStats, s: Strand, js: nat, maxHom: int)
    ensures s != [] ==> KeyRecorded(st, s, js, maxHom).joints == Added(st.joints, ReverseComplement(s))
    ensures PayloadRecorded(st, s, maxHom).joints == st.joints
  {
  }
}
