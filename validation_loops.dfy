/**
 * The loops of the validator's penalty methods in validation.py, on the
 * values they read: each is proved to compute the list its penalty adds
 * up, as defined in ValidationPenalties.
 */
module ValidationLoops {
  import opened Nucleotides
  import opened Scores
  import opened GcContent
  import opened Configuration
  import opened HairpinSearch
  import opened BasePenalties
  import opened ValidationPenalties
  import opened Excesses
  import opened Scanners

  /** The loop over stem starts 0 .. n-1 calling forward_hairpin_counter_at_startPos. */
  method CountStarts(c: ValidConstraints, e: Elem, elems1: seq<Elem>, elems2: seq<Elem>, isKey: bool,
                     lo: int, hi: int, n: int) returns (count: nat)
    requires Sized(c, e, elems1, elems2, isKey)
    ensures count == |StartsHairpins(c, e, elems1, elems2, isKey, lo, hi, n)|
  {
    count := 0;
    if n <= 0 {
      return;
    }
    for s := 0 to n
      invariant count == |StartsHairpins(c, e, elems1, elems2, isKey, lo, hi, s)|
    {
      StartsHairpinsStep(c, e, elems1, elems2, isKey, lo, hi, s);
      count := count + |CountedAt(c, e, elems1, elems2, isKey, lo, hi, s)|;
    }
  }

  /** The payload loop of hairpin_stats: every payload, every stem start. */
  method CountPayloadHairpins(c: ValidConstraints, payloads: seq<Strand>, joints: seq<Strand>) returns (count: nat)
    requires AllSized(c, payloads, payloads, joints, false)
    ensures count == |PoolHairpins(c, payloads, payloads, joints, false, c.payloadSize, |payloads|)|
  {
    count := 0;
    var i := 0;
    while i < |payloads|
      invariant 0 <= i <= |payloads|
      invariant count == |PoolHairpins(c, payloads, payloads, joints, false, c.payloadSize, i)|
    {
      var n := CountStarts(c, payloads[i], payloads, joints, false, -1, -1, c.payloadSize);
      count := count + n;
      i := i + 1;
    }
  }

  /** The joint loop of hairpin_stats: every joint, every stem start. */
  method CountJointHairpins(c: ValidConstraints, joints: seq<Strand>, payloads: seq<Strand>) returns (count: nat)
    requires AllSized(c, joints, joints, payloads, true)
    ensures count == |PoolHairpins(c, joints, joints, payloads, true, c.keySize, |joints|)|
  {
    count := 0;
    var i := 0;
    while i < |joints|
      invariant 0 <= i <= |joints|
      invariant count == |PoolHairpins(c, joints, joints, payloads, true, c.keySize, i)|
    {
      var n := CountStarts(c, joints[i], joints, payloads, true, -1, -1, c.keySize);
      count := count + n;
      i := i + 1;
    }
  }

  /** The loops over keys and stem starts of key_hairpin_count, for one loop size. */
  method CountKeys(c: ValidConstraints, keys: seq<Strand>, loopSize: int) returns (count: nat)
    requires AllSized(c, keys, keys, [], true)
    ensures count == |KeysHairpins(c, keys, loopSize, |keys|)|
  {
    count := 0;
    var i := 0;
    while i < |keys|
      invariant 0 <= i <= |keys|
      invariant count == |KeysHairpins(c, keys, loopSize, i)|
    {
      var n := CountStarts(c, keys[i], keys, [], true, loopSize, loopSize, KeyStarts(c, loopSize));
      count := count + n;
      i := i + 1;
    }
  }

  /** The innermost loop of get_motif_gc_penalty: one payload and start-joint count against every end-joint count. */
  method EndsScores(acc: seq<real>, gc: int, es: seq<nat>, motifSize: int, minGc: int, maxGc: int) returns (r: seq<real>)
    requires motifSize > 0 && minGc <= maxGc
    ensures r == acc + EndsGcExcess(gc, es, |es|, motifSize, minGc, maxGc)
  {
    r := acc;
    var k := 0;
    while k < |es|
      invariant 0 <= k <= |es|
      invariant r == acc + EndsGcExcess(gc, es, k, motifSize, minGc, maxGc)
    {
      var gcContent := Pct(gc + es[k], motifSize);
      var score := 0.0;
      score := MaxReal(score, minGc as real - gcContent);
      score := MaxReal(score, gcContent - maxGc as real);
      ghost var before := EndsGcExcess(gc, es, k, motifSize, minGc, maxGc);
      ghost var step := if score > 0.0 then [score] else [];
      assert score == Excess(gcContent, minGc, maxGc);
      if score > 0.0 {
        r := r + [score];
      }
      Regroup(acc, before, step);
      k := k + 1;
    }
  }

  /** The middle loop of get_motif_gc_penalty: one payload count against every start-joint count. */
  method StartsScores(acc: seq<real>, p: int, ss: seq<nat>, es: seq<nat>, motifSize: int, minGc: int, maxGc: int)
    returns (r: seq<real>)
    requires motifSize > 0 && minGc <= maxGc
    ensures r == acc + StartsGcExcess(p, ss, es, |ss|, motifSize, minGc, maxGc)
  {
    r := acc;
    var j := 0;
    while j < |ss|
      invariant 0 <= j <= |ss|
      invariant r == acc + StartsGcExcess(p, ss, es, j, motifSize, minGc, maxGc)
    {
      ghost var before := StartsGcExcess(p, ss, es, j, motifSize, minGc, maxGc);
      ghost var row := EndsGcExcess(p + ss[j], es, |es|, motifSize, minGc, maxGc);
      r := EndsScores(r, p + ss[j], es, motifSize, minGc, maxGc);
      Regroup(acc, before, row);
      j := j + 1;
    }
  }

  /** get_key_homopolymer_penalty on the keys: the excesses of every run of every key, added up. */
  method KeysHomPenalty(keys: seq<Strand>, maxHom: int) returns (p: int)
    requires forall k :: k in keys ==> k != []
    ensures p == SumInts(KeysRunExcess(keys, |keys|, maxHom))
    ensures p >= 0
    ensures p == 0 <==> KeysRunsWithin(keys, maxHom)
  {
    var homs: seq<int> := [];
    var i := 0;
    while i < |keys|
      invariant 0 <= i <= |keys|
      invariant homs == KeysRunExcess(keys, i, maxHom)
    {
      assert keys[i] in keys;
      var h := KeyRunExcesses(keys[i], maxHom);
      homs := homs + h;
      i := i + 1;
    }
    p := SumInts(homs);
    KeyHomPenaltyZeroIff(keys, maxHom);
  }

  /** get_key_gc_penalty on the keys: how far each key's GC% lies outside [minGc, maxGc], added up. */
  method KeysGcPenalty(keys: seq<Strand>, keySize: int, minGc: int, maxGc: int) returns (p: real)
    requires keySize > 0 && minGc <= maxGc
    ensures p == SumReals(KeysGcExcess(keys, |keys|, keySize, minGc, maxGc))
    ensures p >= 0.0
    ensures p == 0.0 <==> KeysInGcWindow(keys, keySize, minGc, maxGc)
  {
    var gcScores: seq<real> := [];
    var i := 0;
    while i < |keys|
      invariant 0 <= i <= |keys|
      invariant gcScores == KeysGcExcess(keys, i, keySize, minGc, maxGc)
    {
      var gcCount := CountGc(keys[i]);
      var gcContent := Pct(gcCount, keySize);
      var score := 0.0;
      score := MaxReal(score, minGc as real - gcContent);
      score := MaxReal(score, gcContent - maxGc as real);
      assert score == Excess(gcContent, minGc, maxGc);
      if score > 0.0 {
        gcScores := gcScores + [score];
      }
      i := i + 1;
    }
    p := SumReals(gcScores);
    KeyGcPenaltyZeroIff(keys, keySize, minGc, maxGc);
  }

  /** get_motif_gc_penalty on the three GC count lists: every combination of a payload, a start joint and an end joint. */
  method MotifsGcPenalty(ps: seq<nat>, ss: seq<nat>, es: seq<nat>, motifSize: int, minGc: int, maxGc: int) returns (p: real)
    requires motifSize > 0 && minGc <= maxGc
    ensures p == SumReals(MotifsGcExcess(ps, ss, es, |ps|, motifSize, minGc, maxGc))
    ensures p >= 0.0
    ensures p == 0.0 <==> MotifsInGcWindow(ps, ss, es, motifSize, minGc, maxGc)
  {
    var gcScores: seq<real> := [];
    var i := 0;
    while i < |ps|
      invariant 0 <= i <= |ps|
      invariant gcScores == MotifsGcExcess(ps, ss, es, i, motifSize, minGc, maxGc)
    {
      gcScores := StartsScores(gcScores, ps[i], ss, es, motifSize, minGc, maxGc);
      i := i + 1;
    }
    p := SumReals(gcScores);
    MotifGcPenaltyZeroIff(ps, ss, es, motifSize, minGc, maxGc);
  }

  /** One pass of key_hairpin_count's loop over loop sizes: nothing when two stems and the loop do not fit in a key. */
  method CountLoopSize(c: ValidConstraints, keys: seq<Strand>, loopSize: int) returns (n: nat)
    requires AllSized(c, keys, keys, [], true) && loopSize >= c.loopSizeMin
    ensures |LoopsHairpins(c, keys, loopSize + 1)| == |LoopsHairpins(c, keys, loopSize)| + n
  {
    n := 0;
    if c.maxHairpin * 2 + loopSize < c.keySize {
      n := CountKeys(c, keys, loopSize);
    }
    LoopsHairpinsStep(c, keys, loopSize, n);
  }

  /**
   * key_hairpin_count on the keys: every loop size of the range for which
   * two stems and the loop fit in a key, every key, every stem start.
   */
  method KeysHairpinCount(c: ValidConstraints, keys: seq<Strand>) returns (count: nat)
    requires AllSized(c, keys, keys, [], true)
    ensures count == |LoopsHairpins(c, keys, c.loopSizeMax + 1)|
  {
    count := 0;
    for loopSize := c.loopSizeMin to c.loopSizeMax + 1
      invariant count == |LoopsHairpins(c, keys, loopSize)|
    {
      var n := CountLoopSize(c, keys, loopSize);
      count := count + n;
    }
  }

  /**
   * hairpin_stats on the pools: the forward hairpins of every payload
   * against the payloads and joints, then of every joint against the
   * joints and payloads.
   */
  method MotifsHairpinCount(c: ValidConstraints, payloads: seq<Strand>, joints: seq<Strand>) returns (count: nat)
    requires AllSized(c, payloads, payloads, joints, false) && AllSized(c, joints, joints, payloads, true)
    ensures count == |PoolHairpins(c, payloads, payloads, joints, false, c.payloadSize, |payloads|)|
                     + |PoolHairpins(c, joints, joints, payloads, true, c.keySize, |joints|)|
  {
    var fromPayloads := CountPayloadHairpins(c, payloads, joints);
    var fromJoints := CountJointHairpins(c, joints, payloads);
    count := fromPayloads + fromJoints;
  }
}
