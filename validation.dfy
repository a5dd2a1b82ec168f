/**
 * The validator of validation.py: an object that is handed the finished
 * keys and payloads, gathers statistics from them in one pass, and
 * derives from those statistics the penalties of every constraint and
 * the scores (penalties negated: 0 is best, below 0 is worse).
 */
module Validator {
  import opened Nucleotides
  import opened Scores
  import opened Configuration
  import opened MotifStatistics
  import opened MotifBoundaries
  import opened ValidationPenalties
  import opened Scanners
  import opened ValidationLoops
  import opened ScoreTotals
  import opened KeyHairpinMeaning

  /** What generate_motifs_stats leaves: every key recorded in order, then every payload. */
  function Generated(st: MotifStats, c: ValidConstraints, keys: seq<Strand>, payloads: seq<Strand>): MotifStats
  {
    PayloadsRecorded(KeysRecorded(st, keys, |keys|, JointSize(c), c.maxHom), payloads, |payloads|, c.maxHom)
  }

  /** The joints after adding the reverse complements of the first n keys to a set of joints. */
  function KeysJoints(joints: seq<Strand>, keys: seq<Strand>, n: nat): seq<Strand>
    requires n <= |keys|
  {
    if n == 0 then joints else Added(KeysJoints(joints, keys, n - 1), ReverseComplement(keys[n - 1]))
  }

  /** A strand is among those joints exactly when it was one before or is the reverse complement of one of the first n keys. */
  lemma {:induction false} KeysJointsMeaning(joints: seq<Strand>, keys: seq<Strand>, n: nat)
    requires n <= |keys|
    ensures forall q :: q in KeysJoints(joints, keys, n) <==>
              q in joints || exists i :: 0 <= i < n && q == ReverseComplement(keys[i])
  {
    if n > 0 {
      var r := ReverseComplement(keys[n - 1]);
      KeysJointsMeaning(joints, keys, n - 1);
      AddedMeaning(KeysJoints(joints, keys, n - 1), r);
      forall q
        ensures q in KeysJoints(joints, keys, n) <==>
                q in joints || exists i :: 0 <= i < n && q == ReverseComplement(keys[i])
      {
        if exists i :: 0 <= i < n && q == ReverseComplement(keys[i]) {
          var i :| 0 <= i < n && q == ReverseComplement(keys[i]);
          if i < n - 1 {
            assert q in KeysJoints(joints, keys, n - 1);
          }
        }
        if q == r {
          assert 0 <= n - 1 < n && q == ReverseComplement(keys[n - 1]);
        }
      }
    }
  }

  /** Steps that add the reverse complement of every non-empty strand add those of all the strands. */
  lemma {:induction false} AddingJoints(st: MotifStats, keys: seq<Strand>, n: nat, step: (MotifStats, Strand) -> MotifStats)
    requires n <= |keys|
    requires forall k :: k in keys ==> k != []
    requires forall s: MotifStats, k: Strand :: k != [] ==> step(s, k).joints == Added(s.joints, ReverseComplement(k))
    ensures Recorded(st, keys, n, step).joints == KeysJoints(st.joints, keys, n)
  {
    if n > 0 {
      AddingJoints(st, keys, n - 1, step);
      assert keys[n - 1] in keys;
    }
  }

  /** Steps that keep the joints keep them over any number of strands. */
  lemma {:induction false} KeepingJoints(st: MotifStats, ps: seq<Strand>, n: nat, step: (MotifStats, Strand) -> MotifStats)
    requires n <= |ps|
    requires forall s: MotifStats, p: Strand :: step(s, p).joints == s.joints
    ensures Recorded(st, ps, n, step).joints == st.joints
  {
    if n > 0 {
      KeepingJoints(st, ps, n - 1, step);
    }
  }

  /** Recording n keys adds their reverse complements to the joints. */
  lemma KeysRecordedJoints(st: MotifStats, keys: seq<Strand>, n: nat, js: nat, maxHom: int)
    requires n <= |keys|
    requires forall k :: k in keys ==> k != []
    ensures KeysRecorded(st, keys, n, js, maxHom).joints == KeysJoints(st.joints, keys, n)
  {
    forall s: MotifStats, k: Strand | k != []
      ensures RecordKeyStep(js, maxHom)(s, k).joints == Added(s.joints, ReverseComplement(k))
    {
      RecordedJoints(s, k, js, maxHom);
    }
    AddingJoints(st, keys, n, RecordKeyStep(js, maxHom));
  }

  /** Recording payloads leaves the joints alone. */
  lemma PayloadsKeepJoints(st: MotifStats, payloads: seq<Strand>, n: nat, maxHom: int)
    requires n <= |payloads|
    ensures PayloadsRecorded(st, payloads, n, maxHom).joints == st.joints
  {
    forall s: MotifStats, p: Strand
      ensures RecordPayloadStep(maxHom)(s, p).joints == s.joints
    {
      RecordedJoints(s, p, 0, maxHom);
    }
    KeepingJoints(st, payloads, n, RecordPayloadStep(maxHom));
  }

  /**
   * After generate_motifs_stats the joints are exactly the joints held
   * before and the reverse complements of the keys.
   */
  lemma GeneratedJoints(st: MotifStats, c: Constraints, keys: seq<Strand>, payloads: seq<Strand>)
    requires Valid(c) && forall k :: k in keys ==> k != []
    ensures forall q :: q in Generated(st, c, keys, payloads).joints <==>
              q in st.joints || exists i :: 0 <= i < |keys| && q == ReverseComplement(keys[i])
  {
    KeysRecordedJoints(st, keys, |keys|, JointSize(c), c.maxHom);
    KeysJointsMeaning(st.joints, keys, |keys|);
    PayloadsKeepJoints(KeysRecorded(st, keys, |keys|, JointSize(c), c.maxHom), payloads, |payloads|, c.maxHom);
  }

  /**
   * What the validator keeps true: valid constraints, keys and joints of
   * keySize bases, payloads of payloadSize bases, and only positive
   * amounts in homOutBoundary.
   */
  predicate Consistent(c: Constraints, keys: seq<Strand>, payloads: seq<Strand>, st: MotifStats)
  {
    && Configuration.Valid(c)
    && Pools(c, keys, payloads, st.joints)
    && (forall y :: y in st.homOutBoundary ==> y > 0)
  }

  /** Recording a key of keySize bases keeps the validator consistent. */
  lemma KeyRecordedConsistent(c: Constraints, keys: seq<Strand>, payloads: seq<Strand>, st: MotifStats, k: Strand)
    requires Consistent(c, keys, payloads, st) && |k| == c.keySize
    ensures Consistent(c, keys, payloads, KeyRecorded(st, k, JointSize(c), c.maxHom))
  {
    RecordedJoints(st, k, JointSize(c), c.maxHom);
    AddedMeaning(st.joints, ReverseComplement(k));
  }

  /** Recording a payload keeps the validator consistent. */
  lemma PayloadRecordedConsistent(c: Constraints, keys: seq<Strand>, payloads: seq<Strand>, st: MotifStats, p: Strand)
    requires Consistent(c, keys, payloads, st)
    ensures Consistent(c, keys, payloads, PayloadRecorded(st, p, c.maxHom))
  {
    RecordedJoints(st, p, JointSize(c), c.maxHom);
  }

  /**
   * The loop body of generate_motifs_stats for one key, on a copy of the
   * statistics: the key's reverse complement joins the joints, its first
   * and last runs (or its one run) are filed under the complements of its
   * first and last bases, its half GC counts and interior excesses are
   * appended.
   */
  method RecordKeyStats(st: MotifStats, k: Strand, js: nat, maxHom: int) returns (r: MotifStats)
    requires 1 <= js < |k|
    ensures r == KeyRecorded(st, k, js, maxHom)
    ensures r.wholeHomPayload == st.wholeHomPayload && r.startHomPayload == st.startHomPayload
    ensures r.endHomPayload == st.endHomPayload && r.payloadsGcCount == st.payloadsGcCount
  {
    var joint, single, first, last, excess, endGc, startGc := ScanKey(k, js, maxHom);
    r := st.(joints := Added(st.joints, joint), homOutBoundary := st.homOutBoundary + excess,
             endJointsGcCount := st.endJointsGcCount + [endGc]);
    var n := Complement(k[|k| - 1]);
    if single {
      r := r.(wholeJointHom := r.wholeJointHom.With(n, r.wholeJointHom.At(n) + 1));
    } else {
      var m := Complement(k[0]);
      r := r.(startJointHom := r.startJointHom.With(m, r.startJointHom.At(m) + [first]),
              endJointHom := r.endJointHom.With(n, r.endJointHom.At(n) + [last]));
    }
    r := r.(startJointsGcCount := r.startJointsGcCount + [startGc]);
    KeyRecordedByScan(st, k, js, maxHom, joint, single, first, last, excess, endGc, startGc);
  }

  /**
   * The loop body of generate_motifs_stats for one payload, on a copy of
   * the statistics: its one run, or its first and last runs, are filed
   * under its own bases; its GC count and interior excesses are appended.
   */
  method RecordPayloadStats(st: MotifStats, p: Strand, maxHom: int) returns (r: MotifStats)
    requires p != []
    ensures r == PayloadRecorded(st, p, maxHom)
    ensures r.joints == st.joints && r.startJointHom == st.startJointHom && r.endJointHom == st.endJointHom
    ensures r.wholeJointHom == st.wholeJointHom
    ensures r.startJointsGcCount == st.startJointsGcCount && r.endJointsGcCount == st.endJointsGcCount
  {
    var single, first, last, excess, gc := ScanPayload(p, maxHom);
    r := st.(homOutBoundary := st.homOutBoundary + excess);
    var n := p[|p| - 1];
    if single {
      r := r.(wholeHomPayload := r.wholeHomPayload.With(n, r.wholeHomPayload.At(n) + last));
    } else {
      r := r.(startHomPayload := r.startHomPayload.With(p[0], r.startHomPayload.At(p[0]) + [first]),
              endHomPayload := r.endHomPayload.With(n, r.endHomPayload.At(n) + [last]));
    }
    r := r.(payloadsGcCount := r.payloadsGcCount + [gc]);
    PayloadRecordedByScan(st, p, maxHom, single, first, last, excess, gc);
  }

  /** The key loop of generate_motifs_stats, on a copy of the statistics. */
  method RecordKeysStats(c: ValidConstraints, keys: seq<Strand>, payloads: seq<Strand>, st: MotifStats)
    returns (r: MotifStats)
    requires Consistent(c, keys, payloads, st)
    ensures Consistent(c, keys, payloads, r)
    ensures r == KeysRecorded(st, keys, |keys|, JointSize(c), c.maxHom)
  {
    r := st;
    var i := 0;
    while i < |keys|
      invariant 0 <= i <= |keys| && Consistent(c, keys, payloads, r)
      invariant r == KeysRecorded(st, keys, i, JointSize(c), c.maxHom)
    {
      KeyRecordedConsistent(c, keys, payloads, r, keys[i]);
      r := RecordKeyStats(r, keys[i], JointSize(c), c.maxHom);
      i := i + 1;
    }
  }

  /** The payload loop of generate_motifs_stats, on a copy of the statistics. */
  method RecordPayloadsStats(c: ValidConstraints, keys: seq<Strand>, payloads: seq<Strand>, st: MotifStats)
    returns (r: MotifStats)
    requires Consistent(c, keys, payloads, st)
    ensures Consistent(c, keys, payloads, r)
    ensures r == PayloadsRecorded(st, payloads, |payloads|, c.maxHom)
  {
    r := st;
    var i := 0;
    while i < |payloads|
      invariant 0 <= i <= |payloads| && Consistent(c, keys, payloads, r)
      invariant r == PayloadsRecorded(st, payloads, i, c.maxHom)
    {
      PayloadRecordedConsistent(c, keys, payloads, r, payloads[i]);
      r := RecordPayloadStats(r, payloads[i], c.maxHom);
      i := i + 1;
    }
  }

  class Validate {
    const c: ValidConstraints
    var keys: seq<Strand>
    var payloads: seq<Strand>
    /**
     * The statistics attributes of the validator (joints, the run lists
     * and counts per nucleotide, the GC counts and homOutBoundary), one
     * record field per attribute.
     */
    var stats: MotifStats

    /** The five penalties that read the fields only (not homOutBoundary). */
    ghost function Fixed(): Penalties
      reads this
      requires Valid()
    {
      FixedPenalties(c, keys, payloads, stats.joints, stats.payloadsGcCount, stats.startJointsGcCount, stats.endJointsGcCount)
    }

    predicate Valid()
      reads this
    {
      Consistent(c, keys, payloads, stats)
    }

    /** A validator with no keys, no payloads and empty statistics. */
    constructor (c: ValidConstraints)
      ensures Valid() && this.c == c
      ensures keys == [] && payloads == [] && stats == NoStats
    {
      this.c := c;
      keys, payloads := [], [];
      stats := NoStats;
    }

    /** Stores the keys and the payloads, then gathers the statistics of both. */
    method AddKeysAndPayloads(newKeys: seq<Strand>, newPayloads: seq<Strand>)
      requires Valid() && Pools(c, newKeys, newPayloads, [])
      modifies this
      ensures Valid() && keys == newKeys && payloads == newPayloads
      ensures stats == Generated(old(stats), c, newKeys, newPayloads)
    {
      keys := newKeys;
      payloads := newPayloads;
      GenerateMotifsStats();
    }

    /**
     * Stores the payloads, then gathers the statistics of the keys held
     * and of the payloads: keys stored earlier are recorded once more.
     */
    method AddPayloads(newPayloads: seq<Strand>)
      requires Valid() && Pools(c, [], newPayloads, [])
      modifies this
      ensures Valid() && keys == old(keys) && payloads == newPayloads
      ensures stats == Generated(old(stats), c, keys, newPayloads)
    {
      payloads := newPayloads;
      GenerateMotifsStats();
    }

    /** Stores the keys only; no statistics are gathered. */
    method AddKeys(newKeys: seq<Strand>)
      requires Valid() && Pools(c, newKeys, [], [])
      modifies this`keys
      ensures Valid() && keys == newKeys && stats == old(stats)
    {
      keys := newKeys;
    }

    /** generate_motifs_stats: every key, then every payload, scanned once. */
    method GenerateMotifsStats()
      requires Valid()
      modifies this`stats
      ensures Valid()
      ensures stats == Generated(old(stats), c, keys, payloads)
    {
      stats := RecordKeysStats(c, keys, payloads, stats);
      stats := RecordPayloadsStats(c, keys, payloads, stats);
    }

    // -------------------------------------------------------------------
    // Penalties

    /** get_key_homopolymer_penalty: zero exactly when no run of a key is longer than maxHom. */
    method GetKeyHomopolymerPenalty() returns (p: int)
      requires Valid()
      ensures p == SumInts(KeysRunExcess(keys, |keys|, c.maxHom)) && p >= 0
      ensures p == 0 <==> KeysRunsWithin(keys, c.maxHom)
    {
      p := KeysHomPenalty(keys, c.maxHom);
    }

    /** get_key_gc_penalty: zero exactly when every key's GC% lies in [minGc, maxGc]. */
    method GetKeyGcPenalty() returns (p: real)
      requires Valid()
      ensures p == SumReals(KeysGcExcess(keys, |keys|, c.keySize, c.minGc, c.maxGc)) && p >= 0.0
      ensures p == 0.0 <==> KeysInGcWindow(keys, c.keySize, c.minGc, c.maxGc)
    {
      p := KeysGcPenalty(keys, c.keySize, c.minGc, c.maxGc);
    }

    /**
     * get_key_hairpin_penalty: one for every loop size of the range that
     * fits in a key, every key and every stem start at which the stems pair;
     * none at all when even the shortest loop does not fit.
     */
    method GetKeyHairpinPenalty() returns (count: nat)
      requires Valid()
      ensures count == |LoopsHairpins(c, keys, c.loopSizeMax + 1)| == LoopsPaired(c, keys, c.loopSizeMax + 1)
      ensures c.maxHairpin * 2 + c.loopSizeMin >= c.keySize ==> count == 0
    {
      count := KeysHairpinCount(c, keys);
      assert FullKeys(c, keys) by {
        assert forall i :: 0 <= i < |keys| ==> keys[i] in keys;
      }
      LoopsHairpinsMeaning(c, keys, c.loopSizeMax + 1);
      if c.maxHairpin * 2 + c.loopSizeMin >= c.keySize {
        LoopsHairpinsNone(c, keys, c.loopSizeMax + 1);
      }
    }

    /** get_motif_and_key_hairpin_penalty: the hairpins hairpin_stats finds in the payloads and joints. */
    method GetMotifAndKeyHairpinPenalty() returns (count: nat)
      requires Valid()
      ensures count == |PoolHairpins(c, payloads, payloads, stats.joints, false, c.payloadSize, |payloads|)|
                       + |PoolHairpins(c, stats.joints, stats.joints, payloads, true, c.keySize, |stats.joints|)|
    {
      count := MotifsHairpinCount(c, payloads, stats.joints);
    }

    /**
     * get_motif_gc_penalty: zero exactly when every combination of a
     * payload, a start joint and an end joint has a GC% in [minGc, maxGc].
     */
    method GetMotifGcPenalty() returns (p: real)
      requires Valid()
      ensures p == SumReals(MotifsGcExcess(stats.payloadsGcCount, stats.startJointsGcCount, stats.endJointsGcCount,
                                           |stats.payloadsGcCount|, c.motifSize, c.minGc, c.maxGc)) && p >= 0.0
      ensures p == 0.0 <==> MotifsInGcWindow(stats.payloadsGcCount, stats.startJointsGcCount, stats.endJointsGcCount, c.motifSize, c.minGc, c.maxGc)
    {
      p := MotifsGcPenalty(stats.payloadsGcCount, stats.startJointsGcCount, stats.endJointsGcCount, c.motifSize, c.minGc, c.maxGc);
    }

    /**
     * add_homopolymer_over_motifs_stats: appends to homOutBoundary the
     * excesses of the runs that cross element boundaries, nucleotide by
     * nucleotide, and returns the field; it stops at the first nucleotide
     * with a one-run payload and a one-run joint and returns the worst case.
     */
    method AddHomopolymerOverMotifsStats() returns (out: seq<int>)
      requires Valid()
      modifies this`stats
      ensures Valid()
      ensures stats == HomCall(old(stats), c).0 && out == HomCall(old(stats), c).1
    {
      HomCallNonNegative(stats, c);
      var extended;
      extended, out := ScanBoundaries(stats, c);
      stats := stats.(homOutBoundary := extended);
    }

    /** get_motif_and_key_homopolymer_penalty: the sum of what the scan returns (0 for an empty list). */
    method GetMotifAndKeyHomopolymerPenalty() returns (p: int)
      requires Valid()
      modifies this`stats
      ensures Valid() && stats == HomCall(old(stats), c).0
      ensures p == HomTotal(HomCall(old(stats), c).1) && p >= 0
    {
      HomCallNonNegative(stats, c);
      var out := AddHomopolymerOverMotifsStats();
      if |out| == 0 {
        p := 0;
      } else {
        p := SumInts(out);
      }
    }

    // -------------------------------------------------------------------
    // Scores

    method GetMotifsAndKeysHomopolymerScore() returns (s: int)
      requires Valid()
      modifies this`stats
      ensures Valid() && stats == HomCall(old(stats), c).0
      ensures s == -HomTotal(HomCall(old(stats), c).1) && s <= 0
    {
      var p := GetMotifAndKeyHomopolymerPenalty();
      s := -(p as int);
    }

    method GetKeysHomopolymerScore() returns (s: int)
      requires Valid()
      ensures s == -Fixed().keyHom && s <= 0
    {
      var p := GetKeyHomopolymerPenalty();
      s := -(p as int);
    }

    method GetMotifsAndKeysHairpinScore() returns (s: int)
      requires Valid()
      ensures s == -Fixed().hairpin && s <= 0
    {
      var p := GetMotifAndKeyHairpinPenalty();
      s := -(p as int);
    }

    method GetKeysHairpinScore() returns (s: int)
      requires Valid()
      ensures s == -Fixed().keyHairpin && s <= 0
    {
      var p := GetKeyHairpinPenalty();
      s := -(p as int);
    }

    method GetMotifsGcScore() returns (s: real)
      requires Valid()
      ensures s == -Fixed().motifGc && s <= 0.0
    {
      var p := GetMotifGcPenalty();
      s := -p;
    }

    method GetKeysGcScore() returns (s: real)
      requires Valid()
      ensures s == -Fixed().keyGc && s <= 0.0
    {
      var p := GetKeyGcPenalty();
      s := -p;
    }

    /**
     * get_all_keys_scores_total: the key homopolymer, hairpin and GC
     * scores; zero exactly when all three penalties are.
     */
    method GetAllKeysScoresTotal() returns (s: real)
      requires Valid()
      ensures s == -(Fixed().keyHom as real + Fixed().keyHairpin as real + Fixed().keyGc)
      ensures s <= 0.0
      ensures s == 0.0 <==> Fixed().keyHom == 0 && Fixed().keyHairpin == 0 && Fixed().keyGc == 0.0
    {
      var hom := GetKeysHomopolymerScore();
      var hairpin := GetKeysHairpinScore();
      var gc := GetKeysGcScore();
      s := hom as real + hairpin as real + gc;
    }

    /**
     * get_all_motifs_and_keys_scores_total: the homopolymer score across
     * motifs (which extends homOutBoundary), the hairpin score and both
     * GC scores; zero exactly when all four penalties are.
     */
    method GetAllMotifsAndKeysScoresTotal() returns (s: real)
      requires Valid()
      modifies this`stats
      ensures Valid() && stats == HomCall(old(stats), c).0
      ensures s == -(HomTotal(HomCall(old(stats), c).1) as real + old(Fixed()).hairpin as real
                     + old(Fixed()).motifGc + old(Fixed()).keyGc)
      ensures s <= 0.0
      ensures s == 0.0 <==> HomTotal(HomCall(old(stats), c).1) == 0 && old(Fixed()).hairpin == 0
                            && old(Fixed()).motifGc == 0.0 && old(Fixed()).keyGc == 0.0
    {
      ghost var f := Fixed();
      var hom := GetMotifsAndKeysHomopolymerScore();
      assert Fixed() == f;
      s := hom as real;
      var hairpin := GetMotifsAndKeysHairpinScore();
      s := s + hairpin as real;
      var motifGc := GetMotifsGcScore();
      s := s + motifGc;
      var keyGc := GetKeysGcScore();
      s := s + keyGc;
    }

    /**
     * get_total_scores_of_constraints: the scores the tags select, in the
     * order given; each 'hom' runs the homopolymer scan once more.
     */
    method GetTotalScoresOfConstraints(tags: seq<string>) returns (score: real)
      requires Valid()
      modifies this`stats
      ensures Valid()
      ensures stats == TagsTotal(old(Fixed()), old(stats), c, tags, |tags|).0
      ensures score == TagsTotal(old(Fixed()), old(stats), c, tags, |tags|).1
    {
      ghost var f := Fixed();
      ghost var st := stats;
      score := 0.0;
      var i := 0;
      while i < |tags|
        invariant 0 <= i <= |tags| && Valid() && Fixed() == f
        invariant stats == TagsTotal(f, st, c, tags, i).0 && score == TagsTotal(f, st, c, tags, i).1
      {
        TagsTotalNext(f, st, c, tags, i);
        score := AddTagScore(tags[i], score, f);
        i := i + 1;
      }
    }

    /** One pass of the loop of get_total_scores_of_constraints: the score the tag selects, added. */
    method AddTagScore(t: string, acc: real, ghost f: Penalties) returns (score: real)
      requires Valid() && Fixed() == f
      modifies this`stats
      ensures Valid() && Fixed() == f
      ensures stats == TagApply(f, c, t, (old(stats), acc)).0
      ensures score == TagApply(f, c, t, (old(stats), acc)).1
    {
      if t == "hom" {
        score := AddHomScore(acc, f);
      } else {
        score := AddFixedScore(t, acc);
        FixedTagApplied(f, c, t, stats, acc);
      }
    }

    /** The tag 'hom' extends homOutBoundary once more and adds the homopolymer score. */
    method AddHomScore(acc: real, ghost f: Penalties) returns (score: real)
      requires Valid() && Fixed() == f
      modifies this`stats
      ensures Valid() && Fixed() == f
      ensures stats == TagApply(f, c, "hom", (old(stats), acc)).0
      ensures score == TagApply(f, c, "hom", (old(stats), acc)).1
    {
      ghost var st := stats;
      var x := GetMotifsAndKeysHomopolymerScore();
      score := acc + x as real;
      HomTagApplied(f, c, st, acc);
    }

    /** A tag other than 'hom' adds the negation of the penalty it selects, or nothing. */
    method AddFixedScore(t: string, acc: real) returns (score: real)
      requires Valid()
      ensures score == acc - TagPenalty(Fixed(), t)
    {
      score := acc;
      if t == "keyHom" {
        var x := GetKeysHomopolymerScore();
        score := score + x as real;
      } else if t == "hairpin" {
        var x := GetMotifsAndKeysHairpinScore();
        score := score + x as real;
      } else if t == "keyHairpin" {
        var x := GetKeysHairpinScore();
        score := score + x as real;
      } else if t == "motifGcContent" {
        var x := GetMotifsGcScore();
        score := score + x;
      } else if t == "keyGcContent" {
        var x := GetKeysGcScore();
        score := score + x;
      }
    }
  }
}
