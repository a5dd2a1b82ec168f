/**
 * The score totals of validation.py: the five penalties that only read
 * the validator's fields, and the score of a list of constraint tags,
 * where the homopolymer tag re-runs the boundary scan that extends
 * homOutBoundary.
 */
module ScoreTotals {
  import opened Nucleotides
  import opened Scores
  import opened Configuration
  import opened Excesses
  import opened BasePenalties
  import opened MotifStatistics
  import opened MotifBoundaries
  import opened ValidationPenalties

  /** Every key and every joint has keySize bases, every payload payloadSize. */
  predicate Pools(c: Constraints, keys: seq<Strand>, payloads: seq<Strand>, joints: seq<Strand>)
  {
    && (forall k :: k in keys ==> |k| == c.keySize)
    && (forall p :: p in payloads ==> |p| == c.payloadSize)
    && (forall j :: j in joints ==> |j| == c.keySize)
  }


  /** The five penalties that only read the validator's fields. */
  datatype Penalties = Penalties(keyHom: int, keyGc: real, keyHairpin: int, motifGc: real, hairpin: int)

  function FixedPenalties(c: ValidConstraints, keys: seq<Strand>, payloads: seq<Strand>, joints: seq<Strand>,
                          payloadsGc: seq<nat>, startGc: seq<nat>, endGc: seq<nat>): Penalties
    requires Pools(c, keys, payloads, joints)
  {
    Penalties(
      SumInts(KeysRunExcess(keys, |keys|, c.maxHom)),
      SumReals(KeysGcExcess(keys, |keys|, c.keySize, c.minGc, c.maxGc)),
      |LoopsHairpins(c, keys, c.loopSizeMax + 1)|,
      SumReals(MotifsGcExcess(payloadsGc, startGc, endGc, |payloadsGc|, c.motifSize, c.minGc, c.maxGc)),
      |PoolHairpins(c, payloads, payloads, joints, false, c.payloadSize, |payloads|)|
        + |PoolHairpins(c, joints, joints, payloads, true, c.keySize, |joints|)|)
  }

  /** None of the penalties is negative. */
  lemma FixedPenaltiesNonNegative(c: ValidConstraints, keys: seq<Strand>, payloads: seq<Strand>, joints: seq<Strand>,
                                  payloadsGc: seq<nat>, startGc: seq<nat>, endGc: seq<nat>)
    requires Pools(c, keys, payloads, joints)
    ensures var f := FixedPenalties(c, keys, payloads, joints, payloadsGc, startGc, endGc);
            f.keyHom >= 0 && f.keyGc >= 0.0 && f.keyHairpin >= 0 && f.motifGc >= 0.0 && f.hairpin >= 0
  {
    KeyHomPenaltyZeroIff(keys, c.maxHom);
    KeyGcPenaltyZeroIff(keys, c.keySize, c.minGc, c.maxGc);
    MotifGcPenaltyZeroIff(payloadsGc, startGc, endGc, c.motifSize, c.minGc, c.maxGc);
  }

  // ---------------------------------------------------------------------
  // get_total_scores_of_constraints

  /** The penalty a tag other than 'hom' selects; an unknown tag selects none. */
  function TagPenalty(f: Penalties, t: string): real
  {
    if t == "keyHom" then f.keyHom as real
    else if t == "hairpin" then f.hairpin as real
    else if t == "keyHairpin" then f.keyHairpin as real
    else if t == "motifGcContent" then f.motifGc
    else if t == "keyGcContent" then f.keyGc
    else 0.0
  }

  /** The homopolymer scan as a step on the statistics: the statistics it leaves and the amounts it returns. */
  type HomScan = MotifStats -> (MotifStats, seq<int>)

  /** homopolymer_over_motifs_stats under the constraints c. */
  function ScanUnder(c: Constraints): HomScan
  {
    (st: MotifStats) => HomCall(st, c)
  }

  /**
   * One tag applied to the statistics and the score so far: 'hom' runs
   * the homopolymer scan (which extends homOutBoundary) and subtracts its
   * total; any other tag subtracts the penalty it selects.
   */
  function TagApplyBy(f: Penalties, scan: HomScan, t: string, acc: (MotifStats, real)): (MotifStats, real)
  {
    if t == "hom" then (scan(acc.0).0, acc.1 - HomTotal(scan(acc.0).1) as real)
    else (acc.0, acc.1 - TagPenalty(f, t))
  }

  function TagApply(f: Penalties, c: Constraints, t: string, acc: (MotifStats, real)): (MotifStats, real)
  {
    TagApplyBy(f, ScanUnder(c), t, acc)
  }

  lemma HomTagApplied(f: Penalties, c: Constraints, st: MotifStats, acc: real)
    ensures TagApply(f, c, "hom", (st, acc)) == (HomCall(st, c).0, acc - HomTotal(HomCall(st, c).1) as real)
  {
  }

  lemma FixedTagApplied(f: Penalties, c: Constraints, t: string, st: MotifStats, acc: real)
    requires t != "hom"
    ensures TagApply(f, c, t, (st, acc)) == (st, acc - TagPenalty(f, t))
  {
  }

  /** The score after the first n tags, and the statistics the scans among them leave. */
  function TagsTotalBy(f: Penalties, st: MotifStats, scan: HomScan, tags: seq<string>, n: nat): (MotifStats, real)
    requires n <= |tags|
  {
    if n == 0 then (st, 0.0)
    else TagApplyBy(f, scan, tags[n - 1], TagsTotalBy(f, st, scan, tags, n - 1))
  }

  function TagsTotal(f: Penalties, st: MotifStats, c: Constraints, tags: seq<string>, n: nat): (MotifStats, real)
    requires n <= |tags|
  {
    TagsTotalBy(f, st, ScanUnder(c), tags, n)
  }

  /** One tag more is one more application of that tag. */
  lemma TagsTotalNext(f: Penalties, st: MotifStats, c: Constraints, tags: seq<string>, n: nat)
    requires n < |tags|
    ensures TagsTotal(f, st, c, tags, n + 1) == TagApply(f, c, tags[n], TagsTotal(f, st, c, tags, n))
  {
  }

  /** The constraint a tag names holds, judged on the statistics before any scan. */
  predicate CleanBy(f: Penalties, st: MotifStats, scan: HomScan, t: string)
  {
    if t == "hom" then HomTotal(scan(st).1) == 0 else TagPenalty(f, t) == 0.0
  }

  predicate Clean(f: Penalties, st: MotifStats, c: Constraints, t: string)
  {
    if t == "hom" then HomTotal(HomCall(st, c).1) == 0 else TagPenalty(f, t) == 0.0
  }

  predicate NonNegative(f: Penalties)
  {
    f.keyHom >= 0 && f.keyGc >= 0.0 && f.keyHairpin >= 0 && f.motifGc >= 0.0 && f.hairpin >= 0
  }

  /** Every amount in homOutBoundary is positive. */
  predicate PositiveOut(st: MotifStats)
  {
    forall y :: y in st.homOutBoundary ==> y > 0
  }

  /** Marks the statistics a proof applies Lawful to, so that the scans Lawful speaks of do not set it off again. */
  ghost predicate Scanned(a: MotifStats)
  {
    true
  }

  /**
   * What the tag total needs of the scan: from statistics whose amounts are
   * positive it leaves positive amounts, returns a total that is not
   * negative, and a second scan is clean exactly when the first is.
   */
  ghost predicate Lawful(scan: HomScan)
  {
    forall a {:trigger Scanned(a)} :: Scanned(a) && PositiveOut(a) ==>
      && PositiveOut(scan(a).0)
      && HomTotal(scan(a).1) >= 0
      && (HomTotal(scan(scan(a).0).1) == 0 <==> HomTotal(scan(a).1) == 0)
  }

  /** The homopolymer scan under valid constraints is lawful. */
  lemma ScanUnderLawful(c: ValidConstraints)
    ensures Lawful(ScanUnder(c))
  {
    forall a | Scanned(a) && PositiveOut(a)
      ensures PositiveOut(HomCall(a, c).0)
      ensures HomTotal(HomCall(a, c).1) >= 0
      ensures HomTotal(HomCall(HomCall(a, c).0, c).1) == 0 <==> HomTotal(HomCall(a, c).1) == 0
    {
      HomCallNonNegative(a, c);
      RecallNeverDecreases(a, c);
    }
  }

  /** The selected penalties are never negative. */
  lemma TagPenaltyNonNegative(f: Penalties, t: string)
    requires NonNegative(f)
    ensures TagPenalty(f, t) >= 0.0
  {
  }

  /** Subtracting a penalty that is not negative keeps the score at or below zero, and at zero only when both were zero. */
  lemma SubtractStep(p: real, s: real, clean: bool)
    requires p >= 0.0 && s <= 0.0 && (s == 0.0 <==> clean)
    ensures s - p <= 0.0 && (s - p == 0.0 <==> clean && p == 0.0)
  {
  }

  /** What a run of tags keeps about the statistics it hands on: the amounts stay positive, and a further scan is clean exactly when the first one is. */
  predicate Carries(st: MotifStats, scan: HomScan, a: MotifStats)
  {
    PositiveOut(a) && (HomTotal(scan(a).1) == 0 <==> HomTotal(scan(st).1) == 0)
  }

  /** One tag more: the invariants of TagsTotalAt carry over. */
  lemma TagStep(f: Penalties, st: MotifStats, scan: HomScan, t: string, a: MotifStats, s: real, clean: bool)
    requires NonNegative(f) && Lawful(scan)
    requires s <= 0.0 && (s == 0.0 <==> clean)
    requires Carries(st, scan, a)
    ensures var next := TagApplyBy(f, scan, t, (a, s));
            && next.1 <= 0.0
            && (next.1 == 0.0 <==> clean && CleanBy(f, st, scan, t))
            && Carries(st, scan, next.0)
  {
    assert Scanned(a);
    if t == "hom" {
      SubtractStep(HomTotal(scan(a).1) as real, s, clean);
    } else {
      TagPenaltyNonNegative(f, t);
      SubtractStep(TagPenalty(f, t), s, clean);
    }
  }

  /** Every one of the first n tags names a constraint that holds. */
  predicate AllClean(f: Penalties, st: MotifStats, scan: HomScan, tags: seq<string>, n: nat)
    requires n <= |tags|
  {
    n == 0 || (AllClean(f, st, scan, tags, n - 1) && CleanBy(f, st, scan, tags[n - 1]))
  }

  lemma {:induction false} AllCleanMeaning(f: Penalties, st: MotifStats, scan: HomScan, tags: seq<string>, n: nat)
    requires n <= |tags|
    ensures AllClean(f, st, scan, tags, n) <==> forall i :: 0 <= i < n ==> CleanBy(f, st, scan, tags[i])
  {
    if n > 0 {
      AllCleanMeaning(f, st, scan, tags, n - 1);
    }
  }

  lemma {:induction false} TagsTotalAt(f: Penalties, st: MotifStats, scan: HomScan, tags: seq<string>, n: nat)
    requires n <= |tags| && NonNegative(f) && Lawful(scan) && PositiveOut(st)
    ensures TagsTotalBy(f, st, scan, tags, n).1 <= 0.0
    ensures TagsTotalBy(f, st, scan, tags, n).1 == 0.0 <==> AllClean(f, st, scan, tags, n)
    ensures Carries(st, scan, TagsTotalBy(f, st, scan, tags, n).0)
  {
    if n > 0 {
      TagsTotalAt(f, st, scan, tags, n - 1);
      var prev := TagsTotalBy(f, st, scan, tags, n - 1);
      TagStep(f, st, scan, tags[n - 1], prev.0, prev.1, AllClean(f, st, scan, tags, n - 1));
    }
  }

  /**
   * The score of a set of tags is never positive, and it is zero exactly
   * when every selected constraint holds; so `totalScore == 0` (the
   * validity flag of buildAnswer) means no selected constraint is
   * violated. A repeated 'hom' does not change the verdict, since a
   * second call is zero exactly when the first is.
   */
  lemma TagsTotalZeroIff(f: Penalties, st: MotifStats, c: ValidConstraints, tags: seq<string>)
    requires NonNegative(f)
    requires forall y :: y in st.homOutBoundary ==> y > 0
    ensures TagsTotal(f, st, c, tags, |tags|).1 <= 0.0
    ensures TagsTotal(f, st, c, tags, |tags|).1 == 0.0 <==> forall i :: 0 <= i < |tags| ==> Clean(f, st, c, tags[i])
  {
    ScanUnderLawful(c);
    TagsTotalAt(f, st, ScanUnder(c), tags, |tags|);
    AllCleanMeaning(f, st, ScanUnder(c), tags, |tags|);
    assert forall t :: CleanBy(f, st, ScanUnder(c), t) == Clean(f, st, c, t);
  }
}
