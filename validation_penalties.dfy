/**
 * The penalties of the batch validator (validation.py) that do not depend
 * on the motif boundaries, as lists of the amounts its loops append: the
 * key homopolymer and key GC penalties, the motif GC penalty over every
 * payload / start-joint / end-joint combination, and the hairpins its
 * forward searches record.
 */
module ValidationPenalties {
  import opened Nucleotides
  import opened Scores
  import opened GcContent
  import opened Excesses
  import opened Configuration
  import opened HairpinSearch
  import opened BasePenalties

  // ---------------------------------------------------------------------
  // Key homopolymers (get_key_homopolymer_penalty)

  /** The excess over maxHom of every run of the first n keys, key by key. */
  function KeysRunExcess(keys: seq<Strand>, n: nat, maxHom: int): (r: seq<int>)
    requires n <= |keys|
    ensures forall y :: y in r ==> y > 0
  {
    if n == 0 then [] else KeysRunExcess(keys, n - 1, maxHom) + Over(Runs(keys[n - 1]), maxHom)
  }

  /** No run of the strand is longer than maxHom. */
  predicate RunsWithin(k: Strand, maxHom: int)
  {
    forall t :: 0 <= t < |Runs(k)| ==> Runs(k)[t] <= maxHom
  }

  lemma {:induction false} KeysRunExcessEmpty(keys: seq<Strand>, n: nat, maxHom: int)
    requires n <= |keys|
    ensures KeysRunExcess(keys, n, maxHom) == [] <==>
            forall i :: 0 <= i < n ==> RunsWithin(keys[i], maxHom)
  {
    if n > 0 {
      KeysRunExcessEmpty(keys, n - 1, maxHom);
      OverEmpty(Runs(keys[n - 1]), maxHom);
      EmptyConcat(KeysRunExcess(keys, n - 1, maxHom), Over(Runs(keys[n - 1]), maxHom));
      assert (forall i :: 0 <= i < n ==> RunsWithin(keys[i], maxHom)) <==>
             (forall i :: 0 <= i < n - 1 ==> RunsWithin(keys[i], maxHom)) && RunsWithin(keys[n - 1], maxHom);
    }
  }

  /** No run of any key is longer than maxHom. */
  predicate KeysRunsWithin(keys: seq<Strand>, maxHom: int)
  {
    forall i :: 0 <= i < |keys| ==> RunsWithin(keys[i], maxHom)
  }

  /**
   * The key homopolymer penalty is never negative, and it is zero exactly
   * when no run of any key is longer than maxHom.
   */
  lemma KeyHomPenaltyZeroIff(keys: seq<Strand>, maxHom: int)
    ensures SumInts(KeysRunExcess(keys, |keys|, maxHom)) >= 0
    ensures SumInts(KeysRunExcess(keys, |keys|, maxHom)) == 0 <==> KeysRunsWithin(keys, maxHom)
  {
    KeysRunExcessEmpty(keys, |keys|, maxHom);
    SumPositiveInts(KeysRunExcess(keys, |keys|, maxHom));
  }

  // ---------------------------------------------------------------------
  // GC windows

  /** gc G/C bases over span bases lie in [minGc, maxGc] percent. */
  predicate InGcWindow(gc: int, span: int, minGc: int, maxGc: int)
    requires span > 0
  {
    minGc as real <= Pct(gc, span) <= maxGc as real
  }

  // ---------------------------------------------------------------------
  // Key GC content (get_key_gc_penalty)

  /** The positive scores of the first n keys: how far each key's GC% lies outside the window. */
  function KeysGcExcess(keys: seq<Strand>, n: nat, keySize: int, minGc: int, maxGc: int): (r: seq<real>)
    requires n <= |keys| && keySize > 0 && minGc <= maxGc
    ensures forall y :: y in r ==> y > 0.0
  {
    if n == 0 then []
    else
      var e := Excess(Pct(GcCount(keys[n - 1]), keySize), minGc, maxGc);
      KeysGcExcess(keys, n - 1, keySize, minGc, maxGc) + (if e > 0.0 then [e] else [])
  }

  lemma {:induction false} KeysGcExcessEmpty(keys: seq<Strand>, n: nat, keySize: int, minGc: int, maxGc: int)
    requires n <= |keys| && keySize > 0 && minGc <= maxGc
    ensures KeysGcExcess(keys, n, keySize, minGc, maxGc) == [] <==>
            forall i :: 0 <= i < n ==> InGcWindow(GcCount(keys[i]), keySize, minGc, maxGc)
  {
    if n > 0 {
      KeysGcExcessEmpty(keys, n - 1, keySize, minGc, maxGc);
    }
  }

  /** Every key's GC% lies in [minGc, maxGc]. */
  predicate KeysInGcWindow(keys: seq<Strand>, keySize: int, minGc: int, maxGc: int)
    requires keySize > 0
  {
    forall i :: 0 <= i < |keys| ==> InGcWindow(GcCount(keys[i]), keySize, minGc, maxGc)
  }

  /**
   * The key GC penalty is never negative, and it is zero exactly when every
   * key's GC% lies in [minGc, maxGc], bounds included.
   */
  lemma KeyGcPenaltyZeroIff(keys: seq<Strand>, keySize: int, minGc: int, maxGc: int)
    requires keySize > 0 && minGc <= maxGc
    ensures SumReals(KeysGcExcess(keys, |keys|, keySize, minGc, maxGc)) >= 0.0
    ensures SumReals(KeysGcExcess(keys, |keys|, keySize, minGc, maxGc)) == 0.0 <==> KeysInGcWindow(keys, keySize, minGc, maxGc)
  {
    KeysGcExcessEmpty(keys, |keys|, keySize, minGc, maxGc);
    SumPositiveReals(KeysGcExcess(keys, |keys|, keySize, minGc, maxGc));
  }

  // ---------------------------------------------------------------------
  // Motif GC content (get_motif_gc_penalty): the innermost loop over the
  // end joints, the middle one over the start joints, the outer one over
  // the payloads.

  /** The positive scores of gc + e for the first k end-joint counts e. */
  function EndsGcExcess(gc: int, es: seq<nat>, k: nat, motifSize: int, minGc: int, maxGc: int): (r: seq<real>)
    requires k <= |es| && motifSize > 0 && minGc <= maxGc
    ensures forall y :: y in r ==> y > 0.0
  {
    if k == 0 then []
    else
      var e := Excess(Pct(gc + es[k - 1], motifSize), minGc, maxGc);
      EndsGcExcess(gc, es, k - 1, motifSize, minGc, maxGc) + (if e > 0.0 then [e] else [])
  }

  /** The positive scores of p + s + e for the first b start-joint counts s. */
  function StartsGcExcess(p: int, ss: seq<nat>, es: seq<nat>, b: nat, motifSize: int, minGc: int, maxGc: int): (r: seq<real>)
    requires b <= |ss| && motifSize > 0 && minGc <= maxGc
    ensures forall y :: y in r ==> y > 0.0
  {
    if b == 0 then []
    else StartsGcExcess(p, ss, es, b - 1, motifSize, minGc, maxGc) + EndsGcExcess(p + ss[b - 1], es, |es|, motifSize, minGc, maxGc)
  }

  /** The positive scores of p + s + e for the first a payload counts p. */
  function MotifsGcExcess(ps: seq<nat>, ss: seq<nat>, es: seq<nat>, a: nat, motifSize: int, minGc: int, maxGc: int): (r: seq<real>)
    requires a <= |ps| && motifSize > 0 && minGc <= maxGc
    ensures forall y :: y in r ==> y > 0.0
  {
    if a == 0 then []
    else MotifsGcExcess(ps, ss, es, a - 1, motifSize, minGc, maxGc) + StartsGcExcess(ps[a - 1], ss, es, |ss|, motifSize, minGc, maxGc)
  }

  /** Each of the first k end-joint counts puts gc into the GC window. */
  predicate EndsInGcWindow(gc: int, es: seq<nat>, k: nat, motifSize: int, minGc: int, maxGc: int)
    requires k <= |es| && motifSize > 0
  {
    forall t :: 0 <= t < k ==> InGcWindow(gc + es[t], motifSize, minGc, maxGc)
  }

  lemma {:induction false} EndsGcExcessEmpty(gc: int, es: seq<nat>, k: nat, motifSize: int, minGc: int, maxGc: int)
    requires k <= |es| && motifSize > 0 && minGc <= maxGc
    ensures EndsGcExcess(gc, es, k, motifSize, minGc, maxGc) == [] <==> EndsInGcWindow(gc, es, k, motifSize, minGc, maxGc)
  {
    if k > 0 {
      EndsGcExcessEmpty(gc, es, k - 1, motifSize, minGc, maxGc);
    }
  }

  /** Every one of the first b start-joint counts and every end-joint count put p into the GC window. */
  predicate StartsInGcWindow(p: int, ss: seq<nat>, es: seq<nat>, b: nat, motifSize: int, minGc: int, maxGc: int)
    requires b <= |ss| && motifSize > 0
  {
    forall j :: 0 <= j < b ==> EndsInGcWindow(p + ss[j], es, |es|, motifSize, minGc, maxGc)
  }

  lemma StartsInGcWindowStep(p: int, ss: seq<nat>, es: seq<nat>, b: nat, motifSize: int, minGc: int, maxGc: int)
    requires 0 < b <= |ss| && motifSize > 0
    ensures StartsInGcWindow(p, ss, es, b, motifSize, minGc, maxGc) <==>
            StartsInGcWindow(p, ss, es, b - 1, motifSize, minGc, maxGc) && EndsInGcWindow(p + ss[b - 1], es, |es|, motifSize, minGc, maxGc)
  {
  }

  lemma {:induction false} StartsGcExcessEmpty(p: int, ss: seq<nat>, es: seq<nat>, b: nat, motifSize: int, minGc: int, maxGc: int)
    requires b <= |ss| && motifSize > 0 && minGc <= maxGc
    ensures StartsGcExcess(p, ss, es, b, motifSize, minGc, maxGc) == [] <==> StartsInGcWindow(p, ss, es, b, motifSize, minGc, maxGc)
  {
    if b > 0 {
      StartsGcExcessEmpty(p, ss, es, b - 1, motifSize, minGc, maxGc);
      EndsGcExcessEmpty(p + ss[b - 1], es, |es|, motifSize, minGc, maxGc);
      StartsInGcWindowStep(p, ss, es, b, motifSize, minGc, maxGc);
      EmptyConcat(StartsGcExcess(p, ss, es, b - 1, motifSize, minGc, maxGc),
                  EndsGcExcess(p + ss[b - 1], es, |es|, motifSize, minGc, maxGc));
    }
  }

  lemma {:induction false} MotifsGcExcessEmpty(ps: seq<nat>, ss: seq<nat>, es: seq<nat>, a: nat, motifSize: int, minGc: int, maxGc: int)
    requires a <= |ps| && motifSize > 0 && minGc <= maxGc
    ensures MotifsGcExcess(ps, ss, es, a, motifSize, minGc, maxGc) == [] <==>
            forall i :: 0 <= i < a ==> StartsInGcWindow(ps[i], ss, es, |ss|, motifSize, minGc, maxGc)
  {
    if a > 0 {
      MotifsGcExcessEmpty(ps, ss, es, a - 1, motifSize, minGc, maxGc);
      StartsGcExcessEmpty(ps[a - 1], ss, es, |ss|, motifSize, minGc, maxGc);
      EmptyConcat(MotifsGcExcess(ps, ss, es, a - 1, motifSize, minGc, maxGc),
                  StartsGcExcess(ps[a - 1], ss, es, |ss|, motifSize, minGc, maxGc));
    }
  }

  /** Every payload, start-joint and end-joint GC count together give a GC% in [minGc, maxGc]. */
  predicate MotifsInGcWindow(ps: seq<nat>, ss: seq<nat>, es: seq<nat>, motifSize: int, minGc: int, maxGc: int)
    requires motifSize > 0
  {
    forall i, j, t :: 0 <= i < |ps| && 0 <= j < |ss| && 0 <= t < |es| ==>
      InGcWindow(ps[i] + ss[j] + es[t], motifSize, minGc, maxGc)
  }

  /**
   * The motif GC penalty is never negative, and it is zero exactly when
   * every combination of a payload count, a start-joint count and an
   * end-joint count gives a GC% within [minGc, maxGc] of motifSize bases.
   */
  lemma MotifGcPenaltyZeroIff(ps: seq<nat>, ss: seq<nat>, es: seq<nat>, motifSize: int, minGc: int, maxGc: int)
    requires motifSize > 0 && minGc <= maxGc
    ensures SumReals(MotifsGcExcess(ps, ss, es, |ps|, motifSize, minGc, maxGc)) >= 0.0
    ensures SumReals(MotifsGcExcess(ps, ss, es, |ps|, motifSize, minGc, maxGc)) == 0.0 <==>
            MotifsInGcWindow(ps, ss, es, motifSize, minGc, maxGc)
  {
    MotifsGcExcessEmpty(ps, ss, es, |ps|, motifSize, minGc, maxGc);
    SumPositiveReals(MotifsGcExcess(ps, ss, es, |ps|, motifSize, minGc, maxGc));
  }

  // ---------------------------------------------------------------------
  // Hairpins (hairpin_stats, key_hairpin_count): forward searches in
  // counting mode, each recorded hairpin counting 1.

  /** The hairpins recorded from the stem starts 0 .. n-1 of e, loop sizes lo..hi (-1: configured). */
  function StartsHairpins(c: ValidConstraints, e: Elem, elems1: seq<Elem>, elems2: seq<Elem>, isKey: bool,
                          lo: int, hi: int, n: int): (r: seq<nat>)
    requires Sized(c, e, elems1, elems2, isKey)
    decreases n
    ensures AllIn(r, c.maxHairpin)
  {
    if n <= 0 then []
    else StartsHairpins(c, e, elems1, elems2, isKey, lo, hi, n - 1) + CountedAt(c, e, elems1, elems2, isKey, lo, hi, n - 1)
  }

  /** One more stem start adds what is recorded from it. */
  lemma StartsHairpinsStep(c: ValidConstraints, e: Elem, elems1: seq<Elem>, elems2: seq<Elem>, isKey: bool,
                           lo: int, hi: int, s: nat)
    requires Sized(c, e, elems1, elems2, isKey)
    ensures |StartsHairpins(c, e, elems1, elems2, isKey, lo, hi, s + 1)|
            == |StartsHairpins(c, e, elems1, elems2, isKey, lo, hi, s)| + |CountedAt(c, e, elems1, elems2, isKey, lo, hi, s)|
  {
  }

  /** What one forward_hairpin_counter_at_startPos call records from a stem start of e: the search cannot fail. */
  function CountedAt(c: ValidConstraints, e: Elem, elems1: seq<Elem>, elems2: seq<Elem>, isKey: bool,
                     lo: int, hi: int, s: nat): (r: seq<nat>)
    requires Sized(c, e, elems1, elems2, isKey)
    ensures AllIn(r, c.maxHairpin)
  {
    AtStartPosLengths(c, e, elems1, elems2, isKey, true, s, lo, hi).value
  }

  /** Every element of a pool has the size of its kind, against the given pools. */
  predicate AllSized(c: ValidConstraints, elems: seq<Elem>, elems1: seq<Elem>, elems2: seq<Elem>, isKey: bool)
  {
    forall i :: 0 <= i < |elems| ==> Sized(c, elems[i], elems1, elems2, isKey)
  }

  /** The hairpins recorded from every start position 0 .. size-1 of the first m elements. */
  function PoolHairpins(c: ValidConstraints, elems: seq<Elem>, elems1: seq<Elem>, elems2: seq<Elem>, isKey: bool,
                        size: int, m: nat): (r: seq<nat>)
    requires m <= |elems| && AllSized(c, elems, elems1, elems2, isKey)
    ensures AllIn(r, c.maxHairpin)
  {
    if m == 0 then []
    else PoolHairpins(c, elems, elems1, elems2, isKey, size, m - 1)
         + StartsHairpins(c, elems[m - 1], elems1, elems2, isKey, -1, -1, size)
  }

  /** The stem starts tried per key for one loop size: keySize - 2 * maxHairpin - loopSize + 1. */
  function KeyStarts(c: ValidConstraints, loopSize: int): int
  {
    c.keySize - c.maxHairpin * 2 - loopSize + 1
  }

  /** The hairpins of the first m keys, for the single loop size loopSize. */
  function KeysHairpins(c: ValidConstraints, keys: seq<Strand>, loopSize: int, m: nat): (r: seq<nat>)
    requires m <= |keys| && AllSized(c, keys, keys, [], true)
    ensures AllIn(r, c.maxHairpin)
  {
    if m == 0 then []
    else KeysHairpins(c, keys, loopSize, m - 1)
         + StartsHairpins(c, keys[m - 1], keys, [], true, loopSize, loopSize, KeyStarts(c, loopSize))
  }

  /**
   * The hairpins of all keys for the loop sizes loopSizeMin .. l-1; a loop
   * size for which two stems and the loop do not fit inside a key is skipped.
   */
  function LoopsHairpins(c: ValidConstraints, keys: seq<Strand>, l: int): (r: seq<nat>)
    requires AllSized(c, keys, keys, [], true)
    decreases l - c.loopSizeMin
    ensures AllIn(r, c.maxHairpin)
  {
    if l <= c.loopSizeMin then []
    else LoopsHairpins(c, keys, l - 1)
         + (if c.maxHairpin * 2 + (l - 1) >= c.keySize then [] else KeysHairpins(c, keys, l - 1, |keys|))
  }

  /** One loop size more adds that loop size's count, n, which is nothing when the loop does not fit. */
  lemma LoopsHairpinsStep(c: ValidConstraints, keys: seq<Strand>, l: int, n: nat)
    requires AllSized(c, keys, keys, [], true) && l >= c.loopSizeMin
    requires c.maxHairpin * 2 + l < c.keySize ==> n == |KeysHairpins(c, keys, l, |keys|)|
    requires c.maxHairpin * 2 + l >= c.keySize ==> n == 0
    ensures |LoopsHairpins(c, keys, l + 1)| == |LoopsHairpins(c, keys, l)| + n
  {
  }

  /**
   * A loop size too long for a key contributes nothing, and so does every
   * loop size when the key is too short for two stems.
   */
  lemma {:induction false} LoopsHairpinsNone(c: ValidConstraints, keys: seq<Strand>, l: int)
    requires AllSized(c, keys, keys, [], true)
    requires c.maxHairpin * 2 + c.loopSizeMin >= c.keySize
    ensures LoopsHairpins(c, keys, l) == []
    decreases l - c.loopSizeMin
  {
    if l > c.loopSizeMin {
      LoopsHairpinsNone(c, keys, l - 1);
    }
  }
}
