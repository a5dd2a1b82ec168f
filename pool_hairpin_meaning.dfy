/**
 * What the validator's motif hairpin count (hairpin_stats in
 * validation.py) counts of the hairpins that lie inside one element: for
 * every payload and every joint, every stem start and every configured
 * loop size whose two stems fit inside that element, one hairpin of the
 * full stem size when the stems pair base by base. A second stem that
 * runs past the element into the opposite pool may add further hairpins,
 * so what is stated here is a lower bound on the count.
 */
module PoolHairpinMeaning {
  import opened Nucleotides
  import opened Configuration
  import opened BasePenalties
  import opened HairpinMeaning
  import opened ValidationPenalties
  import opened KeyHairpinMeaning

  /** The number of loop sizes lo..hi at which a full-size hairpin starts at s inside e. */
  function PairedLoops(c: ValidConstraints, e: Strand, s: int, lo: int, hi: int): nat
    decreases hi - lo + 1
  {
    if lo > hi then 0
    else (if KeyHairpinAt(c, e, lo, s) then 1 else 0) + PairedLoops(c, e, s, lo + 1, hi)
  }

  /** The same count over the stem starts 0 .. n-1 and the configured loop sizes. */
  function PairedInside(c: ValidConstraints, e: Strand, n: int): nat
    decreases n
  {
    if n <= 0 then 0
    else PairedInside(c, e, n - 1) + PairedLoops(c, e, n - 1, c.loopSizeMin, c.loopSizeMax)
  }

  /** The same count summed over the first m elements of a pool, each tried at the starts 0 .. size-1. */
  function PoolPaired(c: ValidConstraints, elems: seq<Strand>, size: int, m: nat): nat
    requires m <= |elems|
  {
    if m == 0 then 0
    else PoolPaired(c, elems, size, m - 1) + PairedInside(c, elems[m - 1], size)
  }

  /** How many times x occurs in r. */
  function Occurrences(r: seq<nat>, x: int): (n: nat)
    ensures n <= |r|
  {
    if r == [] then 0 else Occurrences(r[..|r| - 1], x) + (if r[|r| - 1] == x then 1 else 0)
  }

  /** Occurrences in a concatenation add up. */
  lemma {:induction false} OccurrencesConcat(a: seq<nat>, b: seq<nat>, x: int)
    ensures Occurrences(a + b, x) == Occurrences(a, x) + Occurrences(b, x)
    decreases |b|
  {
    if b == [] {
      assert a + b == a;
    } else {
      OccurrencesConcat(a, b[..|b| - 1], x);
      assert (a + b)[..|a + b| - 1] == a + b[..|b| - 1];
    }
  }

  /** One forward search from s with one loop size records the full stem size if its stems lie inside e and pair. */
  lemma SearchInside(c: ValidConstraints, e: Strand, elems1: seq<Strand>, elems2: seq<Strand>,
                     isKey: bool, s: nat, loop: int)
    requires Sized(c, e, elems1, elems2, isKey) && 0 <= loop
    ensures SearchAt(c, e, elems1, elems2, isKey, true, s, loop).Ok?
    ensures Occurrences(SearchAt(c, e, elems1, elems2, isKey, true, s, loop).value, c.maxHairpin)
            >= if KeyHairpinAt(c, e, loop, s) then 1 else 0
  {
    if KeyHairpinAt(c, e, loop, s) {
      SearchWithinFull(c, e, elems1, elems2, isKey, true, s, loop);
      assert [c.maxHairpin][..0] == [];
    }
  }

  /** The loop over loop sizes lo..hi: the first search followed by the rest. */
  lemma LoopLengthsUnfold(c: ValidConstraints, e: Strand, elems1: seq<Strand>, elems2: seq<Strand>,
                          isKey: bool, s: nat, lo: int, hi: int)
    requires Sized(c, e, elems1, elems2, isKey) && 0 <= lo <= hi
    ensures LoopLengths(c, e, elems1, elems2, isKey, true, s, lo, hi).Ok?
    ensures LoopLengths(c, e, elems1, elems2, isKey, true, s, lo, hi).value
            == SearchAt(c, e, elems1, elems2, isKey, true, s, lo).value
               + LoopLengths(c, e, elems1, elems2, isKey, true, s, lo + 1, hi).value
  {
  }

  /**
   * The loop over loop sizes lo..hi of one forward search from s: it
   * cannot fail, and it records the full stem size at least once for every
   * loop size whose stems lie inside e and pair.
   */
  lemma {:induction false} LoopLengthsInside(c: ValidConstraints, e: Strand, elems1: seq<Strand>, elems2: seq<Strand>,
                                             isKey: bool, s: nat, lo: int, hi: int)
    requires Sized(c, e, elems1, elems2, isKey) && 0 <= lo
    ensures LoopLengths(c, e, elems1, elems2, isKey, true, s, lo, hi).Ok?
    ensures Occurrences(LoopLengths(c, e, elems1, elems2, isKey, true, s, lo, hi).value, c.maxHairpin)
            >= PairedLoops(c, e, s, lo, hi)
    decreases hi - lo + 1
  {
    if lo <= hi {
      LoopLengthsInside(c, e, elems1, elems2, isKey, s, lo + 1, hi);
      SearchInside(c, e, elems1, elems2, isKey, s, lo);
      LoopLengthsUnfold(c, e, elems1, elems2, isKey, s, lo, hi);
      AddUp(LoopLengths(c, e, elems1, elems2, isKey, true, s, lo, hi).value,
            SearchAt(c, e, elems1, elems2, isKey, true, s, lo).value,
            LoopLengths(c, e, elems1, elems2, isKey, true, s, lo + 1, hi).value, c.maxHairpin,
            if KeyHairpinAt(c, e, lo, s) then 1 else 0, PairedLoops(c, e, s, lo + 1, hi));
    }
  }

  /** What one stem start records: the search over the configured loop sizes, with every inside hairpin. */
  lemma CountedAtInside(c: ValidConstraints, e: Strand, elems1: seq<Strand>, elems2: seq<Strand>, isKey: bool, s: nat)
    requires Sized(c, e, elems1, elems2, isKey)
    ensures Occurrences(CountedAt(c, e, elems1, elems2, isKey, -1, -1, s), c.maxHairpin)
            >= PairedLoops(c, e, s, c.loopSizeMin, c.loopSizeMax)
  {
    LoopLengthsInside(c, e, elems1, elems2, isKey, s, c.loopSizeMin, c.loopSizeMax);
  }

  /** The stem starts 0 .. n-1 of one element, configured loop sizes: every inside hairpin is recorded. */
  lemma {:induction false} StartsHairpinsInside(c: ValidConstraints, e: Strand, elems1: seq<Strand>, elems2: seq<Strand>,
                                                isKey: bool, n: int)
    requires Sized(c, e, elems1, elems2, isKey)
    ensures Occurrences(StartsHairpins(c, e, elems1, elems2, isKey, -1, -1, n), c.maxHairpin) >= PairedInside(c, e, n)
    decreases n
  {
    if n > 0 {
      var before := StartsHairpins(c, e, elems1, elems2, isKey, -1, -1, n - 1);
      var here := CountedAt(c, e, elems1, elems2, isKey, -1, -1, n - 1);
      StartsHairpinsInside(c, e, elems1, elems2, isKey, n - 1);
      CountedAtInside(c, e, elems1, elems2, isKey, n - 1);
      AddUp(StartsHairpins(c, e, elems1, elems2, isKey, -1, -1, n), before, here, c.maxHairpin,
            PairedInside(c, e, n - 1), PairedLoops(c, e, n - 1, c.loopSizeMin, c.loopSizeMax));
    }
  }

  /** Joining two records: the occurrences of x add up, and so do their lower bounds. */
  lemma AddUp(total: seq<nat>, before: seq<nat>, here: seq<nat>, x: int, pb: nat, ph: nat)
    requires total == before + here
    requires Occurrences(before, x) >= pb && Occurrences(here, x) >= ph
    ensures Occurrences(total, x) >= pb + ph
  {
    OccurrencesConcat(before, here, x);
  }

  /** The first m elements of a pool: every hairpin inside one of them is recorded. */
  lemma {:induction false} PoolHairpinsInside(c: ValidConstraints, elems: seq<Strand>, elems1: seq<Strand>,
                                              elems2: seq<Strand>, isKey: bool, size: int, m: nat)
    requires m <= |elems| && AllSized(c, elems, elems1, elems2, isKey)
    ensures Occurrences(PoolHairpins(c, elems, elems1, elems2, isKey, size, m), c.maxHairpin)
            >= PoolPaired(c, elems, size, m)
    decreases m
  {
    if m > 0 {
      PoolHairpinsInside(c, elems, elems1, elems2, isKey, size, m - 1);
      assert Sized(c, elems[m - 1], elems1, elems2, isKey);
      StartsHairpinsInside(c, elems[m - 1], elems1, elems2, isKey, size);
      AddUp(PoolHairpins(c, elems, elems1, elems2, isKey, size, m),
            PoolHairpins(c, elems, elems1, elems2, isKey, size, m - 1),
            StartsHairpins(c, elems[m - 1], elems1, elems2, isKey, -1, -1, size), c.maxHairpin,
            PoolPaired(c, elems, size, m - 1), PairedInside(c, elems[m - 1], size));
    }
  }

  /**
   * hairpin_stats: the payload loop and the joint loop together count at
   * least one hairpin for every payload or joint, stem start and loop size
   * whose full-size stems lie inside that element and pair.
   */
  lemma HairpinStatsCountsInside(c: ValidConstraints, payloads: seq<Strand>, joints: seq<Strand>)
    requires AllSized(c, payloads, payloads, joints, false) && AllSized(c, joints, joints, payloads, true)
    ensures |PoolHairpins(c, payloads, payloads, joints, false, c.payloadSize, |payloads|)|
            + |PoolHairpins(c, joints, joints, payloads, true, c.keySize, |joints|)|
            >= PoolPaired(c, payloads, c.payloadSize, |payloads|) + PoolPaired(c, joints, c.keySize, |joints|)
  {
    var ps := PoolHairpins(c, payloads, payloads, joints, false, c.payloadSize, |payloads|);
    var js := PoolHairpins(c, joints, joints, payloads, true, c.keySize, |joints|);
    PoolHairpinsInside(c, payloads, payloads, joints, false, c.payloadSize, |payloads|);
    PoolHairpinsInside(c, joints, joints, payloads, true, c.keySize, |joints|);
    assert Occurrences(ps, c.maxHairpin) <= |ps| && Occurrences(js, c.maxHairpin) <= |js|;
  }
}
