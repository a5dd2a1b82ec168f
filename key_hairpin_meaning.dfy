/**
 * What the validator's key hairpin count (key_hairpin_count in
 * validation.py) counts: for every loop size whose two stems and loop fit
 * inside a key, every key and every stem start, one hairpin exactly when
 * the maxHairpin bases of the first stem pair with the maxHairpin bases of
 * the second stem read backwards. The search never leaves the key, so the
 * other keys of the pool play no part.
 */
module KeyHairpinMeaning {
  import opened Nucleotides
  import opened Outcomes
  import opened Configuration
  import opened HairpinSearch
  import opened BasePenalties
  import opened HairpinMeaning
  import opened ValidationPenalties

  /** A hairpin of maxHairpin base pairs and loop size loop starts at s inside key. */
  predicate KeyHairpinAt(c: ValidConstraints, key: Strand, loop: int, s: int)
  {
    && c.maxHairpin >= 1 && 0 <= s && 0 <= loop && s + 2 * c.maxHairpin + loop <= |key|
    && StemsPair(key, s, s + loop + c.maxHairpin, c.maxHairpin)
  }

  /** The number of stem starts s < n of key at which a hairpin of loop size loop starts. */
  function PairedStarts(c: ValidConstraints, key: Strand, loop: int, n: int): nat
    decreases n
  {
    if n <= 0 then 0
    else PairedStarts(c, key, loop, n - 1) + (if KeyHairpinAt(c, key, loop, n - 1) then 1 else 0)
  }

  /** The same count summed over the first m keys, each tried at every start key_hairpin_count tries. */
  function KeysPaired(c: ValidConstraints, keys: seq<Strand>, loop: int, m: nat): nat
    requires m <= |keys|
  {
    if m == 0 then 0
    else KeysPaired(c, keys, loop, m - 1) + PairedStarts(c, keys[m - 1], loop, KeyStarts(c, loop))
  }

  /** The same count summed over the loop sizes loopSizeMin .. l-1 that fit inside a key. */
  function LoopsPaired(c: ValidConstraints, keys: seq<Strand>, l: int): nat
    decreases l - c.loopSizeMin
  {
    if l <= c.loopSizeMin then 0
    else LoopsPaired(c, keys, l - 1)
         + (if c.maxHairpin * 2 + (l - 1) >= c.keySize then 0 else KeysPaired(c, keys, l - 1, |keys|))
  }

  /** Every recorded hairpin has the full stem size. */
  predicate AllFull(c: ValidConstraints, r: seq<nat>)
  {
    forall x :: x in r ==> x == c.maxHairpin
  }

  lemma AllFullConcat(c: ValidConstraints, a: seq<nat>, b: seq<nat>)
    requires AllFull(c, a) && AllFull(c, b)
    ensures AllFull(c, a + b) && |a + b| == |a| + |b|
  {
  }

  /** A search that records nothing: no stem bases to pair. */
  lemma NoStemNoHairpin(c: ValidConstraints, key: Strand, keys: seq<Strand>, none: seq<Strand>, s: int, loop: int)
    requires none == [] && c.maxHairpin <= 0
    ensures SearchAt(c, key, keys, none, true, true, s, loop) == Ok([])
  {
    var w := MakeWindow(c, key, keys, none, true, true, s, loop);
    assert AllCheckLoop(w, c.maxHairpin - 1, 0, [], [], [], []) == Ok(Walk(false, []));
    assert SendToAllCheck(w, c.maxHairpin - 1, 0, [], [], [], []) == Ok(Walk(false, [] + []));
    Glue([], []);
  }

  /**
   * One forward_hairpin_counter_at_startPos call of key_hairpin_count,
   * with a single loop size: the hairpin of full length if the stems pair,
   * nothing otherwise.
   */
  lemma CountedAtKey(c: ValidConstraints, key: Strand, keys: seq<Strand>, none: seq<Strand>, loop: int, s: nat)
    requires none == []
    requires |key| == c.keySize && Sized(c, key, keys, none, true)
    requires 0 <= loop && s + 2 * c.maxHairpin + loop <= c.keySize
    ensures KeyHairpinAt(c, key, loop, s) ==> CountedAt(c, key, keys, none, true, loop, loop, s) == [c.maxHairpin]
    ensures !KeyHairpinAt(c, key, loop, s) ==> CountedAt(c, key, keys, none, true, loop, loop, s) == []
  {
    var one := SearchAt(c, key, keys, none, true, true, s, loop);
    if c.maxHairpin <= 0 {
      NoStemNoHairpin(c, key, keys, none, s, loop);
    } else {
      SearchWithinFull(c, key, keys, none, true, true, s, loop);
    }
    assert LoopLengths(c, key, keys, none, true, true, s, loop + 1, loop) == Ok([]);
    assert LoopLengths(c, key, keys, none, true, true, s, loop, loop) == Ok(one.value + []);
    Glue(one.value, []);
  }

  /** The record of stem starts 0 .. n-1 is that of 0 .. n-2 followed by that of start n-1. */
  lemma StartsHairpinsUnfold(c: ValidConstraints, e: Elem, elems1: seq<Elem>, elems2: seq<Elem>, isKey: bool,
                             lo: int, hi: int, n: int)
    requires Sized(c, e, elems1, elems2, isKey) && n > 0
    ensures StartsHairpins(c, e, elems1, elems2, isKey, lo, hi, n)
            == StartsHairpins(c, e, elems1, elems2, isKey, lo, hi, n - 1) + CountedAt(c, e, elems1, elems2, isKey, lo, hi, n - 1)
  { }

  /** Joining two records of full-length hairpins: the counts add up. */
  lemma Combine(c: ValidConstraints, total: seq<nat>, before: seq<nat>, here: seq<nat>, pb: nat, ph: nat)
    requires total == before + here
    requires |before| == pb && AllFull(c, before)
    requires |here| == ph && AllFull(c, here)
    ensures |total| == pb + ph && AllFull(c, total)
  {
    AllFullConcat(c, before, here);
  }

  /** Appending one start's record to the earlier ones: the count grows by one exactly on a hairpin. */
  lemma StartsCombine(c: ValidConstraints, total: seq<nat>, before: seq<nat>, here: seq<nat>, hit: bool, p: nat)
    requires total == before + here
    requires hit ==> here == [c.maxHairpin]
    requires !hit ==> here == []
    requires |before| == p && AllFull(c, before)
    ensures |total| == p + (if hit then 1 else 0) && AllFull(c, total)
  {
    AllFullConcat(c, before, here);
  }

  /** The stem starts 0 .. n-1 of one key record one full-length hairpin per start that pairs. */
  lemma {:induction false} StartsHairpinsKey(c: ValidConstraints, key: Strand, keys: seq<Strand>, none: seq<Strand>, loop: int, n: int)
    requires none == []
    requires |key| == c.keySize && Sized(c, key, keys, none, true)
    requires 0 <= loop && n <= KeyStarts(c, loop)
    ensures |StartsHairpins(c, key, keys, none, true, loop, loop, n)| == PairedStarts(c, key, loop, n)
    ensures AllFull(c, StartsHairpins(c, key, keys, none, true, loop, loop, n))
    decreases n
  {
    if n > 0 {
      StartsHairpinsKey(c, key, keys, none, loop, n - 1);
      StartsHairpinsUnfold(c, key, keys, none, true, loop, loop, n);
      CountedAtKey(c, key, keys, none, loop, n - 1);
      StartsCombine(c, StartsHairpins(c, key, keys, none, true, loop, loop, n),
                    StartsHairpins(c, key, keys, none, true, loop, loop, n - 1),
                    CountedAt(c, key, keys, none, true, loop, loop, n - 1),
                    KeyHairpinAt(c, key, loop, n - 1), PairedStarts(c, key, loop, n - 1));
    }
  }

  /** Every key of the pool has the full key size. */
  predicate FullKeys(c: ValidConstraints, keys: seq<Strand>)
  {
    forall i :: 0 <= i < |keys| ==> |keys[i]| == c.keySize
  }

  /** The first m keys, one loop size: one full-length hairpin per (key, start) that pairs. */
  lemma {:induction false} KeysHairpinsMeaning(c: ValidConstraints, keys: seq<Strand>, loop: int, m: nat)
    requires m <= |keys| && AllSized(c, keys, keys, [], true) && FullKeys(c, keys) && 0 <= loop
    ensures |KeysHairpins(c, keys, loop, m)| == KeysPaired(c, keys, loop, m)
    ensures AllFull(c, KeysHairpins(c, keys, loop, m))
    decreases m
  {
    if m > 0 {
      var key := keys[m - 1];
      assert Sized(c, key, keys, [], true) && |key| == c.keySize;
      KeysHairpinsMeaning(c, keys, loop, m - 1);
      StartsHairpinsKey(c, key, keys, [], loop, KeyStarts(c, loop));
      Combine(c, KeysHairpins(c, keys, loop, m), KeysHairpins(c, keys, loop, m - 1),
              StartsHairpins(c, key, keys, [], true, loop, loop, KeyStarts(c, loop)),
              KeysPaired(c, keys, loop, m - 1), PairedStarts(c, key, loop, KeyStarts(c, loop)));
    }
  }

  /**
   * key_hairpin_count: every loop size from loopSizeMin below l whose stems
   * and loop fit inside a key, every key, every start; one full-length
   * hairpin for each that pairs.
   */
  lemma {:induction false} LoopsHairpinsMeaning(c: ValidConstraints, keys: seq<Strand>, l: int)
    requires AllSized(c, keys, keys, [], true) && FullKeys(c, keys)
    ensures |LoopsHairpins(c, keys, l)| == LoopsPaired(c, keys, l)
    ensures AllFull(c, LoopsHairpins(c, keys, l))
    decreases l - c.loopSizeMin
  {
    if l > c.loopSizeMin {
      LoopsHairpinsMeaning(c, keys, l - 1);
      if c.maxHairpin * 2 + (l - 1) < c.keySize {
        KeysHairpinsMeaning(c, keys, l - 1, |keys|);
        Combine(c, LoopsHairpins(c, keys, l), LoopsHairpins(c, keys, l - 1), KeysHairpins(c, keys, l - 1, |keys|),
                LoopsPaired(c, keys, l - 1), KeysPaired(c, keys, l - 1, |keys|));
      } else {
        Combine(c, LoopsHairpins(c, keys, l), LoopsHairpins(c, keys, l - 1), [], LoopsPaired(c, keys, l - 1), 0);
      }
    }
  }
}
