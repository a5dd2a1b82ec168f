/**
 * keyMotifBuilder.py: the pipeline that builds keys, turns them into
 * joints (their reverse complements), builds payloads against those
 * joints, and assembles every motif start-half + payload + end-half; then
 * buildAnswer scores the result with the validator and reports whether
 * the selected constraints are all met.
 */
module KeyMotifBuilding {
  import opened Nucleotides
  import opened Outcomes
  import opened Scores
  import opened Configuration
  import opened Temperatures
  import opened KeyHalves
  import opened Sampling
  import opened MotifStatistics
  import opened ScoreTotals
  import opened Validator
  import opened KeyBuilding
  import opened MotifBuilding
  import opened PayloadPenaltyEngine
  import opened MotifBoundaries

  // -----------------------------------------------------------------------
  // Configuration, weights and hyperparameters

  /**
   * get_constraints: Constraints(...) with loopSize fixed at -1, so the
   * loop range is loopMin .. loopMax whatever loopSize is given.
   */
  function GetConstraints(maxHairpin: int, loopSize: int, payloadSize: int, keySize: int, keyNum: int, payloadNum: int,
                          maxHom: int, minGc: int, maxGc: int, loopMin: int, loopMax: int): (r: Result<Constraints, ConfigError>)
    ensures r.Ok? ==> Valid(r.value) && r.value.loopSizeMin == loopMin && r.value.loopSizeMax == loopMax
    ensures r.Ok? ==>
      && r.value.payloadSize == payloadSize && r.value.payloadNum == payloadNum
      && r.value.keySize == keySize && r.value.keyNum == keyNum
      && r.value.maxHom == maxHom && r.value.maxHairpin == maxHairpin
      && r.value.minGc == minGc && r.value.maxGc == maxGc
    ensures r.Ok? <==>
      && maxHairpin <= payloadSize + keySize
      && keySize % 2 == 0 && 1 < keySize < payloadSize + keySize
      && 0 <= loopMin <= loopMax
      && payloadSize > 0 && keyNum > 0 && payloadNum > 0
      && 0 <= minGc <= maxGc <= 100
  {
    NewConstraints(payloadSize, payloadNum, maxHom, maxHairpin, -1, minGc, maxGc, keySize, keyNum, loopMin, loopMax)
  }

  /** With its own default arguments (loopMin = loopMax = -1) get_constraints is rejected: the loop size is negative. */
  lemma GetConstraintsDefaultsRejected()
    ensures GetConstraints(2, 1, 10, 2, 5, 5, 1, 25, 60, -1, -1) == Err(NegativeLoopSize)
  {
  }

  /** get_weights: the weight of each of the four tags the builders score. */
  function GetWeights(hom: real, keyGcContent: real, motifGcContent: real, hairpin: real): (w: map<string, real>)
    ensures w.Keys == {"hom", "keyGcContent", "motifGcContent", "hairpin"}
    ensures w["hom"] == hom && w["keyGcContent"] == keyGcContent
    ensures w["motifGcContent"] == motifGcContent && w["hairpin"] == hairpin
  {
    map["hom" := hom, "keyGcContent" := keyGcContent, "motifGcContent" := motifGcContent, "hairpin" := hairpin]
  }

  /** get_hyperparameters: Hyperparameters of the four builder tags; the other tags keep their default 1. */
  method GetHyperparameters(hom: real, keyGcContent: real, motifGcContent: real, hairpin: real) returns (h: Hyperparameters)
    ensures fresh(h.Repr) && h.Valid()
    ensures h.Values().hom == hom && h.Values().keyGcContent == keyGcContent
    ensures h.Values().motifGcContent == motifGcContent && h.Values().hairpin == hairpin
    ensures h.Values().similarity == 1.0 && h.Values().uniqueJoints == 1.0
  {
    h := new Hyperparameters(map["hom" := hom, "keyGcContent" := keyGcContent, "motifGcContent" := motifGcContent, "hairpin" := hairpin]);
  }

  // -----------------------------------------------------------------------
  // keys_to_joints

  /** The reverse complement undoes itself. */
  lemma ReverseComplementInvolutive(s: Strand)
    ensures ReverseComplement(ReverseComplement(s)) == s
  {
    var r := ReverseComplement(ReverseComplement(s));
    forall i | 0 <= i < |s|
      ensures r[i] == s[i]
    {
      ComplementInvolutive(s[i]);
    }
  }

  /** Two strands with the same reverse complement are the same strand. */
  lemma ReverseComplementInjective(a: Strand, b: Strand)
    requires ReverseComplement(a) == ReverseComplement(b)
    ensures a == b
  {
    ReverseComplementInvolutive(a);
    ReverseComplementInvolutive(b);
  }

  /** The inner loop of keys_to_joints: the complement of each base of the key, last base first. */
  method KeyToJoint(k: Strand) returns (joint: Strand)
    ensures joint == ReverseComplement(k)
  {
    joint := [];
    var i := |k|;
    while i > 0
      invariant 0 <= i <= |k| && |joint| == |k| - i
      invariant forall t :: 0 <= t < |joint| ==> joint[t] == Complement(k[|k| - 1 - t])
    {
      i := i - 1;
      joint := joint + [Complement(k[i])];
    }
  }

  /** keys_to_joints: the set of the keys' reverse complements, added key by key. */
  method KeysToJoints(keys: seq<Strand>) returns (joints: seq<Strand>)
    ensures joints == KeysJoints([], keys, |keys|)
  {
    joints := [];
    for n := 0 to |keys|
      invariant joints == KeysJoints([], keys, n)
    {
      var joint := KeyToJoint(keys[n]);
      joints := Added(joints, joint);
    }
  }

  /** keys_to_joints never holds a joint twice. */
  lemma {:induction false} KeysJointsNoRepeat(keys: seq<Strand>, n: nat)
    requires n <= |keys|
    ensures Distinct(KeysJoints([], keys, n))
  {
    if n > 0 {
      KeysJointsNoRepeat(keys, n - 1);
      AddedMeaning(KeysJoints([], keys, n - 1), ReverseComplement(keys[n - 1]));
    }
  }

  /** The reverse complement of every joint is one of the keys. */
  lemma JointsComeFromKeys(keys: seq<Strand>)
    ensures forall j :: j in KeysJoints([], keys, |keys|) ==> ReverseComplement(j) in keys
  {
    KeysJointsMeaning([], keys, |keys|);
    forall j | j in KeysJoints([], keys, |keys|)
      ensures ReverseComplement(j) in keys
    {
      var i :| 0 <= i < |keys| && j == ReverseComplement(keys[i]);
      ReverseComplementInvolutive(keys[i]);
    }
  }

  /**
   * Distinct keys give distinct joints: one joint per key, in order, so
   * keys_to_joints has as many joints as there are keys.
   */
  lemma {:induction false} OneJointPerKey(keys: seq<Strand>, n: nat)
    requires n <= |keys| && Distinct(keys)
    ensures |KeysJoints([], keys, n)| == n
    ensures forall i :: 0 <= i < n ==> KeysJoints([], keys, n)[i] == ReverseComplement(keys[i])
  {
    if n > 0 {
      var before, joint := KeysJoints([], keys, n - 1), ReverseComplement(keys[n - 1]);
      OneJointPerKey(keys, n - 1);
      if joint in before {
        var t :| 0 <= t < |before| && before[t] == joint;
        ReverseComplementInjective(keys[t], keys[n - 1]);
        assert false;
      }
      assert KeysJoints([], keys, n) == before + [joint];
    }
  }

  // -----------------------------------------------------------------------
  // Joint halves and motifs

  /**
   * The halves the joint loop adds, joint by joint: j[int(len(j) / 2):]
   * (SecondHalf, for startJoint) or j[:int(len(j) / 2)] (FirstHalf, for endJoint).
   */
  function HalvesOf(joints: seq<Strand>, half: Half): (hs: seq<Strand>)
    ensures |hs| == |joints|
  {
    seq(|joints|, i requires 0 <= i < |joints| => HalfOf(joints[i], |joints[i]| / 2, half))
  }

  /** The set of halves holds no strand twice, and a strand is in it exactly when it is that half of some joint. */
  lemma {:induction false} HalfSetMeaning(joints: seq<Strand>, half: Half)
    ensures Distinct(AddedAll([], HalvesOf(joints, half)))
    ensures forall q :: q in AddedAll([], HalvesOf(joints, half)) <==>
                        exists i :: 0 <= i < |joints| && q == HalfOf(joints[i], |joints[i]| / 2, half)
  {
    AddedAllMeaning([], HalvesOf(joints, half));
    HalvesOfMeaning(joints, half);
  }

  lemma {:induction false} HalvesOfMeaning(joints: seq<Strand>, half: Half)
    ensures forall q :: q in HalvesOf(joints, half) <==> exists i :: 0 <= i < |joints| && q == HalfOf(joints[i], |joints[i]| / 2, half)
  {
    var hs := HalvesOf(joints, half);
    forall q | q in hs
      ensures exists i :: 0 <= i < |joints| && q == HalfOf(joints[i], |joints[i]| / 2, half)
    {
      var i :| 0 <= i < |hs| && hs[i] == q;
      assert q == HalfOf(joints[i], |joints[i]| / 2, half);
    }
    forall q | exists i :: 0 <= i < |joints| && q == HalfOf(joints[i], |joints[i]| / 2, half)
      ensures q in hs
    {
      var i :| 0 <= i < |joints| && q == HalfOf(joints[i], |joints[i]| / 2, half);
      assert hs[i] == q;
    }
  }

  /**
   * The joint loop of build_motifs_and_keys (keyMotifBuilder.py:62-67):
   * the first half of every joint goes to endJoint, the second half to
   * startJoint, each kept as a set.
   */
  method JointHalves(joints: seq<Strand>) returns (startJoint: seq<Strand>, endJoint: seq<Strand>)
    ensures startJoint == AddedAll([], HalvesOf(joints, SecondHalf))
    ensures endJoint == AddedAll([], HalvesOf(joints, FirstHalf))
  {
    ghost var starts, ends := HalvesOf(joints, SecondHalf), HalvesOf(joints, FirstHalf);
    startJoint, endJoint := [], [];
    for n := 0 to |joints|
      invariant startJoint == AddedAll([], starts[..n]) && endJoint == AddedAll([], ends[..n])
    {
      AddedAllStep([], starts, n);
      AddedAllStep([], ends, n);
      startJoint, endJoint := AddHalves(startJoint, endJoint, joints[n]);
    }
    assert starts[..|joints|] == starts && ends[..|joints|] == ends;
  }

  /** One joint of the joint loop: its second half joins startJoint, its first half endJoint. */
  method AddHalves(startJoint: seq<Strand>, endJoint: seq<Strand>, j: Strand) returns (startJoint': seq<Strand>, endJoint': seq<Strand>)
    ensures startJoint' == Added(startJoint, HalfOf(j, |j| / 2, SecondHalf))
    ensures endJoint' == Added(endJoint, HalfOf(j, |j| / 2, FirstHalf))
  {
    var jointSize := |j| / 2;
    endJoint' := Added(endJoint, Take(j, jointSize));
    startJoint' := Added(startJoint, Drop(j, jointSize));
  }

  /** A motif sJoint + p + eJoint from the i-th start half, the k-th payload and the j-th end half. */
  predicate MotifOf(m: Strand, starts: seq<Strand>, ends: seq<Strand>, payloads: seq<Strand>, i: int, j: int, k: int)
  {
    0 <= i < |starts| && 0 <= j < |ends| && 0 <= k < |payloads| && m == Motif(starts[i], payloads[k], ends[j])
  }

  /** motifs.add(sJoint + p + eJoint). */
  function Motif(sJoint: Strand, p: Strand, eJoint: Strand): Strand
  {
    sJoint + p + eJoint
  }

  /** The innermost loop of the motif assembly: sJoint + p + eJoint for every payload p. */
  method AddPayloadMotifs(motifs: seq<Strand>, starts: seq<Strand>, ends: seq<Strand>, payloads: seq<Strand>, i: nat, j: nat)
    returns (r: seq<Strand>)
    requires i < |starts| && j < |ends| && Distinct(motifs)
    ensures Distinct(r) && |r| <= |motifs| + |payloads|
    ensures forall m :: m in motifs ==> m in r
    ensures forall k :: 0 <= k < |payloads| ==> Motif(starts[i], payloads[k], ends[j]) in r
    ensures forall m :: m in r ==> m in motifs || exists k :: MotifOf(m, starts, ends, payloads, i, j, k)
  {
    r := motifs;
    for k := 0 to |payloads|
      invariant Distinct(r) && |r| <= |motifs| + k
      invariant forall m :: m in motifs ==> m in r
      invariant forall k' :: 0 <= k' < k ==> Motif(starts[i], payloads[k'], ends[j]) in r
      invariant forall m :: m in r ==> m in motifs || exists k' :: MotifOf(m, starts, ends, payloads, i, j, k')
    {
      var m := Motif(starts[i], payloads[k], ends[j]);
      AddedMeaning(r, m);
      assert MotifOf(m, starts, ends, payloads, i, j, k);
      r := Added(r, m);
    }
  }

  /** The middle loop of the motif assembly: every end half, every payload, after one start half. */
  method AddStartMotifs(motifs: seq<Strand>, starts: seq<Strand>, ends: seq<Strand>, payloads: seq<Strand>, i: nat)
    returns (r: seq<Strand>)
    requires i < |starts| && Distinct(motifs)
    ensures Distinct(r) && |r| <= |motifs| + |ends| * |payloads|
    ensures forall m :: m in motifs ==> m in r
    ensures forall j, k :: 0 <= j < |ends| && 0 <= k < |payloads| ==> Motif(starts[i], payloads[k], ends[j]) in r
    ensures forall m :: m in r ==> m in motifs || exists j, k :: MotifOf(m, starts, ends, payloads, i, j, k)
  {
    r := motifs;
    for j := 0 to |ends|
      invariant Distinct(r) && |r| <= |motifs| + j * |payloads|
      invariant forall m :: m in motifs ==> m in r
      invariant forall j', k :: 0 <= j' < j && 0 <= k < |payloads| ==> Motif(starts[i], payloads[k], ends[j']) in r
      invariant forall m :: m in r ==> m in motifs || exists j', k :: MotifOf(m, starts, ends, payloads, i, j', k)
    {
      var next := AddPayloadMotifs(r, starts, ends, payloads, i, j);
      assert (j + 1) * |payloads| == j * |payloads| + |payloads|;
      forall m | m in next
        ensures m in motifs || exists j', k :: MotifOf(m, starts, ends, payloads, i, j', k)
      {
        if m !in r {
          var k :| MotifOf(m, starts, ends, payloads, i, j, k);
        }
      }
      forall j', k | 0 <= j' < j + 1 && 0 <= k < |payloads|
        ensures Motif(starts[i], payloads[k], ends[j']) in next
      {
        if j' < j {
          assert Motif(starts[i], payloads[k], ends[j']) in r;
        }
      }
      r := next;
    }
  }

  /**
   * The motif assembly of build_motifs_and_keys (keyMotifBuilder.py:69-73):
   * sJoint + p + eJoint for every start half, end half and payload, kept
   * as a set. Every combination is a motif, every motif is one, and there
   * are at most |startJoint| * |endJoint| * |payloads| of them.
   */
  method AssembleMotifs(starts: seq<Strand>, ends: seq<Strand>, payloads: seq<Strand>) returns (motifs: seq<Strand>)
    ensures Distinct(motifs) && |motifs| <= |starts| * |ends| * |payloads|
    ensures forall i, j, k :: 0 <= i < |starts| && 0 <= j < |ends| && 0 <= k < |payloads| ==> Motif(starts[i], payloads[k], ends[j]) in motifs
    ensures forall m :: m in motifs ==> exists i, j, k :: MotifOf(m, starts, ends, payloads, i, j, k)
  {
    motifs := [];
    for i := 0 to |starts|
      invariant Distinct(motifs) && |motifs| <= i * (|ends| * |payloads|)
      invariant forall i', j, k :: 0 <= i' < i && 0 <= j < |ends| && 0 <= k < |payloads| ==> Motif(starts[i'], payloads[k], ends[j]) in motifs
      invariant forall m :: m in motifs ==> exists i', j, k :: MotifOf(m, starts, ends, payloads, i', j, k)
    {
      var next := AddStartMotifs(motifs, starts, ends, payloads, i);
      StartStepOnly(motifs, next, starts, ends, payloads, i);
      StartStepCovers(motifs, next, starts, ends, payloads, i);
      assert (i + 1) * (|ends| * |payloads|) == i * (|ends| * |payloads|) + |ends| * |payloads|;
      motifs := next;
    }
    assert |starts| * (|ends| * |payloads|) == |starts| * |ends| * |payloads|;
  }

  /** One start half more in the motif assembly: every motif is still one of the combinations. */
  lemma StartStepOnly(motifs: seq<Strand>, next: seq<Strand>, starts: seq<Strand>, ends: seq<Strand>, payloads: seq<Strand>, i: nat)
    requires i < |starts|
    requires forall m :: m in next ==> m in motifs || exists j, k :: MotifOf(m, starts, ends, payloads, i, j, k)
    requires forall m :: m in motifs ==> exists i', j, k :: MotifOf(m, starts, ends, payloads, i', j, k)
    ensures forall m :: m in next ==> exists i', j, k :: MotifOf(m, starts, ends, payloads, i', j, k)
  {
    forall m | m in next
      ensures exists i', j, k :: MotifOf(m, starts, ends, payloads, i', j, k)
    {
      if m !in motifs {
        var j, k :| MotifOf(m, starts, ends, payloads, i, j, k);
      }
    }
  }

  /** One start half more in the motif assembly: the combinations with it are now motifs too. */
  lemma StartStepCovers(motifs: seq<Strand>, next: seq<Strand>, starts: seq<Strand>, ends: seq<Strand>, payloads: seq<Strand>, i: nat)
    requires i < |starts|
    requires forall m :: m in motifs ==> m in next
    requires forall j, k :: 0 <= j < |ends| && 0 <= k < |payloads| ==> Motif(starts[i], payloads[k], ends[j]) in next
    requires forall i', j, k :: 0 <= i' < i && 0 <= j < |ends| && 0 <= k < |payloads| ==> Motif(starts[i'], payloads[k], ends[j]) in motifs
    ensures forall i', j, k :: 0 <= i' < i + 1 && 0 <= j < |ends| && 0 <= k < |payloads| ==> Motif(starts[i'], payloads[k], ends[j]) in next
  {
    forall i', j, k | 0 <= i' < i + 1 && 0 <= j < |ends| && 0 <= k < |payloads|
      ensures Motif(starts[i'], payloads[k], ends[j]) in next
    {
      if i' < i {
        assert Motif(starts[i'], payloads[k], ends[j]) in motifs;
      }
    }
  }

  /** With start halves of a bases, end halves of b and payloads of p, every motif has a + p + b bases. */
  lemma MotifLengths(motifs: seq<Strand>, starts: seq<Strand>, ends: seq<Strand>, payloads: seq<Strand>, a: nat, b: nat, p: nat)
    requires forall m :: m in motifs ==> exists i, j, k :: MotifOf(m, starts, ends, payloads, i, j, k)
    requires forall s :: s in starts ==> |s| == a
    requires forall e :: e in ends ==> |e| == b
    requires forall q :: q in payloads ==> |q| == p
    ensures forall m :: m in motifs ==> |m| == a + p + b
  {
    forall m | m in motifs
      ensures |m| == a + p + b
    {
      var i, j, k :| MotifOf(m, starts, ends, payloads, i, j, k);
      assert starts[i] in starts && ends[j] in ends && payloads[k] in payloads;
    }
  }

  // -----------------------------------------------------------------------
  // build_motifs_and_keys

  /** What build_motifs_and_keys returns: the keys, the payloads and the motifs. */
  datatype Assembly = Assembly(keys: seq<Strand>, payloads: seq<Strand>, motifs: seq<Strand>)

  /** The weights build_motifs_and_keys passes to both builders: get_weights(), 1 for each tag. */
  const BuilderWeights: map<string, real> := GetWeights(1.0, 1.0, 1.0, 1.0)

  /**
   * m is the second half (js bases on) of the reverse complement of key a,
   * then payload k, then the first js bases of the reverse complement of key b.
   */
  predicate MotifFromKeys(m: Strand, keys: seq<Strand>, payloads: seq<Strand>, js: nat)
  {
    exists a, b, k :: 0 <= a < |keys| && 0 <= b < |keys| && 0 <= k < |payloads| &&
      m == Motif(HalfOf(ReverseComplement(keys[a]), js, SecondHalf), payloads[k], HalfOf(ReverseComplement(keys[b]), js, FirstHalf))
  }

  /** What build_motifs_and_keys promises of its result under the constraints c. */
  ghost predicate Assembled(c: ValidConstraints, r: Assembly)
  {
    && 1 <= |r.keys| <= c.keyNum && Distinct(r.keys)
    && (forall k {:trigger k in r.keys} :: k in r.keys ==> |k| == c.keySize)
    && 1 <= |r.payloads| <= c.payloadNum && Distinct(r.payloads)
    && (forall p {:trigger p in r.payloads} :: p in r.payloads ==> |p| == c.payloadSize)
    && Distinct(r.motifs)
    && (forall m {:trigger m in r.motifs} :: m in r.motifs ==> |m| == c.motifSize)
    && (forall m :: m in r.motifs <==> MotifFromKeys(m, r.keys, r.payloads, c.keySize / 2))
  }

  /** The joints of keys of keySize bases: none twice, each of keySize bases. */
  lemma {:induction false} JointsOfKeys(c: ValidConstraints, keys: seq<Strand>)
    requires forall k :: k in keys ==> |k| == c.keySize
    ensures Distinct(KeysJoints([], keys, |keys|))
    ensures forall j :: j in KeysJoints([], keys, |keys|) ==> |j| == c.keySize
  {
    KeysJointsNoRepeat(keys, |keys|);
    KeysJointsMeaning([], keys, |keys|);
    forall j | j in KeysJoints([], keys, |keys|)
      ensures |j| == c.keySize
    {
      var i :| 0 <= i < |keys| && j == ReverseComplement(keys[i]);
      assert keys[i] in keys;
    }
  }

  /** h is that half (the first js bases, or what follows them) of the reverse complement of one of the keys. */
  predicate HalfOfKey(h: Strand, keys: seq<Strand>, js: nat, half: Half)
  {
    exists a :: 0 <= a < |keys| && h == HalfOf(ReverseComplement(keys[a]), js, half)
  }

  /** With keys of 2 * js bases, every strand of startJoint (SecondHalf) or endJoint (FirstHalf) is that half of a key's joint. */
  lemma {:induction false} HalvesOnlyFromKeys(keys: seq<Strand>, joints: seq<Strand>, half: Half, js: nat)
    requires forall k :: k in keys ==> |k| == 2 * js
    requires forall q :: q in joints <==> exists i :: 0 <= i < |keys| && q == ReverseComplement(keys[i])
    ensures forall h :: h in AddedAll([], HalvesOf(joints, half)) ==> HalfOfKey(h, keys, js, half)
  {
    HalfSetMeaning(joints, half);
    forall h | h in AddedAll([], HalvesOf(joints, half))
      ensures HalfOfKey(h, keys, js, half)
    {
      var i :| 0 <= i < |joints| && h == HalfOf(joints[i], |joints[i]| / 2, half);
      assert joints[i] in joints;
      var a :| 0 <= a < |keys| && joints[i] == ReverseComplement(keys[a]);
      assert keys[a] in keys;
      assert |joints[i]| / 2 == js;
      assert h == HalfOf(ReverseComplement(keys[a]), js, half);
    }
  }

  /** With keys of 2 * js bases, that half of every key's joint is in startJoint (SecondHalf) or endJoint (FirstHalf). */
  lemma {:induction false} HalvesCoverKeys(keys: seq<Strand>, joints: seq<Strand>, half: Half, js: nat)
    requires forall k :: k in keys ==> |k| == 2 * js
    requires forall q :: q in joints <==> exists i :: 0 <= i < |keys| && q == ReverseComplement(keys[i])
    ensures forall h :: HalfOfKey(h, keys, js, half) ==> h in AddedAll([], HalvesOf(joints, half))
  {
    HalfSetMeaning(joints, half);
    forall h | HalfOfKey(h, keys, js, half)
      ensures h in AddedAll([], HalvesOf(joints, half))
    {
      var a :| 0 <= a < |keys| && h == HalfOf(ReverseComplement(keys[a]), js, half);
      assert keys[a] in keys;
      var j := ReverseComplement(keys[a]);
      assert j in joints;
      var i :| 0 <= i < |joints| && joints[i] == j;
      assert |joints[i]| / 2 == js;
      assert h == HalfOf(joints[i], |joints[i]| / 2, half);
    }
  }

  /** Every assembled motif is a start half, a payload and an end half of the keys' joints. */
  lemma {:induction false} MotifsOnlyFromKeys(keys: seq<Strand>, payloads: seq<Strand>, starts: seq<Strand>, ends: seq<Strand>,
                           motifs: seq<Strand>, js: nat)
    requires forall h :: h in starts ==> HalfOfKey(h, keys, js, SecondHalf)
    requires forall h :: h in ends ==> HalfOfKey(h, keys, js, FirstHalf)
    requires forall m :: m in motifs ==> exists i, j, k :: MotifOf(m, starts, ends, payloads, i, j, k)
    ensures forall m :: m in motifs ==> MotifFromKeys(m, keys, payloads, js)
  {
    forall m | m in motifs
      ensures MotifFromKeys(m, keys, payloads, js)
    {
      var i, j, k :| MotifOf(m, starts, ends, payloads, i, j, k);
      assert starts[i] in starts && ends[j] in ends;
      var a :| 0 <= a < |keys| && starts[i] == HalfOf(ReverseComplement(keys[a]), js, SecondHalf);
      var b :| 0 <= b < |keys| && ends[j] == HalfOf(ReverseComplement(keys[b]), js, FirstHalf);
      assert m == Motif(HalfOf(ReverseComplement(keys[a]), js, SecondHalf), payloads[k], HalfOf(ReverseComplement(keys[b]), js, FirstHalf));
    }
  }

  /** Every start half, payload and end half of the keys' joints is assembled into a motif. */
  lemma {:induction false} MotifsCoverKeys(keys: seq<Strand>, payloads: seq<Strand>, starts: seq<Strand>, ends: seq<Strand>,
                        motifs: seq<Strand>, js: nat)
    requires forall h :: HalfOfKey(h, keys, js, SecondHalf) ==> h in starts
    requires forall h :: HalfOfKey(h, keys, js, FirstHalf) ==> h in ends
    requires forall i, j, k :: 0 <= i < |starts| && 0 <= j < |ends| && 0 <= k < |payloads| ==> Motif(starts[i], payloads[k], ends[j]) in motifs
    ensures forall m :: MotifFromKeys(m, keys, payloads, js) ==> m in motifs
  {
    forall m | MotifFromKeys(m, keys, payloads, js)
      ensures m in motifs
    {
      var a, b, k :| 0 <= a < |keys| && 0 <= b < |keys| && 0 <= k < |payloads| &&
        m == Motif(HalfOf(ReverseComplement(keys[a]), js, SecondHalf), payloads[k], HalfOf(ReverseComplement(keys[b]), js, FirstHalf));
      var s, e := HalfOf(ReverseComplement(keys[a]), js, SecondHalf), HalfOf(ReverseComplement(keys[b]), js, FirstHalf);
      assert HalfOfKey(s, keys, js, SecondHalf) && HalfOfKey(e, keys, js, FirstHalf);
      var i :| 0 <= i < |starts| && starts[i] == s;
      var j :| 0 <= j < |ends| && ends[j] == e;
      assert Motif(starts[i], payloads[k], ends[j]) in motifs;
    }
  }

  /** Every motif assembled from the halves of the keys' joints is a motif from the keys. */
  lemma {:induction false} AssembledOnlyFromKeys(keys: seq<Strand>, joints: seq<Strand>, payloads: seq<Strand>,
                                                 starts: seq<Strand>, ends: seq<Strand>, motifs: seq<Strand>, js: nat)
    requires forall k :: k in keys ==> |k| == 2 * js
    requires joints == KeysJoints([], keys, |keys|)
    requires starts == AddedAll([], HalvesOf(joints, SecondHalf)) && ends == AddedAll([], HalvesOf(joints, FirstHalf))
    requires forall m :: m in motifs ==> exists i, j, k :: MotifOf(m, starts, ends, payloads, i, j, k)
    ensures forall m :: m in motifs ==> MotifFromKeys(m, keys, payloads, js)
  {
    KeysJointsMeaning([], keys, |keys|);
    HalvesOnlyFromKeys(keys, joints, SecondHalf, js);
    HalvesOnlyFromKeys(keys, joints, FirstHalf, js);
    MotifsOnlyFromKeys(keys, payloads, starts, ends, motifs, js);
  }

  /** Every motif from the keys is among those assembled from the halves of the keys' joints. */
  lemma {:induction false} AssembledCoverKeys(keys: seq<Strand>, joints: seq<Strand>, payloads: seq<Strand>,
                                              starts: seq<Strand>, ends: seq<Strand>, motifs: seq<Strand>, js: nat)
    requires forall k :: k in keys ==> |k| == 2 * js
    requires joints == KeysJoints([], keys, |keys|)
    requires starts == AddedAll([], HalvesOf(joints, SecondHalf)) && ends == AddedAll([], HalvesOf(joints, FirstHalf))
    requires forall i, j, k :: 0 <= i < |starts| && 0 <= j < |ends| && 0 <= k < |payloads| ==> Motif(starts[i], payloads[k], ends[j]) in motifs
    ensures forall m :: MotifFromKeys(m, keys, payloads, js) ==> m in motifs
  {
    KeysJointsMeaning([], keys, |keys|);
    HalvesCoverKeys(keys, joints, SecondHalf, js);
    HalvesCoverKeys(keys, joints, FirstHalf, js);
    MotifsCoverKeys(keys, payloads, starts, ends, motifs, js);
  }

  /** A motif from keys of 2 * js bases and payloads of p bases has 2 * js + p bases. */
  lemma {:induction false} MotifFromKeysLength(keys: seq<Strand>, payloads: seq<Strand>, motifs: seq<Strand>, js: nat, p: nat)
    requires forall k :: k in keys ==> |k| == 2 * js
    requires forall q :: q in payloads ==> |q| == p
    requires forall m :: m in motifs ==> MotifFromKeys(m, keys, payloads, js)
    ensures forall m :: m in motifs ==> |m| == 2 * js + p
  {
    forall m | m in motifs
      ensures |m| == 2 * js + p
    {
      var a, b, k :| 0 <= a < |keys| && 0 <= b < |keys| && 0 <= k < |payloads| &&
        m == Motif(HalfOf(ReverseComplement(keys[a]), js, SecondHalf), payloads[k], HalfOf(ReverseComplement(keys[b]), js, FirstHalf));
      assert keys[a] in keys && keys[b] in keys && payloads[k] in payloads;
    }
  }

  /** Keys, payloads and exactly the motifs from them make up what build_motifs_and_keys promises. */
  lemma {:induction false} AssemblyMeaning(c: ValidConstraints, keys: seq<Strand>, payloads: seq<Strand>, motifs: seq<Strand>)
    requires 1 <= |keys| <= c.keyNum && Distinct(keys) && forall k :: k in keys ==> |k| == c.keySize
    requires 1 <= |payloads| <= c.payloadNum && Distinct(payloads) && forall p :: p in payloads ==> |p| == c.payloadSize
    requires Distinct(motifs)
    requires forall m :: m in motifs ==> MotifFromKeys(m, keys, payloads, c.keySize / 2)
    requires forall m :: MotifFromKeys(m, keys, payloads, c.keySize / 2) ==> m in motifs
    ensures Assembled(c, Assembly(keys, payloads, motifs))
  {
    MotifFromKeysLength(keys, payloads, motifs, c.keySize / 2, c.payloadSize);
  }

  /**
   * build_motifs_and_keys: keys built with the key tags, their joints,
   * payloads built against those joints with the motif tags, and every
   * start half + payload + end half. Both builders get the hyperparameters
   * get_hyperparameters() and the weights get_weights(); a tag without a
   * weight (KeyError), a tag the builder does not score (ValueError), a
   * homopolymer term over maxHom = 0 (ZeroDivisionError) or a joint
   * hairpin search past the end of a candidate (IndexError) ends the
   * build with that error.
   */
  method BuildMotifsAndKeys(withKeyConstraints: seq<string>, withMotifConstraints: seq<string>, c: ValidConstraints,
                            sample: Sampler, draw: nat) returns (r: Result<Assembly, BuildError>, next: nat)
    ensures !Weighable(withKeyConstraints, BuilderWeights, KeyTags) ==> r.Err?
    ensures DividesByZero(withKeyConstraints, c.maxHom) ==> r == Err(ZeroDivisionError)
    ensures Weighable(withKeyConstraints, BuilderWeights, KeyTags) && c.maxHom == 0 && HomLeads(withMotifConstraints) && c.payloadSize > 1 ==> r == Err(ZeroDivisionError)
    ensures DividesByZero(withMotifConstraints, c.maxHom) && c.payloadSize > 1 ==> r.Err?
    ensures r.Ok? ==> Weighable(withKeyConstraints, BuilderWeights, KeyTags) && Weighable(withMotifConstraints, BuilderWeights, PayloadTags) && !DividesByZero(withKeyConstraints, c.maxHom)
                      && (c.payloadSize > 1 ==> !DividesByZero(withMotifConstraints, c.maxHom))
    ensures r.Err? && Weighable(withKeyConstraints, BuilderWeights, KeyTags) && Weighable(withMotifConstraints, BuilderWeights, PayloadTags)
                   && !DividesByZero(withKeyConstraints, c.maxHom) && !DividesByZero(withMotifConstraints, c.maxHom)
            ==> r.error == IndexError
    ensures r.Err? && r.error != IndexError ==>
              || Raised(withKeyConstraints, BuilderWeights, KeyTags, c.maxHom, r.error)
              || (r.error == ZeroDivisionError && DividesByZero(withMotifConstraints, c.maxHom))
              || Fault(withMotifConstraints, BuilderWeights, PayloadTags, r.error)
    ensures r.Ok? ==> Assembled(c, r.value)
    ensures next >= draw
  {
    var h := GetHyperparameters(5.0, 5.0, 5.0, 5.0);
    var weights := GetWeights(1.0, 1.0, 1.0, 1.0);
    var keyBuilder := new KeyBuilder(c, h.Values(), weights);
    var keys;
    keys, next := keyBuilder.BuildAllKeys(withKeyConstraints, sample, draw);
    if keys.Err? {
      return Err(keys.error), next;
    }
    var joints := KeysToJoints(keys.value);
    JointsOfKeys(c, keys.value);
    var motifBuilder := new MotifBuilder(c, h.Values(), weights);
    motifBuilder.AddJoints(joints);
    if c.payloadSize > 1 {
      assert !motifBuilder.penalties.WholeMotifOnly([] + [Alphabet[0]]);
    }
    var payloads;
    payloads, next := motifBuilder.BuildAllPayloads(withMotifConstraints, sample, next);
    if payloads.Err? {
      return Err(payloads.error), next;
    }
    var startJoint, endJoint := JointHalves(joints);
    var motifs := AssembleMotifs(startJoint, endJoint, payloads.value);
    AssembledOnlyFromKeys(keys.value, joints, payloads.value, startJoint, endJoint, motifs, c.keySize / 2);
    AssembledCoverKeys(keys.value, joints, payloads.value, startJoint, endJoint, motifs, c.keySize / 2);
    AssemblyMeaning(c, keys.value, payloads.value, motifs);
    r := Ok(Assembly(keys.value, payloads.value, motifs));
  }

  // -----------------------------------------------------------------------
  // buildAnswer

  /**
   * The tags buildAnswer hands to the key builder and to the payload
   * builder, each set filled in the order of the three tests: 'hom' for
   * both, 'keyGcContent' and 'motifGcContent' when 'motifGcContent' is
   * asked for, 'hairpin' for both.
   */
  function TagSets(withConstraints: set<string>): (r: (seq<string>, seq<string>))
    ensures forall t :: t in r.0 <==>
              || (t == "hom" && "hom" in withConstraints)
              || (t == "keyGcContent" && "motifGcContent" in withConstraints)
              || (t == "hairpin" && "hairpin" in withConstraints)
    ensures forall t :: t in r.1 <==>
              || (t == "hom" && "hom" in withConstraints)
              || (t == "motifGcContent" && "motifGcContent" in withConstraints)
              || (t == "hairpin" && "hairpin" in withConstraints)
    ensures Weighable(r.0, BuilderWeights, KeyTags) && Weighable(r.1, BuilderWeights, PayloadTags)
  {
    var hom := if "hom" in withConstraints then ["hom"] else [];
    var gc := "motifGcContent" in withConstraints;
    var hairpin := if "hairpin" in withConstraints then ["hairpin"] else [];
    (hom + (if gc then ["keyGcContent"] else []) + hairpin, hom + (if gc then ["motifGcContent"] else []) + hairpin)
  }

  /**
   * Every constraint buildAnswer scores holds: the homopolymer runs
   * across motifs for 'hom', the motif and key GC contents for
   * 'motifGcContent', the hairpins for 'hairpin'; judged on the
   * validator's penalties f and statistics st before any scan.
   */
  predicate AnswerClean(f: Penalties, st: MotifStats, c: Constraints, withConstraints: set<string>)
  {
    && ("hom" in withConstraints ==> Clean(f, st, c, "hom"))
    && ("motifGcContent" in withConstraints ==> Clean(f, st, c, "motifGcContent") && Clean(f, st, c, "keyGcContent"))
    && ("hairpin" in withConstraints ==> Clean(f, st, c, "hairpin"))
  }

  /**
   * The total buildAnswer adds up: minus the homopolymer total across
   * motifs for 'hom', minus the motif and key GC penalties for
   * 'motifGcContent', minus the hairpin penalty for 'hairpin'.
   */
  function AnswerTotal(f: Penalties, st: MotifStats, c: Constraints, withConstraints: set<string>): real
  {
    (if "hom" in withConstraints then -(HomTotal(HomCall(st, c).1) as real) else 0.0)
    + (if "motifGcContent" in withConstraints then -f.motifGc - f.keyGc else 0.0)
    + (if "hairpin" in withConstraints then -(f.hairpin as real) else 0.0)
  }

  /** No penalty is negative, so the total is zero exactly when every constraint asked for holds. */
  lemma AnswerTotalZeroIff(f: Penalties, st: MotifStats, c: Constraints, withConstraints: set<string>)
    requires NonNegative(f) && HomTotal(HomCall(st, c).1) >= 0
    ensures AnswerTotal(f, st, c, withConstraints) <= 0.0
    ensures AnswerTotal(f, st, c, withConstraints) == 0.0 <==> AnswerClean(f, st, c, withConstraints)
  {
  }

  /** The four scores buildAnswer adds, each 0 when its tag is not asked for, add up to the total. */
  lemma AnswerTotalSum(f: Penalties, st: MotifStats, c: Constraints, withConstraints: set<string>,
                       hom: int, motifGc: real, keyGc: real, hairpin: int)
    requires NonNegative(f) && HomTotal(HomCall(st, c).1) >= 0
    requires hom == if "hom" in withConstraints then -HomTotal(HomCall(st, c).1) else 0
    requires motifGc == (if "motifGcContent" in withConstraints then -f.motifGc else 0.0)
    requires keyGc == (if "motifGcContent" in withConstraints then -f.keyGc else 0.0)
    requires hairpin == if "hairpin" in withConstraints then -f.hairpin else 0
    ensures hom as real + motifGc + keyGc + hairpin as real == AnswerTotal(f, st, c, withConstraints)
    ensures hom as real + motifGc + keyGc + hairpin as real == 0.0 <==> AnswerClean(f, st, c, withConstraints)
  {
    AnswerTotalZeroIff(f, st, c, withConstraints);
  }

  /**
   * The scores buildAnswer asks the validator for, in its order: the
   * homopolymer score (which extends homOutBoundary), both GC scores, the
   * hairpin score; 0 for each whose tag is not asked for.
   */
  method SelectedScores(v: Validate, withConstraints: set<string>) returns (hom: int, motifGc: real, keyGc: real, hairpin: int)
    requires v.Valid()
    modifies v`stats
    ensures v.Valid()
    ensures v.stats == if "hom" in withConstraints then HomCall(old(v.stats), v.c).0 else old(v.stats)
    ensures hom == if "hom" in withConstraints then -HomTotal(HomCall(old(v.stats), v.c).1) else 0
    ensures motifGc == (if "motifGcContent" in withConstraints then -old(v.Fixed()).motifGc else 0.0)
    ensures keyGc == (if "motifGcContent" in withConstraints then -old(v.Fixed()).keyGc else 0.0)
    ensures hairpin == if "hairpin" in withConstraints then -old(v.Fixed()).hairpin else 0
  {
    ghost var f := v.Fixed();
    hom := 0;
    if "hom" in withConstraints {
      hom := v.GetMotifsAndKeysHomopolymerScore();
    }
    assert v.Fixed() == f;
    motifGc, keyGc, hairpin := FixedScores(v, withConstraints);
  }

  /** The GC and hairpin scores buildAnswer asks for; they only read the validator. */
  method FixedScores(v: Validate, withConstraints: set<string>) returns (motifGc: real, keyGc: real, hairpin: int)
    requires v.Valid()
    ensures motifGc == (if "motifGcContent" in withConstraints then -v.Fixed().motifGc else 0.0)
    ensures keyGc == (if "motifGcContent" in withConstraints then -v.Fixed().keyGc else 0.0)
    ensures hairpin == if "hairpin" in withConstraints then -v.Fixed().hairpin else 0
  {
    motifGc, keyGc, hairpin := 0.0, 0.0, 0;
    if "motifGcContent" in withConstraints {
      motifGc := v.GetMotifsGcScore();
      keyGc := v.GetKeysGcScore();
    }
    if "hairpin" in withConstraints {
      hairpin := v.GetMotifsAndKeysHairpinScore();
    }
  }

  /**
   * The scoring of buildAnswer: the selected scores added up; the answer
   * is valid exactly when their total is 0, that is, when every
   * constraint asked for holds.
   */
  method AnswerScore(v: Validate, withConstraints: set<string>) returns (valid: bool)
    requires v.Valid()
    modifies v`stats
    ensures v.Valid()
    ensures v.stats == if "hom" in withConstraints then HomCall(old(v.stats), v.c).0 else old(v.stats)
    ensures valid <==> AnswerClean(old(v.Fixed()), old(v.stats), v.c, withConstraints)
  {
    ghost var f, st := v.Fixed(), v.stats;
    HomCallNonNegative(st, v.c);
    FixedPenaltiesNonNegative(v.c, v.keys, v.payloads, st.joints, st.payloadsGcCount, st.startJointsGcCount, st.endJointsGcCount);
    var hom, motifGc, keyGc, hairpin := SelectedScores(v, withConstraints);
    var totalScore := hom as real + motifGc + keyGc + hairpin as real;
    AnswerTotalSum(f, st, v.c, withConstraints, hom, motifGc, keyGc, hairpin);
    valid := totalScore == 0.0;
  }

  /** What keeps buildAnswer from answering: constraints that fail their checks, or a failed build. */
  datatype AnswerError = BadConstraints(config: ConfigError) | BuildFailed(build: BuildError)

  /** buildAnswer's result: the keys, payloads and motifs, and whether they meet the constraints asked for. */
  datatype Answer = Answer(built: Assembly, valid: bool)

  /**
   * buildAnswer: the constraints (loop size -1, so the range is
   * loopMin .. loopMax), the builders' tags, build_motifs_and_keys, then a
   * validator given the keys and the payloads that scores the constraints
   * asked for. st and f are the validator's statistics and penalties once
   * it holds them.
   */
  method BuildAnswer(withConstraints: set<string>, payloadNum: int, payloadSize: int, keyNum: int, keySize: int,
                     maxHairpin: int, gcContentMinPercentage: int, gcContentMaxPercentage: int, maxHomopolymer: int,
                     loopMin: int, loopMax: int, sample: Sampler, draw: nat)
    returns (r: Result<Answer, AnswerError>, next: nat, ghost st: MotifStats, ghost f: Penalties)
    ensures var cr := GetConstraints(maxHairpin, -1, payloadSize, keySize, keyNum, payloadNum, maxHomopolymer,
                                     gcContentMinPercentage, gcContentMaxPercentage, loopMin, loopMax);
            && (cr.Err? ==> r == Err(BadConstraints(cr.error)))
            && (r.Err? && cr.Ok? ==> r.error.BuildFailed?
                                     && (r.error.build == IndexError
                                         || (r.error.build == ZeroDivisionError && "hom" in withConstraints && maxHomopolymer == 0)))
            && (cr.Ok? && "hom" in withConstraints && maxHomopolymer == 0 ==> r == Err(BuildFailed(ZeroDivisionError)))
            && (r.Ok? ==> cr.Ok? && Assembled(cr.value, r.value.built))
            && (r.Ok? ==> st == Generated(NoStats, cr.value, r.value.built.keys, r.value.built.payloads)
                          && Consistent(cr.value, r.value.built.keys, r.value.built.payloads, st)
                          && f == FixedPenalties(cr.value, r.value.built.keys, r.value.built.payloads, st.joints,
                                                 st.payloadsGcCount, st.startJointsGcCount, st.endJointsGcCount)
                          && (r.value.valid <==> AnswerClean(f, st, cr.value, withConstraints)))
    ensures next >= draw
  {
    next, st, f := draw, NoStats, Penalties(0, 0.0, 0, 0.0, 0);
    var cr := GetConstraints(maxHairpin, -1, payloadSize, keySize, keyNum, payloadNum, maxHomopolymer,
                             gcContentMinPercentage, gcContentMaxPercentage, loopMin, loopMax);
    if cr.Err? {
      return Err(BadConstraints(cr.error)), next, st, f;
    }
    var c: ValidConstraints := cr.value;
    var tags := TagSets(withConstraints);
    var built;
    built, next := BuildMotifsAndKeys(tags.0, tags.1, c, sample, draw);
    if built.Err? {
      return Err(BuildFailed(built.error)), next, st, f;
    }
    var keyMotifsValidation := new Validate(c);
    keyMotifsValidation.AddKeys(built.value.keys);
    keyMotifsValidation.AddPayloads(built.value.payloads);
    st, f := keyMotifsValidation.stats, keyMotifsValidation.Fixed();
    var valid := AnswerScore(keyMotifsValidation, withConstraints);
    r := Ok(Answer(built.value, valid));
  }
}
