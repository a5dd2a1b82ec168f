/**
 * The incremental key engine of baseKeyPenalties.py. While a key is built
 * base by base, the engine keeps the partial key with its GC count and its
 * final run length; finished keys are registered together with their
 * joint halves and the lowest and highest GC counts of those halves. A
 * candidate next base is scored against that state.
 */
module KeyPenaltyEngine {
  import opened Nucleotides
  import opened Outcomes
  import opened Scores
  import opened Configuration
  import opened Temperatures
  import opened GcContent
  import BasePenalties
  import HairpinSearch
  import opened KeyHalves

  /** While the first half is built, the partner range spans the registered second halves (an empty half when none). */
  lemma PartnerRangeWhileFirstHalf(keys: seq<Strand>, js: nat)
    ensures var mn := HalfGcMin(keys, js, SecondHalf);
            var mx := HalfGcMax(keys, js, SecondHalf);
            var lo := if mn >= 0 then mn else 0;
            var hi := if mx >= 0 then mx else 0;
            var S := if keys == [] then {0} else HalfGcs(keys, js, SecondHalf);
            lo in S && hi in S && forall x :: x in S ==> lo <= x <= hi
  {
    HalfGcBounds(keys, js, SecondHalf);
  }

  /** While the second half is built, the partner range spans the registered first halves and the candidate's own. */
  lemma PartnerRangeWhileSecondHalf(keys: seq<Strand>, js: nat, g: nat)
    ensures var lo := MinSoFar(HalfGcMin(keys, js, FirstHalf), g);
            var hi := MaxSoFar(HalfGcMax(keys, js, FirstHalf), g);
            var S := HalfGcs(keys, js, FirstHalf) + {g};
            lo in S && hi in S && forall x :: x in S ==> lo <= x <= hi
  {
    HalfGcBounds(keys, js, FirstHalf);
  }

  /** 4 ^ n, the number of strands of length n. */
  function Pow4(n: nat): (p: nat)
    ensures p >= 1
  {
    if n == 0 then 1 else 4 * Pow4(n - 1)
  }

  /** The engine's registries as one value. */
  datatype Registry = Registry(
    keys: seq<Strand>, startJoints: set<Strand>, endJoints: set<Strand>,
    startMin: int, endMin: int, startMax: int, endMax: int)

  /** The registries that describe exactly the keys `keys`. */
  function RegistryOf(keys: seq<Strand>, js: nat): Registry
  {
    Registry(keys, Halves(keys, js, FirstHalf), Halves(keys, js, SecondHalf),
             HalfGcMin(keys, js, FirstHalf), HalfGcMin(keys, js, SecondHalf),
             HalfGcMax(keys, js, FirstHalf), HalfGcMax(keys, js, SecondHalf))
  }

  /** What add_key does to the registries: add the key, its halves, and its halves' GC counts. */
  function Register(r: Registry, k: Strand, js: nat): Registry
  {
    var g1 := GcCount(HalfOf(k, js, FirstHalf));
    var g2 := GcCount(HalfOf(k, js, SecondHalf));
    Registry(Added(r.keys, k),
             r.startJoints + {HalfOf(k, js, FirstHalf)}, r.endJoints + {HalfOf(k, js, SecondHalf)},
             MinSoFar(r.startMin, g1), MinSoFar(r.endMin, g2), MaxSoFar(r.startMax, g1), MaxSoFar(r.endMax, g2))
  }

  /** Registries of distinct keys of keySize bases that describe exactly those keys. */
  ghost predicate Registers(c: Constraints, r: Registry)
  {
    && Configuration.Valid(c)
    && Distinct(r.keys)
    && (forall k {:trigger k in r.keys} :: k in r.keys ==> |k| == c.keySize)
    && r == RegistryOf(r.keys, JointSize(c))
  }

  /** Registering step by step keeps the registries describing exactly the registered keys. */
  lemma RegisterKeepsRegistryOf(keys: seq<Strand>, js: nat, k: Strand)
    ensures Register(RegistryOf(keys, js), k, js) == RegistryOf(Added(keys, k), js)
  {
    if k in keys {
      HalvesHas(keys, js, FirstHalf, k);
      HalvesHas(keys, js, SecondHalf, k);
      HalfGcKnown(keys, js, FirstHalf, k);
      HalfGcKnown(keys, js, SecondHalf, k);
    } else {
      assert (keys + [k])[..|keys|] == keys;
    }
  }

  /** add_keys on the key set: every one of the first n keys of `news` that has the configured size is added, in order. */
  function AddedSized(ks: seq<Strand>, news: seq<Strand>, n: nat, size: int): seq<Strand>
    requires n <= |news|
  {
    if n == 0 then ks
    else
      var r := AddedSized(ks, news, n - 1, size);
      if |news[n - 1]| == size then Added(r, news[n - 1]) else r
  }

  /** After add_keys the set holds the old keys and the new keys of the configured size, each once. */
  lemma {:induction false} AddedSizedMeaning(ks: seq<Strand>, news: seq<Strand>, n: nat, size: int)
    requires n <= |news|
    ensures forall k :: k in AddedSized(ks, news, n, size) <==> k in ks || (k in news[..n] && |k| == size)
    ensures Distinct(ks) ==> Distinct(AddedSized(ks, news, n, size))
  {
    if n > 0 {
      AddedSizedMeaning(ks, news, n - 1, size);
      AddedMeaning(AddedSized(ks, news, n - 1, size), news[n - 1]);
      assert news[..n] == news[..n - 1] + [news[n - 1]];
    }
  }

  /**
   * The counting loop of add_motif_gc_info: the GC counts of the key's
   * first and second halves, each taken as the minimum and the maximum
   * over the one key.
   */
  method HalfGcCounts(c: Constraints, k: Strand) returns (startMinGcCount: int, startMaxGcCount: int, endMinGcCount: int, endMaxGcCount: int)
    requires Configuration.Valid(c) && |k| == c.keySize
    ensures startMinGcCount == startMaxGcCount == GcCount(HalfOf(k, JointSize(c), FirstHalf))
    ensures endMinGcCount == endMaxGcCount == GcCount(HalfOf(k, JointSize(c), SecondHalf))
  {
    var js := JointSize(c);
    startMinGcCount, startMaxGcCount, endMinGcCount, endMaxGcCount := -1, -1, -1, -1;
    var gc := if IsGC(k[0]) then 1 else 0;
    assert GcCount(k[..1]) == gc by {
      assert k[..1][..0] == [];
    }
    var i := 1;
    while i < |k|
      invariant 1 <= i <= |k|
      invariant i <= js ==> gc == GcCount(k[..i]) && startMinGcCount == -1 && startMaxGcCount == -1
      invariant i > js ==> gc == GcCount(k[js..i])
      invariant i > js ==> startMinGcCount == GcCount(k[..js]) && startMaxGcCount == GcCount(k[..js])
    {
      if i == js {
        startMinGcCount := MinSoFar(startMinGcCount, gc);
        startMaxGcCount := MaxSoFar(startMaxGcCount, gc);
        gc := 0;
        assert k[js..i] == [];
      }
      gc := gc + (if IsGC(k[i]) then 1 else 0);
      if i < js {
        assert k[..i + 1][..i] == k[..i];
      } else {
        assert k[js..i + 1][..i - js] == k[js..i];
      }
      i := i + 1;
    }
    assert k[js..i] == Drop(k, js);
    endMinGcCount := MinSoFar(endMinGcCount, gc);
    endMaxGcCount := MaxSoFar(endMaxGcCount, gc);
  }

  class BaseKeyPenalties {
    const c: Constraints
    const temps: Settings
    /** The set of registered keys, in registration order. */
    var keys: seq<Strand>
    var curKey: Strand
    var curHom: int
    var curGcCount: int
    var startJoints: set<Strand>
    var endJoints: set<Strand>
    var startMinGcCountMotif: int
    var endMinGcCountMotif: int
    var startMaxGcCountMotif: int
    var endMaxGcCountMotif: int

    /** The registries describe exactly the registered keys. */
    ghost predicate Valid()
      reads this
    {
      Registers(c, Registered())
    }

    /** The registries are those of exactly the registered keys. */
    ghost predicate Describes()
      requires Configuration.Valid(c)
      reads this
    {
      Registered() == RegistryOf(keys, JointSize(c))
    }

    /** The running statistics describe the partial key. */
    predicate Tracking()
      reads this
    {
      curGcCount == GcCount(curKey) && curHom == TrailingRun(curKey)
    }

    /** The key being built with its running statistics. */
    function Partial(): (Strand, int, int)
      reads this
    {
      (curKey, curHom, curGcCount)
    }

    function Registered(): Registry
      reads this
    {
      Registry(keys, startJoints, endJoints, startMinGcCountMotif, endMinGcCountMotif,
               startMaxGcCountMotif, endMaxGcCountMotif)
    }

    constructor (c: Constraints, temps: Settings)
      requires Configuration.Valid(c)
      ensures Valid() && Tracking()
      ensures this.c == c && this.temps == temps
      ensures keys == [] && curKey == []
    {
      this.c := c;
      this.temps := temps;
      keys := [];
      curKey := [];
      curHom := 0;
      curGcCount := 0;
      startJoints := {};
      endJoints := {};
      startMinGcCountMotif := -1;
      endMinGcCountMotif := -1;
      startMaxGcCountMotif := -1;
      endMaxGcCountMotif := -1;
    }

    method StartNewKey()
      modifies this
      ensures curKey == [] && Tracking()
      ensures Registered() == old(Registered())
      ensures old(Valid()) ==> Valid()
    {
      curKey := [];
      curGcCount := 0;
      curHom := 0;
    }

    /** Appends a base to the partial key; the statistics keep describing it. */
    method AddBase(newBase: Nuc)
      modifies this
      ensures curKey == old(curKey) + [newBase]
      ensures old(Tracking()) ==> Tracking()
      ensures Registered() == old(Registered())
      ensures old(Valid()) ==> Valid()
    {
      AppendBase(curKey, newBase);
      curKey := curKey + [newBase];
      UpdateHomopolymerStats(newBase);
      UpdateGcCountStats(newBase);
    }

    method UpdateHomopolymerStats(newBase: Nuc)
      requires |curKey| >= 1
      modifies this
      ensures curKey == old(curKey) && curGcCount == old(curGcCount)
      ensures curHom == if |curKey| == 1 then 1 else if curKey[|curKey| - 2] != newBase then 1 else old(curHom) + 1
      ensures Registered() == old(Registered())
    {
      if |curKey| == 1 {
        curHom := 1;
        return;
      }
      if curKey[|curKey| - 2] != newBase {
        curHom := 0;
      }
      curHom := curHom + 1;
    }

    method UpdateGcCountStats(newBase: Nuc)
      modifies this
      ensures curGcCount == old(curGcCount) + (if IsGC(newBase) then 1 else 0)
      ensures curKey == old(curKey) && curHom == old(curHom)
      ensures Registered() == old(Registered())
    {
      curGcCount := curGcCount + (if IsGC(newBase) then 1 else 0);
    }

    /** Registers a key of the configured size; a key of any other size is refused and nothing changes. */
    method AddKey(newKey: Strand) returns (accepted: bool)
      requires Valid()
      modifies this
      ensures Valid()
      ensures accepted <==> |newKey| == c.keySize
      ensures Registered() == if accepted then Register(old(Registered()), newKey, JointSize(c)) else old(Registered())
      ensures keys == if accepted then Added(old(keys), newKey) else old(keys)
      ensures Partial() == old(Partial())
    {
      if |newKey| != c.keySize {
        return false;
      }
      ghost var js := JointSize(c);
      ghost var before := Registered();
      var newKeys := Added(keys, newKey);
      RegisterKeepsRegistryOf(keys, js, newKey);
      AddedMeaning(keys, newKey);
      keys := newKeys;
      AddJoints(newKey);
      AddMotifGcInfo(newKey);
      assert Registered() == Register(before, newKey, js);
      return true;
    }

    /** Registers every key of `newKeys` in turn. */
    method AddKeys(newKeys: seq<Strand>)
      requires Valid()
      modifies this
      ensures Valid()
      ensures keys == AddedSized(old(keys), newKeys, |newKeys|, c.keySize)
      ensures Partial() == old(Partial())
    {
      ghost var before := keys;
      var i := 0;
      while i < |newKeys|
        invariant 0 <= i <= |newKeys|
        invariant Valid()
        invariant keys == AddedSized(before, newKeys, i, c.keySize)
        invariant Partial() == old(Partial())
      {
        var accepted := AddKey(newKeys[i]);
        i := i + 1;
      }
    }

    method AddJoints(newKey: Strand)
      requires Configuration.Valid(c)
      modifies this
      ensures Registered() == old(Registered()).(
        startJoints := old(startJoints) + {HalfOf(newKey, JointSize(c), FirstHalf)},
        endJoints := old(endJoints) + {HalfOf(newKey, JointSize(c), SecondHalf)})
      ensures Partial() == old(Partial())
    {
      var js := JointSize(c);
      startJoints := startJoints + {Take(newKey, js)};
      endJoints := endJoints + {Drop(newKey, js)};
    }

    /** Folds the GC counts of the key's two halves into the four registries. */
    method AddMotifGcInfo(k: Strand)
      requires Configuration.Valid(c) && |k| == c.keySize
      modifies this
      ensures
        var g1 := GcCount(HalfOf(k, JointSize(c), FirstHalf));
        var g2 := GcCount(HalfOf(k, JointSize(c), SecondHalf));
        Registered() == old(Registered()).(
          startMin := MinSoFar(old(startMinGcCountMotif), g1), endMin := MinSoFar(old(endMinGcCountMotif), g2),
          startMax := MaxSoFar(old(startMaxGcCountMotif), g1), endMax := MaxSoFar(old(endMaxGcCountMotif), g2))
      ensures Partial() == old(Partial())
    {
      var startMinGcCount, startMaxGcCount, endMinGcCount, endMaxGcCount := HalfGcCounts(c, k);
      startMinGcCountMotif := MinSoFar(startMinGcCountMotif, startMinGcCount);
      endMinGcCountMotif := MinSoFar(endMinGcCountMotif, endMinGcCount);
      startMaxGcCountMotif := MaxSoFar(startMaxGcCountMotif, startMaxGcCount);
      endMaxGcCountMotif := MaxSoFar(endMaxGcCountMotif, endMaxGcCount);
    }

    /** homopolymer_stats: the length of the candidate's final run, from the running statistics. */
    function HomopolymerStats(cand: Strand): (k: int)
      reads this
      ensures cand == [] ==> k == 0
      ensures Tracking() && cand != [] && cand[..|cand| - 1] == curKey ==> k == TrailingRun(cand)
    {
      if |cand| <= 1 then |cand|
      else if cand[|cand| - 1] == cand[|cand| - 2] then curHom + 1
      else 1
    }

    function HomopolymerPenalty(cand: Strand): (p: Penalty)
      reads this
      ensures cand == [] ==> p == Zero
      ensures Tracking() && cand != [] && cand[..|cand| - 1] == curKey ==> p == Single(temps.hom, TrailingRun(cand), c.maxHom)
    {
      var homSize := HomopolymerStats(cand);
      if homSize == 0 then Zero else Single(temps.hom, homSize, c.maxHom)
    }

    /** The GC count of the candidate: the running count plus its last base. */
    function CandidateGc(cand: Strand): (gc: int)
      requires cand != []
      reads this
      ensures Tracking() && cand[..|cand| - 1] == curKey ==> gc == GcCount(cand)
    {
      if IsGC(cand[|cand| - 1]) then curGcCount + 1 else curGcCount
    }

    /**
     * key_GC_content_within_key: the distance of the candidate's GC% past
     * the violated bound of the window, scaled by the built fraction of the key.
     */
    function KeyGcContentWithinKey(cand: Strand): (r: real)
      requires Configuration.Valid(c) && cand != []
      reads this
      ensures r >= 0.0
    {
      ScaledExcessOf(CandidateGc(cand), |cand|, c.keySize, c.minGc, c.maxGc)
    }

    /** The key term is zero exactly inside the GC window and grows with the distance past the bound. */
    lemma WithinKeyMeaning(cand: Strand)
      requires Configuration.Valid(c) && cand != [] && Tracking() && cand[..|cand| - 1] == curKey
      ensures ScaledExcessMeaning(KeyGcContentWithinKey(cand), GcCount(cand), |cand|, c.keySize, c.minGc, c.maxGc)
    {
      ScaledExcess(GcCount(cand), |cand|, c.keySize, c.minGc, c.maxGc);
    }

    /** The GC count of the candidate's own contribution to its motif. */
    function OwnGc(cand: Strand): int
      requires Configuration.Valid(c) && cand != []
      reads this
    {
      if |cand| <= JointSize(c) then CandidateGc(cand)
      else GcCount(Drop(cand, JointSize(c)))
    }

    /** The length of the motif part the candidate's GC content is judged over. */
    function MotifSpan(cand: Strand): (n: int)
      requires Configuration.Valid(c) && cand != []
      reads this
      ensures n > 0
    {
      if |cand| <= JointSize(c) then |cand| + c.payloadSize + JointSize(c) else |cand| + c.payloadSize
    }

    /** The first half's GC count of the candidate, once its second half is under way. */
    function OwnFirstHalfGc(cand: Strand): int
      requires Configuration.Valid(c) && cand != []
      reads this
    {
      CandidateGc(cand) - GcCount(Drop(cand, JointSize(c)))
    }

    /** The lowest GC count the rest of the motif may add. */
    function PartnerGcLow(cand: Strand): int
      requires Configuration.Valid(c) && cand != []
      reads this
    {
      if |cand| <= JointSize(c) then (if endMinGcCountMotif >= 0 then endMinGcCountMotif else 0)
      else MinSoFar(startMinGcCountMotif, OwnFirstHalfGc(cand))
    }

    /** The highest GC count the rest of the motif may add. */
    function PartnerGcHigh(cand: Strand): int
      requires Configuration.Valid(c) && cand != []
      reads this
    {
      if |cand| <= JointSize(c) then (if endMaxGcCountMotif >= 0 then endMaxGcCountMotif else 0)
      else MaxSoFar(startMaxGcCountMotif, OwnFirstHalfGc(cand))
    }

    /** key_GC_content_within_motif. */
    function KeyGcContentWithinMotif(cand: Strand): (r: real)
      requires Configuration.Valid(c) && cand != []
      reads this
      ensures r >= 0.0
    {
      MotifWindowScore(OwnGc(cand), PartnerGcLow(cand), PartnerGcHigh(cand), MotifSpan(cand), c.motifSize, c.minGc, c.maxGc)
    }

    /**
     * The GC counts the candidate's partner half may have: the second
     * halves of the registered keys (none registered: an empty half) while
     * the first half is built, then the first halves of the registered
     * keys together with the candidate's own first half.
     */
    ghost function PartnerGcs(cand: Strand): set<int>
      requires Configuration.Valid(c) && cand != []
      reads this
    {
      if |cand| <= JointSize(c) then
        (if keys == [] then {0} else HalfGcs(keys, JointSize(c), SecondHalf))
      else
        HalfGcs(keys, JointSize(c), FirstHalf) + {GcCount(Take(cand, JointSize(c)))}
    }

    /** The motif term is zero exactly when every motif the candidate can end up in keeps its GC% in the window. */
    lemma WithinMotifZeroIff(cand: Strand)
      requires Configuration.Valid(c) && Describes() && cand != [] && Tracking() && cand[..|cand| - 1] == curKey
      ensures KeyGcContentWithinMotif(cand) == 0.0 <==> AllInWindow(PartnerGcs(cand), OwnGc(cand), MotifSpan(cand), c.minGc, c.maxGc)
    {
      var js := JointSize(c);
      var lo, hi := PartnerGcLow(cand), PartnerGcHigh(cand);
      assert Registered() == RegistryOf(keys, js);
      if |cand| <= js {
        PartnerRangeWhileFirstHalf(keys, js);
      } else {
        GcCountAppend(Take(cand, js), Drop(cand, js));
        assert OwnFirstHalfGc(cand) == GcCount(Take(cand, js));
        PartnerRangeWhileSecondHalf(keys, js, GcCount(Take(cand, js)));
      }
      var S, own, span := PartnerGcs(cand), OwnGc(cand), MotifSpan(cand);
      assert lo in S && hi in S;
      assert forall x :: x in S ==> lo <= x <= hi;
      WindowOverRange(S, lo, hi, own, span, c.motifSize, c.minGc, c.maxGc);
      assert KeyGcContentWithinMotif(cand) == MotifWindowScore(own, lo, hi, span, c.motifSize, c.minGc, c.maxGc);
    }

    /** key_GC_content_penalty: the key term plus the motif term. */
    function KeyGcContentPenalty(cand: Strand): (r: real)
      requires Configuration.Valid(c) && cand != []
      reads this
      ensures r >= 0.0
      ensures r == 0.0 <==> KeyGcContentWithinKey(cand) == 0.0 && KeyGcContentWithinMotif(cand) == 0.0
    {
      KeyGcContentWithinKey(cand) + KeyGcContentWithinMotif(cand)
    }

    /** hairpin_penalty: the hairpin search with the registered keys as the same-kind pool and no opposite pool. */
    function HairpinPenalty(cand: Strand): (r: HairpinSearch.Outcome<Penalty>)
      requires Valid()
      reads this
      ensures r == BasePenalties.HairpinPenalty(c, temps.hairpin, cand, keys, [], true)
      ensures |cand| <= c.keySize ==> r.Ok?
      ensures r.Ok? ==> BasePenalties.HairpinTotal(r.value, false, temps.hairpin, c.maxHairpin)
    {
      assert forall i :: 0 <= i < |keys| ==> keys[i] in keys;
      BasePenalties.HairpinPenalty(c, temps.hairpin, cand, keys, [], true)
    }

    /** The similarity score: h ^ (|cand| / keySize) when cand begins some registered key, h ^ 0 otherwise. */
    function SimilarityScore(cand: Strand): Penalty
      reads this
    {
      Single(temps.similarity, if exists i :: 0 <= i < |keys| && cand <= keys[i] then |cand| else 0, c.keySize)
    }

    method SimilarityStats(cand: Strand) returns (p: Penalty)
      ensures p == SimilarityScore(cand)
    {
      var maxSimilarity := 0;
      var i := 0;
      while i < |keys|
        invariant 0 <= i <= |keys|
        invariant maxSimilarity == if exists j :: 0 <= j < i && cand <= keys[j] then |cand| else 0
      {
        TakeIsPrefixTest(cand, keys[i]);
        if cand == Take(keys[i], |cand|) {
          maxSimilarity := if |cand| > maxSimilarity then |cand| else maxSimilarity;
        }
        i := i + 1;
      }
      p := Single(temps.similarity, maxSimilarity, c.keySize);
    }

    /** The share of the 4 ^ jointSize possible halves that a registry does not hold yet, in percent. */
    function UnusedShare(registered: int): real
      requires Valid()
      reads this
    {
      100.0 * (Pow4(JointSize(c)) - registered) as real / Pow4(JointSize(c)) as real
    }

    /**
     * The unique-joints score: nothing once every possible half is
     * registered on both sides; otherwise the unused share of the side
     * being built times h ^ (shared / jointSize), where shared is the
     * length of the candidate's part of that side when that part begins a
     * registered half and 0 otherwise.
     */
    function UniqueJointsScore(cand: Strand): (p: Penalty)
      requires Valid()
      reads this
      ensures |startJoints| == Pow4(JointSize(c)) && |endJoints| == Pow4(JointSize(c)) ==> p == Zero
      ensures p != Zero ==> |p.powers| == 1 && p.exact == 0.0 && p.powers[0].den == JointSize(c)
      ensures p != Zero && |cand| <= c.keySize ==> 0 <= p.powers[0].num <= JointSize(c)
    {
      var js := JointSize(c);
      if |startJoints| == Pow4(js) && |endJoints| == Pow4(js) then Zero
      else if |cand| <= js then
        Penalty(0.0, [Power(UnusedShare(|startJoints|), temps.uniqueJoints,
                            if BeginsSome(cand, startJoints) then |cand| else 0, js)])
      else
        Penalty(0.0, [Power(UnusedShare(|endJoints|), temps.uniqueJoints,
                            if BeginsSome(Drop(cand, js), endJoints) then |cand| - js else 0, js)])
    }

    method UniqueJointsStats(cand: Strand) returns (p: Penalty)
      requires Valid()
      ensures p == UniqueJointsScore(cand)
    {
      var js := JointSize(c);
      var numPossibleUniqueJoints := Pow4(js);
      if |startJoints| == numPossibleUniqueJoints && |endJoints| == numPossibleUniqueJoints {
        return Zero;
      }
      var maxSimilarity, weight;
      if |cand| <= js {
        maxSimilarity := LongestRegisteredPrefix(cand, |cand|, startJoints);
        weight := UnusedShare(|startJoints|);
      } else {
        maxSimilarity := LongestRegisteredPrefix(Drop(cand, js), |cand| - js, endJoints);
        weight := UnusedShare(|endJoints|);
      }
      p := Penalty(0.0, [Power(weight, temps.uniqueJoints, maxSimilarity, js)]);
    }

    /**
     * get_homopolymer_penalty: scores key + n without touching the engine.
     * The term divides by maxHom, so it can be evaluated only when maxHom
     * is not 0; a run of length 0 (an untracked engine) gives no term.
     */
    function GetHomopolymerPenalty(key: Strand, n: Nuc): (p: Penalty)
      reads this
      ensures p == HomopolymerPenalty(key + [n])
      ensures key == [] ==> p == Single(temps.hom, 1, c.maxHom)
      ensures Tracking() && key == curKey ==> p == Single(temps.hom, TrailingRun(key + [n]), c.maxHom)
      ensures c.maxHom != 0 ==> Evaluable(p)
      ensures key == [] || (Tracking() && key == curKey) ==> (Evaluable(p) <==> c.maxHom != 0)
    {
      assert (key + [n])[..|key|] == key;
      HomopolymerPenalty(key + [n])
    }

    /** get_gc_penalty: the GC score of key + n, zero exactly when both windows hold. */
    function GetGcPenalty(key: Strand, n: Nuc): (r: real)
      requires Configuration.Valid(c)
      reads this
      ensures r == KeyGcContentPenalty(key + [n])
      ensures r >= 0.0
      ensures r == 0.0 <==> KeyGcContentWithinKey(key + [n]) == 0.0 && KeyGcContentWithinMotif(key + [n]) == 0.0
    {
      KeyGcContentPenalty(key + [n])
    }

    /** get_hairpin_penalty: the hairpin score of key + n, which cannot fail below keySize bases. */
    function GetHairpinPenalty(key: Strand, n: Nuc): (r: HairpinSearch.Outcome<Penalty>)
      requires Valid()
      reads this
      ensures r == HairpinPenalty(key + [n])
      ensures |key| < c.keySize ==> r.Ok?
      ensures r.Ok? ==> BasePenalties.HairpinTotal(r.value, false, temps.hairpin, c.maxHairpin)
    {
      HairpinPenalty(key + [n])
    }

    method GetSimilarityPenalty(key: Strand, n: Nuc) returns (p: Penalty)
      ensures p == SimilarityScore(key + [n])
    {
      p := SimilarityStats(key + [n]);
    }

    method GetUniqueJointsPenalty(key: Strand, n: Nuc) returns (p: Penalty)
      requires Valid()
      ensures p == UniqueJointsScore(key + [n])
    {
      p := UniqueJointsStats(key + [n]);
    }

    /**
     * get_all_penalties: the five penalties of key + n added up. It raises
     * ZeroDivisionError when the homopolymer term divides by maxHom = 0,
     * and otherwise IndexError exactly where the hairpin search does.
     */
    method GetAllPenalties(key: Strand, n: Nuc) returns (r: Result<Penalty, BuildError>)
      requires Valid()
      ensures c.maxHom != 0 ==> (r.Ok? <==> GetHairpinPenalty(key, n).Ok?)
      ensures r.Ok? ==> Evaluable(GetHomopolymerPenalty(key, n)) && GetHairpinPenalty(key, n).Ok?
      ensures r.Err? ==> r.error == IndexError || (r.error == ZeroDivisionError && c.maxHom == 0)
      ensures c.maxHom == 0 && (key == [] || (Tracking() && key == curKey)) ==> r == Err(ZeroDivisionError)
      ensures |key| < c.keySize && c.maxHom != 0 ==> r.Ok?
      ensures r.Ok? ==>
        r.value == GetHomopolymerPenalty(key, n).Plus(GetHairpinPenalty(key, n).value)
                     .Plus(Exact(GetGcPenalty(key, n))).Plus(SimilarityScore(key + [n]))
                     .Plus(UniqueJointsScore(key + [n]))
    {
      var penalties := GetHomopolymerPenalty(key, n);
      if !Evaluable(penalties) {
        return Err(ZeroDivisionError);
      }
      var hairpin := GetHairpinPenalty(key, n);
      if hairpin.Err? {
        return Err(IndexError);
      }
      penalties := penalties.Plus(hairpin.value);
      penalties := penalties.Plus(Exact(GetGcPenalty(key, n)));
      var similarity := GetSimilarityPenalty(key, n);
      penalties := penalties.Plus(similarity);
      var unique := GetUniqueJointsPenalty(key, n);
      penalties := penalties.Plus(unique);
      return Ok(penalties);
    }
  }

  /**
   * r is zero exactly when the GC% of gc bases out of len is in the
   * window, and otherwise is the distance past the violated bound times
   * len / keySize.
   */
  predicate ScaledExcessMeaning(r: real, gc: int, len: int, keySize: int, minGc: int, maxGc: int)
    requires len > 0 && keySize > 0
  {
    var pct := Pct(gc, len);
    && (r == 0.0 <==> minGc as real <= pct <= maxGc as real)
    && (pct > maxGc as real ==> r == (pct - maxGc as real) * (len as real / keySize as real))
    && (pct < minGc as real ==> r == (minGc as real - pct) * (len as real / keySize as real))
  }

  /** The GC excess of gc bases out of len, scaled by len / keySize. */
  function ScaledExcessOf(gc: int, len: int, keySize: int, minGc: int, maxGc: int): (r: real)
    requires len > 0 && keySize > 0 && minGc <= maxGc
    ensures r >= 0.0
  {
    var e := Excess(Pct(gc, len), minGc, maxGc);
    var f := len as real / keySize as real;
    ScaleNonneg(e, f);
    e * f
  }

  lemma ScaledExcess(gc: int, len: int, keySize: int, minGc: int, maxGc: int)
    requires len > 0 && keySize > 0 && minGc <= maxGc
    ensures ScaledExcessMeaning(ScaledExcessOf(gc, len, keySize, minGc, maxGc), gc, len, keySize, minGc, maxGc)
  {
    var f := len as real / keySize as real;
    ScaleNonneg(Excess(Pct(gc, len), minGc, maxGc), f);
  }

  /** p is a prefix of some member of S. */
  predicate BeginsSome(p: Strand, S: set<Strand>)
  {
    exists s :: s in S && p <= s
  }

  lemma BeginsSomeAdd(p: Strand, S: set<Strand>, x: Strand)
    ensures BeginsSome(p, S + {x}) <==> BeginsSome(p, S) || p <= x
  {
    if p <= x {
      assert x in S + {x};
    }
  }

  /** The loop of unique_joints_stats over one joint registry: len when p begins a registered half, else 0. */
  method LongestRegisteredPrefix(p: Strand, len: nat, S: set<Strand>) returns (m: nat)
    ensures m == if BeginsSome(p, S) then len else 0
  {
    m := 0;
    var rest := S;
    ghost var done: set<Strand> := {};
    while rest != {}
      invariant done + rest == S
      invariant m == if BeginsSome(p, done) then len else 0
      decreases |rest|
    {
      var s :| s in rest;
      TakeIsPrefixTest(p, s);
      BeginsSomeAdd(p, done, s);
      if p == Take(s, |p|) {
        m := if len > m then len else m;
      }
      rest := rest - {s};
      done := done + {s};
    }
  }
}
