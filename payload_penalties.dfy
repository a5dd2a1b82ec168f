/**
 * The incremental payload engine of basePayloadPenalties.py. Once the
 * joints (the halves of the keys that flank a payload in a motif) are
 * known, the engine records the homopolymer runs at their ends and the
 * range of their GC counts; every finished payload records the runs at
 * its two ends. A candidate payload is scored against that state: its
 * final run, extended across a joint where the joint begins or ends with
 * the same base, the GC content the finished motif can reach, and the
 * hairpins it can close with the registered payloads and joints.
 */
module PayloadPenaltyEngine {
  import opened Nucleotides
  import opened Outcomes
  import opened Scores
  import opened Configuration
  import opened Temperatures
  import opened GcContent
  import BasePenalties
  import HairpinSearch
  import opened KeyHalves

  /** The three joint histograms: runs that end a joint, runs that begin one, and single-run joints. */
  datatype JointHoms = JointHoms(startRuns: PerNuc<seq<nat>>, endRuns: PerNuc<seq<nat>>, whole: PerNuc<nat>)

  /** The two payload histograms: the first run and the final run of every recorded payload. */
  datatype PayloadHoms = PayloadHoms(startRuns: PerNuc<seq<nat>>, endRuns: PerNuc<seq<nat>>)

  const NoRuns: PerNuc<seq<nat>> := PerNuc([], [], [], [])

  /**
   * What one joint adds to the joint histograms: a single-run joint counts
   * once for its base; any other joint files its first run under its first
   * base and its final run under its last base.
   */
  function RecordJoint(h: JointHoms, j: Strand): JointHoms
  {
    if j == [] then h
    else if Uniform(j) then h.(whole := h.whole.With(j[0], h.whole.At(j[0]) + 1))
    else h.(endRuns := h.endRuns.With(j[0], h.endRuns.At(j[0]) + [LeadingRun(j)]),
            startRuns := h.startRuns.With(j[|j| - 1], h.startRuns.At(j[|j| - 1]) + [TrailingRun(j)]))
  }

  /** How the scan of a joint arrives at RecordJoint: from its first run, its final run and whether it is one run. */
  lemma RecordJointFrom(h: JointHoms, joint: Strand, isEnd: bool, endHom: PerNuc<seq<nat>>, cur: Nuc, curHom: nat)
    requires joint != [] && cur == joint[|joint| - 1] && curHom == TrailingRun(joint)
    requires isEnd <==> Uniform(joint)
    requires endHom == if isEnd then h.endRuns else h.endRuns.With(joint[0], h.endRuns.At(joint[0]) + [LeadingRun(joint)])
    ensures RecordJoint(h, joint) == if isEnd then h.(whole := h.whole.With(cur, h.whole.At(cur) + 1))
                                     else h.(endRuns := endHom, startRuns := h.startRuns.With(cur, h.startRuns.At(cur) + [curHom]))
  {
    if isEnd {
      assert cur == joint[0];
    }
  }

  /** One more base of a joint adds its GC-ness to the count of the half it belongs to. */
  lemma HalfGcStep(joint: Strand, js: int, i: int)
    requires 1 <= js < |joint| && 1 <= i < |joint|
    ensures var g := if IsGC(joint[i]) then 1 else 0;
            && (i < js ==> GcCount(joint[..i + 1]) == GcCount(joint[..i]) + g)
            && (i == js ==> GcCount(joint[js..i + 1]) == g)
            && (i > js ==> GcCount(joint[js..i + 1]) == GcCount(joint[js..i]) + g)
  {
    assert joint[..i + 1][..i] == joint[..i];
    if i >= js {
      assert joint[js..i + 1][..i - js] == joint[js..i];
    }
  }

  /**
   * One step of a left-to-right scan that tracks the final run and
   * whether the strand so far is a single run: the next base either
   * extends the run or starts a new one, and the first change of base
   * ends the first run.
   */
  lemma RunScanStep(s: Strand, i: int, single: bool, run: nat)
    requires 1 <= i < |s|
    requires (single <==> Uniform(s[..i])) && run == TrailingRun(s[..i])
    ensures Uniform(s[..i + 1]) <==> single && s[i] == s[i - 1]
    ensures TrailingRun(s[..i + 1]) == if s[i] == s[i - 1] then run + 1 else 1
    ensures single && s[i] != s[i - 1] ==> s[i - 1] == s[0] && LeadingRun(s) == run
  {
    UniformStep(s, i);
    TrailingRunStep(s, i);
    if single && s[i] != s[i - 1] {
      assert s[i - 1] == s[..i][i - 1] == s[0];
      LeadingRunAtBreak(s, i);
      UniformRuns(s[..i]);
    }
  }

  /** What the joint at index i adds to the histograms and to the four GC registries. */
  lemma JointPrefixStep(h: JointHoms, joints: seq<Strand>, js: nat, i: int)
    requires 0 <= i < |joints|
    ensures RecordJoints(h, joints[..i + 1]) == RecordJoint(RecordJoints(h, joints[..i]), joints[i])
    ensures HalfGcMin(joints[..i + 1], js, FirstHalf) == MinSoFar(HalfGcMin(joints[..i], js, FirstHalf), GcCount(HalfOf(joints[i], js, FirstHalf)))
    ensures HalfGcMax(joints[..i + 1], js, FirstHalf) == MaxSoFar(HalfGcMax(joints[..i], js, FirstHalf), GcCount(HalfOf(joints[i], js, FirstHalf)))
    ensures HalfGcMin(joints[..i + 1], js, SecondHalf) == MinSoFar(HalfGcMin(joints[..i], js, SecondHalf), GcCount(HalfOf(joints[i], js, SecondHalf)))
    ensures HalfGcMax(joints[..i + 1], js, SecondHalf) == MaxSoFar(HalfGcMax(joints[..i], js, SecondHalf), GcCount(HalfOf(joints[i], js, SecondHalf)))
  {
    assert joints[..i + 1][..i] == joints[..i];
  }

  function RecordJoints(h: JointHoms, joints: seq<Strand>): JointHoms
  {
    if joints == [] then h else RecordJoint(RecordJoints(h, joints[..|joints| - 1]), joints[|joints| - 1])
  }

  /** What one payload adds: its first run under its first base, its final run under its last base. */
  function RecordPayload(h: PayloadHoms, p: Strand): PayloadHoms
  {
    if p == [] then h
    else PayloadHoms(h.startRuns.With(p[0], h.startRuns.At(p[0]) + [LeadingRun(p)]),
                     h.endRuns.With(p[|p| - 1], h.endRuns.At(p[|p| - 1]) + [TrailingRun(p)]))
  }

  function RecordPayloads(h: PayloadHoms, ps: seq<Strand>): PayloadHoms
  {
    if ps == [] then h else RecordPayload(RecordPayloads(h, ps[..|ps| - 1]), ps[|ps| - 1])
  }

  /** set.add of every strand of `news`, in order. */
  function AddedAll(ps: seq<Strand>, news: seq<Strand>): (r: seq<Strand>)
  {
    if news == [] then ps else Added(AddedAll(ps, news[..|news| - 1]), news[|news| - 1])
  }

  /** Adding strands one by one leaves the old members and the new ones, each once. */
  lemma {:induction false} AddedAllMeaning(ps: seq<Strand>, news: seq<Strand>)
    ensures forall q :: q in AddedAll(ps, news) <==> q in ps || q in news
    ensures Distinct(ps) ==> Distinct(AddedAll(ps, news))
    decreases |news|
  {
    if news != [] {
      var front := news[..|news| - 1];
      AddedAllMeaning(ps, front);
      assert news == front + [news[|news| - 1]];
      var r := AddedAll(ps, front);
      assert forall q :: q in Added(r, news[|news| - 1]) <==> q in r || q == news[|news| - 1];
    }
  }

  /** Adding the strands up to news[i] is adding news[i] to the strands before it. */
  lemma AddedAllStep(ps: seq<Strand>, news: seq<Strand>, i: int)
    requires 0 <= i < |news|
    ensures AddedAll(ps, news[..i + 1]) == Added(AddedAll(ps, news[..i]), news[i])
  {
    assert news[..i + 1][..i] == news[..i];
  }

  /** One more strand added and recorded. */
  lemma PayloadPrefixStep(h: PayloadHoms, ps: seq<Strand>, news: seq<Strand>, i: int)
    requires 0 <= i < |news|
    ensures AddedAll(ps, news[..i + 1]) == Added(AddedAll(ps, news[..i]), news[i])
    ensures RecordPayloads(h, news[..i + 1]) == RecordPayload(RecordPayloads(h, news[..i]), news[i])
  {
    assert news[..i + 1][..i] == news[..i];
  }

  /** The first runs of the multi-run joints that begin with n, in order. */
  function EndRunsOf(joints: seq<Strand>, n: Nuc): seq<nat>
  {
    if joints == [] then []
    else
      var j := joints[|joints| - 1];
      EndRunsOf(joints[..|joints| - 1], n) + (if j != [] && !Uniform(j) && j[0] == n then [LeadingRun(j)] else [])
  }

  /** The final runs of the multi-run joints that end with n, in order. */
  function StartRunsOf(joints: seq<Strand>, n: Nuc): seq<nat>
  {
    if joints == [] then []
    else
      var j := joints[|joints| - 1];
      StartRunsOf(joints[..|joints| - 1], n) + (if j != [] && !Uniform(j) && j[|j| - 1] == n then [TrailingRun(j)] else [])
  }

  /** The number of joints made of n alone. */
  function WholeOf(joints: seq<Strand>, n: Nuc): nat
  {
    if joints == [] then 0
    else
      var j := joints[|joints| - 1];
      WholeOf(joints[..|joints| - 1], n) + (if j != [] && Uniform(j) && j[0] == n then 1 else 0)
  }

  /** The first runs of the payloads that begin with n, in order. */
  function LeadRunsOf(ps: seq<Strand>, n: Nuc): seq<nat>
  {
    if ps == [] then []
    else
      var p := ps[|ps| - 1];
      LeadRunsOf(ps[..|ps| - 1], n) + (if p != [] && p[0] == n then [LeadingRun(p)] else [])
  }

  /** The final runs of the payloads that end with n, in order. */
  function TrailRunsOf(ps: seq<Strand>, n: Nuc): seq<nat>
  {
    if ps == [] then []
    else
      var p := ps[|ps| - 1];
      TrailRunsOf(ps[..|ps| - 1], n) + (if p != [] && p[|p| - 1] == n then [TrailingRun(p)] else [])
  }

  /** Each histogram entry of a nucleotide lists exactly the runs of the joints that touch it there. */
  lemma {:induction false} RecordJointsMeaning(h: JointHoms, joints: seq<Strand>, n: Nuc)
    ensures RecordJoints(h, joints).endRuns.At(n) == h.endRuns.At(n) + EndRunsOf(joints, n)
    ensures RecordJoints(h, joints).startRuns.At(n) == h.startRuns.At(n) + StartRunsOf(joints, n)
    ensures RecordJoints(h, joints).whole.At(n) == h.whole.At(n) + WholeOf(joints, n)
    decreases |joints|
  {
    if joints != [] {
      RecordJointsMeaning(h, joints[..|joints| - 1], n);
    }
  }

  lemma {:induction false} RecordPayloadsMeaning(h: PayloadHoms, ps: seq<Strand>, n: Nuc)
    ensures RecordPayloads(h, ps).startRuns.At(n) == h.startRuns.At(n) + LeadRunsOf(ps, n)
    ensures RecordPayloads(h, ps).endRuns.At(n) == h.endRuns.At(n) + TrailRunsOf(ps, n)
    decreases |ps|
  {
    if ps != [] {
      RecordPayloadsMeaning(h, ps[..|ps| - 1], n);
    }
  }

  /** A strand whose first run covers it is a single run. */
  lemma {:induction false} FullLeadingRun(s: Strand)
    requires s != [] && LeadingRun(s) == |s|
    ensures Uniform(s)
    decreases |s|
  {
    if |s| > 1 {
      FullLeadingRun(s[1..]);
      forall t | 0 <= t < |s| ensures s[t] == s[0] {
        if t > 0 {
          assert s[t] == s[1..][t - 1];
        }
      }
    }
  }

  /** Every joint lands in exactly one place among the per-base end runs and single-run counts. */
  lemma {:induction false} JointsAccounted(joints: seq<Strand>)
    requires forall j :: j in joints ==> |j| >= 1
    ensures |EndRunsOf(joints, A)| + |EndRunsOf(joints, T)| + |EndRunsOf(joints, C)| + |EndRunsOf(joints, G)|
            + WholeOf(joints, A) + WholeOf(joints, T) + WholeOf(joints, C) + WholeOf(joints, G) == |joints|
    ensures |StartRunsOf(joints, A)| + |StartRunsOf(joints, T)| + |StartRunsOf(joints, C)| + |StartRunsOf(joints, G)|
            + WholeOf(joints, A) + WholeOf(joints, T) + WholeOf(joints, C) + WholeOf(joints, G) == |joints|
    decreases |joints|
  {
    if joints != [] {
      var front, j := joints[..|joints| - 1], joints[|joints| - 1];
      assert j in joints;
      assert forall k :: k in front ==> k in joints;
      JointsAccounted(front);
      OneJointAccounted(front, j, joints);
    }
  }

  /** The last joint adds one to exactly one end-run entry or single-run count, and likewise for start runs. */
  lemma OneJointAccounted(front: seq<Strand>, j: Strand, joints: seq<Strand>)
    requires j != [] && joints == front + [j]
    ensures |EndRunsOf(joints, A)| + |EndRunsOf(joints, T)| + |EndRunsOf(joints, C)| + |EndRunsOf(joints, G)|
            + WholeOf(joints, A) + WholeOf(joints, T) + WholeOf(joints, C) + WholeOf(joints, G)
         == |EndRunsOf(front, A)| + |EndRunsOf(front, T)| + |EndRunsOf(front, C)| + |EndRunsOf(front, G)|
            + WholeOf(front, A) + WholeOf(front, T) + WholeOf(front, C) + WholeOf(front, G) + 1
    ensures |StartRunsOf(joints, A)| + |StartRunsOf(joints, T)| + |StartRunsOf(joints, C)| + |StartRunsOf(joints, G)|
            + WholeOf(joints, A) + WholeOf(joints, T) + WholeOf(joints, C) + WholeOf(joints, G)
         == |StartRunsOf(front, A)| + |StartRunsOf(front, T)| + |StartRunsOf(front, C)| + |StartRunsOf(front, G)|
            + WholeOf(front, A) + WholeOf(front, T) + WholeOf(front, C) + WholeOf(front, G) + 1
  {
    assert joints[..|joints| - 1] == front;
  }

  /** A run recorded for a multi-run joint is shorter than the joint. */
  lemma {:induction false} JointRunsShorter(joints: seq<Strand>, n: Nuc, size: nat)
    requires forall j :: j in joints ==> |j| == size
    ensures forall x :: x in EndRunsOf(joints, n) ==> 1 <= x < size
    ensures forall x :: x in StartRunsOf(joints, n) ==> 1 <= x < size
    decreases |joints|
  {
    if joints != [] {
      var j := joints[|joints| - 1];
      assert j in joints;
      JointRunsShorter(joints[..|joints| - 1], n, size);
      if j != [] && !Uniform(j) {
        if LeadingRun(j) == |j| {
          FullLeadingRun(j);
        }
        if TrailingRun(j) == |j| {
          FullTrailingRun(j);
        }
      }
    }
  }

  lemma {:induction false} FullTrailingRun(s: Strand)
    requires s != [] && TrailingRun(s) == |s|
    ensures Uniform(s)
    decreases |s|
  {
    if |s| > 1 {
      FullTrailingRun(s[..|s| - 1]);
      assert s[..|s| - 1][0] == s[0];
    }
  }

  /** Every payload lands once among the per-base first runs and once among the final runs. */
  lemma {:induction false} PayloadsAccounted(ps: seq<Strand>)
    requires forall p :: p in ps ==> |p| >= 1
    ensures |LeadRunsOf(ps, A)| + |LeadRunsOf(ps, T)| + |LeadRunsOf(ps, C)| + |LeadRunsOf(ps, G)| == |ps|
    ensures |TrailRunsOf(ps, A)| + |TrailRunsOf(ps, T)| + |TrailRunsOf(ps, C)| + |TrailRunsOf(ps, G)| == |ps|
    decreases |ps|
  {
    if ps != [] {
      assert ps[|ps| - 1] in ps;
      PayloadsAccounted(ps[..|ps| - 1]);
    }
  }

  /** Every term is h ^ (k / den) with k at least lo. */
  predicate AtLeast(ps: seq<Power>, h: real, lo: int, den: int)
  {
    forall t :: t in ps ==> t.coeff == 1.0 && t.base == h && t.num >= lo && t.den == den
  }

  /**
   * Every term is h ^ (k / den) with k at least lo, or the whole-motif
   * term h ^ (whole / 1).
   */
  predicate HomTerms(ps: seq<Power>, h: real, lo: int, den: int, whole: int)
  {
    forall t :: t in ps ==> t.coeff == 1.0 && t.base == h && t.num >= lo && (t.den == den || t == Power(1.0, h, whole, 1))
  }

  /** Terms that all divide by den can be evaluated exactly when den is not 0, if there is one. */
  lemma AtLeastEvaluable(ps: seq<Power>, h: real, lo: int, den: int, whole: int)
    requires ps != [] && AtLeast(ps, h, lo, den)
    ensures HomTerms(ps, h, lo, den, whole)
    ensures Evaluable(Penalty(0.0, ps)) <==> den != 0
  {
    assert ps[0] in ps;
  }

  /**
   * Terms that divide by den followed by the whole-motif term can be
   * evaluated exactly when den is not 0 or the whole-motif term is alone.
   */
  lemma WholeTermEvaluable(ps: seq<Power>, h: real, lo: int, den: int, whole: int)
    requires AtLeast(ps, h, lo, den) && lo <= whole
    ensures HomTerms(ps + [Power(1.0, h, whole, 1)], h, lo, den, whole)
    ensures Evaluable(Penalty(0.0, ps + [Power(1.0, h, whole, 1)])) <==> den != 0 || ps == []
  {
    var qs := ps + [Power(1.0, h, whole, 1)];
    forall t | t in qs
      ensures t.coeff == 1.0 && t.base == h && t.num >= lo && (t.den == den || t == Power(1.0, h, whole, 1))
    {
      if t in ps {
      } else {
        assert t == Power(1.0, h, whole, 1);
      }
    }
    if ps != [] {
      assert ps[0] in ps;
      assert qs[0] == ps[0];
    }
  }

  /** One term h ^ ((shift + x) / den) per x of xs, in order. */
  function Shifted(h: real, xs: seq<nat>, shift: int, den: int): (ps: seq<Power>)
    ensures |ps| == |xs|
    ensures forall i :: 0 <= i < |xs| ==> ps[i] == Power(1.0, h, shift + xs[i], den)
  {
    if xs == [] then [] else Shifted(h, xs[..|xs| - 1], shift, den) + [Power(1.0, h, shift + xs[|xs| - 1], den)]
  }

  /** For every x of xs in order, the terms h ^ ((shift + x + y) / den) for the y of ys in order. */
  function Cross(h: real, xs: seq<nat>, ys: seq<nat>, shift: int, den: int): (ps: seq<Power>)
    ensures xs != [] && ys != [] ==> ps != []
  {
    if xs == [] then [] else Cross(h, xs[..|xs| - 1], ys, shift, den) + Shifted(h, ys, shift + xs[|xs| - 1], den)
  }

  /** For every x of xs in order, `times` copies of h ^ ((shift + x) / den). */
  function Repeated(h: real, xs: seq<nat>, times: nat, shift: int, den: int): (ps: seq<Power>)
    ensures |ps| == |xs| * times
  {
    if xs == [] then []
    else Repeated(h, xs[..|xs| - 1], times, shift, den) + seq(times, _ => Power(1.0, h, shift + xs[|xs| - 1], den))
  }

  /** Shifting never lowers an exponent below the shift. */
  lemma ShiftedAtLeast(h: real, xs: seq<nat>, shift: int, den: int)
    ensures AtLeast(Shifted(h, xs, shift, den), h, shift, den)
  {
  }

  lemma {:induction false} CrossAtLeast(h: real, xs: seq<nat>, ys: seq<nat>, shift: int, den: int)
    ensures AtLeast(Cross(h, xs, ys, shift, den), h, shift, den)
    decreases |xs|
  {
    if xs != [] {
      CrossAtLeast(h, xs[..|xs| - 1], ys, shift, den);
      ShiftedAtLeast(h, ys, shift + xs[|xs| - 1], den);
    }
  }

  /** Pairing with nothing gives nothing. */
  lemma {:induction false} CrossEmpty(h: real, xs: seq<nat>, ys: seq<nat>, shift: int, den: int)
    ensures Cross(h, xs, ys, shift, den) == [] <==> xs == [] || ys == []
    decreases |xs|
  {
    if xs != [] && ys == [] {
      CrossEmpty(h, xs[..|xs| - 1], ys, shift, den);
    }
  }

  lemma {:induction false} RepeatedAtLeast(h: real, xs: seq<nat>, times: nat, shift: int, den: int)
    ensures AtLeast(Repeated(h, xs, times, shift, den), h, shift, den)
    decreases |xs|
  {
    if xs != [] {
      RepeatedAtLeast(h, xs[..|xs| - 1], times, shift, den);
    }
  }

  /** The loop `for x in xs: append h ** ((shift + x) / den)`. */
  method AppendShifted(acc: seq<Power>, h: real, xs: seq<nat>, shift: int, den: int) returns (r: seq<Power>)
    ensures r == acc + Shifted(h, xs, shift, den)
  {
    r := acc;
    var i := 0;
    while i < |xs|
      invariant 0 <= i <= |xs|
      invariant r == acc + Shifted(h, xs[..i], shift, den)
    {
      assert xs[..i + 1][..i] == xs[..i];
      r := r + [Power(1.0, h, shift + xs[i], den)];
      i := i + 1;
    }
    assert xs[..i] == xs;
  }

  lemma CrossStep(acc: seq<Power>, h: real, xs: seq<nat>, ys: seq<nat>, shift: int, den: int, i: int)
    requires 0 <= i < |xs|
    ensures acc + Cross(h, xs[..i + 1], ys, shift, den)
            == (acc + Cross(h, xs[..i], ys, shift, den)) + Shifted(h, ys, shift + xs[i], den)
  {
    assert xs[..i + 1][..i] == xs[..i];
  }

  /** The nested loops over xs and ys. */
  method AppendCross(acc: seq<Power>, h: real, xs: seq<nat>, ys: seq<nat>, shift: int, den: int) returns (r: seq<Power>)
    ensures r == acc + Cross(h, xs, ys, shift, den)
  {
    r := acc;
    var i := 0;
    while i < |xs|
      invariant 0 <= i <= |xs|
      invariant r == acc + Cross(h, xs[..i], ys, shift, den)
    {
      CrossStep(acc, h, xs, ys, shift, den, i);
      r := AppendShifted(r, h, ys, shift + xs[i], den);
      i := i + 1;
    }
    assert xs[..i] == xs;
  }

  /** The nested loops `for x in xs: for _ in range(times): append h ** ((shift + x) / den)`. */
  method AppendRepeated(acc: seq<Power>, h: real, xs: seq<nat>, times: nat, shift: int, den: int) returns (r: seq<Power>)
    ensures r == acc + Repeated(h, xs, times, shift, den)
  {
    r := acc;
    var i := 0;
    while i < |xs|
      invariant 0 <= i <= |xs|
      invariant r == acc + Repeated(h, xs[..i], times, shift, den)
    {
      assert xs[..i + 1][..i] == xs[..i];
      ghost var before := r;
      var t := Power(1.0, h, shift + xs[i], den);
      var k := 0;
      while k < times
        invariant 0 <= k <= times
        invariant r == before + seq(k, _ => t)
      {
        r := r + [t];
        k := k + 1;
      }
      i := i + 1;
    }
    assert xs[..i] == xs;
  }

  /** lo and hi are the least and the greatest member of A. */
  predicate Spans(A: set<int>, lo: int, hi: int)
  {
    lo in A && hi in A && forall x :: x in A ==> lo <= x <= hi
  }

  /** The registered minimum and maximum are the least and greatest GC counts of a non-empty registry. */
  lemma HalfGcSpans(keys: seq<Strand>, js: nat, half: Half)
    requires keys != []
    ensures Spans(HalfGcs(keys, js, half), HalfGcMin(keys, js, half), HalfGcMax(keys, js, half))
  {
    HalfGcBounds(keys, js, half);
  }

  /** Every sum a + b of a member of A and a member of B. */
  ghost function PairSums(A: set<int>, B: set<int>): set<int>
  {
    set a, b | a in A && b in B :: a + b
  }

  /** The pair sums range from the sum of the least members to the sum of the greatest. */
  lemma PairSumsRange(A: set<int>, B: set<int>, loA: int, hiA: int, loB: int, hiB: int)
    requires Spans(A, loA, hiA) && Spans(B, loB, hiB)
    ensures loA + loB in PairSums(A, B) && hiA + hiB in PairSums(A, B)
    ensures forall z :: z in PairSums(A, B) ==> loA + loB <= z <= hiA + hiB
  {
  }

  /**
   * A finished payload made of one run: the first runs of the joints after
   * it, the final runs of the joints before it, or every pair of both,
   * and the whole motif as one run when a joint is made of the same base.
   */
  function BothSides(h: real, m: int, run: int, S: seq<nat>, E: seq<nat>, W: nat, motifSize: int): seq<Power>
  {
    (if S == [] && W == 0 then Shifted(h, E, run, m)
     else if E == [] && W == 0 then Shifted(h, S, run, m)
     else Cross(h, S, E, run, m))
    + (if W != 0 then [Power(1.0, h, motifSize, 1)] else [])
  }

  /**
   * A partial payload made of one run: the run extended by the final runs
   * of the joints before it and, past a joint made of the same base, into
   * the final run of each recorded payload, once per such joint.
   */
  function StartSide(h: real, m: int, run: int, S: seq<nat>, W: nat, keySize: int, payloadEnds: seq<nat>): seq<Power>
  {
    (if S == [] && W == 0 then [Power(1.0, h, run, m)] else [])
    + Shifted(h, S, run, m)
    + (if W != 0 then [Power(1.0, h, run + keySize, m)] + Repeated(h, payloadEnds, W, run + keySize, m) else [])
  }

  /**
   * A finished payload of several runs: its final run extended by the
   * first runs of the joints after it and, past a joint made of the same
   * base, by its own first run (the next motif may repeat the payload)
   * or the first run of each recorded payload, once per such joint.
   */
  function EndSide(h: real, m: int, run: int, E: seq<nat>, W: nat, keySize: int, lead: nat, payloadStarts: seq<nat>): seq<Power>
  {
    (if E == [] && W == 0 then [Power(1.0, h, run, m)] else [])
    + Shifted(h, E, run, m)
    + (if W != 0 then [Power(1.0, h, run + lead + keySize, m)] + Repeated(h, payloadStarts, W, run + keySize, m) else [])
  }

  /** The start-and-end-joints branch of homopolymer_stats. */
  method BothSidesTerms(h: real, m: int, run: int, S: seq<nat>, E: seq<nat>, W: nat, motifSize: int) returns (ps: seq<Power>)
    ensures ps == BothSides(h, m, run, S, E, W, motifSize)
  {
    ps := [];
    if S == [] && W == 0 {
      ps := AppendShifted(ps, h, E, run, m);
    } else if E == [] && W == 0 {
      ps := AppendShifted(ps, h, S, run, m);
    } else {
      ps := AppendCross(ps, h, S, E, run, m);
    }
    if W != 0 {
      // the whole motif is one run
      ps := ps + [Power(1.0, h, motifSize, 1)];
    }
  }

  /** The start-joints branch of homopolymer_stats. */
  method StartSideTerms(h: real, m: int, run: int, S: seq<nat>, W: nat, keySize: int, payloadEnds: seq<nat>)
    returns (ps: seq<Power>)
    ensures ps == StartSide(h, m, run, S, W, keySize, payloadEnds)
  {
    ps := [];
    if S == [] && W == 0 {
      ps := ps + [Power(1.0, h, run, m)];
    }
    ps := AppendShifted(ps, h, S, run, m);
    if W != 0 {
      ps := ps + [Power(1.0, h, run + keySize, m)];
      ps := AppendRepeated(ps, h, payloadEnds, W, run + keySize, m);
    }
  }

  /** The end-joints branch of homopolymer_stats, with the count of leading bases n of the payload. */
  method EndSideTerms(h: real, m: int, run: int, E: seq<nat>, W: nat, keySize: int, payload: Strand, n: Nuc,
                      payloadStarts: seq<nat>) returns (ps: seq<Power>)
    ensures ps == EndSide(h, m, run, E, W, keySize, PrefixRunOf(payload, n), payloadStarts)
  {
    ps := [];
    if E == [] && W == 0 {
      ps := ps + [Power(1.0, h, run, m)];
    }
    ps := AppendShifted(ps, h, E, run, m);
    if W != 0 {
      var curStartHom := 0;
      while curStartHom < |payload| && payload[curStartHom] == n
        invariant 0 <= curStartHom <= |payload|
        invariant forall t :: 0 <= t < curStartHom ==> payload[t] == n
      {
        curStartHom := curStartHom + 1;
      }
      PrefixRunOfAtBreak(payload, n, curStartHom);
      ps := ps + [Power(1.0, h, run + curStartHom + keySize, m)];
      ps := AppendRepeated(ps, h, payloadStarts, W, run + keySize, m);
    }
  }

  /**
   * The terms of a finished one-run payload divide by m, except the
   * whole-motif term h ^ motifSize, which comes last and only when a joint
   * is made of the same base; it is then the only term exactly when no
   * joint run is recorded on one of the two sides.
   */
  lemma BothSidesFacts(h: real, m: int, run: int, S: seq<nat>, E: seq<nat>, W: nat, motifSize: int)
    requires !(S == [] && E == [] && W == 0) && run <= motifSize
    ensures BothSides(h, m, run, S, E, W, motifSize) != []
    ensures W == 0 ==> AtLeast(BothSides(h, m, run, S, E, W, motifSize), h, run, m)
    ensures W != 0 ==> BothSides(h, m, run, S, E, W, motifSize) == Cross(h, S, E, run, m) + [Power(1.0, h, motifSize, 1)]
    ensures W != 0 ==> AtLeast(Cross(h, S, E, run, m), h, run, m) && (Cross(h, S, E, run, m) == [] <==> S == [] || E == [])
  {
    ShiftedAtLeast(h, E, run, m);
    ShiftedAtLeast(h, S, run, m);
    CrossAtLeast(h, S, E, run, m);
    CrossEmpty(h, S, E, run, m);
  }

  lemma StartSideFacts(h: real, m: int, run: int, S: seq<nat>, W: nat, keySize: int, payloadEnds: seq<nat>)
    requires keySize >= 0
    ensures StartSide(h, m, run, S, W, keySize, payloadEnds) != []
    ensures AtLeast(StartSide(h, m, run, S, W, keySize, payloadEnds), h, run, m)
  {
    ShiftedAtLeast(h, S, run, m);
    RepeatedAtLeast(h, payloadEnds, W, run + keySize, m);
  }

  lemma EndSideFacts(h: real, m: int, run: int, E: seq<nat>, W: nat, keySize: int, lead: nat, payloadStarts: seq<nat>)
    requires keySize >= 0
    ensures EndSide(h, m, run, E, W, keySize, lead, payloadStarts) != []
    ensures AtLeast(EndSide(h, m, run, E, W, keySize, lead, payloadStarts), h, run, m)
  {
    ShiftedAtLeast(h, E, run, m);
    RepeatedAtLeast(h, payloadStarts, W, run + keySize, m);
  }

  /**
   * Adding a member of A and a member of B to own G/C bases out of span
   * keeps the GC% in [minGc, maxGc], for every such pair.
   */
  predicate PairsInWindow(A: set<int>, B: set<int>, own: int, span: int, minGc: int, maxGc: int)
    requires span > 0
  {
    forall a, b :: a in A && b in B ==> minGc as real <= Pct(own + (a + b), span) <= maxGc as real
  }

  lemma PairSumsInWindow(A: set<int>, B: set<int>, own: int, span: int, minGc: int, maxGc: int)
    requires span > 0
    ensures AllInWindow(PairSums(A, B), own, span, minGc, maxGc) <==> PairsInWindow(A, B, own, span, minGc, maxGc)
  {
    if AllInWindow(PairSums(A, B), own, span, minGc, maxGc) {
      forall a, b | a in A && b in B
        ensures minGc as real <= Pct(own + (a + b), span) <= maxGc as real
      {
        assert a + b in PairSums(A, B);
      }
    }
    if PairsInWindow(A, B, own, span, minGc, maxGc) {
      forall x | x in PairSums(A, B)
        ensures minGc as real <= Pct(own + x, span) <= maxGc as real
      {
        var a, b :| a in A && b in B && x == a + b;
      }
    }
  }

  /**
   * When loA..hiA and loB..hiB bound A and B and are attained, the motif
   * window score over the summed range is zero exactly when every pair sum
   * keeps the GC% of own + the pair in the window.
   */
  lemma PairWindow(A: set<int>, B: set<int>, loA: int, hiA: int, loB: int, hiB: int,
                   own: int, span: int, motifSize: int, minGc: int, maxGc: int)
    requires Spans(A, loA, hiA) && Spans(B, loB, hiB) && span > 0 && motifSize > 0
    ensures MotifWindowScore(own, loB + loA, hiB + hiA, span, motifSize, minGc, maxGc) == 0.0
            <==> PairsInWindow(A, B, own, span, minGc, maxGc)
  {
    PairSumsRange(A, B, loA, hiA, loB, hiB);
    WindowOverRange(PairSums(A, B), loB + loA, hiB + hiA, own, span, motifSize, minGc, maxGc);
    PairSumsInWindow(A, B, own, span, minGc, maxGc);
  }

  /** PairWindow with the bounds of the sums given by value. */
  lemma PairWindowAt(A: set<int>, B: set<int>, loA: int, hiA: int, loB: int, hiB: int, lo: int, hi: int,
                     own: int, span: int, motifSize: int, minGc: int, maxGc: int)
    requires Spans(A, loA, hiA) && Spans(B, loB, hiB) && span > 0 && motifSize > 0
    requires lo == loB + loA && hi == hiB + hiA
    ensures (MotifWindowScore(own, lo, hi, span, motifSize, minGc, maxGc) == 0.0)
            == PairsInWindow(A, B, own, span, minGc, maxGc)
  {
    PairWindow(A, B, loA, hiA, loB, hiB, own, span, motifSize, minGc, maxGc);
  }

  /** HalfGcSpans for registries given by value. */
  lemma HalfGcSpansOf(keys: seq<Strand>, js: nat, half: Half, S: set<int>, lo: int, hi: int)
    requires keys != []
    requires S == HalfGcs(keys, js, half) && lo == HalfGcMin(keys, js, half) && hi == HalfGcMax(keys, js, half)
    ensures Spans(S, lo, hi)
  {
    HalfGcSpans(keys, js, half);
  }

  /**
   * The loop of generate_joint_pre_stats over the bases of one joint: it
   * files the first run under the first base at the first change of base,
   * and ends with the final run, whether the joint is one run, and the GC
   * counts of the halves before and after jointSize.
   */
  method ScanRuns(joint: Strand, js: nat, endJointHom: PerNuc<seq<nat>>)
    returns (isEnd: bool, endHom: PerNuc<seq<nat>>, cur: Nuc, curHom: nat, endGc: nat, startGc: nat)
    requires 1 <= js < |joint|
    ensures isEnd <==> Uniform(joint)
    ensures endHom == if isEnd then endJointHom
                      else endJointHom.With(joint[0], endJointHom.At(joint[0]) + [LeadingRun(joint)])
    ensures cur == joint[|joint| - 1] && curHom == TrailingRun(joint)
    ensures endGc == GcCount(HalfOf(joint, js, FirstHalf)) && startGc == GcCount(HalfOf(joint, js, SecondHalf))
  {
    cur := joint[0];
    curHom := 1;
    var curGcCount := if IsGC(cur) then 1 else 0;
    isEnd := true;
    endHom := endJointHom;
    ghost var recorded := endJointHom.With(joint[0], endJointHom.At(joint[0]) + [LeadingRun(joint)]);
    endGc := 0;
    assert GcCount(joint[..1]) == curGcCount by {
      assert joint[..1][..0] == [];
    }
    var i := 1;
    while i < |joint|
      invariant 1 <= i <= |joint|
      invariant cur == joint[i - 1] && curHom == TrailingRun(joint[..i])
      invariant isEnd <==> Uniform(joint[..i])
      invariant endHom == if isEnd then endJointHom else recorded
      invariant i <= js ==> curGcCount == GcCount(joint[..i])
      invariant i > js ==> curGcCount == GcCount(joint[js..i]) && endGc == GcCount(joint[..js])
    {
      var nuc := joint[i];
      RunScanStep(joint, i, isEnd, curHom);
      if cur != nuc {
        if isEnd {
          isEnd := false;
          endHom := endHom.With(cur, endHom.At(cur) + [curHom]);
        }
        cur := nuc;
        curHom := 0;
      }
      HalfGcStep(joint, js, i);
      if i == js {
        endGc := curGcCount;
        curGcCount := 0;
      }
      curGcCount := curGcCount + (if IsGC(nuc) then 1 else 0);
      curHom := curHom + 1;
      i := i + 1;
    }
    assert joint[..i] == joint;
    assert joint[js..i] == Drop(joint, js);
    startGc := curGcCount;
  }

  class BasePayloadPenalties {
    const c: Constraints
    const temps: Settings
    /** The set of recorded payloads, in recording order. */
    var payloads: seq<Strand>
    /** The set of joints, in iteration order. */
    var joints: seq<Strand>
    var startJointHom: PerNuc<seq<nat>>
    var endJointHom: PerNuc<seq<nat>>
    var wholeJointHom: PerNuc<nat>
    var minJointsGcCount: int
    var maxJointsGcCount: int
    var startHomPayload: PerNuc<seq<nat>>
    var endHomPayload: PerNuc<seq<nat>>

    /** Payloads and joints have the sizes of their kinds and the payload set has no repeats. */
    ghost predicate Valid()
      reads this
    {
      && Configuration.Valid(c)
      && Distinct(payloads)
      && (forall p {:trigger p in payloads} :: p in payloads ==> |p| == c.payloadSize)
      && (forall j {:trigger j in joints} :: j in joints ==> |j| == c.keySize)
    }

    /** The GC range of the joints is that of the current joints: the sums of the least and greatest half counts. */
    predicate JointsScanned()
      requires Configuration.Valid(c)
      reads this
    {
      var js := JointSize(c);
      && minJointsGcCount == HalfGcMin(joints, js, SecondHalf) + HalfGcMin(joints, js, FirstHalf)
      && maxJointsGcCount == HalfGcMax(joints, js, SecondHalf) + HalfGcMax(joints, js, FirstHalf)
    }

    function JointHomsNow(): JointHoms
      reads this
    {
      JointHoms(startJointHom, endJointHom, wholeJointHom)
    }

    /** What the payload operations leave alone: the joints and what was learnt from them. */
    function JointState(): (seq<Strand>, JointHoms, int, int)
      reads this
    {
      (joints, JointHomsNow(), minJointsGcCount, maxJointsGcCount)
    }

    function PayloadHomsNow(): PayloadHoms
      reads this
    {
      PayloadHoms(startHomPayload, endHomPayload)
    }

    constructor (c: Constraints, temps: Settings)
      requires Configuration.Valid(c)
      ensures Valid()
      ensures this.c == c && this.temps == temps
      ensures payloads == [] && joints == []
      ensures JointHomsNow() == JointHoms(NoRuns, NoRuns, PerNuc(0, 0, 0, 0))
      ensures PayloadHomsNow() == PayloadHoms(NoRuns, NoRuns)
      ensures minJointsGcCount == -1 && maxJointsGcCount == -1
    {
      this.c := c;
      this.temps := temps;
      payloads := [];
      joints := [];
      startJointHom := NoRuns;
      endJointHom := NoRuns;
      wholeJointHom := PerNuc(0, 0, 0, 0);
      minJointsGcCount := -1;
      maxJointsGcCount := -1;
      startHomPayload := NoRuns;
      endHomPayload := NoRuns;
    }

    /** add_joints: replaces the joints and scans them; the histograms keep what earlier joints recorded. */
    method AddJoints(newJoints: seq<Strand>)
      requires Valid() && Distinct(newJoints) && forall j :: j in newJoints ==> |j| == c.keySize
      modifies this
      ensures Valid() && JointsScanned()
      ensures joints == newJoints && payloads == old(payloads)
      ensures JointHomsNow() == RecordJoints(old(JointHomsNow()), newJoints)
      ensures PayloadHomsNow() == old(PayloadHomsNow())
    {
      joints := newJoints;
      GenerateJointPreStats();
    }

    /** generate_joint_pre_stats: one scan per joint, then the GC range of the joints. */
    method GenerateJointPreStats()
      requires Configuration.Valid(c) && forall j {:trigger j in joints} :: j in joints ==> |j| == c.keySize
      modifies this
      ensures JointsScanned()
      ensures JointHomsNow() == RecordJoints(old(JointHomsNow()), joints)
      ensures joints == old(joints) && payloads == old(payloads) && PayloadHomsNow() == old(PayloadHomsNow())
    {
      var js := JointSize(c);
      var all := joints;
      ghost var h0 := JointHomsNow();
      var startMinGcCount, startMaxGcCount, endMinGcCount, endMaxGcCount := -1, -1, -1, -1;
      var i := 0;
      while i < |all|
        invariant 0 <= i <= |all|
        invariant JointHomsNow() == RecordJoints(h0, all[..i])
        invariant endMinGcCount == HalfGcMin(all[..i], js, FirstHalf)
        invariant endMaxGcCount == HalfGcMax(all[..i], js, FirstHalf)
        invariant startMinGcCount == HalfGcMin(all[..i], js, SecondHalf)
        invariant startMaxGcCount == HalfGcMax(all[..i], js, SecondHalf)
        invariant joints == all && payloads == old(payloads) && PayloadHomsNow() == old(PayloadHomsNow())
      {
        assert all[i] in all;
        JointPrefixStep(h0, all, js, i);
        var endGc, startGc := ScanJoint(all[i]);
        endMinGcCount := MinSoFar(endMinGcCount, endGc);
        endMaxGcCount := MaxSoFar(endMaxGcCount, endGc);
        startMinGcCount := MinSoFar(startMinGcCount, startGc);
        startMaxGcCount := MaxSoFar(startMaxGcCount, startGc);
        i := i + 1;
      }
      assert all[..i] == all;
      minJointsGcCount := startMinGcCount + endMinGcCount;
      maxJointsGcCount := startMaxGcCount + endMaxGcCount;
    }

    /**
     * The body of generate_joint_pre_stats for one joint: records its runs
     * and returns the GC counts of its first half (at the end of a motif)
     * and of its second half (at the start of one).
     */
    method ScanJoint(joint: Strand) returns (endGc: nat, startGc: nat)
      requires Configuration.Valid(c) && |joint| == c.keySize
      modifies this
      ensures JointHomsNow() == RecordJoint(old(JointHomsNow()), joint)
      ensures endGc == GcCount(HalfOf(joint, JointSize(c), FirstHalf))
      ensures startGc == GcCount(HalfOf(joint, JointSize(c), SecondHalf))
      ensures joints == old(joints) && payloads == old(payloads) && PayloadHomsNow() == old(PayloadHomsNow())
      ensures minJointsGcCount == old(minJointsGcCount) && maxJointsGcCount == old(maxJointsGcCount)
    {
      var js := JointSize(c);
      var isEnd, endHom, cur, curHom;
      isEnd, endHom, cur, curHom, endGc, startGc := ScanRuns(joint, js, endJointHom);
      RecordJointFrom(JointHomsNow(), joint, isEnd, endHom, cur, curHom);
      endJointHom := endHom;
      if isEnd {
        wholeJointHom := wholeJointHom.With(cur, wholeJointHom.At(cur) + 1);
      } else {
        startJointHom := startJointHom.With(cur, startJointHom.At(cur) + [curHom]);
      }
    }

    /** add_payload: adds the payload to the set and records its end runs. */
    method AddPayload(newPayload: Strand)
      requires Valid() && |newPayload| == c.payloadSize
      modifies this
      ensures Valid()
      ensures payloads == Added(old(payloads), newPayload)
      ensures PayloadHomsNow() == RecordPayload(old(PayloadHomsNow()), newPayload)
      ensures JointState() == old(JointState())
    {
      if newPayload !in payloads {
        payloads := payloads + [newPayload];
      }
      AddHomStats(newPayload);
    }

    /** add_payloads: add_payload for each payload in turn. */
    method AddPayloads(newPayloads: seq<Strand>)
      requires Valid() && forall p :: p in newPayloads ==> |p| == c.payloadSize
      modifies this
      ensures Valid()
      ensures payloads == AddedAll(old(payloads), newPayloads)
      ensures PayloadHomsNow() == RecordPayloads(old(PayloadHomsNow()), newPayloads)
      ensures JointState() == old(JointState())
    {
      ghost var ps0, h0 := payloads, PayloadHomsNow();
      var i := 0;
      while i < |newPayloads|
        invariant 0 <= i <= |newPayloads|
        invariant Valid()
        invariant payloads == AddedAll(ps0, newPayloads[..i])
        invariant PayloadHomsNow() == RecordPayloads(h0, newPayloads[..i])
        invariant JointState() == old(JointState())
      {
        assert |newPayloads[i]| == c.payloadSize by {
          assert newPayloads[i] in newPayloads;
        }
        PayloadPrefixStep(h0, ps0, newPayloads, i);
        AddPayload(newPayloads[i]);
        i := i + 1;
      }
      assert newPayloads[..i] == newPayloads;
    }

    /** add_hom_stats: files the payload's first run under its first base and its final run under its last. */
    method AddHomStats(payload: Strand)
      requires |payload| == c.payloadSize && |payload| >= 1
      modifies this
      ensures PayloadHomsNow() == RecordPayload(old(PayloadHomsNow()), payload)
      ensures payloads == old(payloads) && JointState() == old(JointState())
    {
      var isStart := true;
      var cur := payload[0];
      var homCount := 1;
      var i := 1;
      while i < c.payloadSize
        invariant 1 <= i <= |payload|
        invariant cur == payload[i - 1] && homCount == TrailingRun(payload[..i])
        invariant isStart <==> Uniform(payload[..i])
        invariant endHomPayload == old(endHomPayload)
        invariant startHomPayload == if isStart then old(startHomPayload)
                                     else old(startHomPayload).With(payload[0], old(startHomPayload).At(payload[0]) + [LeadingRun(payload)])
        invariant payloads == old(payloads) && JointState() == old(JointState())
      {
        var nuc := payload[i];
        RunScanStep(payload, i, isStart, homCount);
        if cur != nuc {
          if isStart {
            isStart := false;
            startHomPayload := startHomPayload.With(cur, startHomPayload.At(cur) + [homCount]);
          }
          homCount := 0;
          cur := nuc;
        }
        homCount := homCount + 1;
        i := i + 1;
      }
      assert payload[..i] == payload;
      if isStart {
        UniformRuns(payload);
        assert cur == payload[0];
        startHomPayload := startHomPayload.With(cur, startHomPayload.At(cur) + [homCount]);
      }
      endHomPayload := endHomPayload.With(cur, endHomPayload.At(cur) + [homCount]);
    }

    /**
     * What homopolymer_stats scores for a candidate payload ending in base
     * n with a final run of `run` bases: the run alone when no joint can
     * extend it, otherwise one term per way a joint (and, past a joint made
     * of n alone, the neighbouring payload) can extend it.
     */
    function HomopolymerScore(cand: Strand): Penalty
      requires cand != []
      reads this
    {
      var run := TrailingRun(cand);
      var n := cand[|cand| - 1];
      var S, E, W := startJointHom.At(n), endJointHom.At(n), wholeJointHom.At(n);
      if S == [] && E == [] && W == 0 then Single(temps.hom, run, c.maxHom)
      else if run == |cand| && |cand| == c.payloadSize then
        Penalty(0.0, BothSides(temps.hom, c.maxHom, run, S, E, W, c.motifSize))
      else if run == |cand| then
        Penalty(0.0, StartSide(temps.hom, c.maxHom, run, S, W, c.keySize, endHomPayload.At(n)))
      else if |cand| == c.payloadSize then
        Penalty(0.0, EndSide(temps.hom, c.maxHom, run, E, W, c.keySize, PrefixRunOf(cand, n), startHomPayload.At(n)))
      else Single(temps.hom, run, c.maxHom)
    }

    /**
     * The one homopolymer term that does not divide by maxHom,
     * h ^ motifSize, is the whole score: the candidate is a finished
     * payload of one base n, some joint is made of n alone, and no joint
     * records a run of n on one of the two sides.
     */
    predicate WholeMotifOnly(cand: Strand)
      requires cand != []
      reads this
    {
      var n := cand[|cand| - 1];
      && TrailingRun(cand) == |cand| == c.payloadSize
      && wholeJointHom.At(n) != 0
      && (startJointHom.At(n) == [] || endJointHom.At(n) == [])
    }

    /**
     * The homopolymer score is a sum of at least one term h ^ (k / d), and
     * every k is at least the candidate's own final run: joining never
     * shortens a run. Every d is maxHom, except for the whole-motif term
     * h ^ motifSize, so the score can be evaluated exactly when maxHom is
     * not 0 or that term is the only one.
     */
    lemma HomopolymerScoreFacts(cand: Strand)
      requires Configuration.Valid(c) && cand != []
      ensures HomopolymerScore(cand).exact == 0.0 && HomopolymerScore(cand).powers != []
      ensures HomTerms(HomopolymerScore(cand).powers, temps.hom, TrailingRun(cand), c.maxHom, c.motifSize)
      ensures Evaluable(HomopolymerScore(cand)) <==> c.maxHom != 0 || WholeMotifOnly(cand)
    {
      var run := TrailingRun(cand);
      var n := cand[|cand| - 1];
      var h, m := temps.hom, c.maxHom;
      var S, E, W := startJointHom.At(n), endJointHom.At(n), wholeJointHom.At(n);
      if S == [] && E == [] && W == 0 {
        AtLeastEvaluable([Power(1.0, h, run, m)], h, run, m, c.motifSize);
      } else if run == |cand| && |cand| == c.payloadSize {
        BothSidesFacts(h, m, run, S, E, W, c.motifSize);
        if W == 0 {
          AtLeastEvaluable(BothSides(h, m, run, S, E, W, c.motifSize), h, run, m, c.motifSize);
        } else {
          WholeTermEvaluable(Cross(h, S, E, run, m), h, run, m, c.motifSize);
        }
      } else if run == |cand| {
        StartSideFacts(h, m, run, S, W, c.keySize, endHomPayload.At(n));
        AtLeastEvaluable(StartSide(h, m, run, S, W, c.keySize, endHomPayload.At(n)), h, run, m, c.motifSize);
      } else if |cand| == c.payloadSize {
        EndSideFacts(h, m, run, E, W, c.keySize, PrefixRunOf(cand, n), startHomPayload.At(n));
        AtLeastEvaluable(EndSide(h, m, run, E, W, c.keySize, PrefixRunOf(cand, n), startHomPayload.At(n)), h, run, m, c.motifSize);
      } else {
        AtLeastEvaluable([Power(1.0, h, run, m)], h, run, m, c.motifSize);
      }
    }

    /** homopolymer_stats. */
    method HomopolymerStats(curPayload: Strand) returns (p: Penalty)
      requires curPayload != []
      ensures p == HomopolymerScore(curPayload)
    {
      var curHoms: seq<Power> := [];
      var curHom := 1;
      var cur := curPayload[|curPayload| - 1];
      var i := |curPayload| - 2;
      while i >= 0
        invariant -1 <= i <= |curPayload| - 2
        invariant curHom == |curPayload| - 1 - i
        invariant forall t :: i < t < |curPayload| ==> curPayload[t] == cur
      {
        if curPayload[i] != cur {
          break;
        }
        curHom := curHom + 1;
        i := i - 1;
      }
      TrailingRunAtBreak(curPayload, i);
      var newNuc := curPayload[|curPayload| - 1];
      var S, E, W := startJointHom.At(newNuc), endJointHom.At(newNuc), wholeJointHom.At(newNuc);
      var h, m := temps.hom, c.maxHom;

      if S == [] && E == [] && W == 0 {
        return Single(h, curHom, m);
      }

      if curHom == |curPayload| && |curPayload| == c.payloadSize {
        curHoms := BothSidesTerms(h, m, curHom, S, E, W, c.motifSize);
      } else if curHom == |curPayload| {
        curHoms := StartSideTerms(h, m, curHom, S, W, c.keySize, endHomPayload.At(newNuc));
      } else if |curPayload| == c.payloadSize {
        curHoms := EndSideTerms(h, m, curHom, E, W, c.keySize, curPayload, newNuc, startHomPayload.At(newNuc));
      } else {
        curHoms := curHoms + [Power(1.0, h, curHom, m)];
      }
      return Penalty(0.0, curHoms);
    }

    /** A candidate whose base starts and ends no joint is scored by its final run alone. */
    lemma NoJointRunsScoresRun(cand: Strand)
      requires cand != []
      requires var n := cand[|cand| - 1];
               startJointHom.At(n) == [] && endJointHom.At(n) == [] && wholeJointHom.At(n) == 0
      ensures HomopolymerScore(cand) == Single(temps.hom, TrailingRun(cand), c.maxHom)
    {
    }

    /** A final run that touches neither end of the payload is scored alone. */
    lemma InteriorRunScoresRun(cand: Strand)
      requires cand != [] && TrailingRun(cand) < |cand| < c.payloadSize
      ensures HomopolymerScore(cand) == Single(temps.hom, TrailingRun(cand), c.maxHom)
    {
    }

    /**
     * A finished payload whose final run does not reach its start, next to
     * multi-run joints only: one term per joint that begins with the same
     * base, its first run added to the payload's final run.
     */
    lemma FinishedPayloadExtendsIntoJoints(cand: Strand)
      requires cand != [] && TrailingRun(cand) < |cand| == c.payloadSize
      requires var n := cand[|cand| - 1];
               wholeJointHom.At(n) == 0 && endJointHom.At(n) != []
      ensures HomopolymerScore(cand).powers
              == Shifted(temps.hom, endJointHom.At(cand[|cand| - 1]), TrailingRun(cand), c.maxHom)
    {
    }

    /** A finished single-run payload next to a single-run joint of its base scores the worst case h ^ motifSize. */
    lemma WholeMotifRun(cand: Strand)
      requires cand != [] && TrailingRun(cand) == |cand| == c.payloadSize
      requires wholeJointHom.At(cand[|cand| - 1]) != 0
      ensures var ps := HomopolymerScore(cand).powers;
              ps != [] && ps[|ps| - 1] == Power(1.0, temps.hom, c.motifSize, 1)
    {
    }

    /** GC content the motif of a candidate payload can reach, scored against the window. */
    function MotifGcScore(cand: Strand): (r: real)
      requires Configuration.Valid(c)
      reads this
      ensures r >= 0.0
    {
      MotifWindowScore(GcCount(cand), minJointsGcCount, maxJointsGcCount, MotifSpan(cand),
                       c.motifSize, c.minGc, c.maxGc)
    }

    /** The length of the motif the candidate ends up in: the candidate plus both joint halves. */
    function MotifSpan(cand: Strand): (n: int)
      requires Configuration.Valid(c)
      ensures n == |cand| + c.keySize && n > 0
    {
      |cand| + c.keySize
    }

    /**
     * Once the joints are scanned, the motif GC score is zero exactly when
     * every pair of joint halves around the candidate keeps the GC% of the
     * partial motif inside the window.
     */
    lemma MotifGcZeroIff(cand: Strand)
      requires Configuration.Valid(c) && JointsScanned() && joints != []
      ensures MotifGcScore(cand) == 0.0 <==>
              PairsInWindow(HalfGcs(joints, JointSize(c), FirstHalf), HalfGcs(joints, JointSize(c), SecondHalf),
                            GcCount(cand), MotifSpan(cand), c.minGc, c.maxGc)
    {
      var js := JointSize(c);
      var A, B := HalfGcs(joints, js, FirstHalf), HalfGcs(joints, js, SecondHalf);
      var loA, hiA := HalfGcMin(joints, js, FirstHalf), HalfGcMax(joints, js, FirstHalf);
      var loB, hiB := HalfGcMin(joints, js, SecondHalf), HalfGcMax(joints, js, SecondHalf);
      HalfGcSpansOf(joints, js, FirstHalf, A, loA, hiA);
      HalfGcSpansOf(joints, js, SecondHalf, B, loB, hiB);
      PairWindowAt(A, B, loA, hiA, loB, hiB, minJointsGcCount, maxJointsGcCount,
                   GcCount(cand), MotifSpan(cand), c.motifSize, c.minGc, c.maxGc);
    }

    /** motif_GC_content_stats. */
    method MotifGcContentStats(curPayload: Strand) returns (score: real)
      requires Configuration.Valid(c)
      ensures score == MotifGcScore(curPayload)
    {
      var gcCount := 0;
      var i := 0;
      while i < |curPayload|
        invariant 0 <= i <= |curPayload|
        invariant gcCount == GcCount(curPayload[..i])
      {
        assert curPayload[..i + 1][..i] == curPayload[..i];
        gcCount := gcCount + (if IsGC(curPayload[i]) then 1 else 0);
        i := i + 1;
      }
      assert curPayload[..i] == curPayload;
      var curMotifSize := MotifSpan(curPayload);
      score := MotifWindowScore(gcCount, minJointsGcCount, maxJointsGcCount, curMotifSize, c.motifSize, c.minGc, c.maxGc);
    }

    /** hairpin_penalty: the forward and backward counters against the payloads and the joints. */
    function HairpinPenalty(cand: Strand): (r: HairpinSearch.Outcome<Penalty>)
      requires Valid()
      reads this
      ensures r == BasePenalties.HairpinPenalty(c, temps.hairpin, cand, payloads, joints, false)
      ensures |cand| <= c.payloadSize && joints == [] ==> r.Ok?
      ensures r.Ok? ==> BasePenalties.HairpinTotal(r.value, false, temps.hairpin, c.maxHairpin)
    {
      assert forall i :: 0 <= i < |payloads| ==> payloads[i] in payloads;
      BasePenalties.HairpinPenalty(c, temps.hairpin, cand, payloads, joints, false)
    }

    /** get_homopolymer_penalty: scores payload + n without touching the engine; it divides by maxHom. */
    method GetHomopolymerPenalty(payload: Strand, n: Nuc) returns (p: Penalty)
      ensures p == HomopolymerScore(payload + [n])
      ensures Configuration.Valid(c) ==> (Evaluable(p) <==> c.maxHom != 0 || WholeMotifOnly(payload + [n]))
    {
      if Configuration.Valid(c) {
        HomopolymerScoreFacts(payload + [n]);
      }
      p := HomopolymerStats(payload + [n]);
    }

    /** get_hairpin_penalty: the hairpin score of payload + n, which cannot fail below payloadSize bases without joints. */
    function GetHairpinPenalty(payload: Strand, n: Nuc): (r: HairpinSearch.Outcome<Penalty>)
      requires Valid()
      reads this
      ensures r == HairpinPenalty(payload + [n])
      ensures |payload| < c.payloadSize && joints == [] ==> r.Ok?
      ensures r.Ok? ==> BasePenalties.HairpinTotal(r.value, false, temps.hairpin, c.maxHairpin)
    {
      HairpinPenalty(payload + [n])
    }

    method GetGcPenalty(payload: Strand, n: Nuc) returns (r: real)
      requires Configuration.Valid(c)
      ensures r == MotifGcScore(payload + [n])
    {
      r := MotifGcContentStats(payload + [n]);
    }

    /**
     * get_all_penalties: homopolymer, hairpin and GC penalties of payload + n
     * added up. It raises ZeroDivisionError when maxHom is 0, unless the
     * whole-motif term is the only homopolymer term, and otherwise
     * IndexError exactly where the hairpin search does.
     */
    method GetAllPenalties(payload: Strand, n: Nuc) returns (r: Result<Penalty, BuildError>)
      requires Valid()
      ensures c.maxHom == 0 && !WholeMotifOnly(payload + [n]) ==> r == Err(ZeroDivisionError)
      ensures c.maxHom != 0 || WholeMotifOnly(payload + [n]) ==> (r.Ok? <==> GetHairpinPenalty(payload, n).Ok?)
      ensures r.Err? ==> r.error == IndexError || (r.error == ZeroDivisionError && c.maxHom == 0)
      ensures r.Ok? ==>
        r.value == HomopolymerScore(payload + [n]).Plus(GetHairpinPenalty(payload, n).value)
                     .Plus(Exact(MotifGcScore(payload + [n])))
    {
      var penalties := GetHomopolymerPenalty(payload, n);
      if !Evaluable(penalties) {
        return Err(ZeroDivisionError);
      }
      var hairpin := GetHairpinPenalty(payload, n);
      if hairpin.Err? {
        return Err(IndexError);
      }
      penalties := penalties.Plus(hairpin.value);
      var gc := GetGcPenalty(payload, n);
      penalties := penalties.Plus(Exact(gc));
      return Ok(penalties);
    }
  }
}
