/**
 * The scans of generate_motifs_stats and get_key_homopolymer_penalty in
 * validation.py, as loops proved against the index-based scans: a key's
 * runs, joint and half GC counts, a payload's runs and GC count, and the
 * excess of every run of a key.
 */
module Scanners {
  import opened Nucleotides
  import opened RunScans
  import opened KeyHalves
  import opened Excesses

  /** The joint built from the first i bases of a key: their complements, the latest first. */
  function JointAt(k: Strand, i: nat): Strand
    requires i <= |k|
  {
    if i == 0 then [] else [Complement(k[i - 1])] + JointAt(k, i - 1)
  }

  /** The joint built from i bases is the reverse complement of those bases. */
  lemma {:induction false} JointAtMeaning(k: Strand, i: nat)
    requires i <= |k|
    ensures JointAt(k, i) == ReverseComplement(k[..i])
    decreases i
  {
    if i > 0 {
      JointAtMeaning(k, i - 1);
      assert k[..i] == k[..i - 1] + [k[i - 1]];
      ReverseComplementAppend(k[..i - 1], [k[i - 1]]);
      assert ReverseComplement([k[i - 1]]) == [Complement(k[i - 1])];
    }
  }

  /** The GC count of a key's first half once it is complete, and that of the half being read. */
  datatype HalfGcs = HalfGcs(endGc: nat, curGc: nat)

  /** One more base n, read at index i: at index js the first half is complete. */
  function HalfGcsNext(h: HalfGcs, n: Nuc, i: nat, js: nat): HalfGcs
  {
    HalfGcs(if i == js then h.curGc else h.endGc,
            (if i == js then 0 else h.curGc) + (if IsGC(n) then 1 else 0))
  }

  /** The half GC counts after the first i bases of a key whose first half has js bases. */
  function HalfGcsAt(k: Strand, i: nat, js: nat): HalfGcs
    requires 1 <= i <= |k|
  {
    if i == 1 then HalfGcs(0, if IsGC(k[0]) then 1 else 0)
    else HalfGcsNext(HalfGcsAt(k, i - 1, js), k[i - 1], i - 1, js)
  }

  /** Counting one more base. */
  lemma GcSnoc(pre: Strand, n: Nuc, c: nat)
    requires c == GcCount(pre)
    ensures GcCount(pre + [n]) == c + if IsGC(n) then 1 else 0
  {
    AppendBase(pre, n);
  }

  /** After i bases the counts are those of the bases read in each half. */
  lemma {:induction false} HalfGcsMeaning(k: Strand, i: nat, js: nat)
    requires 1 <= i <= |k| && 1 <= js
    ensures i <= js ==> HalfGcsAt(k, i, js).curGc == GcCount(k[..i])
    ensures i > js ==> HalfGcsAt(k, i, js).endGc == GcCount(k[..js])
                       && HalfGcsAt(k, i, js).curGc == GcCount(k[js..i])
    decreases i
  {
    if i == 1 {
      assert k[..1] == [] + [k[0]];
      GcSnoc([], k[0], 0);
    } else {
      HalfGcsMeaning(k, i - 1, js);
      var h := HalfGcsAt(k, i - 1, js);
      if i - 1 < js {
        assert k[..i] == k[..i - 1] + [k[i - 1]];
        GcSnoc(k[..i - 1], k[i - 1], h.curGc);
      } else if i - 1 == js {
        assert k[js..i] == [] + [k[i - 1]];
        GcSnoc([], k[i - 1], 0);
      } else {
        assert k[js..i] == k[js..i - 1] + [k[i - 1]];
        GcSnoc(k[js..i - 1], k[i - 1], h.curGc);
      }
    }
  }

  /** What the three scans of a whole key say about it. */
  lemma KeyScanned(k: Strand, js: nat, bound: int, r: RunScan, joint: Strand, h: HalfGcs)
    requires 1 <= js < |k|
    requires r == ScanAt(k, |k|, bound) && joint == JointAt(k, |k|) && h == HalfGcsAt(k, |k|, js)
    ensures joint == ReverseComplement(k)
    ensures r.single <==> Uniform(k)
    ensures !r.single ==> r.first == LeadingRun(k)
    ensures r.hom == TrailingRun(k)
    ensures r.excess == Over(Interior(Runs(k)), bound)
    ensures h.endGc == GcCount(HalfOf(k, js, FirstHalf)) && h.curGc == GcCount(HalfOf(k, js, SecondHalf))
  {
    ScanWhole(k, bound, r);
    JointAtMeaning(k, |k|);
    HalfGcsMeaning(k, |k|, js);
    assert k[..|k|] == k && k[js..|k|] == k[js..];
  }

  /**
   * The scan of one key in generate_motifs_stats: the joint, whether the key
   * is one run, its first and last runs, the excesses of its interior runs
   * and the GC counts of its two halves.
   */
  method ScanKey(k: Strand, js: nat, maxHom: int)
    returns (joint: Strand, single: bool, first: nat, last: nat, excess: seq<int>, endGc: nat, startGc: nat)
    requires 1 <= js < |k|
    ensures joint == ReverseComplement(k)
    ensures single <==> Uniform(k)
    ensures !single ==> first == LeadingRun(k)
    ensures last == TrailingRun(k)
    ensures excess == Over(Interior(Runs(k)), maxHom)
    ensures endGc == GcCount(HalfOf(k, js, FirstHalf)) && startGc == GcCount(HalfOf(k, js, SecondHalf))
  {
    var cur := k[0];
    var curHom: nat := 1;
    var curGcCount: nat := if IsGC(cur) then 1 else 0;
    single := true;
    joint := [Complement(k[0])];
    first, excess, endGc := 0, [], 0;
    ghost var gc := curGcCount;
    var i := 1;
    while i < |k|
      invariant 1 <= i <= |k|
      invariant RunScan(cur, curHom, single, first, excess, gc) == ScanAt(k, i, maxHom)
      invariant joint == JointAt(k, i)
      invariant HalfGcs(endGc, curGcCount) == HalfGcsAt(k, i, js)
    {
      var nuc := k[i];
      joint := [Complement(nuc)] + joint;
      cur, curHom, single, first, excess := RunStep(cur, curHom, single, first, excess, nuc, maxHom, gc);
      endGc, curGcCount := HalfGcStep(endGc, curGcCount, nuc, i, js);
      gc := gc + (if IsGC(nuc) then 1 else 0);
      i := i + 1;
    }
    last := curHom;
    startGc := curGcCount;
    KeyScanned(k, js, maxHom, RunScan(cur, curHom, single, first, excess, gc), joint, HalfGcs(endGc, curGcCount));
  }

  /**
   * The scan of one payload in generate_motifs_stats: whether it is one run,
   * its first and last runs, the excesses of its interior runs and its GC
   * count.
   */
  method ScanPayload(p: Strand, maxHom: int)
    returns (single: bool, first: nat, last: nat, excess: seq<int>, gc: nat)
    requires p != []
    ensures single <==> Uniform(p)
    ensures !single ==> first == LeadingRun(p)
    ensures last == TrailingRun(p)
    ensures excess == Over(Interior(Runs(p)), maxHom)
    ensures gc == GcCount(p)
  {
    var cur := p[0];
    var homCount: nat := 1;
    gc := if IsGC(cur) then 1 else 0;
    single := true;
    first, excess := 0, [];
    var i := 1;
    while i < |p|
      invariant 1 <= i <= |p|
      invariant RunScan(cur, homCount, single, first, excess, gc) == ScanAt(p, i, maxHom)
    {
      cur, homCount, single, first, excess, gc := PayloadStep(cur, homCount, single, first, excess, gc, p[i], maxHom);
      i := i + 1;
    }
    last := homCount;
    ScanWhole(p, maxHom, RunScan(cur, homCount, single, first, excess, gc));
  }

  /**
   * The run bookkeeping of one pass of a scan over the next base nuc: a
   * change of base closes the current run (the first one, or an interior
   * one whose excess over maxHom is kept) and starts a new one.
   */
  method RunStep(cur: Nuc, homCount: nat, single: bool, first: nat, excess: seq<int>, nuc: Nuc, maxHom: int, ghost gc: nat)
    returns (cur': Nuc, homCount': nat, single': bool, first': nat, excess': seq<int>)
    ensures RunScan(cur', homCount', single', first', excess', gc + (if IsGC(nuc) then 1 else 0))
            == ScanNext(RunScan(cur, homCount, single, first, excess, gc), nuc, maxHom)
  {
    cur', homCount', single', first', excess' := cur, homCount, single, first, excess;
    if cur' != nuc {
      if single' {
        single' := false;
        first' := homCount';
      } else if homCount' - maxHom > 0 {
        excess' := excess' + [homCount' - maxHom];
      }
      homCount' := 0;
      cur' := nuc;
    }
    homCount' := homCount' + 1;
  }

  /** The GC bookkeeping of one pass of the key scan: at index js the first half's count is set aside. */
  method HalfGcStep(endGc: nat, curGcCount: nat, nuc: Nuc, i: nat, js: nat) returns (endGc': nat, curGcCount': nat)
    ensures HalfGcs(endGc', curGcCount') == HalfGcsNext(HalfGcs(endGc, curGcCount), nuc, i, js)
  {
    endGc', curGcCount' := endGc, curGcCount;
    if i == js {
      endGc' := curGcCount';
      curGcCount' := 0;
    }
    curGcCount' := curGcCount' + (if IsGC(nuc) then 1 else 0);
  }

  /** One pass of the loop body over the payload's next base nuc. */
  method PayloadStep(cur: Nuc, homCount: nat, single: bool, first: nat, excess: seq<int>, gc: nat, nuc: Nuc, maxHom: int)
    returns (cur': Nuc, homCount': nat, single': bool, first': nat, excess': seq<int>, gc': nat)
    ensures RunScan(cur', homCount', single', first', excess', gc')
            == ScanNext(RunScan(cur, homCount, single, first, excess, gc), nuc, maxHom)
  {
    cur', homCount', single', first', excess' := RunStep(cur, homCount, single, first, excess, nuc, maxHom, gc);
    gc' := gc + (if IsGC(nuc) then 1 else 0);
  }

  /** The inner loop of get_key_homopolymer_penalty: the excess over maxHom of every run of k. */
  method KeyRunExcesses(k: Strand, maxHom: int) returns (homs: seq<int>)
    requires k != []
    ensures homs == Over(Runs(k), maxHom)
  {
    var curBase := k[0];
    var hom: nat := 1;
    homs := [];
    var i := 1;
    while i < |k|
      invariant 1 <= i <= |k|
      invariant RunTally(curBase, hom, homs) == TallyAt(k, i, maxHom)
    {
      var nuc := k[i];
      ghost var next := TallyNext(RunTally(curBase, hom, homs), nuc, maxHom);
      if nuc != curBase {
        if hom - maxHom > 0 {
          homs := homs + [hom - maxHom];
        }
        curBase := nuc;
        hom := 0;
      }
      hom := hom + 1;
      assert RunTally(curBase, hom, homs) == next;
      i := i + 1;
    }
    TallyWhole(k, maxHom, RunTally(curBase, hom, homs));
    if hom - maxHom > 0 {
      homs := homs + [hom - maxHom];
    }
  }

  /** The inner loop of get_key_gc_penalty: how many bases of s are G or C. */
  method CountGc(s: Strand) returns (gc: nat)
    ensures gc == GcCount(s)
  {
    gc := 0;
    var i := 0;
    while i < |s|
      invariant 0 <= i <= |s|
      invariant gc == GcCount(s[..i])
    {
      GcPrefix(s, i);
      gc := gc + (if IsGC(s[i]) then 1 else 0);
      i := i + 1;
    }
    assert s[..|s|] == s;
  }
}
