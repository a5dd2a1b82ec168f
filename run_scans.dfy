/**
 * Left-to-right scans of a strand that track homopolymer runs and GC
 * count one base at a time, as the validator of validation.py does, and
 * what they compute in terms of the strand's runs.
 */
module RunScans {
  import opened Nucleotides
  import opened Excesses

  /** A strand of one base is one run. */
  lemma RunsOfOne(s: Strand)
    requires |s| == 1
    ensures Runs(s) == [1]
  {
    assert s[..|s| - TrailingRun(s)] == [];
  }

  /** A strand whose final run is all of it is one run. */
  lemma {:induction false} TrailingRunWhole(s: Strand)
    requires s != [] && TrailingRun(s) == |s|
    ensures Uniform(s)
    decreases |s|
  {
    if |s| > 1 {
      var s' := s[..|s| - 1];
      TrailingRunWhole(s');
      assert s[|s| - 1] == s[|s| - 2] == s'[|s'| - 1] == s'[0];
      forall t | 0 <= t < |s| ensures s[t] == s[0] {
        if t < |s| - 1 {
          assert s[t] == s'[t];
        }
      }
    }
  }
  /** A strand is one run exactly when its run list has one entry. */
  lemma UniformIffOneRun(s: Strand)
    requires s != []
    ensures Uniform(s) <==> |Runs(s)| == 1
  {
    if Uniform(s) {
      UniformRuns(s);
      assert s[..|s| - TrailingRun(s)] == [];
    } else {
      if TrailingRun(s) == |s| {
        TrailingRunWhole(s);
      }
      var t := s[..|s| - TrailingRun(s)];
      assert Runs(s) == Runs(t) + [TrailingRun(s)];
      assert Runs(t) == Runs(t[..|t| - TrailingRun(t)]) + [TrailingRun(t)];
    }
  }
  /** The final entry of a strand's run list is its trailing run. */
  lemma RunsEnd(s: Strand)
    requires s != []
    ensures |Runs(s)| >= 1 && Runs(s)[|Runs(s)| - 1] == TrailingRun(s)
  {
    assert Runs(s) == Runs(s[..|s| - TrailingRun(s)]) + [TrailingRun(s)];
  }

  /** A new final run makes the old final run interior, unless it was the first. */
  lemma InteriorPush(R: seq<nat>, x: nat)
    requires |R| >= 1
    ensures Interior(R + [x]) == if |R| == 1 then [] else Interior(R) + [R[|R| - 1]]
  {
    if |R| >= 2 {
      assert (R + [x])[1..|R|] == R[1..|R| - 1] + [R[|R| - 1]];
    }
  }

  /** A longer final run leaves the interior runs alone. */
  lemma InteriorBump(R: seq<nat>, x: nat)
    requires |R| >= 1
    ensures Interior(R[..|R| - 1] + [x]) == Interior(R)
  {
    if |R| >= 2 {
      assert (R[..|R| - 1] + [x])[1..|R| - 1] == R[1..|R| - 1];
    }
  }

  /** Appending a base: the excesses of the interior runs gain the old final run when a run is closed that is not the first. */
  lemma InteriorSnoc(pre: Strand, n: Nuc, bound: int)
    requires pre != []
    ensures Over(Interior(Runs(pre + [n])), bound) ==
              if n == pre[|pre| - 1] || Uniform(pre) then Over(Interior(Runs(pre)), bound)
              else Over(Interior(Runs(pre)), bound) + Over([TrailingRun(pre)], bound)
  {
    RunsSnoc(pre, n);
    UniformIffOneRun(pre);
    RunsEnd(pre);
    var R := Runs(pre);
    if n == pre[|pre| - 1] {
      InteriorBump(R, TrailingRun(pre) + 1);
    } else {
      InteriorPush(R, 1);
      if |R| >= 2 {
        OverAppend(Interior(R), [R[|R| - 1]], bound);
      }
    }
  }

  /** Appending a base keeps a strand one run exactly when it repeats the last base. */
  lemma UniformSnoc(s: Strand, n: Nuc)
    requires s != []
    ensures Uniform(s + [n]) <==> Uniform(s) && n == s[|s| - 1]
  {
    var t := s + [n];
    if Uniform(t) {
      assert t[|s| - 1] == t[0] && t[|s|] == t[0];
      forall k | 0 <= k < |s| ensures s[k] == s[0] {
        assert t[k] == t[0];
      }
    }
  }
  /** Appending a base changes the first run only while the strand is one run. */
  lemma {:induction false} LeadingRunSnoc(s: Strand, n: Nuc)
    requires s != []
    ensures LeadingRun(s + [n]) == if Uniform(s) && n == s[0] then |s| + 1
                                   else if Uniform(s) then |s|
                                   else LeadingRun(s)
    decreases |s|
  {
    var t := s + [n];
    if |s| == 1 {
      assert t[1..] == [n];
    } else {
      assert t[1..] == s[1..] + [n];
      if s[0] == s[1] {
        LeadingRunSnoc(s[1..], n);
        assert Uniform(s) <==> Uniform(s[1..]) by {
          if Uniform(s[1..]) {
            forall k | 0 <= k < |s| ensures s[k] == s[0] {
              if k > 0 {
                assert s[1..][k - 1] == s[1..][0];
              }
            }
          }
        }
      } else {
        assert !Uniform(s) by { assert s[1] != s[0]; }
      }
    }
  }

  /** The runs of a non-empty strand end with its trailing run. */
  lemma RunsLast(s: Strand, bound: int)
    requires s != []
    ensures var R := Runs(s);
            |R| >= 1 && Over(R, bound) == Over(R[..|R| - 1], bound) + Over([TrailingRun(s)], bound)
  {
    var R := Runs(s);
    assert R[..|R| - 1] + [R[|R| - 1]] == R;
    OverAppend(R[..|R| - 1], [R[|R| - 1]], bound);
  }

  /**
   * What a left-to-right scan of a strand knows after some of its bases:
   * the current base and the length of its run so far, whether no run has
   * closed yet, the length of the first run once one has closed, the
   * excesses over the bound of the closed runs after the first, and the GC
   * count so far.
   */
  datatype RunScan = RunScan(cur: Nuc, hom: nat, single: bool, first: nat, excess: seq<int>, gc: nat)

  /** One more base: a base unlike the current one closes the current run. */
  function ScanNext(r: RunScan, n: Nuc, bound: int): RunScan
  {
    var brk := n != r.cur;
    RunScan(n, if brk then 1 else r.hom + 1,
            r.single && !brk,
            if r.single && brk then r.hom else r.first,
            if brk && !r.single && r.hom - bound > 0 then r.excess + [r.hom - bound] else r.excess,
            r.gc + (if IsGC(n) then 1 else 0))
  }

  /** The scan after the first i bases of s. */
  function ScanAt(s: Strand, i: nat, bound: int): RunScan
    requires 1 <= i <= |s|
  {
    if i == 1 then RunScan(s[0], 1, true, 0, [], if IsGC(s[0]) then 1 else 0)
    else ScanNext(ScanAt(s, i - 1, bound), s[i - 1], bound)
  }

  /** r is what a scan knows after the bases pre. */
  predicate Describes(r: RunScan, pre: Strand, bound: int)
  {
    && pre != [] && r.cur == pre[|pre| - 1] && r.hom == TrailingRun(pre)
    && (r.single <==> Uniform(pre))
    && (!r.single ==> r.first == LeadingRun(pre))
    && r.excess == Over(Interior(Runs(pre)), bound)
    && r.gc == GcCount(pre)
  }

  /** The excess of a single value. */
  lemma OverSingle(x: int, bound: int)
    ensures Over([x], bound) == if x - bound > 0 then [x - bound] else []
  {
    assert [x][..0] == [];
  }

  /**
   * The interior excesses after one more scan step, given how they change
   * when a base is appended (last base, whether one run, excesses, final
   * run).
   */
  lemma ScanExcessNext(r: RunScan, n: Nuc, bound: int, last: Nuc, uni: bool, x: seq<int>, t: int, c: seq<int>)
    requires c == if n == last || uni then x else x + Over([t], bound)
    requires r.cur == last && r.single == uni && r.excess == x && r.hom == t
    ensures c == ScanNext(r, n, bound).excess
  {
    OverSingle(t, bound);
    if n != r.cur && !r.single && r.hom - bound <= 0 {
      assert r.excess + [] == r.excess;
    }
  }

  /** The interior excesses a scan step keeps are those of the longer strand. */
  lemma ExcessStep(r: RunScan, pre: Strand, n: Nuc, bound: int)
    requires pre != [] && r.cur == pre[|pre| - 1] && (r.single <==> Uniform(pre)) && r.hom == TrailingRun(pre)
    requires r.excess == Over(Interior(Runs(pre)), bound)
    ensures Over(Interior(Runs(pre + [n])), bound) == ScanNext(r, n, bound).excess
  {
    InteriorSnoc(pre, n, bound);
    ScanExcessNext(r, n, bound, pre[|pre| - 1], Uniform(pre), Over(Interior(Runs(pre)), bound), TrailingRun(pre),
                   Over(Interior(Runs(pre + [n])), bound));
  }

  /** Whether the strand is one run, and its first run, after one more scan step. */
  lemma FirstStep(r: RunScan, pre: Strand, n: Nuc, bound: int)
    requires Describes(r, pre, bound)
    ensures ScanNext(r, n, bound).single <==> Uniform(pre + [n])
    ensures !Uniform(pre + [n]) ==> LeadingRun(pre + [n]) == ScanNext(r, n, bound).first
  {
    UniformSnoc(pre, n);
    LeadingRunSnoc(pre, n);
    if r.single {
      UniformRuns(pre);
    }
  }

  /** The current base, its run and the GC count after one more scan step. */
  lemma CountStep(r: RunScan, pre: Strand, n: Nuc, bound: int)
    requires Describes(r, pre, bound)
    ensures ScanNext(r, n, bound).hom == TrailingRun(pre + [n])
    ensures ScanNext(r, n, bound).gc == GcCount(pre + [n])
    ensures ScanNext(r, n, bound).cur == (pre + [n])[|pre|]
  {
    AppendBase(pre, n);
  }

  /** One more base keeps the scan describing the bases seen. */
  lemma DescribesStep(r: RunScan, pre: Strand, n: Nuc, bound: int)
    requires Describes(r, pre, bound)
    ensures Describes(ScanNext(r, n, bound), pre + [n], bound)
  {
    CountStep(r, pre, n, bound);
    FirstStep(r, pre, n, bound);
    ExcessStep(r, pre, n, bound);
  }

  /** The scan after i bases describes the first i bases. */
  lemma {:induction false} ScanAtMeaning(s: Strand, i: nat, bound: int)
    requires 1 <= i <= |s|
    ensures Describes(ScanAt(s, i, bound), s[..i], bound)
    decreases i
  {
    if i == 1 {
      assert s[..1] == [] + [s[0]];
      RunsOfOne(s[..1]);
      AppendBase([], s[0]);
    } else {
      ScanAtMeaning(s, i - 1, bound);
      assert s[..i] == s[..i - 1] + [s[i - 1]];
      DescribesStep(ScanAt(s, i - 1, bound), s[..i - 1], s[i - 1], bound);
    }
  }

  /** The scan over a whole strand, field by field. */
  lemma ScanWhole(s: Strand, bound: int, r: RunScan)
    requires s != [] && r == ScanAt(s, |s|, bound)
    ensures r.cur == s[|s| - 1]
    ensures r.single <==> Uniform(s)
    ensures !r.single ==> r.first == LeadingRun(s)
    ensures r.hom == TrailingRun(s)
    ensures r.excess == Over(Interior(Runs(s)), bound)
    ensures r.gc == GcCount(s)
  {
    ScanAtMeaning(s, |s|, bound);
    assert s[..|s|] == s;
  }

  /**
   * What the scan of get_key_homopolymer_penalty knows after some bases of
   * a key: the current base, the length of its run so far, and the excesses
   * over the bound of the runs already closed.
   */
  datatype RunTally = RunTally(cur: Nuc, hom: nat, closed: seq<int>)

  /** One more base: a base unlike the current one closes the current run. */
  function TallyNext(r: RunTally, n: Nuc, bound: int): RunTally
  {
    if n != r.cur then RunTally(n, 1, if r.hom - bound > 0 then r.closed + [r.hom - bound] else r.closed)
    else RunTally(n, r.hom + 1, r.closed)
  }

  /** The tally after the first i bases of s. */
  function TallyAt(s: Strand, i: nat, bound: int): RunTally
    requires 1 <= i <= |s|
  {
    if i == 1 then RunTally(s[0], 1, []) else TallyNext(TallyAt(s, i - 1, bound), s[i - 1], bound)
  }

  /** The excesses over bound of every run of a non-empty strand but its last. */
  function ClosedExcess(s: Strand, bound: int): seq<int>
    requires s != []
  {
    var R := Runs(s);
    Over(R[..|R| - 1], bound)
  }

  /** r is what the tally knows after the bases pre. */
  predicate Tallies(r: RunTally, pre: Strand, bound: int)
  {
    pre != [] && r.cur == pre[|pre| - 1] && r.hom == TrailingRun(pre) && r.closed == ClosedExcess(pre, bound)
  }

  /** Appending a base closes the final run exactly when the base differs from it. */
  lemma ClosedExcessSnoc(pre: Strand, n: Nuc, bound: int)
    requires pre != []
    ensures ClosedExcess(pre + [n], bound) ==
              if n == pre[|pre| - 1] then ClosedExcess(pre, bound)
              else ClosedExcess(pre, bound) + Over([TrailingRun(pre)], bound)
  {
    RunsSnoc(pre, n);
    var R := Runs(pre);
    assert R == Runs(pre[..|pre| - TrailingRun(pre)]) + [TrailingRun(pre)];
    if n != pre[|pre| - 1] {
      assert (R + [1])[..|R|] == R;
      RunsLast(pre, bound);
    } else {
      var R' := R[..|R| - 1] + [TrailingRun(pre) + 1];
      assert R'[..|R'| - 1] == R[..|R| - 1];
    }
  }

  /** The closed-run excesses after one more tally step, given the excess of the run it may close. */
  lemma TallyClosedNext(r: RunTally, n: Nuc, bound: int, o: seq<int>, c: seq<int>)
    requires o == if r.hom - bound > 0 then [r.hom - bound] else []
    requires c == if n != r.cur then r.closed + o else r.closed
    ensures c == TallyNext(r, n, bound).closed
  {
    if n != r.cur && r.hom - bound <= 0 {
      assert r.closed + [] == r.closed;
    }
  }

  /** The closed-run excesses a tally step keeps are those of the longer strand. */
  lemma ClosedStep(r: RunTally, pre: Strand, n: Nuc, bound: int)
    requires Tallies(r, pre, bound)
    ensures ClosedExcess(pre + [n], bound) == TallyNext(r, n, bound).closed
  {
    ClosedExcessSnoc(pre, n, bound);
    OverSingle(r.hom, bound);
    TallyClosedNext(r, n, bound, Over([r.hom], bound), ClosedExcess(pre + [n], bound));
  }

  /** One more base keeps the tally describing the bases seen. */
  lemma TalliesStep(r: RunTally, pre: Strand, n: Nuc, bound: int)
    requires Tallies(r, pre, bound)
    ensures Tallies(TallyNext(r, n, bound), pre + [n], bound)
  {
    AppendBase(pre, n);
    ClosedStep(r, pre, n, bound);
  }

  /** The tally after i bases describes the first i bases. */
  lemma {:induction false} TallyAtMeaning(s: Strand, i: nat, bound: int)
    requires 1 <= i <= |s|
    ensures Tallies(TallyAt(s, i, bound), s[..i], bound)
    decreases i
  {
    if i == 1 {
      assert s[..1] == [] + [s[0]];
      RunsOfOne(s[..1]);
      AppendBase([], s[0]);
    } else {
      TallyAtMeaning(s, i - 1, bound);
      assert s[..i] == s[..i - 1] + [s[i - 1]];
      TalliesStep(TallyAt(s, i - 1, bound), s[..i - 1], s[i - 1], bound);
    }
  }

  /** The tally over a whole strand, with its final run added, is the excess of every run. */
  lemma TallyWhole(s: Strand, bound: int, r: RunTally)
    requires s != [] && r == TallyAt(s, |s|, bound)
    ensures Over(Runs(s), bound) == r.closed + if r.hom - bound > 0 then [r.hom - bound] else []
  {
    TallyAtMeaning(s, |s|, bound);
    assert s[..|s|] == s;
    assert r.closed == ClosedExcess(s, bound) && r.hom == TrailingRun(s);
    RunsLast(s, bound);
    OverSingle(r.hom, bound);
  }
}
