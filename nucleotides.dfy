/**
 * The DNA alphabet shared by every module: the four nucleotides, their
 * Watson-Crick pairing, GC-ness, and the homopolymer runs of a strand.
 * (The repository's `language` module that lists them is not part of this
 * model; the order [A, T, C, G] below is the order the builders use.)
 */
module Nucleotides {
  datatype Nuc = A | T | C | G

  type Strand = seq<Nuc>

  /** The alphabet, in the order candidates are scored. */
  const Alphabet: seq<Nuc> := [A, T, C, G]

  predicate IsGC(n: Nuc) { n == G || n == C }

  /** Watson-Crick pairing: A with T, C with G. */
  function Complement(n: Nuc): (m: Nuc)
    ensures m != n
    ensures IsGC(m) == IsGC(n)
  {
    match n
    case A => T
    case T => A
    case C => G
    case G => C
  }

  lemma ComplementInvolutive(n: Nuc)
    ensures Complement(Complement(n)) == n
  {
  }

  /** Number of G/C bases of `s`. */
  function GcCount(s: Strand): (k: nat)
    ensures k <= |s|
  {
    if s == [] then 0 else GcCount(s[..|s| - 1]) + (if IsGC(s[|s| - 1]) then 1 else 0)
  }

  /** The reverse complement: position i pairs with position |s|-1-i of `s`. */
  function ReverseComplement(s: Strand): (r: Strand)
    ensures |r| == |s|
    ensures forall i :: 0 <= i < |s| ==> r[i] == Complement(s[|s| - 1 - i])
  {
    seq(|s|, i requires 0 <= i < |s| => Complement(s[|s| - 1 - i]))
  }

  /** Length of the maximal run of equal bases at the end of `s` (0 for the empty strand). */
  function TrailingRun(s: Strand): (k: nat)
    ensures k <= |s|
    ensures s != [] ==> k >= 1
  {
    if |s| <= 1 then |s|
    else if s[|s| - 1] == s[|s| - 2] then TrailingRun(s[..|s| - 1]) + 1
    else 1
  }

  /** Length of the maximal run of equal bases at the start of `s`. */
  function LeadingRun(s: Strand): (k: nat)
    ensures k <= |s|
    ensures s != [] ==> k >= 1
  {
    if |s| <= 1 then |s|
    else if s[0] == s[1] then LeadingRun(s[1..]) + 1
    else 1
  }

  /** Lengths of the maximal homopolymer runs of `s`, left to right. */
  function Runs(s: Strand): (r: seq<nat>)
    decreases |s|
  {
    if s == [] then [] else Runs(s[..|s| - TrailingRun(s)]) + [TrailingRun(s)]
  }

  /** Number of leading bases of `s` equal to `n`. */
  function PrefixRunOf(s: Strand, n: Nuc): (k: nat)
    ensures k <= |s|
  {
    if s == [] || s[0] != n then 0 else 1 + PrefixRunOf(s[1..], n)
  }
  /** Python's s[:n]: the first n bases, or all of `s` when it is shorter. */
  function Take(s: Strand, n: nat): (t: Strand)
    ensures |t| == if n <= |s| then n else |s|
    ensures t <= s
  {
    if n <= |s| then s[..n] else s
  }

  /** Python's s[n:]: what follows the first n bases, empty when `s` is shorter. */
  function Drop(s: Strand, n: nat): (t: Strand)
    ensures |t| == if n <= |s| then |s| - n else 0
    ensures Take(s, n) + t == s
  {
    if n <= |s| then s[n..] else []
  }

  /** Comparing `p` with the first |p| bases of `s` is the prefix test. */
  lemma TakeIsPrefixTest(p: Strand, s: Strand)
    ensures p == Take(s, |p|) <==> p <= s
  {
  }

  /** The GC count of a concatenation is the sum of the parts' counts. */
  lemma {:induction false} GcCountAppend(s: Strand, t: Strand)
    ensures GcCount(s + t) == GcCount(s) + GcCount(t)
    decreases |t|
  {
    if t == [] {
      assert s + t == s;
    } else {
      var t' := t[..|t| - 1];
      assert (s + t)[..|s + t| - 1] == s + t';
      GcCountAppend(s, t');
    }
  }

  /** The pairwise-distinct elements of a sequence that stands for a Python set. */
  predicate Distinct(keys: seq<Strand>)
  {
    forall i, j :: 0 <= i < j < |keys| ==> keys[i] != keys[j]
  }

  /** Python's set.add on a set kept as a sequence in insertion order. */
  function Added(ps: seq<Strand>, p: Strand): seq<Strand>
  {
    if p in ps then ps else ps + [p]
  }

  /** set.add keeps a set without repeats and grows it by at most one. */
  lemma AddedDistinct(ps: seq<Strand>, p: Strand)
    requires Distinct(ps)
    ensures Distinct(Added(ps, p)) && |Added(ps, p)| <= |ps| + 1
  {
  }

  /** set.add leaves the old members and the new one, each once. */
  lemma AddedMeaning(ps: seq<Strand>, p: Strand)
    ensures forall q :: q in Added(ps, p) <==> q in ps || q == p
    ensures Distinct(ps) ==> Distinct(Added(ps, p))
  {
  }

  /** Every base of `s` equals its first: `s` is a single homopolymer run. */
  predicate Uniform(s: Strand)
  {
    forall t :: 0 <= t < |s| ==> s[t] == s[0]
  }

  /** Extending a prefix by one base either lengthens its final run or starts a new one. */
  lemma TrailingRunStep(s: Strand, i: int)
    requires 0 < i < |s|
    ensures TrailingRun(s[..i + 1]) == if s[i] == s[i - 1] then TrailingRun(s[..i]) + 1 else 1
  {
    assert s[..i + 1][..i] == s[..i];
  }

  /** Appending a base adds its GC-ness to the count and extends or restarts the final run. */
  lemma AppendBase(s: Strand, n: Nuc)
    ensures GcCount(s + [n]) == GcCount(s) + (if IsGC(n) then 1 else 0)
    ensures TrailingRun(s + [n]) == if s == [] || s[|s| - 1] != n then 1 else TrailingRun(s) + 1
  {
    assert (s + [n])[..|s|] == s;
  }

  /** The GC count of a prefix grows by the GC-ness of the next base. */
  lemma GcPrefix(s: Strand, i: nat)
    requires i < |s|
    ensures GcCount(s[..i + 1]) == GcCount(s[..i]) + (if IsGC(s[i]) then 1 else 0)
  {
    assert s[..i + 1][..i] == s[..i];
  }

  /** A single run is its own first and final run. */
  lemma {:induction false} UniformRuns(s: Strand)
    requires s != [] && Uniform(s)
    ensures TrailingRun(s) == |s| && LeadingRun(s) == |s|
    decreases |s|
  {
    if |s| > 1 {
      UniformRuns(s[..|s| - 1]);
      UniformRuns(s[1..]);
    }
  }

  /** The first run ends at the first base that differs from the first base. */
  lemma {:induction false} LeadingRunAtBreak(s: Strand, i: int)
    requires 0 < i < |s| && Uniform(s[..i]) && s[i] != s[0]
    ensures LeadingRun(s) == i
    decreases i
  {
    if i > 1 {
      assert s[1] == s[..i][1] == s[0];
      LeadingRunAtBreak(s[1..], i - 1);
    }
  }

  /** The final run starts after the last base that differs from the last base. */
  lemma {:induction false} TrailingRunAtBreak(s: Strand, i: int)
    requires -1 <= i < |s| - 1
    requires forall t :: i < t < |s| ==> s[t] == s[|s| - 1]
    requires i >= 0 ==> s[i] != s[|s| - 1]
    ensures TrailingRun(s) == |s| - 1 - i
    decreases |s|
  {
    if i < |s| - 2 {
      var s' := s[..|s| - 1];
      assert s[|s| - 2] == s[|s| - 1];
      TrailingRunAtBreak(s', i);
    }
  }

  /** One value per nucleotide, as the dictionaries keyed by 'A', 'T', 'C' and 'G'. */
  datatype PerNuc<V> = PerNuc(a: V, t: V, c: V, g: V)
  {
    function At(n: Nuc): V
    {
      match n
      case A => a
      case T => t
      case C => c
      case G => g
    }

    function With(n: Nuc, v: V): (r: PerNuc<V>)
      ensures r.At(n) == v
      ensures forall m :: m != n ==> r.At(m) == At(m)
    {
      match n
      case A => this.(a := v)
      case T => this.(t := v)
      case C => this.(c := v)
      case G => this.(g := v)
    }
  }

  /** A prefix stays a single run exactly when the next base repeats the previous one. */
  lemma UniformStep(s: Strand, i: int)
    requires 0 < i < |s|
    ensures Uniform(s[..i + 1]) <==> Uniform(s[..i]) && s[i] == s[i - 1]
  {
    if Uniform(s[..i + 1]) {
      assert s[i] == s[..i + 1][i] == s[0];
      assert s[i - 1] == s[..i + 1][i - 1] == s[0];
      forall t | 0 <= t < i ensures s[..i][t] == s[..i][0] {
        assert s[..i + 1][t] == s[..i + 1][0];
      }
    }
    if Uniform(s[..i]) && s[i] == s[i - 1] {
      assert s[i - 1] == s[..i][i - 1] == s[0];
      var u := s[..i + 1];
      forall t | 0 <= t < |u| ensures u[t] == u[0] {
        if t < i {
          assert s[..i][t] == s[..i][0];
        }
      }
    }
  }

  /** The leading bases equal to `n` stop at the first base that differs from it. */
  lemma {:induction false} PrefixRunOfAtBreak(s: Strand, n: Nuc, k: int)
    requires 0 <= k <= |s|
    requires forall t :: 0 <= t < k ==> s[t] == n
    requires k < |s| ==> s[k] != n
    ensures PrefixRunOf(s, n) == k
    decreases k
  {
    if k > 0 {
      PrefixRunOfAtBreak(s[1..], n, k - 1);
    }
  }

  /** Appending a base either lengthens the final run or adds a run of one base. */
  lemma RunsSnoc(s: Strand, n: Nuc)
    ensures s != [] && s[|s| - 1] == n ==> Runs(s + [n]) == Runs(s)[..|Runs(s)| - 1] + [TrailingRun(s) + 1]
    ensures s == [] || s[|s| - 1] != n ==> Runs(s + [n]) == Runs(s) + [1]
  {
    var t := s + [n];
    AppendBase(s, n);
    if s != [] && s[|s| - 1] == n {
      assert t[..|t| - TrailingRun(t)] == s[..|s| - TrailingRun(s)];
    } else {
      assert t[..|t| - TrailingRun(t)] == s;
    }
  }

  /** Reversing a strand swaps its first and last runs; complementing keeps run lengths. */
  lemma {:induction false} ReverseComplementRuns(s: Strand)
    ensures LeadingRun(ReverseComplement(s)) == TrailingRun(s)
    ensures TrailingRun(ReverseComplement(s)) == LeadingRun(s)
    decreases |s|
  {
    if |s| > 1 {
      var r := ReverseComplement(s);
      assert r[1..] == ReverseComplement(s[..|s| - 1]);
      assert r[..|r| - 1] == ReverseComplement(s[1..]);
      ReverseComplementRuns(s[..|s| - 1]);
      ReverseComplementRuns(s[1..]);
      assert r[0] == Complement(s[|s| - 1]) && r[1] == Complement(s[|s| - 2]);
      assert r[|r| - 1] == Complement(s[0]) && r[|r| - 2] == Complement(s[1]);
      ComplementInvolutive(s[0]);
      ComplementInvolutive(s[1]);
      ComplementInvolutive(s[|s| - 1]);
      ComplementInvolutive(s[|s| - 2]);
    }
  }

  /** A strand is a single run exactly when its reverse complement is. */
  lemma ReverseComplementUniform(s: Strand)
    ensures Uniform(ReverseComplement(s)) <==> Uniform(s)
  {
    var r := ReverseComplement(s);
    if s != [] && Uniform(s) {
      forall t | 0 <= t < |r|
        ensures r[t] == r[0]
      {
        assert s[|s| - 1 - t] == s[0] && s[|s| - 1] == s[0];
      }
    }
    if s != [] && Uniform(r) {
      forall t | 0 <= t < |s|
        ensures s[t] == s[0]
      {
        assert r[|s| - 1 - t] == r[0] && r[|s| - 1] == r[0];
        ComplementInvolutive(s[t]);
        ComplementInvolutive(s[0]);
        ComplementInvolutive(s[|s| - 1]);
      }
    }
  }

  /** The reverse complement of a concatenation is that of the parts, in swapped order. */
  lemma ReverseComplementAppend(a: Strand, b: Strand)
    ensures ReverseComplement(a + b) == ReverseComplement(b) + ReverseComplement(a)
  {
    var l, r := ReverseComplement(a + b), ReverseComplement(b) + ReverseComplement(a);
    forall i | 0 <= i < |l|
      ensures l[i] == r[i]
    {
      if i < |b| {
        assert (a + b)[|a + b| - 1 - i] == b[|b| - 1 - i];
      } else {
        assert (a + b)[|a + b| - 1 - i] == a[|a| - 1 - (i - |b|)];
      }
    }
  }

  /** Complementing keeps GC-ness, so the reverse complement has the same GC count. */
  lemma {:induction false} GcCountReverseComplement(s: Strand)
    ensures GcCount(ReverseComplement(s)) == GcCount(s)
    decreases |s|
  {
    if s != [] {
      var s', x := s[..|s| - 1], s[|s| - 1];
      assert s == s' + [x];
      ReverseComplementAppend(s', [x]);
      GcCountReverseComplement(s');
      GcCountAppend(ReverseComplement([x]), ReverseComplement(s'));
      assert ReverseComplement([x]) == [Complement(x)];
      assert GcCount([Complement(x)]) == GcCount([x]) by {
        assert [Complement(x)][..0] == [] && [x][..0] == [];
      }
      GcCountAppend(s', [x]);
    }
  }
}
