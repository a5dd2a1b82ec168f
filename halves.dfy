/**
 * The two halves of a key or joint (jointSize = keySize / 2 bases each)
 * and the lowest and highest GC counts of one half over a collection,
 * accumulated as the engines do, with -1 standing for "none seen yet".
 */
module KeyHalves {
  import opened Nucleotides

  datatype Half = FirstHalf | SecondHalf

  /** k[:jointSize] or k[jointSize:]. */
  function HalfOf(k: Strand, js: nat, half: Half): Strand
  {
    if half == FirstHalf then Take(k, js) else Drop(k, js)
  }

  /** min(acc, x), where an accumulator of -1 means that nothing was seen yet. */
  function MinSoFar(acc: int, x: int): int
  {
    if acc == -1 then x else if x < acc then x else acc
  }

  function MaxSoFar(acc: int, x: int): int
  {
    if x > acc then x else acc
  }

  /** The fewest G/C bases in one half of any of `keys`; -1 when there are none. */
  function HalfGcMin(keys: seq<Strand>, js: nat, half: Half): int
  {
    if keys == [] then -1
    else MinSoFar(HalfGcMin(keys[..|keys| - 1], js, half), GcCount(HalfOf(keys[|keys| - 1], js, half)))
  }

  /** The most G/C bases in one half of any of `keys`; -1 when there are none. */
  function HalfGcMax(keys: seq<Strand>, js: nat, half: Half): int
  {
    if keys == [] then -1
    else MaxSoFar(HalfGcMax(keys[..|keys| - 1], js, half), GcCount(HalfOf(keys[|keys| - 1], js, half)))
  }

  /** The GC counts of one half of each of `keys`. */
  function HalfGcs(keys: seq<Strand>, js: nat, half: Half): set<int>
  {
    if keys == [] then {} else HalfGcs(keys[..|keys| - 1], js, half) + {GcCount(HalfOf(keys[|keys| - 1], js, half))}
  }

  /** One half of each of `keys`: the joint registries. */
  function Halves(keys: seq<Strand>, js: nat, half: Half): set<Strand>
  {
    if keys == [] then {} else Halves(keys[..|keys| - 1], js, half) + {HalfOf(keys[|keys| - 1], js, half)}
  }

  lemma {:induction false} HalvesHas(keys: seq<Strand>, js: nat, half: Half, k: Strand)
    requires k in keys
    ensures HalfOf(k, js, half) in Halves(keys, js, half)
    ensures GcCount(HalfOf(k, js, half)) in HalfGcs(keys, js, half)
    decreases |keys|
  {
    if k != keys[|keys| - 1] {
      assert k in keys[..|keys| - 1] by {
        var i :| 0 <= i < |keys| && keys[i] == k;
        assert keys[..|keys| - 1][i] == k;
      }
      HalvesHas(keys[..|keys| - 1], js, half, k);
    }
  }

  /** The registries hold a lowest and a highest half GC count that some key attains. */
  lemma {:induction false} HalfGcBounds(keys: seq<Strand>, js: nat, half: Half)
    ensures keys == [] ==> HalfGcMin(keys, js, half) == -1 && HalfGcMax(keys, js, half) == -1
    ensures keys != [] ==> HalfGcMin(keys, js, half) in HalfGcs(keys, js, half)
    ensures keys != [] ==> HalfGcMax(keys, js, half) in HalfGcs(keys, js, half)
    ensures forall x :: x in HalfGcs(keys, js, half) ==> 0 <= HalfGcMin(keys, js, half) <= x <= HalfGcMax(keys, js, half)
    decreases |keys|
  {
    if keys != [] {
      HalfGcBounds(keys[..|keys| - 1], js, half);
    }
  }

  /** Registering a key that is already registered leaves the registries as they are. */
  lemma HalfGcKnown(keys: seq<Strand>, js: nat, half: Half, k: Strand)
    requires k in keys
    ensures MinSoFar(HalfGcMin(keys, js, half), GcCount(HalfOf(k, js, half))) == HalfGcMin(keys, js, half)
    ensures MaxSoFar(HalfGcMax(keys, js, half), GcCount(HalfOf(k, js, half))) == HalfGcMax(keys, js, half)
  {
    HalfGcBounds(keys, js, half);
    HalvesHas(keys, js, half, k);
  }
}
