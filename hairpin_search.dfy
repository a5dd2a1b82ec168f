/**
 * The hairpin search of basePenalties.py: a stem of up to `maxHairpin`
 * bases starting at `stem1Start` is paired, base by base and from its far
 * end inwards, with a stem ending at `stem2Start + maxHairpin - 1`, across
 * a motif stream in which elements of the current element's kind (size
 * `elem1Size`) alternate with elements of the opposite kind (size
 * `elem2Size`). Positions are taken modulo the motif size; when a
 * position falls into a neighbouring element the search fans out over
 * every candidate element of that pool.
 *
 * The source threads a shared list through mutually recursive methods that
 * return a boolean; here each of them is a function returning the boolean
 * ("found") together with the hairpin lengths it recorded, in order, or an
 * IndexError where the source would raise one.
 */
module HairpinSearch {
  import opened Nucleotides
  import opened Outcomes

  type Elem = seq<Nuc>
  type Pair = (Elem, Elem)

  datatype SearchError = IndexError

  type Outcome<T> = Result<T, SearchError>

  /** Return value of a dispatcher: its boolean result and the lengths it recorded. */
  datatype Walk = Walk(found: bool, samples: seq<nat>)

  /** The search context: the `info` dictionary plus the geometry and the two stem starts. */
  datatype Window = Window(
    motifSize: int,
    maxHairpin: int,
    curElem: Elem,
    elems1: seq<Elem>,
    elem1Size: int,
    elems2: seq<Elem>,
    elem2Size: int,
    stem1Start: int,
    stem2Start: int)

  predicate WellFormed(w: Window)
  {
    w.motifSize > 0
  }

  /** Which of the four stem-walk procedures (hairpin_count_*) a pair of elements goes to. */
  datatype Kind = Elem1Elem1 | Elem1Elem2 | Elem2Elem1 | Elem2Elem2

  // ---------------------------------------------------------------------
  // Positions and regions

  function Stem1Pos(w: Window, j: int): int { w.stem1Start + j }

  function Stem2Pos(w: Window, j: int): int { w.stem2Start + w.maxHairpin - 1 - j }

  predicate InCurElem(w: Window, pos: int)
  {
    0 <= pos < w.elem1Size
  }

  predicate InElem2(w: Window, pos: int)
    requires WellFormed(w)
  {
    pos % w.motifSize >= w.elem1Size
  }

  predicate InOtherElem1(w: Window, pos: int)
    requires WellFormed(w)
  {
    !(InCurElem(w, pos) || InElem2(w, pos))
  }

  datatype Region = Current | SameKind | OppositeKind

  /** The region of a position; the three region predicates partition the integers. */
  function RegionOf(w: Window, pos: int): (r: Region)
    requires WellFormed(w) && 0 <= w.elem1Size <= w.motifSize
    ensures r == Current <==> InCurElem(w, pos)
    ensures r == OppositeKind <==> InElem2(w, pos)
    ensures r == SameKind <==> InOtherElem1(w, pos)
  {
    if InCurElem(w, pos) then
      assert pos % w.motifSize == pos;
      Current
    else if InElem2(w, pos) then OppositeKind
    else SameKind
  }

  /** Whether both positions may lie in one same-kind element (as the source decides it). */
  predicate IsInSameElem1(w: Window, pos1: int, pos2: int)
    requires WellFormed(w)
  {
    if InElem2(w, pos1) || InElem2(w, pos2) then false
    else
      var sameCur := InCurElem(w, pos1) && InCurElem(w, pos2);
      var pos1Back := !InCurElem(w, pos1) && pos1 < 0;
      var pos2Back := pos2 < 0 && pos2 >= -w.elem2Size - w.elem1Size;
      var pos1Front := !InCurElem(w, pos1) && pos1 >= w.elem1Size;
      var pos2Front := pos2 > w.elem1Size && pos1 < w.elem2Size + w.elem1Size * 2;
      sameCur || (pos1Back && pos2Back) || (pos1Front && pos2Front)
  }

  /** Whether both positions may lie in one opposite-kind element. */
  predicate IsInSameElem2(w: Window, pos1: int, pos2: int)
    requires WellFormed(w)
  {
    if !(InElem2(w, pos1) && InElem2(w, pos2)) then false
    else
      (pos1 < 0 && pos2 < 0 && pos2 >= -w.elem2Size)
      || (pos1 >= w.elem1Size && pos2 > 0 && pos2 < w.elem1Size + w.elem2Size)
  }

  /** The guard of each dispatcher, on the two stem positions at step j. */
  predicate InClass(w: Window, k: Kind, j: int)
    requires WellFormed(w)
  {
    var p1 := Stem1Pos(w, j);
    var p2 := Stem2Pos(w, j);
    match k
    case Elem1Elem1 => !InElem2(w, p1) && !InElem2(w, p2)
    case Elem1Elem2 => !InElem2(w, p1) && InElem2(w, p2)
    case Elem2Elem1 => InElem2(w, p1) && InOtherElem1(w, p2)
    case Elem2Elem2 => InElem2(w, p1) && InElem2(w, p2)
  }

  /** Python indexing: negative indices count from the end; anything else out of range fails. */
  function PyIndex(s: Elem, i: int): (r: Outcome<Nuc>)
    ensures r.Ok? <==> -|s| <= i < |s|
    ensures 0 <= i < |s| ==> r == Ok(s[i])
  {
    if 0 <= i < |s| then Ok(s[i])
    else if -|s| <= i < 0 then Ok(s[|s| + i])
    else Err(IndexError)
  }

  // ---------------------------------------------------------------------
  // The element pairs each dispatcher hands to a stem walk, in loop order

  /** (x, e) for e in pool, skipping e when `skip` holds and e differs from x. */
  function PairsWithFirst(x: Elem, pool: seq<Elem>, skip: bool): (ps: seq<Pair>)
    ensures forall p :: p in ps ==> p.0 == x && p.1 in pool
  {
    if pool == [] then []
    else (if skip && x != pool[0] then [] else [(x, pool[0])]) + PairsWithFirst(x, pool[1..], skip)
  }

  /** (e, x) for e in pool, skipping e when `skip` holds and e differs from x. */
  function PairsWithSecond(x: Elem, pool: seq<Elem>, skip: bool): (ps: seq<Pair>)
    ensures forall p :: p in ps ==> p.1 == x && p.0 in pool
  {
    if pool == [] then []
    else (if skip && pool[0] != x then [] else [(pool[0], x)]) + PairsWithSecond(x, pool[1..], skip)
  }

  /** The nested loop over pool1 (outer) and pool2 (inner). */
  function PairsAcross(pool1: seq<Elem>, pool2: seq<Elem>, skip: bool): (ps: seq<Pair>)
    ensures forall p :: p in ps ==> p.0 in pool1 && p.1 in pool2
  {
    if pool1 == [] then []
    else PairsWithFirst(pool1[0], pool2, skip) + PairsAcross(pool1[1..], pool2, skip)
  }

  /**
   * For each opposite element e2 of `pool2`: the same-kind elements first
   * (unless `withPool1` is false), then the current element; e2 goes
   * second when `e2Second` holds, first otherwise.
   */
  function PairsPerOpposite(w: Window, pool2: seq<Elem>, withPool1: bool, e2Second: bool): (ps: seq<Pair>)
    ensures e2Second ==> forall p :: p in ps ==> (p.0 in w.elems1 || p.0 == w.curElem) && p.1 in pool2
    ensures !e2Second ==> forall p :: p in ps ==> p.0 in pool2 && (p.1 in w.elems1 || p.1 == w.curElem)
  {
    if pool2 == [] then []
    else
      var e2 := pool2[0];
      var inner :=
        if !withPool1 then []
        else if e2Second then PairsWithSecond(e2, w.elems1, false)
        else PairsWithFirst(e2, w.elems1, false);
      inner + [if e2Second then (w.curElem, e2) else (e2, w.curElem)]
      + PairsPerOpposite(w, pool2[1..], withPool1, e2Second)
  }

  function Pairs11(w: Window, j: int, e11: Elem, e12: Elem): seq<Pair>
    requires WellFormed(w)
  {
    var p1 := Stem1Pos(w, j);
    var p2 := Stem2Pos(w, j);
    var same := IsInSameElem1(w, p1, p2);
    if e11 != [] && e12 != [] then [(e11, e12)]
    else if e11 != [] then
      (if !InCurElem(w, p2) then PairsWithFirst(e11, w.elems1, same) else []) + [(e11, w.curElem)]
    else if e12 != [] then
      (if !InCurElem(w, p1) then PairsWithSecond(e12, w.elems1, same) else []) + [(w.curElem, e12)]
    else
      var both := InCurElem(w, p1) && InCurElem(w, p2);
      (if !both && InCurElem(w, p1) then PairsWithFirst(w.curElem, w.elems1, same)
       else if !both && InCurElem(w, p2) then PairsWithSecond(w.curElem, w.elems1, same)
       else if !(InCurElem(w, p1) || InCurElem(w, p2)) then PairsAcross(w.elems1, w.elems1, same)
       else [])
      + [(w.curElem, w.curElem)]
  }

  function Pairs12(w: Window, j: int, e1: Elem, e2: Elem): seq<Pair>
    requires WellFormed(w)
  {
    var p1 := Stem1Pos(w, j);
    if e1 != [] && e2 != [] then [(e1, e2)]
    else if e1 != [] then PairsWithFirst(e1, w.elems2, false)
    else if e2 != [] then
      (if !InCurElem(w, p1) then PairsWithSecond(e2, w.elems1, false) else []) + [(w.curElem, e2)]
    else PairsPerOpposite(w, w.elems2, !InCurElem(w, p1), true)
  }

  function Pairs21(w: Window, j: int, e2: Elem, e1: Elem): seq<Pair>
    requires WellFormed(w)
  {
    var p2 := Stem2Pos(w, j);
    if e2 != [] && e1 != [] then [(e2, e1)]
    else if e2 != [] then
      (if !InCurElem(w, p2) then PairsWithFirst(e2, w.elems1, false) else []) + [(e2, w.curElem)]
    else if e1 != [] then PairsWithSecond(e1, w.elems2, false)
    else PairsPerOpposite(w, w.elems2, !InCurElem(w, p2), false)
  }

  function Pairs22(w: Window, j: int, e21: Elem, e22: Elem): seq<Pair>
    requires WellFormed(w)
  {
    var same := IsInSameElem2(w, Stem1Pos(w, j), Stem2Pos(w, j));
    if e21 != [] && e22 != [] then [(e21, e22)]
    else if e21 != [] then PairsWithFirst(e21, w.elems2, same)
    else if e22 != [] then PairsWithSecond(e22, w.elems2, same)
    else PairsAcross(w.elems2, w.elems2, same)
  }

  // ---------------------------------------------------------------------
  // The two properties every function of the search keeps.
  //
  // Bounded: started with len + j + 1 <= maxHairpin (the top-level call has
  // len = 0 and j = maxHairpin - 1), every recorded length is in
  // [1, maxHairpin].
  //
  // Safe: no IndexError when the elements have their declared sizes and
  // either the opposite pool is empty (then only same-kind walks run) or
  // the second stem starts at a non-negative position (forward search).

  predicate AllIn(s: seq<nat>, hi: int)
  {
    forall x :: x in s ==> 1 <= x <= hi
  }

  predicate Shaped(w: Window)
  {
    && w.motifSize > 0
    && w.elem1Size >= 1 && w.elem2Size >= 1
    && w.motifSize == w.elem1Size + w.elem2Size
    && |w.curElem| <= w.elem1Size
    && (forall i :: 0 <= i < |w.elems1| ==> |w.elems1[i]| <= w.elem1Size)
    && (forall i :: 0 <= i < |w.elems2| ==> |w.elems2[i]| == w.elem2Size)
    && (w.elems2 != [] ==> w.stem2Start >= 0)
  }

  /** A same-kind argument fits its slot. */
  predicate Arg1(w: Window, e: Elem) { |e| <= w.elem1Size }

  /** An opposite-kind element drawn from a non-empty opposite pool. */
  predicate Member2(w: Window, e: Elem) { w.elems2 != [] && |e| == w.elem2Size }

  /** An opposite-kind argument is absent ("") or drawn from the opposite pool. */
  predicate Arg2(w: Window, e: Elem) { e == [] || Member2(w, e) }

  predicate PairFits(w: Window, k: Kind, p: Pair)
  {
    match k
    case Elem1Elem1 => Arg1(w, p.0) && Arg1(w, p.1)
    case Elem1Elem2 => Arg1(w, p.0) && Member2(w, p.1)
    case Elem2Elem1 => Member2(w, p.0) && Arg1(w, p.1)
    case Elem2Elem2 => Member2(w, p.0) && Member2(w, p.1)
  }

  predicate PairsFit(w: Window, k: Kind, ps: seq<Pair>)
  {
    forall p :: p in ps ==> PairFits(w, k, p)
  }

  // ---------------------------------------------------------------------
  // send_to_all_check and the two pos1 dispatchers

  /**
   * Walks j from curJ down to 0 asking both pos1 dispatchers; records the
   * current length when the walk runs off the stem with a non-zero length.
   */
  function SendToAllCheck(w: Window, curJ: int, len: nat, e11: Elem, e12: Elem, e21: Elem, e22: Elem): (r: Outcome<Walk>)
    requires WellFormed(w)
    decreases curJ + 1, 6, 0, 0
    ensures curJ < 0 ==> r.Ok?
    ensures curJ >= -1 && len + curJ + 1 <= w.maxHairpin && r.Ok? ==> AllIn(r.value.samples, w.maxHairpin)
    ensures Shaped(w) && len + curJ + 1 <= w.maxHairpin && Arg1(w, e11) && Arg1(w, e12) && Arg2(w, e21) && Arg2(w, e22) ==> r.Ok?
  {
    var first := if curJ < 0 && len > 0 then [len] else [];
    var rest :- AllCheckLoop(w, curJ, len, e11, e12, e21, e22);
    Ok(Walk(rest.found, first + rest.samples))
  }

  function AllCheckLoop(w: Window, curJ: int, len: nat, e11: Elem, e12: Elem, e21: Elem, e22: Elem): (r: Outcome<Walk>)
    requires WellFormed(w)
    decreases curJ + 1, 5, 0, 0
    ensures curJ < 0 ==> r.Ok?
    ensures len + curJ + 1 <= w.maxHairpin && r.Ok? ==> AllIn(r.value.samples, w.maxHairpin)
    ensures Shaped(w) && len + curJ + 1 <= w.maxHairpin && Arg1(w, e11) && Arg1(w, e12) && Arg2(w, e21) && Arg2(w, e22) ==> r.Ok?
  {
    if curJ < 0 then Ok(Walk(false, []))
    else
      var x :- SendToAllPos1Elem1(w, curJ, len, e11, e12, e22);
      if x.found then Ok(Walk(true, x.samples))
      else
        var y :- SendToAllPos1Elem2(w, curJ, len, e21, e22, e12);
        if y.found then Ok(Walk(true, x.samples + y.samples))
        else if curJ - 1 < 0 && len > 0 then Ok(Walk(true, x.samples + y.samples + [len]))
        else
          var rest :- AllCheckLoop(w, curJ - 1, len, e11, e12, e21, e22);
          Ok(Walk(rest.found, x.samples + y.samples + rest.samples))
  }

  function SendToAllPos1Elem1(w: Window, j: int, len: nat, e11: Elem, e12: Elem, e2: Elem): (r: Outcome<Walk>)
    requires WellFormed(w) && j >= 0
    decreases j + 1, 4, 0, 0
    ensures len + j + 1 <= w.maxHairpin && r.Ok? ==> AllIn(r.value.samples, w.maxHairpin)
    ensures Shaped(w) && len + j + 1 <= w.maxHairpin && Arg1(w, e11) && Arg1(w, e12) && Arg2(w, e2) ==> r.Ok?
  {
    var x :- SendToElem1Elem1(w, j, len, e11, e12);
    if x.found then Ok(x)
    else
      var y :- SendToElem1Elem2(w, j, len, e11, e2);
      Ok(Walk(y.found, x.samples + y.samples))
  }

  function SendToAllPos1Elem2(w: Window, j: int, len: nat, e21: Elem, e22: Elem, e1: Elem): (r: Outcome<Walk>)
    requires WellFormed(w) && j >= 0
    decreases j + 1, 4, 0, 0
    ensures len + j + 1 <= w.maxHairpin && r.Ok? ==> AllIn(r.value.samples, w.maxHairpin)
    ensures Shaped(w) && len + j + 1 <= w.maxHairpin && Arg2(w, e21) && Arg2(w, e22) && Arg1(w, e1) ==> r.Ok?
  {
    var x :- SendToElem2Elem1(w, j, len, e21, e1);
    if x.found then Ok(x)
    else
      var y :- SendToElem2Elem2(w, j, len, e21, e22);
      Ok(Walk(y.found, x.samples + y.samples))
  }

  // ---------------------------------------------------------------------
  // The four dispatchers

  function SendToElem1Elem1(w: Window, j: int, len: nat, e11: Elem, e12: Elem): (r: Outcome<Walk>)
    requires WellFormed(w) && j >= 0
    decreases j + 1, if InClass(w, Elem1Elem1, j) then 3 else 0, 0, 0
    ensures !InClass(w, Elem1Elem1, j) ==> r == Ok(Walk(false, []))
    ensures InClass(w, Elem1Elem1, j) && r.Ok? ==> r.value.found
    ensures len + j + 1 <= w.maxHairpin && r.Ok? ==> AllIn(r.value.samples, w.maxHairpin)
    ensures Shaped(w) && len + j + 1 <= w.maxHairpin && Arg1(w, e11) && Arg1(w, e12) ==> r.Ok?
  {
    if !InClass(w, Elem1Elem1, j) then Ok(Walk(false, []))
    else
      var ps := Pairs11(w, j, e11, e12);
      assert Shaped(w) && Arg1(w, e11) && Arg1(w, e12) ==> PairsFit(w, Elem1Elem1, ps);
      var s :- CountAll(w, Elem1Elem1, ps, j, len);
      Ok(Walk(true, s))
  }

  function SendToElem1Elem2(w: Window, j: int, len: nat, e1: Elem, e2: Elem): (r: Outcome<Walk>)
    requires WellFormed(w) && j >= 0
    decreases j + 1, if InClass(w, Elem1Elem2, j) then 3 else 0, 0, 0
    ensures !InClass(w, Elem1Elem2, j) ==> r == Ok(Walk(false, []))
    ensures InClass(w, Elem1Elem2, j) && (e2 != [] || w.elems2 != []) && r.Ok? ==> r.value.found
    ensures len + j + 1 <= w.maxHairpin && r.Ok? ==> AllIn(r.value.samples, w.maxHairpin)
    ensures Shaped(w) && len + j + 1 <= w.maxHairpin && Arg1(w, e1) && Arg2(w, e2) ==> r.Ok?
  {
    if !InClass(w, Elem1Elem2, j) then Ok(Walk(false, []))
    else
      var ps := Pairs12(w, j, e1, e2);
      assert Shaped(w) && Arg1(w, e1) && Arg2(w, e2) ==> PairsFit(w, Elem1Elem2, ps);
      var s :- CountAll(w, Elem1Elem2, ps, j, len);
      if !(e2 != [] || w.elems2 != []) then
        var rest :- SendToAllCheck(w, j - 1, len, e1, [], [], e2);
        Ok(Walk(rest.found, s + rest.samples))
      else Ok(Walk(true, s))
  }

  function SendToElem2Elem1(w: Window, j: int, len: nat, e2: Elem, e1: Elem): (r: Outcome<Walk>)
    requires WellFormed(w) && j >= 0
    decreases j + 1, if InClass(w, Elem2Elem1, j) then 3 else 0, 0, 0
    ensures !InClass(w, Elem2Elem1, j) ==> r == Ok(Walk(false, []))
    ensures InClass(w, Elem2Elem1, j) && (e2 != [] || w.elems2 != []) && r.Ok? ==> r.value.found
    ensures len + j + 1 <= w.maxHairpin && r.Ok? ==> AllIn(r.value.samples, w.maxHairpin)
    ensures Shaped(w) && len + j + 1 <= w.maxHairpin && Arg2(w, e2) && Arg1(w, e1) ==> r.Ok?
  {
    if !InClass(w, Elem2Elem1, j) then Ok(Walk(false, []))
    else
      var ps := Pairs21(w, j, e2, e1);
      assert Shaped(w) && Arg2(w, e2) && Arg1(w, e1) ==> PairsFit(w, Elem2Elem1, ps);
      var s :- CountAll(w, Elem2Elem1, ps, j, len);
      if !(e2 != [] || w.elems2 != []) then
        var rest :- SendToAllCheck(w, j - 1, len, [], e1, e2, []);
        Ok(Walk(rest.found, s + rest.samples))
      else Ok(Walk(true, s))
  }

  function SendToElem2Elem2(w: Window, j: int, len: nat, e21: Elem, e22: Elem): (r: Outcome<Walk>)
    requires WellFormed(w) && j >= 0
    decreases j + 1, if InClass(w, Elem2Elem2, j) then 3 else 0, 0, 0
    ensures !InClass(w, Elem2Elem2, j) ==> r == Ok(Walk(false, []))
    ensures InClass(w, Elem2Elem2, j) && ((e21 != [] && e22 != []) || w.elems2 != []) && r.Ok? ==> r.value.found
    ensures len + j + 1 <= w.maxHairpin && r.Ok? ==> AllIn(r.value.samples, w.maxHairpin)
    ensures Shaped(w) && len + j + 1 <= w.maxHairpin && Arg2(w, e21) && Arg2(w, e22) ==> r.Ok?
  {
    if !InClass(w, Elem2Elem2, j) then Ok(Walk(false, []))
    else
      var ps := Pairs22(w, j, e21, e22);
      assert Shaped(w) && Arg2(w, e21) && Arg2(w, e22) ==> PairsFit(w, Elem2Elem2, ps);
      var s :- CountAll(w, Elem2Elem2, ps, j, len);
      if !((e21 != [] && e22 != []) || w.elems2 != []) then
        var rest :- SendToAllCheck(w, j - 1, len, [], [], e21, e22);
        Ok(Walk(rest.found, s + rest.samples))
      else Ok(Walk(true, s))
  }

  /** One stem walk per pair, in order. */
  function CountAll(w: Window, k: Kind, ps: seq<Pair>, j: int, len: nat): (r: Outcome<seq<nat>>)
    requires WellFormed(w) && InClass(w, k, j)
    decreases j + 1, 2, |ps|, 0
    ensures len + j + 1 <= w.maxHairpin && r.Ok? ==> AllIn(r.value, w.maxHairpin)
    ensures Shaped(w) && len + j + 1 <= w.maxHairpin && PairsFit(w, k, ps) ==> r.Ok?
  {
    if ps == [] then Ok([])
    else
      var s :- HairpinCount(w, k, ps[0].0, ps[0].1, j, len);
      var rest :- CountAll(w, k, ps[1..], j, len);
      Ok(s + rest)
  }

  function HairpinCount(w: Window, k: Kind, a: Elem, b: Elem, curJ: int, len: nat): (r: Outcome<seq<nat>>)
    requires WellFormed(w) && InClass(w, k, curJ)
    decreases curJ + 1, 1, curJ + 1, 3
    ensures len + curJ + 1 <= w.maxHairpin && r.Ok? ==> AllIn(r.value, w.maxHairpin)
    ensures Shaped(w) && len + curJ + 1 <= w.maxHairpin && PairFits(w, k, (a, b)) ==> r.Ok?
  {
    match k
    case Elem1Elem1 => HairpinCountElem1Elem1(w, a, b, curJ, len)
    case Elem1Elem2 => HairpinCountElem1Elem2(w, a, b, curJ, len)
    case Elem2Elem1 => HairpinCountElem2Elem1(w, a, b, curJ, len)
    case Elem2Elem2 => HairpinCountElem2Elem2(w, a, b, curJ, len)
  }

  // ---------------------------------------------------------------------
  // The four stem walks (hairpin_count_*): j runs from curJ down to 0

  /** Euclidean division is unique. */
  lemma ModUnique(a: int, m: int, q: int, r: int)
    requires m > 0 && 0 <= r < m && a == q * m + r
    ensures a % m == r
  {
    var d := a / m;
    assert a == d * m + a % m;
    assert (q - d) * m == a % m - r;
    if q - d >= 1 {
      MulAtLeast(q - d, m);
    } else if d - q >= 1 {
      MulAtLeast(d - q, m);
    }
  }

  lemma {:induction false} MulAtLeast(k: int, m: int)
    requires k >= 1 && m > 0
    ensures k * m >= m
    decreases k
  {
    if k > 1 {
      MulAtLeast(k - 1, m);
      assert k * m == (k - 1) * m + m;
    }
  }

  lemma ModShift(x: int, y: int, m: int)
    requires m > 0
    ensures (x % m + y) % m == (x + y) % m
  {
    var d := x / m;
    var e := (x % m + y) / m;
    var t := (x % m + y) % m;
    assert x == d * m + x % m;
    assert x % m + y == e * m + t;
    assert x + y == (d + e) * m + t;
    ModUnique(x + y, m, d + e, t);
  }

  /** The stem positions at step j, reduced into one motif as the source does. */
  function PosA(w: Window, j: int): (p: int)
    requires WellFormed(w)
    ensures p == Stem1Pos(w, j) % w.motifSize
    ensures 0 <= p < w.motifSize
  {
    ModShift(w.stem1Start, j, w.motifSize);
    (w.stem1Start % w.motifSize + j) % w.motifSize
  }

  function PosB(w: Window, j: int): (p: int)
    requires WellFormed(w)
    ensures p == Stem2Pos(w, j) % w.motifSize
    ensures 0 <= p < w.motifSize
  {
    ModShift(w.stem2Start, w.maxHairpin - 1 - j, w.motifSize);
    (w.stem2Start % w.motifSize + w.maxHairpin - 1 - j) % w.motifSize
  }

  function HairpinCountElem1Elem1(w: Window, a: Elem, b: Elem, curJ: int, len: nat): (r: Outcome<seq<nat>>)
    requires WellFormed(w) && InClass(w, Elem1Elem1, curJ)
    decreases curJ + 1, 1, curJ + 1, 2
    ensures len + curJ + 1 <= w.maxHairpin && r.Ok? ==> AllIn(r.value, w.maxHairpin)
    ensures Shaped(w) && len + curJ + 1 <= w.maxHairpin && Arg1(w, a) && Arg1(w, b) ==> r.Ok?
  {
    Walk11(w, a, b, curJ, curJ, len)
  }

  /** The three dispatchers asked at step j before the bases are compared; the first that returns True ends the walk. */
  function Interrupts11(w: Window, a: Elem, b: Elem, curJ: int, j: int, len: nat): (r: Outcome<Walk>)
    requires WellFormed(w) && InClass(w, Elem1Elem1, curJ) && 0 <= j <= curJ
    decreases curJ + 1, 1, j + 1, 0
    ensures len + j + 1 <= w.maxHairpin && r.Ok? ==> AllIn(r.value.samples, w.maxHairpin)
    ensures Shaped(w) && len + j + 1 <= w.maxHairpin && Arg1(w, a) && Arg1(w, b) ==> r.Ok?
  {
    var r1 :- SendToElem2Elem1(w, j, len, [], b);
    if r1.found then Ok(r1)
    else
      var r2 :- SendToElem2Elem2(w, j, len, [], []);
      if r2.found then Ok(Walk(true, r1.samples + r2.samples))
      else
        var r3 :- SendToElem1Elem2(w, j, len, a, []);
        Ok(Walk(r3.found, r1.samples + r2.samples + r3.samples))
  }

  function Walk11(w: Window, a: Elem, b: Elem, curJ: int, j: int, len: nat): (r: Outcome<seq<nat>>)
    requires WellFormed(w) && InClass(w, Elem1Elem1, curJ) && j <= curJ
    decreases curJ + 1, 1, j + 1, 1
    ensures len + j + 1 <= w.maxHairpin && r.Ok? ==> AllIn(r.value, w.maxHairpin)
    ensures Shaped(w) && len + j + 1 <= w.maxHairpin && Arg1(w, a) && Arg1(w, b) ==> r.Ok?
  {
    if j < 0 then Ok([])
    else
      var d :- Interrupts11(w, a, b, curJ, j, len);
      if d.found then Ok(d.samples)
      else
            var posA := PosA(w, j);
            var posB := PosB(w, j);
            if posA >= |a| || posB >= |b| then
              var rest :- Walk11(w, a, b, curJ, j - 1, len);
              Ok(d.samples + rest)
            else if a[posA] == Complement(b[posB]) then
              var rest :- Walk11(w, a, b, curJ, j - 1, len + 1);
              Ok(d.samples + (if j == 0 then [len + 1] else []) + rest)
            else Ok(d.samples)
  }

  function HairpinCountElem1Elem2(w: Window, a: Elem, b: Elem, curJ: int, len: nat): (r: Outcome<seq<nat>>)
    requires WellFormed(w) && InClass(w, Elem1Elem2, curJ)
    decreases curJ + 1, 1, curJ + 1, 2
    ensures len + curJ + 1 <= w.maxHairpin && r.Ok? ==> AllIn(r.value, w.maxHairpin)
    ensures Shaped(w) && len + curJ + 1 <= w.maxHairpin && Arg1(w, a) && Member2(w, b) ==> r.Ok?
  {
    Walk12(w, a, b, curJ, curJ, len)
  }

  /** The three dispatchers asked at step j before the bases are compared; the first that returns True ends the walk. */
  function Interrupts12(w: Window, a: Elem, b: Elem, curJ: int, j: int, len: nat): (r: Outcome<Walk>)
    requires WellFormed(w) && InClass(w, Elem1Elem2, curJ) && 0 <= j <= curJ
    decreases curJ + 1, 1, j + 1, 0
    ensures len + j + 1 <= w.maxHairpin && r.Ok? ==> AllIn(r.value.samples, w.maxHairpin)
    ensures Shaped(w) && len + j + 1 <= w.maxHairpin && Arg1(w, a) && Member2(w, b) ==> r.Ok?
    ensures r.Ok? && !r.value.found ==> (!InClass(w, Elem1Elem1, j))
  {
    var r1 :- SendToElem2Elem1(w, j, len, [], []);
    if r1.found then Ok(r1)
    else
      var r2 :- SendToElem2Elem2(w, j, len, [], b);
      if r2.found then Ok(Walk(true, r1.samples + r2.samples))
      else
        var r3 :- SendToElem1Elem1(w, j, len, a, []);
        Ok(Walk(r3.found, r1.samples + r2.samples + r3.samples))
  }

  function Walk12(w: Window, a: Elem, b: Elem, curJ: int, j: int, len: nat): (r: Outcome<seq<nat>>)
    requires WellFormed(w) && InClass(w, Elem1Elem2, curJ) && j <= curJ
    decreases curJ + 1, 1, j + 1, 1
    ensures len + j + 1 <= w.maxHairpin && r.Ok? ==> AllIn(r.value, w.maxHairpin)
    ensures Shaped(w) && len + j + 1 <= w.maxHairpin && Arg1(w, a) && Member2(w, b) ==> r.Ok?
  {
    if j < 0 then Ok([])
    else
      var d :- Interrupts12(w, a, b, curJ, j, len);
      if d.found then Ok(d.samples)
      else
            var posA := PosA(w, j);
            var posB := PosB(w, j);
            if posA >= |a| then
              var rest :- Walk12(w, a, b, curJ, j - 1, len);
              Ok(d.samples + rest)
            else
              var y :- PyIndex(b, posB - w.elem1Size);
              if a[posA] == Complement(y) then
                var rest :- Walk12(w, a, b, curJ, j - 1, len + 1);
                Ok(d.samples + (if j == 0 then [len + 1] else []) + rest)
              else Ok(d.samples)
  }

  function HairpinCountElem2Elem1(w: Window, a: Elem, b: Elem, curJ: int, len: nat): (r: Outcome<seq<nat>>)
    requires WellFormed(w) && InClass(w, Elem2Elem1, curJ)
    decreases curJ + 1, 1, curJ + 1, 2
    ensures len + curJ + 1 <= w.maxHairpin && r.Ok? ==> AllIn(r.value, w.maxHairpin)
    ensures Shaped(w) && len + curJ + 1 <= w.maxHairpin && Member2(w, a) && Arg1(w, b) ==> r.Ok?
  {
    Walk21(w, a, b, curJ, curJ, len)
  }

  /** The three dispatchers asked at step j before the bases are compared; the first that returns True ends the walk. */
  function Interrupts21(w: Window, a: Elem, b: Elem, curJ: int, j: int, len: nat): (r: Outcome<Walk>)
    requires WellFormed(w) && InClass(w, Elem2Elem1, curJ) && 0 <= j <= curJ
    decreases curJ + 1, 1, j + 1, 0
    ensures len + j + 1 <= w.maxHairpin && r.Ok? ==> AllIn(r.value.samples, w.maxHairpin)
    ensures Shaped(w) && len + j + 1 <= w.maxHairpin && Member2(w, a) && Arg1(w, b) ==> r.Ok?
    ensures r.Ok? && !r.value.found ==> (!InClass(w, Elem1Elem1, j))
  {
    var r1 :- SendToElem1Elem1(w, j, len, [], b);
    if r1.found then Ok(r1)
    else
      var r2 :- SendToElem1Elem2(w, j, len, [], []);
      if r2.found then Ok(Walk(true, r1.samples + r2.samples))
      else
        var r3 :- SendToElem2Elem2(w, j, len, a, []);
        Ok(Walk(r3.found, r1.samples + r2.samples + r3.samples))
  }

  function Walk21(w: Window, a: Elem, b: Elem, curJ: int, j: int, len: nat): (r: Outcome<seq<nat>>)
    requires WellFormed(w) && InClass(w, Elem2Elem1, curJ) && j <= curJ
    decreases curJ + 1, 1, j + 1, 1
    ensures len + j + 1 <= w.maxHairpin && r.Ok? ==> AllIn(r.value, w.maxHairpin)
    ensures Shaped(w) && len + j + 1 <= w.maxHairpin && Member2(w, a) && Arg1(w, b) ==> r.Ok?
  {
    if j < 0 then Ok([])
    else
      var d :- Interrupts21(w, a, b, curJ, j, len);
      if d.found then Ok(d.samples)
      else
            var posA := PosA(w, j);
            var posB := PosB(w, j);
            if posB >= |b| then
              var rest :- Walk21(w, a, b, curJ, j - 1, len);
              Ok(d.samples + rest)
            else
              var x :- PyIndex(a, posA - w.elem1Size);
              if x == Complement(b[posB]) then
                var rest :- Walk21(w, a, b, curJ, j - 1, len + 1);
                Ok(d.samples + (if j == 0 then [len + 1] else []) + rest)
              else Ok(d.samples)
  }

  function HairpinCountElem2Elem2(w: Window, a: Elem, b: Elem, curJ: int, len: nat): (r: Outcome<seq<nat>>)
    requires WellFormed(w) && InClass(w, Elem2Elem2, curJ)
    decreases curJ + 1, 1, curJ + 1, 2
    ensures len + curJ + 1 <= w.maxHairpin && r.Ok? ==> AllIn(r.value, w.maxHairpin)
    ensures Shaped(w) && len + curJ + 1 <= w.maxHairpin && Member2(w, a) && Member2(w, b) ==> r.Ok?
  {
    Walk22(w, a, b, curJ, curJ, len)
  }

  /** The three dispatchers asked at step j before the bases are compared; the first that returns True ends the walk. */
  function Interrupts22(w: Window, a: Elem, b: Elem, curJ: int, j: int, len: nat): (r: Outcome<Walk>)
    requires WellFormed(w) && InClass(w, Elem2Elem2, curJ) && 0 <= j <= curJ
    decreases curJ + 1, 1, j + 1, 0
    ensures len + j + 1 <= w.maxHairpin && r.Ok? ==> AllIn(r.value.samples, w.maxHairpin)
    ensures Shaped(w) && len + j + 1 <= w.maxHairpin && Member2(w, a) && Member2(w, b) ==> r.Ok?
    ensures r.Ok? && !r.value.found ==> (a != [] && b != [] ==> !InClass(w, Elem1Elem1, j) && !InClass(w, Elem1Elem2, j) && !InClass(w, Elem2Elem1, j))
  {
    var r1 :- SendToElem1Elem1(w, j, len, [], []);
    if r1.found then Ok(r1)
    else
      var r2 :- SendToElem1Elem2(w, j, len, [], b);
      if r2.found then Ok(Walk(true, r1.samples + r2.samples))
      else
        var r3 :- SendToElem2Elem1(w, j, len, a, []);
        Ok(Walk(r3.found, r1.samples + r2.samples + r3.samples))
  }

  /**
   * In a walk over two opposite-kind elements whose second stem starts at a
   * non-negative position, once none of the three dispatchers applies both
   * positions are in the opposite region.
   */
  lemma OppositeStepsStayOpposite(w: Window, curJ: int, j: int)
    requires WellFormed(w) && InClass(w, Elem2Elem2, curJ) && 0 <= j <= curJ
    ensures Shaped(w) && w.elems2 != [] && curJ + 1 <= w.maxHairpin
            && !InClass(w, Elem1Elem1, j) && !InClass(w, Elem1Elem2, j) && !InClass(w, Elem2Elem1, j)
            ==> w.elem1Size <= PosA(w, j) && w.elem1Size <= PosB(w, j)
  {
    if Shaped(w) && w.elems2 != [] && curJ + 1 <= w.maxHairpin
       && !InClass(w, Elem1Elem1, j) && !InClass(w, Elem1Elem2, j) && !InClass(w, Elem2Elem1, j)
    {
      var p2 := Stem2Pos(w, curJ);
      assert p2 >= 0;
      if p2 < w.elem1Size {
        ModUnique(p2, w.motifSize, 0, p2);
        assert false;
      }
      assert !InCurElem(w, Stem2Pos(w, j));
    }
  }

  function Walk22(w: Window, a: Elem, b: Elem, curJ: int, j: int, len: nat): (r: Outcome<seq<nat>>)
    requires WellFormed(w) && InClass(w, Elem2Elem2, curJ) && j <= curJ
    decreases curJ + 1, 1, j + 1, 1
    ensures len + j + 1 <= w.maxHairpin && r.Ok? ==> AllIn(r.value, w.maxHairpin)
    ensures Shaped(w) && len + j + 1 <= w.maxHairpin && curJ + 1 <= w.maxHairpin && Member2(w, a) && Member2(w, b) ==> r.Ok?
  {
    if j < 0 then Ok([])
    else
      var d :- Interrupts22(w, a, b, curJ, j, len);
      if d.found then Ok(d.samples)
      else
            OppositeStepsStayOpposite(w, curJ, j);
            var posA := PosA(w, j);
            var posB := PosB(w, j);
            var x :- PyIndex(a, posA - w.elem1Size);
            var y :- PyIndex(b, posB - w.elem1Size);
            if x == Complement(y) then
              var rest :- Walk22(w, a, b, curJ, j - 1, len + 1);
              Ok(d.samples + (if j == 0 then [len + 1] else []) + rest)
            else Ok(d.samples)
  }
}
