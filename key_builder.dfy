/**
 * keyBuilder.py: keys are built base by base. For every position the
 * engine (BaseKeyPenalties) scores the four candidates key + n under each
 * active tag, a base is drawn from the weighted distribution, and the
 * engine follows the partial key with add_base; the finished key is
 * registered with add_key, so the keys built after it are scored
 * against it.
 */
module KeyBuilding {
  import opened Nucleotides
  import opened Outcomes
  import opened Scores
  import opened Configuration
  import opened Temperatures
  import opened Sampling
  import opened KeyPenaltyEngine
  import HairpinSearch

  /** The tags a key candidate is scored under; any other tag gives an empty list. */
  const KeyTags: set<string> := {"hom", "hairpin", "keyGcContent"}

  predicate KeyTag(t: string)
  {
    t in KeyTags
  }

  class KeyBuilder {
    const c: ValidConstraints
    const weights: map<string, real>
    const penalties: BaseKeyPenalties

    ghost predicate Valid()
      reads this, penalties
    {
      penalties.Valid() && penalties.c == c
    }

    /** KeyBuilder(constraints, hyperparameters, weights), with the hyperparameters' values. */
    constructor (c: ValidConstraints, temps: Settings, weights: map<string, real>)
      ensures Valid() && fresh(penalties)
      ensures this.c == c && this.weights == weights
      ensures penalties.keys == [] && penalties.temps == temps
    {
      this.c := c;
      this.weights := weights;
      penalties := new BaseKeyPenalties(c, temps);
    }

    /**
     * The errors a key tag can raise for a candidate key + n:
     * ZeroDivisionError from 'hom' with maxHom = 0, and IndexError from the
     * hairpin search, only from keySize bases on.
     */
    predicate TagRaises(key: Strand, t: string, e: BuildError)
    {
      || (t == "hom" && c.maxHom == 0 && e == ZeroDivisionError)
      || (t == "hairpin" && |key| >= c.keySize && e == IndexError)
    }

    /**
     * The penalty a key tag gives the candidate key + [n]: the hairpin
     * search may raise IndexError, and a homopolymer term h ** (run / 0)
     * raises ZeroDivisionError.
     */
    function Candidate(key: Strand, t: string, n: Nuc): Result<Penalty, BuildError>
      requires Valid()
      reads this, penalties
    {
      if t == "hom" then
        var p := penalties.GetHomopolymerPenalty(key, n);
        if Evaluable(p) then Ok(p) else Err(ZeroDivisionError)
      else if t == "hairpin" then
        match penalties.GetHairpinPenalty(key, n)
        case Ok(p) => Ok(p)
        case Err(_) => Err(IndexError)
      else Ok(Exact(penalties.GetGcPenalty(key, n)))
    }

    /**
     * Which candidates raise: under 'hom' only with maxHom = 0, and then
     * surely for the first base of a key and whenever the engine tracks
     * the key; under 'hairpin' only with IndexError, from keySize bases on.
     */
    lemma CandidateRaises(key: Strand, t: string, n: Nuc)
      requires Valid()
      ensures Candidate(key, t, n).Err? ==> TagRaises(key, t, Candidate(key, t, n).error)
      ensures t == "hom" && c.maxHom == 0 && (key == [] || (penalties.Tracking() && penalties.curKey == key))
              ==> Candidate(key, t, n) == Err(ZeroDivisionError)
    {
    }

    /** The candidates key + n for the first m nucleotides of the alphabet, under one tag. */
    function Candidates(key: Strand, t: string, m: nat): (r: seq<Result<Penalty, BuildError>>)
      requires Valid() && m <= 4
      reads this, penalties
      ensures |r| == m
    {
      if m == 0 then [] else Candidates(key, t, m - 1) + [Candidate(key, t, Alphabet[m - 1])]
    }

    /** The j-th candidate is key + the j-th nucleotide of the alphabet. */
    lemma {:induction false} CandidatesAt(key: Strand, t: string, m: nat)
      requires Valid() && m <= 4
      ensures forall j :: 0 <= j < m ==> Candidates(key, t, m)[j] == Candidate(key, t, Alphabet[j])
    {
      if m > 0 {
        CandidatesAt(key, t, m - 1);
      }
    }

    /** constraintPenalties[t] once the first m nucleotides of the alphabet are scored; any other tag gives an empty list. */
    function Column(key: Strand, t: string, m: nat): Result<seq<Penalty>, BuildError>
      requires Valid() && m <= 4
      reads this, penalties
    {
      if KeyTag(t) then Gather(Candidates(key, t, m)) else Ok([])
    }

    /**
     * A key tag's list is computed exactly when no candidate raises, and
     * holds one penalty per nucleotide, that of key + n
     * for A, T, C, G in order; any other tag's list stays empty.
     */
    lemma ColumnMeaning(key: Strand, t: string)
      requires Valid()
      ensures Column(key, t, 4).Ok? <==> !KeyTag(t) || forall j :: 0 <= j < 4 ==> Candidate(key, t, Alphabet[j]).Ok?
      ensures Column(key, t, 4).Ok? ==>
        && |Column(key, t, 4).value| == (if KeyTag(t) then 4 else 0)
        && forall j :: 0 <= j < |Column(key, t, 4).value| ==> Column(key, t, 4).value[j] == Candidate(key, t, Alphabet[j]).value
    {
      CandidatesAt(key, t, 4);
      GatherMeaning(Candidates(key, t, 4));
    }

    /**
     * Below keySize bases the hairpin search stays inside the key, so a
     * list can fail only under 'hom' with maxHom = 0, with
     * ZeroDivisionError; for an empty or tracked key it then fails from
     * the first nucleotide on.
     */
    lemma {:induction false} ColumnsOk(key: Strand, t: string, m: nat)
      requires Valid() && m <= 4 && |key| < c.keySize
      ensures Column(key, t, m).Err? ==> t == "hom" && c.maxHom == 0 && Column(key, t, m).error == ZeroDivisionError
      ensures 0 < m && t == "hom" && c.maxHom == 0 && (key == [] || (penalties.Tracking() && penalties.curKey == key))
              ==> Column(key, t, m) == Err(ZeroDivisionError)
    {
      if m > 0 && KeyTag(t) {
        ColumnsOk(key, t, m - 1);
        ColumnSnoc(key, t, m - 1);
        CandidateRaises(key, t, Alphabet[m - 1]);
      }
    }

    /**
     * One step of buildKey's scoring loops (keyBuilder.py:32-45): the list
     * of a tag gets the penalty of key + n, n being the m-th nucleotide;
     * a candidate that raises stops the build: IndexError from the
     * hairpin search, only from keySize bases on, or ZeroDivisionError
     * from 'hom' with maxHom = 0.
     */
    function ScoreTag(key: Strand, t: string, m: nat, row: seq<Penalty>): (r: Result<seq<Penalty>, BuildError>)
      requires Valid() && m < 4 && Column(key, t, m) == Ok(row)
      reads this, penalties
      ensures Column(key, t, m + 1) == r
      ensures r.Err? ==> Column(key, t, |Alphabet|) == r
      ensures r.Err? ==> TagRaises(key, t, r.error)
    {
      if KeyTag(t) then
        ColumnSnoc(key, t, m);
        CandidateRaises(key, t, Alphabet[m]);
        var h := Candidate(key, t, Alphabet[m]);
        if h.Err? then
          ColumnFails(key, t, m + 1);
          Err(h.error)
        else Ok(row + [h.value])
      else Ok(row)
    }

    /**
     * One round of buildKey's scoring loops (keyBuilder.py:32-45): every
     * active tag's list gets the penalty of key + n, n being the m-th
     * nucleotide.
     */
    method ScoreRound(key: Strand, tags: seq<string>, m: nat, rows: seq<seq<Penalty>>)
      returns (r: Result<seq<seq<Penalty>>, BuildError>, ghost failed: nat)
      requires Valid() && m < 4 && |rows| == |tags|
      requires forall i :: 0 <= i < |tags| ==> Column(key, tags[i], m) == Ok(rows[i])
      ensures r.Ok? ==> |r.value| == |tags| && forall i :: 0 <= i < |tags| ==> Column(key, tags[i], m + 1) == Ok(r.value[i])
      ensures r.Err? ==> failed < |tags| && (forall j :: 0 <= j < failed ==> Column(key, tags[j], m + 1).Ok?)
                         && Column(key, tags[failed], m + 1) == Err(r.error) && Column(key, tags[failed], |Alphabet|) == Err(r.error)
      ensures r.Err? ==> TagRaises(key, tags[failed], r.error)
    {
      failed := 0;
      var next := [];
      var i := 0;
      while i < |tags|
        invariant 0 <= i <= |tags| && |next| == i
        invariant forall j :: 0 <= j < i ==> Column(key, tags[j], m + 1) == Ok(next[j])
      {
        var row := ScoreTag(key, tags[i], m, rows[i]);
        if row.Err? {
          r, failed := Err(row.error), i;
          assert Column(key, tags[failed], m + 1) == Err(r.error);
          assert TagRaises(key, tags[failed], r.error);
          return;
        }
        assert Column(key, tags[i], m + 1) == Ok(row.value);
        next := next + [row.value];
        i := i + 1;
      }
      r := Ok(next);
    }

    /**
     * The scoring loops of buildKey (keyBuilder.py:28-46): for each
     * nucleotide in turn, each active tag's list gets the candidate's
     * penalty; the engine is only read. The first candidate that raises
     * stops the loops with its error. Below keySize bases that can only be
     * 'hom' with maxHom = 0, which raises for an empty or tracked key.
     */
    method ScoreCandidates(key: Strand, tags: seq<string>) returns (r: Result<seq<seq<Penalty>>, BuildError>)
      requires Valid()
      ensures r.Ok? <==> forall i :: 0 <= i < |tags| ==> Column(key, tags[i], 4).Ok?
      ensures r.Ok? ==> |r.value| == |tags| && forall i :: 0 <= i < |tags| ==> r.value[i] == Column(key, tags[i], 4).value
      ensures r.Err? ==> exists i :: 0 <= i < |tags| && Column(key, tags[i], 4) == Err(r.error)
      ensures r.Err? ==> r.error == IndexError || (r.error == ZeroDivisionError && DividesByZero(tags, c.maxHom))
      ensures |key| < c.keySize && r.Err? ==> r.error == ZeroDivisionError
      ensures |key| < c.keySize && !DividesByZero(tags, c.maxHom) ==> r.Ok?
      ensures |key| < c.keySize && DividesByZero(tags, c.maxHom) && (key == [] || (penalties.Tracking() && penalties.curKey == key))
              ==> r == Err(ZeroDivisionError)
    {
      var rows: seq<seq<Penalty>> := seq(|tags|, _ => []);
      var m := 0;
      while m < 4
        invariant 0 <= m <= 4 && |rows| == |tags|
        invariant forall i :: 0 <= i < |tags| ==> Column(key, tags[i], m) == Ok(rows[i])
      {
        var round, failed := ScoreRound(key, tags, m, rows);
        if round.Err? {
          ColumnFails(key, tags[failed], m + 1);
          return Err(round.error);
        }
        rows := round.value;
        m := m + 1;
      }
      if |key| < c.keySize && DividesByZero(tags, c.maxHom) && (key == [] || (penalties.Tracking() && penalties.curKey == key)) {
        var h :| 0 <= h < |tags| && tags[h] == "hom";
        ColumnsOk(key, "hom", 4);
        assert false;
      }
      r := Ok(rows);
    }

    /** Scoring one more nucleotide appends its candidate's penalty to a key tag's list, or fails with it. */
    lemma ColumnSnoc(key: Strand, t: string, m: nat)
      requires Valid() && m < 4 && KeyTag(t)
      ensures Column(key, t, m + 1) == match Column(key, t, m)
                case Err(e) => Err(e)
                case Ok(row) => (match Candidate(key, t, Alphabet[m]) case Err(e) => Err(e) case Ok(p) => Ok(row + [p]))
    {
      GatherSnoc(Candidates(key, t, m), Candidate(key, t, Alphabet[m]));
    }

    /** A list that fails at some nucleotide fails for the whole alphabet, with the same error. */
    lemma {:induction false} ColumnFails(key: Strand, t: string, m: nat)
      requires Valid() && m <= 4 && Column(key, t, m).Err?
      ensures Column(key, t, 4) == Column(key, t, m)
      decreases 4 - m
    {
      if m < 4 {
        ColumnSnoc(key, t, m);
        ColumnFails(key, t, m + 1);
      }
    }

    /**
     * One pass of buildKey's loop up to the draw (keyBuilder.py:29-69): the
     * candidates key + n are scored, weighed and a base is drawn at the
     * given position of the random stream; the engine is only read.
     */
    method DrawBase(key: Strand, tags: seq<string>, sample: Sampler, draw: nat) returns (r: Result<(Nuc, Choice), BuildError>)
      requires Valid() && |key| < c.keySize
      ensures r.Ok? ==> Weighable(tags, weights, KeyTags)
      ensures !DividesByZero(tags, c.maxHom) ==> (r.Ok? <==> Weighable(tags, weights, KeyTags))
      ensures DividesByZero(tags, c.maxHom) && (key == [] || (penalties.Tracking() && penalties.curKey == key))
              ==> r == Err(ZeroDivisionError)
      ensures r.Err? ==> (r.error == ZeroDivisionError && DividesByZero(tags, c.maxHom)) || Fault(tags, weights, KeyTags, r.error)
      ensures r.Ok? ==> r.value.0 == sample(r.value.1, draw)
      ensures r.Ok? && tags == [] ==> r.value.1 == Uniform
      ensures r.Ok? && tags != [] ==> r.value.1.Weighted? && |r.value.1.terms| == |tags|
      ensures r.Ok? && tags != [] ==> forall i :: 0 <= i < |tags| ==>
                Column(key, tags[i], 4).Ok? && r.value.1.terms[i] == Term(weights[tags[i]], Column(key, tags[i], 4).value)
    {
      var rows := ScoreCandidates(key, tags);
      if rows.Err? {
        return Err(rows.error);
      }
      forall i | 0 <= i < |tags|
        ensures |rows.value[i]| == (if tags[i] in KeyTags then 4 else 0)
      {
        ColumnMeaning(key, tags[i]);
      }
      var choice := Weigh(tags, rows.value, weights);
      if choice.Err? && choice.error == ValueError {
        WidthFault(tags, rows.value, KeyTags);
      }
      if choice.Err? {
        return Err(choice.error);
      }
      r := Ok((sample(choice.value, draw), choice.value));
    }

    /** One pass of buildKey's loop (keyBuilder.py:29-72): a base is drawn for key and the engine follows it with add_base. */
    method ExtendKey(key: Strand, tags: seq<string>, sample: Sampler, draw: nat) returns (r: Result<(Nuc, Choice), BuildError>)
      requires Valid() && |key| < c.keySize && penalties.curKey == key && penalties.Tracking()
      modifies penalties
      ensures Valid() && penalties.Registered() == old(penalties.Registered())
      ensures r.Ok? <==> Weighable(tags, weights, KeyTags) && !DividesByZero(tags, c.maxHom)
      ensures r.Err? ==> Raised(tags, weights, KeyTags, c.maxHom, r.error)
      ensures r.Ok? ==> r.value.0 == sample(r.value.1, draw) && penalties.curKey == key + [r.value.0] && penalties.Tracking()
      ensures r.Ok? && tags == [] ==> r.value.1 == Uniform
    {
      r := DrawBase(key, tags, sample, draw);
      if r.Ok? {
        penalties.AddBase(r.value.0);
      }
    }

    /**
     * The base loop of buildKey (keyBuilder.py:27-73): keySize bases, each
     * drawn from the distribution of its scores and passed to add_base;
     * the loop stops at the first base that cannot be drawn, which is the
     * first base when 'hom' divides by zero or an active tag has no
     * weight or is not scored.
     */
    method DrawBases(tags: seq<string>, sample: Sampler, draw: nat) returns (r: Result<Strand, BuildError>, next: nat, ghost choices: seq<Choice>)
      requires Valid() && penalties.curKey == [] && penalties.Tracking()
      modifies penalties
      ensures Valid() && penalties.Registered() == old(penalties.Registered())
      ensures r.Ok? <==> Weighable(tags, weights, KeyTags) && !DividesByZero(tags, c.maxHom)
      ensures r.Err? ==> Raised(tags, weights, KeyTags, c.maxHom, r.error)
      ensures next >= draw
      ensures r.Ok? ==> r.value == Drawn(sample, choices, draw) && |r.value| == c.keySize && next == draw + c.keySize
      ensures r.Ok? ==> penalties.curKey == r.value && penalties.Tracking()
      ensures tags == [] ==> forall ch :: ch in choices ==> ch == Uniform
    {
      var key: Strand := [];
      next := draw;
      choices := [];
      ghost var registered := penalties.Registered();
      for i := 0 to c.keySize
        invariant |key| == i && next == draw + i && |choices| == i
        invariant Valid() && penalties.curKey == key && penalties.Tracking()
        invariant penalties.Registered() == registered
        invariant key == Drawn(sample, choices, draw)
        invariant tags == [] ==> forall ch :: ch in choices ==> ch == Uniform
        invariant i > 0 ==> Weighable(tags, weights, KeyTags) && !DividesByZero(tags, c.maxHom)
      {
        var drawn := ExtendKey(key, tags, sample, next);
        if drawn.Err? {
          return Err(drawn.error), next, choices;
        }
        DrawStep(sample, choices, draw, key, drawn.value.0, drawn.value.1, tags == []);
        key := key + [drawn.value.0];
        choices := choices + [drawn.value.1];
        next := next + 1;
      }
      r := Ok(key);
    }

    /**
     * buildKey (keyBuilder.py:24-75): keySize bases, each drawn from the
     * distribution of its scores; the engine starts a new key, follows
     * every base with add_base and registers the finished key. The build
     * fails exactly when 'hom' is scored with maxHom = 0
     * (ZeroDivisionError) or an active tag has no weight or is not a key
     * tag.
     */
    method BuildKey(tags: seq<string>, sample: Sampler, draw: nat) returns (r: Result<Strand, BuildError>, next: nat, ghost choices: seq<Choice>)
      requires Valid()
      modifies penalties
      ensures Valid()
      ensures r.Ok? <==> Weighable(tags, weights, KeyTags) && !DividesByZero(tags, c.maxHom)
      ensures r.Err? ==> Raised(tags, weights, KeyTags, c.maxHom, r.error)
      ensures next >= draw
      ensures r.Ok? ==> r.value == Drawn(sample, choices, draw) && |r.value| == c.keySize && next == draw + c.keySize
      ensures tags == [] ==> forall ch :: ch in choices ==> ch == Uniform
      ensures r.Ok? ==> penalties.curKey == r.value && penalties.Tracking()
      ensures r.Ok? ==> penalties.keys == Added(old(penalties.keys), r.value)
      ensures r.Err? ==> penalties.Registered() == old(penalties.Registered())
    {
      penalties.StartNewKey();
      r, next, choices := DrawBases(tags, sample, draw);
      if r.Ok? {
        var accepted := penalties.AddKey(r.value);
      }
    }

    /**
     * buildAllKeys (keyBuilder.py:77-82): keyNum builds, kept as a set; a
     * key drawn twice is kept once and no replacement is drawn, so the set has
     * between one and keyNum keys, all of them registered with the engine.
     */
    method BuildAllKeys(tags: seq<string>, sample: Sampler, draw: nat) returns (r: Result<seq<Strand>, BuildError>, next: nat)
      requires Valid()
      modifies penalties
      ensures Valid()
      ensures r.Ok? <==> Weighable(tags, weights, KeyTags) && !DividesByZero(tags, c.maxHom)
      ensures r.Err? ==> Raised(tags, weights, KeyTags, c.maxHom, r.error)
      ensures r.Ok? ==> 1 <= |r.value| <= c.keyNum && Distinct(r.value)
      ensures r.Ok? ==> forall k :: k in r.value ==> |k| == c.keySize && k in penalties.keys
      ensures r.Ok? && old(penalties.keys) == [] ==> penalties.keys == r.value
      ensures next >= draw
    {
      var allKeys: seq<Strand> := [];
      next := draw;
      var i := 0;
      while i < c.keyNum
        invariant 0 <= i <= c.keyNum && Valid()
        invariant Distinct(allKeys) && |allKeys| <= i && (i > 0 ==> |allKeys| >= 1)
        invariant forall k :: k in allKeys ==> |k| == c.keySize && k in penalties.keys
        invariant old(penalties.keys) == [] ==> penalties.keys == allKeys
        invariant next >= draw
        invariant i > 0 ==> Weighable(tags, weights, KeyTags) && !DividesByZero(tags, c.maxHom)
      {
        ghost var before := penalties.keys;
        var key, after, _ := BuildKey(tags, sample, next);
        if key.Err? {
          return Err(key.error), after;
        }
        AddedMeaning(allKeys, key.value);
        AddedMeaning(before, key.value);
        allKeys := Added(allKeys, key.value);
        next := after;
        i := i + 1;
      }
      r := Ok(allKeys);
    }
  }
}
