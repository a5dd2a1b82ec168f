/**
 * What the builders (keyBuilder.py, motifBuilder.py) hand to
 * np.random.choice for each base: the candidate penalties one active tag
 * gives A, T, C and G, weighted by the tag's weight, or the uniform
 * distribution when no tag is active. The draw itself is a parameter: a
 * function from the distribution and the draw's position in the random
 * stream to the base drawn.
 */
module Sampling {
  import opened Nucleotides
  import opened Outcomes
  import opened Scores

  /** One active tag's term of lp: its weight and the penalties it gives A, T, C, G in that order. */
  datatype Term = Term(weight: real, penalties: seq<Penalty>)

  /** p = [0.25] * 4, or p = exp(lp) / sum with lp = -sum of weight * penalties over the terms. */
  datatype Choice = Uniform | Weighted(terms: seq<Term>)

  /** np.random.choice(nucleotides, p=p): the base drawn from a distribution at a position of the random stream. */
  type Sampler = (Choice, nat) -> Nuc

  /** The bases a sampler draws from a run of distributions, starting at a position of the random stream. */
  function Drawn(sample: Sampler, choices: seq<Choice>, draw: nat): (s: Strand)
    ensures |s| == |choices|
  {
    if choices == [] then [] else Drawn(sample, choices[..|choices| - 1], draw) + [sample(choices[|choices| - 1], draw + |choices| - 1)]
  }

  /** The i-th base drawn is the one the sampler draws from the i-th distribution at position draw + i. */
  lemma {:induction false} DrawnAt(sample: Sampler, choices: seq<Choice>, draw: nat)
    ensures forall i :: 0 <= i < |choices| ==> Drawn(sample, choices, draw)[i] == sample(choices[i], draw + i)
  {
    if choices != [] {
      var front := choices[..|choices| - 1];
      DrawnAt(sample, front, draw);
      forall i | 0 <= i < |choices|
        ensures Drawn(sample, choices, draw)[i] == sample(choices[i], draw + i)
      {
        if i < |front| {
          assert choices[i] == front[i];
        }
      }
    }
  }

  /** One draw more appends the base drawn next. */
  lemma DrawnSnoc(sample: Sampler, choices: seq<Choice>, draw: nat, ch: Choice)
    ensures Drawn(sample, choices + [ch], draw) == Drawn(sample, choices, draw) + [sample(ch, draw + |choices|)]
  {
    assert (choices + [ch])[..|choices|] == choices;
  }

  /** One step of a build: the base drawn from the next distribution extends the bases drawn so far. */
  lemma DrawStep(sample: Sampler, choices: seq<Choice>, draw: nat, key: Strand, n: Nuc, ch: Choice, uniform: bool)
    requires key == Drawn(sample, choices, draw) && n == sample(ch, draw + |choices|)
    requires uniform ==> ch == Uniform && forall x :: x in choices ==> x == Uniform
    ensures key + [n] == Drawn(sample, choices + [ch], draw)
    ensures uniform ==> forall x :: x in choices + [ch] ==> x == Uniform
  {
    DrawnSnoc(sample, choices, draw, ch);
  }

  /**
   * A tag's list of candidate penalties, built in order: the first
   * candidate that raised (IndexError in a hairpin search,
   * ZeroDivisionError in a homopolymer term) stops the list.
   */
  function Gather(s: seq<Result<Penalty, BuildError>>): Result<seq<Penalty>, BuildError>
  {
    if s == [] then Ok([])
    else
      match Gather(s[..|s| - 1])
      case Err(e) => Err(e)
      case Ok(row) =>
        match s[|s| - 1]
        case Err(e) => Err(e)
        case Ok(p) => Ok(row + [p])
  }

  /** The list is built exactly when no candidate failed, and then holds every candidate's penalty in order. */
  lemma {:induction false} GatherMeaning(s: seq<Result<Penalty, BuildError>>)
    ensures Gather(s).Ok? <==> forall j :: 0 <= j < |s| ==> s[j].Ok?
    ensures Gather(s).Ok? ==> |Gather(s).value| == |s| && forall j :: 0 <= j < |s| ==> Gather(s).value[j] == s[j].value
  {
    if s != [] {
      var init := s[..|s| - 1];
      GatherMeaning(init);
      assert forall j :: 0 <= j < |init| ==> init[j] == s[j];
    }
  }

  /** One candidate more extends the list by its penalty, or stops it. */
  lemma GatherSnoc(s: seq<Result<Penalty, BuildError>>, x: Result<Penalty, BuildError>)
    ensures Gather(s + [x]) == match Gather(s) case Err(e) => Err(e) case Ok(row) => (match x case Err(e) => Err(e) case Ok(p) => Ok(row + [p]))
  {
    assert (s + [x])[..|s|] == s;
  }

  /** The tags a build can weigh: none at all, or only tags that have a weight and that the builder scores. */
  predicate Weighable(tags: seq<string>, weights: map<string, real>, scored: set<string>)
  {
    tags == [] || forall t :: t in tags ==> t in weights && t in scored
  }

  /** Why a build fails when no hairpin search does: an active tag without a weight, or one the builder does not score. */
  predicate Fault(tags: seq<string>, weights: map<string, real>, scored: set<string>, e: BuildError)
  {
    || (e.KeyError? && e.tag in tags && e.tag !in weights)
    || (e == ValueError && exists t :: t in tags && t !in scored)
  }

  /**
   * Scoring 'hom' with maxHom = 0: a homopolymer term h ** (run / 0)
   * raises ZeroDivisionError. Every term of a key divides by maxHom; a
   * payload's whole-motif term h ** motifSize does not.
   */
  predicate DividesByZero(tags: seq<string>, maxHom: int)
  {
    "hom" in tags && maxHom == 0
  }

  /**
   * Why a build fails when no hairpin search does: the candidates are
   * scored before the weights are looked up, so ZeroDivisionError when
   * 'hom' divides by zero, and otherwise the KeyError or ValueError of
   * Fault.
   */
  predicate Raised(tags: seq<string>, weights: map<string, real>, scored: set<string>, maxHom: int, e: BuildError)
  {
    if DividesByZero(tags, maxHom) then e == ZeroDivisionError else Fault(tags, weights, scored, e)
  }

  /** Lists of different lengths, or only empty lists, come from an active tag the builder does not score. */
  lemma WidthFault(tags: seq<string>, rows: seq<seq<Penalty>>, scored: set<string>)
    requires 0 < |tags| == |rows|
    requires forall i :: 0 <= i < |tags| ==> |rows[i]| == (if tags[i] in scored then 4 else 0)
    requires (exists i :: 0 < i < |tags| && |rows[i]| != |rows[0]|) || |rows[0]| == 0
    ensures exists t :: t in tags && t !in scored
  {
    if |rows[0]| == 0 {
      assert tags[0] in tags;
    } else {
      var i :| 0 < i < |tags| && |rows[i]| != |rows[0]|;
      assert tags[i] in tags;
    }
  }

  /** The first i tags have a weight and lists as long as the first tag's: lp keeps the shape it took at the first tag. */
  predicate Combined(tags: seq<string>, rows: seq<seq<Penalty>>, weights: map<string, real>, i: nat)
    requires 0 < |tags| == |rows| && i <= |tags|
  {
    forall j :: 0 <= j < i ==> tags[j] in weights && |rows[j]| == |rows[0]|
  }

  /**
   * The distribution of one draw (keyBuilder.py:59-69, motifBuilder.py:54-64):
   * uniform with no active tag; otherwise lp = 0 minus weight * list for
   * each tag in order, which stops at the first tag without a weight
   * (KeyError) or whose list differs in length from the first tag's
   * (ValueError: numpy cannot combine an empty list with four penalties);
   * the draw itself then needs one entry per nucleotide (ValueError). Each
   * list is a tag's: four penalties, or none for a tag the builder does
   * not score.
   */
  method Weigh(tags: seq<string>, rows: seq<seq<Penalty>>, weights: map<string, real>) returns (r: Result<Choice, BuildError>)
    requires |rows| == |tags| && forall i :: 0 <= i < |rows| ==> |rows[i]| == 0 || |rows[i]| == 4
    ensures tags == [] ==> r == Ok(Uniform)
    ensures r.Ok? <==> tags == [] || forall i :: 0 <= i < |tags| ==> tags[i] in weights && |rows[i]| == 4
    ensures r.Ok? && tags != [] ==>
      && r.value.Weighted? && |r.value.terms| == |tags|
      && forall i :: 0 <= i < |tags| ==> r.value.terms[i] == Term(weights[tags[i]], rows[i])
    ensures r.Err? ==> tags != [] && r.error != IndexError && r.error != ZeroDivisionError
    ensures r.Err? && r.error.KeyError? ==>
      exists i :: 0 <= i < |tags| && Combined(tags, rows, weights, i) && tags[i] !in weights && r.error.tag == tags[i]
    ensures r.Err? && r.error == ValueError ==>
      || (exists i :: 0 < i < |tags| && Combined(tags, rows, weights, i) && tags[i] in weights && |rows[i]| != |rows[0]|)
      || (Combined(tags, rows, weights, |tags|) && |rows[0]| == 0)
  {
    if tags == [] {
      return Ok(Uniform);
    }
    var width := |rows[0]|;
    var terms: seq<Term> := [];
    for i := 0 to |tags|
      invariant |terms| == i && Combined(tags, rows, weights, i)
      invariant forall j :: 0 <= j < i ==> terms[j] == Term(weights[tags[j]], rows[j])
    {
      if tags[i] !in weights {
        return Err(KeyError(tags[i]));
      }
      if |rows[i]| != width {
        return Err(ValueError);
      }
      terms := terms + [Term(weights[tags[i]], rows[i])];
    }
    if width != 4 {
      return Err(ValueError);
    }
    r := Ok(Weighted(terms));
  }
}
