/**
 * motifBuilder.py: payloads are built base by base. For every position
 * the engine (BasePayloadPenalties) scores the four candidates payload + n
 * under each active tag without changing, a base is drawn from the
 * weighted distribution, and only the finished payload is registered
 * with add_payload, so the payloads built after it are scored against it.
 */
module MotifBuilding {
  import opened Nucleotides
  import opened Outcomes
  import opened Scores
  import opened Configuration
  import opened Temperatures
  import opened Sampling
  import opened PayloadPenaltyEngine
  import HairpinSearch

  /** The tags a payload candidate is scored under; any other tag gives an empty list. */
  const PayloadTags: set<string> := {"hom", "hairpin", "motifGcContent"}

  predicate PayloadTag(t: string)
  {
    t in PayloadTags
  }

  /**
   * Some 'hom' comes before every 'hairpin' in the active tags, so it is
   * scored first for each nucleotide.
   */
  predicate HomLeads(tags: seq<string>)
  {
    exists h :: 0 <= h < |tags| && tags[h] == "hom" && forall j :: 0 <= j < h ==> tags[j] != "hairpin"
  }

  class MotifBuilder {
    const c: ValidConstraints
    const weights: map<string, real>
    const penalties: BasePayloadPenalties

    ghost predicate Valid()
      reads this, penalties
    {
      penalties.Valid() && penalties.c == c
    }

    /** MotifBuilder(constraints, hyperparameters, weights), with the hyperparameters' values. */
    constructor (c: ValidConstraints, temps: Settings, weights: map<string, real>)
      ensures Valid() && fresh(penalties)
      ensures this.c == c && this.weights == weights
      ensures penalties.payloads == [] && penalties.joints == [] && penalties.temps == temps
    {
      this.c := c;
      this.weights := weights;
      penalties := new BasePayloadPenalties(c, temps);
    }

    /** add_joints: the engine takes the joints and scans them; the payloads stay. */
    method AddJoints(joints: seq<Strand>)
      requires Valid() && Distinct(joints) && forall j :: j in joints ==> |j| == c.keySize
      modifies penalties
      ensures Valid() && penalties.JointsScanned()
      ensures penalties.joints == joints && penalties.payloads == old(penalties.payloads)
    {
      penalties.AddJoints(joints);
    }

    /**
     * The errors a payload tag can raise for a candidate payload + n:
     * ZeroDivisionError from 'hom' with maxHom = 0, and IndexError from the
     * hairpin search, which cannot fail below payloadSize bases without
     * joints.
     */
    predicate TagRaises(payload: Strand, t: string, e: BuildError)
      reads this, penalties
    {
      || (t == "hom" && c.maxHom == 0 && e == ZeroDivisionError)
      || (t == "hairpin" && e == IndexError && !(|payload| < c.payloadSize && penalties.joints == []))
    }

    /**
     * The penalty a payload tag gives the candidate payload + [n]: the
     * hairpin search may raise IndexError, and a homopolymer term
     * h ** (k / 0) raises ZeroDivisionError.
     */
    function Candidate(payload: Strand, t: string, n: Nuc): Result<Penalty, BuildError>
      requires Valid()
      reads this, penalties
    {
      if t == "hom" then
        var p := penalties.HomopolymerScore(payload + [n]);
        if Evaluable(p) then Ok(p) else Err(ZeroDivisionError)
      else if t == "hairpin" then
        match penalties.GetHairpinPenalty(payload, n)
        case Ok(p) => Ok(p)
        case Err(_) => Err(IndexError)
      else Ok(Exact(penalties.MotifGcScore(payload + [n])))
    }

    /**
     * Which candidates raise: under 'hom' exactly when maxHom = 0 and the
     * score has a term other than the whole-motif one, with
     * ZeroDivisionError; under 'hairpin' only with IndexError, and never
     * without joints below payloadSize bases.
     */
    lemma CandidateRaises(payload: Strand, t: string, n: Nuc)
      requires Valid()
      ensures t == "hom" ==> (Candidate(payload, t, n).Err? <==> c.maxHom == 0 && !penalties.WholeMotifOnly(payload + [n]))
      ensures Candidate(payload, t, n).Err? ==> TagRaises(payload, t, Candidate(payload, t, n).error)
    {
      penalties.HomopolymerScoreFacts(payload + [n]);
    }

    /** The candidates payload + n for the first m nucleotides of the alphabet, under one tag. */
    function Candidates(payload: Strand, t: string, m: nat): (r: seq<Result<Penalty, BuildError>>)
      requires Valid() && m <= 4
      reads this, penalties
      ensures |r| == m
    {
      if m == 0 then [] else Candidates(payload, t, m - 1) + [Candidate(payload, t, Alphabet[m - 1])]
    }

    /** The j-th candidate is payload + the j-th nucleotide of the alphabet. */
    lemma {:induction false} CandidatesAt(payload: Strand, t: string, m: nat)
      requires Valid() && m <= 4
      ensures forall j :: 0 <= j < m ==> Candidates(payload, t, m)[j] == Candidate(payload, t, Alphabet[j])
    {
      if m > 0 {
        CandidatesAt(payload, t, m - 1);
      }
    }

    /** constraintPenalties[t] once the first m nucleotides of the alphabet are scored; any other tag gives an empty list. */
    function Column(payload: Strand, t: string, m: nat): Result<seq<Penalty>, BuildError>
      requires Valid() && m <= 4
      reads this, penalties
    {
      if PayloadTag(t) then Gather(Candidates(payload, t, m)) else Ok([])
    }

    /**
     * A payload tag's list is computed exactly when no candidate raises, and
     * holds one penalty per nucleotide, that of
     * payload + n for A, T, C, G in order; any other tag's list stays empty.
     */
    lemma ColumnMeaning(payload: Strand, t: string)
      requires Valid()
      ensures Column(payload, t, 4).Ok? <==> !PayloadTag(t) || forall j :: 0 <= j < 4 ==> Candidate(payload, t, Alphabet[j]).Ok?
      ensures Column(payload, t, 4).Ok? ==>
        && |Column(payload, t, 4).value| == (if PayloadTag(t) then 4 else 0)
        && forall j :: 0 <= j < |Column(payload, t, 4).value| ==> Column(payload, t, 4).value[j] == Candidate(payload, t, Alphabet[j]).value
    {
      CandidatesAt(payload, t, 4);
      GatherMeaning(Candidates(payload, t, 4));
    }

    /** Scoring one more nucleotide appends its candidate's penalty to a payload tag's list, or fails with it. */
    lemma ColumnSnoc(payload: Strand, t: string, m: nat)
      requires Valid() && m < 4 && PayloadTag(t)
      ensures Column(payload, t, m + 1) == match Column(payload, t, m)
                case Err(e) => Err(e)
                case Ok(row) => (match Candidate(payload, t, Alphabet[m]) case Err(e) => Err(e) case Ok(p) => Ok(row + [p]))
    {
      GatherSnoc(Candidates(payload, t, m), Candidate(payload, t, Alphabet[m]));
    }

    /** A list that fails at some nucleotide fails for the whole alphabet, with the same error. */
    lemma {:induction false} ColumnFails(payload: Strand, t: string, m: nat)
      requires Valid() && m <= 4 && Column(payload, t, m).Err?
      ensures Column(payload, t, 4) == Column(payload, t, m)
      decreases 4 - m
    {
      if m < 4 {
        ColumnSnoc(payload, t, m);
        ColumnFails(payload, t, m + 1);
      }
    }

    /**
     * A payload tag's list fails only with an error its tag raises:
     * ZeroDivisionError from 'hom' with maxHom = 0, or IndexError from
     * 'hairpin' outside the joint-free range below payloadSize bases.
     */
    lemma {:induction false} ColumnRaises(payload: Strand, t: string, m: nat)
      requires Valid() && m <= 4
      ensures Column(payload, t, m).Err? ==> TagRaises(payload, t, Column(payload, t, m).error)
    {
      if m > 0 && PayloadTag(t) {
        ColumnSnoc(payload, t, m - 1);
        CandidateRaises(payload, t, Alphabet[m - 1]);
        ColumnRaises(payload, t, m - 1);
      }
    }

    /**
     * Some candidate payload + n has a homopolymer term h ^ (k / 0): maxHom
     * is 0 and, for some n, the whole-motif term is not the only one.
     */
    predicate HomDivides(payload: Strand)
      reads this, penalties
    {
      c.maxHom == 0 && exists j :: 0 <= j < 4 && !penalties.WholeMotifOnly(payload + [Alphabet[j]])
    }

    /**
     * Only a candidate of payloadSize bases can have the whole-motif term
     * alone, so between the first and the last base 'hom' divides by zero
     * exactly when it does for the first base: exactly when maxHom = 0.
     */
    lemma HomDividesLater(payload: Strand)
      requires Valid() && 0 < |payload| < c.payloadSize
      ensures HomDivides(payload) <==> HomDivides([])
      ensures HomDivides(payload) <==> c.maxHom == 0
    {
      assert !penalties.WholeMotifOnly([] + [Alphabet[0]]);
      var j := if payload[|payload| - 1] == Alphabet[0] then 1 else 0;
      var cand := payload + [Alphabet[j]];
      assert cand[|cand| - 1] != cand[|cand| - 2];
      assert TrailingRun(cand) == 1 < |cand|;
      assert !penalties.WholeMotifOnly(cand);
    }

    /**
     * The 'hom' list of the first m nucleotides fails, with
     * ZeroDivisionError, exactly when maxHom = 0 and one of those
     * candidates has a term other than the whole-motif one.
     */
    lemma {:induction false} HomColumn(payload: Strand, m: nat)
      requires Valid() && m <= 4
      ensures Column(payload, "hom", m).Err? <==>
                c.maxHom == 0 && exists j :: 0 <= j < m && !penalties.WholeMotifOnly(payload + [Alphabet[j]])
      ensures Column(payload, "hom", m).Err? ==> Column(payload, "hom", m).error == ZeroDivisionError
    {
      if m == 0 {
        return;
      }
      ColumnSnoc(payload, "hom", m - 1);
      CandidateRaises(payload, "hom", Alphabet[m - 1]);
      HomColumn(payload, m - 1);
    }

    /**
     * One step of buildPayload's scoring loops (motifBuilder.py:39-49): the
     * list of a tag gets the penalty of payload + n, n being the m-th
     * nucleotide, as the engine's getters compute it; a candidate that
     * raises stops the build: ZeroDivisionError from 'hom' with maxHom = 0,
     * or IndexError from the hairpin search, which cannot fail without
     * joints below payloadSize bases.
     */
    function ScoreTag(payload: Strand, t: string, m: nat, row: seq<Penalty>): (r: Result<seq<Penalty>, BuildError>)
      requires Valid() && m < 4 && Column(payload, t, m) == Ok(row)
      reads this, penalties
      ensures Column(payload, t, m + 1) == r
      ensures r.Err? ==> Column(payload, t, |Alphabet|) == r
      ensures r.Err? ==> TagRaises(payload, t, r.error)
      ensures |payload| < c.payloadSize && penalties.joints == [] ==>
                (r.Ok? <==> !(t == "hom" && c.maxHom == 0 && !penalties.WholeMotifOnly(payload + [Alphabet[m]])))
    {
      if PayloadTag(t) then
        ColumnSnoc(payload, t, m);
        CandidateRaises(payload, t, Alphabet[m]);
        var h := Candidate(payload, t, Alphabet[m]);
        if h.Err? then
          ColumnFails(payload, t, m + 1);
          Err(h.error)
        else Ok(row + [h.value])
      else Ok(row)
    }

    /**
     * One round of buildPayload's scoring loops (motifBuilder.py:39-49):
     * every active tag's list gets the penalty of payload + n, n being the
     * m-th nucleotide.
     */
    method ScoreRound(payload: Strand, tags: seq<string>, m: nat, rows: seq<seq<Penalty>>)
      returns (r: Result<seq<seq<Penalty>>, BuildError>, ghost failed: nat)
      requires Valid() && m < 4 && |rows| == |tags|
      requires forall i :: 0 <= i < |tags| ==> Column(payload, tags[i], m) == Ok(rows[i])
      ensures r.Ok? ==> |r.value| == |tags| && forall i :: 0 <= i < |tags| ==> Column(payload, tags[i], m + 1) == Ok(r.value[i])
      ensures r.Err? ==> failed < |tags| && (forall j :: 0 <= j < failed ==> Column(payload, tags[j], m + 1).Ok?)
                         && Column(payload, tags[failed], m + 1) == Err(r.error) && Column(payload, tags[failed], |Alphabet|) == Err(r.error)
    {
      failed := 0;
      var next := [];
      for i := 0 to |tags|
        invariant |next| == i
        invariant forall j :: 0 <= j < i ==> Column(payload, tags[j], m + 1) == Ok(next[j])
      {
        var row := ScoreTag(payload, tags[i], m, rows[i]);
        if row.Err? {
          r, failed := Err(row.error), i;
          assert Column(payload, tags[failed], m + 1) == Err(r.error);
          assert Column(payload, tags[failed], |Alphabet|) == Err(r.error);
          return;
        }
        ghost var prev := next;
        next := next + [row.value];
        assert forall j :: 0 <= j < i ==> next[j] == prev[j];
      }
      r := Ok(next);
    }

    /**
     * A round that fails at tag `failed` fails that tag's list for the
     * whole alphabet; its error is IndexError, or ZeroDivisionError from
     * 'hom'. With 'hom' scored before any 'hairpin' and the first
     * candidate dividing by zero, it is ZeroDivisionError, and without
     * joints below payloadSize bases it can only be that.
     */
    lemma RoundFails(payload: Strand, tags: seq<string>, m: nat, failed: nat, e: BuildError)
      requires Valid() && m < 4 && failed < |tags|
      requires forall j :: 0 <= j < failed ==> Column(payload, tags[j], m + 1).Ok?
      requires Column(payload, tags[failed], m + 1) == Err(e)
      requires m > 0 ==> !(c.maxHom == 0 && HomLeads(tags) && !penalties.WholeMotifOnly(payload + [Alphabet[0]]))
      ensures Column(payload, tags[failed], 4) == Err(e)
      ensures e == IndexError || (e == ZeroDivisionError && DividesByZero(tags, c.maxHom))
      ensures c.maxHom == 0 && HomLeads(tags) && !penalties.WholeMotifOnly(payload + [Alphabet[0]]) ==> e == ZeroDivisionError
      ensures |payload| < c.payloadSize && penalties.joints == [] ==> e == ZeroDivisionError && "hom" in tags && HomDivides(payload)
    {
      ColumnFails(payload, tags[failed], m + 1);
      ColumnRaises(payload, tags[failed], m + 1);
      HomColumn(payload, m + 1);
      if c.maxHom == 0 && HomLeads(tags) && !penalties.WholeMotifOnly(payload + [Alphabet[0]]) {
        var h :| 0 <= h < |tags| && tags[h] == "hom" && forall j :: 0 <= j < h ==> tags[j] != "hairpin";
        assert failed <= h;
      }
    }

    /**
     * The scoring loops of buildPayload (motifBuilder.py:34-52): for each
     * nucleotide in turn, each active tag's list gets the candidate's
     * penalty; the engine is only read. The first candidate that raises
     * stops the loops with its error: with 'hom' active some candidate
     * does when HomDivides, and the first nucleotide already raises
     * ZeroDivisionError when its 'hom' score divides by maxHom = 0 and no
     * 'hairpin' is scored before 'hom'.
     */
    method ScoreCandidates(payload: Strand, tags: seq<string>) returns (r: Result<seq<seq<Penalty>>, BuildError>)
      requires Valid()
      ensures r.Ok? <==> forall i :: 0 <= i < |tags| ==> Column(payload, tags[i], 4).Ok?
      ensures r.Ok? ==> |r.value| == |tags| && forall i :: 0 <= i < |tags| ==> r.value[i] == Column(payload, tags[i], 4).value
      ensures r.Err? ==> exists i :: 0 <= i < |tags| && Column(payload, tags[i], 4) == Err(r.error)
      ensures r.Err? ==> r.error == IndexError || (r.error == ZeroDivisionError && DividesByZero(tags, c.maxHom))
      ensures "hom" in tags && HomDivides(payload) ==> r.Err?
      ensures c.maxHom == 0 && HomLeads(tags) && !penalties.WholeMotifOnly(payload + [Alphabet[0]]) ==> r == Err(ZeroDivisionError)
      ensures |payload| < c.payloadSize && penalties.joints == [] ==> (r.Ok? <==> !("hom" in tags && HomDivides(payload)))
      ensures |payload| < c.payloadSize && penalties.joints == [] && r.Err? ==> r.error == ZeroDivisionError
    {
      var rows: seq<seq<Penalty>> := seq(|tags|, _ => []);
      var m := 0;
      while m < 4
        invariant 0 <= m <= 4 && |rows| == |tags|
        invariant forall i :: 0 <= i < |tags| ==> Column(payload, tags[i], m) == Ok(rows[i])
        invariant m > 0 ==> !(c.maxHom == 0 && HomLeads(tags) && !penalties.WholeMotifOnly(payload + [Alphabet[0]]))
      {
        var round, failed := ScoreRound(payload, tags, m, rows);
        if round.Err? {
          RoundFails(payload, tags, m, failed, round.error);
          return Err(round.error);
        }
        if c.maxHom == 0 && HomLeads(tags) && !penalties.WholeMotifOnly(payload + [Alphabet[0]]) {
          var h :| 0 <= h < |tags| && tags[h] == "hom" && forall j :: 0 <= j < h ==> tags[j] != "hairpin";
          HomColumn(payload, m + 1);
          assert false;
        }
        rows := round.value;
        m := m + 1;
      }
      if "hom" in tags && HomDivides(payload) {
        var h :| 0 <= h < |tags| && tags[h] == "hom";
        HomColumn(payload, 4);
        assert false;
      }
      r := Ok(rows);
    }

    /**
     * The distribution a base after `payload` is drawn from
     * (motifBuilder.py:54-62): uniform with no active tag, otherwise one
     * term per active tag, with its weight and the penalties it gives
     * payload + A, T, C, G.
     */
    ghost predicate DrawnFrom(payload: Strand, tags: seq<string>, ch: Choice)
      requires Valid()
      reads this, penalties
    {
      if tags == [] then ch == Uniform
      else
        && ch.Weighted? && |ch.terms| == |tags|
        && forall i :: 0 <= i < |tags| ==>
             tags[i] in weights && Column(payload, tags[i], 4).Ok?
             && ch.terms[i] == Term(weights[tags[i]], Column(payload, tags[i], 4).value)
    }

    /**
     * One pass of buildPayload's loop up to the draw (motifBuilder.py:33-64):
     * the candidates payload + n are scored, weighed and a base is drawn at
     * the given position of the random stream. The pass fails with
     * ZeroDivisionError when a 'hom' score divides by maxHom = 0, with
     * IndexError when a hairpin search fails, and otherwise with KeyError
     * or ValueError when an active tag has no weight or is not scored.
     */
    method DrawBase(payload: Strand, tags: seq<string>, sample: Sampler, draw: nat) returns (r: Result<(Nuc, Choice), BuildError>)
      requires Valid()
      ensures r.Ok? <==> Weighable(tags, weights, PayloadTags) && forall i :: 0 <= i < |tags| ==> Column(payload, tags[i], 4).Ok?
      ensures r.Ok? ==> r.value.0 == sample(r.value.1, draw) && DrawnFrom(payload, tags, r.value.1)
      ensures "hom" in tags && HomDivides(payload) ==> r.Err?
      ensures c.maxHom == 0 && HomLeads(tags) && !penalties.WholeMotifOnly(payload + [Alphabet[0]]) ==> r == Err(ZeroDivisionError)
      ensures r.Err? && r.error != IndexError ==>
                (r.error == ZeroDivisionError && DividesByZero(tags, c.maxHom)) || Fault(tags, weights, PayloadTags, r.error)
      ensures r.Err? && r.error != IndexError && !DividesByZero(tags, c.maxHom) ==>
                Fault(tags, weights, PayloadTags, r.error) && forall i :: 0 <= i < |tags| ==> Column(payload, tags[i], 4).Ok?
      ensures r.Err? && Weighable(tags, weights, PayloadTags) && !DividesByZero(tags, c.maxHom) ==> r.error == IndexError
      ensures |payload| < c.payloadSize && penalties.joints == [] ==>
                (r.Ok? <==> Weighable(tags, weights, PayloadTags) && !("hom" in tags && HomDivides(payload)))
    {
      var rows := ScoreCandidates(payload, tags);
      if rows.Err? {
        return Err(rows.error);
      }
      forall i | 0 <= i < |tags|
        ensures |rows.value[i]| == (if tags[i] in PayloadTags then 4 else 0)
      {
        ColumnMeaning(payload, tags[i]);
      }
      var choice := Weigh(tags, rows.value, weights);
      if choice.Err? && choice.error == ValueError {
        WidthFault(tags, rows.value, PayloadTags);
      }
      if choice.Err? {
        return Err(choice.error);
      }
      r := Ok((sample(choice.value, draw), choice.value));
    }

    /** Drawing one base more: the earlier bases keep the distributions they were drawn from. */
    lemma DrawnFromStep(payload: Strand, tags: seq<string>, choices: seq<Choice>, n: Nuc, ch: Choice)
      requires Valid() && |choices| == |payload|
      requires forall t :: 0 <= t < |payload| ==> DrawnFrom(payload[..t], tags, choices[t])
      requires DrawnFrom(payload, tags, ch)
      ensures forall t :: 0 <= t < |payload| + 1 ==> DrawnFrom((payload + [n])[..t], tags, (choices + [ch])[t])
    {
      forall t | 0 <= t < |payload| + 1
        ensures DrawnFrom((payload + [n])[..t], tags, (choices + [ch])[t])
      {
        if t < |payload| {
          assert (payload + [n])[..t] == payload[..t];
        } else {
          assert (payload + [n])[..t] == payload;
        }
      }
    }

    /**
     * The base loop of buildPayload (motifBuilder.py:32-66): payloadSize
     * bases, each drawn from the distribution the engine's scores of the
     * bases before it give; the engine is only read. With 'hom' active the
     * first base raises ZeroDivisionError when HomDivides([]); without
     * joints the loop otherwise fails only when an active tag has no
     * weight or is not scored.
     */
    method DrawPayloadBases(tags: seq<string>, sample: Sampler, draw: nat) returns (r: Result<Strand, BuildError>, next: nat, ghost choices: seq<Choice>)
      requires Valid()
      ensures next >= draw
      ensures r.Ok? ==> r.value == Drawn(sample, choices, draw) && |r.value| == c.payloadSize && next == draw + c.payloadSize
      ensures r.Ok? ==> forall t :: 0 <= t < c.payloadSize ==> DrawnFrom(r.value[..t], tags, choices[t])
      ensures r.Ok? ==> Weighable(tags, weights, PayloadTags) && !("hom" in tags && HomDivides([]))
      ensures "hom" in tags && HomDivides([]) ==> r.Err?
      ensures c.maxHom == 0 && HomLeads(tags) && !penalties.WholeMotifOnly([Alphabet[0]]) ==> r == Err(ZeroDivisionError)
      ensures r.Err? && r.error != IndexError ==>
                (r.error == ZeroDivisionError && DividesByZero(tags, c.maxHom)) || Fault(tags, weights, PayloadTags, r.error)
      ensures r.Err? && Weighable(tags, weights, PayloadTags) && !DividesByZero(tags, c.maxHom) ==> r.error == IndexError
      ensures penalties.joints == [] ==> (r.Ok? <==> Weighable(tags, weights, PayloadTags) && !("hom" in tags && HomDivides([])))
    {
      var payload: Strand := [];
      next := draw;
      choices := [];
      for i := 0 to c.payloadSize
        invariant |payload| == i && next == draw + i && |choices| == i
        invariant payload == Drawn(sample, choices, draw)
        invariant forall t :: 0 <= t < i ==> DrawnFrom(payload[..t], tags, choices[t])
        invariant i > 0 ==> Weighable(tags, weights, PayloadTags) && !("hom" in tags && HomDivides([]))
        invariant i > 0 ==> !(c.maxHom == 0 && HomLeads(tags) && !penalties.WholeMotifOnly([Alphabet[0]]))
      {
        if i > 0 {
          HomDividesLater(payload);
        }
        var drawn := DrawBase(payload, tags, sample, next);
        if drawn.Err? {
          return Err(drawn.error), next, choices;
        }
        DrawStep(sample, choices, draw, payload, drawn.value.0, drawn.value.1, false);
        DrawnFromStep(payload, tags, choices, drawn.value.0, drawn.value.1);
        payload := payload + [drawn.value.0];
        choices := choices + [drawn.value.1];
        next := next + 1;
      }
      r := Ok(payload);
    }

    /**
     * buildPayload (motifBuilder.py:29-70): payloadSize bases, each drawn
     * from the distribution of its scores; the engine is read while the
     * payload grows and changes only when the finished payload is
     * registered with add_payload.
     */
    method BuildPayload(tags: seq<string>, sample: Sampler, draw: nat) returns (r: Result<Strand, BuildError>, next: nat, ghost choices: seq<Choice>)
      requires Valid()
      modifies penalties
      ensures Valid()
      ensures next >= draw
      ensures r.Ok? ==> r.value == Drawn(sample, choices, draw) && |r.value| == c.payloadSize && next == draw + c.payloadSize
      ensures r.Ok? ==> Weighable(tags, weights, PayloadTags) && !("hom" in tags && old(HomDivides([])))
      ensures "hom" in tags && old(HomDivides([])) ==> r.Err?
      ensures c.maxHom == 0 && HomLeads(tags) && !old(penalties.WholeMotifOnly([Alphabet[0]])) ==> r == Err(ZeroDivisionError)
      ensures r.Err? && r.error != IndexError ==>
                (r.error == ZeroDivisionError && DividesByZero(tags, c.maxHom)) || Fault(tags, weights, PayloadTags, r.error)
      ensures r.Err? && Weighable(tags, weights, PayloadTags) && !DividesByZero(tags, c.maxHom) ==> r.error == IndexError
      ensures old(penalties.joints) == [] ==> (r.Ok? <==> Weighable(tags, weights, PayloadTags) && !("hom" in tags && old(HomDivides([]))))
      ensures r.Ok? ==> penalties.payloads == Added(old(penalties.payloads), r.value)
      ensures r.Ok? ==> penalties.PayloadHomsNow() == RecordPayload(old(penalties.PayloadHomsNow()), r.value)
      ensures penalties.JointState() == old(penalties.JointState())
      ensures r.Err? ==> penalties.payloads == old(penalties.payloads) && penalties.PayloadHomsNow() == old(penalties.PayloadHomsNow())
    {
      r, next, choices := DrawPayloadBases(tags, sample, draw);
      if r.Ok? {
        penalties.AddPayload(r.value);
      }
    }

    /**
     * buildAllPayloads (motifBuilder.py:72-77): payloadNum builds, kept as
     * a set; a payload drawn twice is kept once and no replacement is drawn,
     * so the set has between one and payloadNum payloads, all of them
     * registered with the engine.
     */
    method BuildAllPayloads(tags: seq<string>, sample: Sampler, draw: nat) returns (r: Result<seq<Strand>, BuildError>, next: nat)
      requires Valid()
      modifies penalties
      ensures Valid()
      ensures r.Ok? ==> Weighable(tags, weights, PayloadTags) && !("hom" in tags && old(HomDivides([])))
      ensures "hom" in tags && old(HomDivides([])) ==> r.Err?
      ensures c.maxHom == 0 && HomLeads(tags) && !old(penalties.WholeMotifOnly([Alphabet[0]])) ==> r == Err(ZeroDivisionError)
      ensures r.Err? && r.error != IndexError ==>
                (r.error == ZeroDivisionError && DividesByZero(tags, c.maxHom)) || Fault(tags, weights, PayloadTags, r.error)
      ensures r.Err? && Weighable(tags, weights, PayloadTags) && !DividesByZero(tags, c.maxHom) ==> r.error == IndexError
      ensures old(penalties.joints) == [] ==> (r.Ok? <==> Weighable(tags, weights, PayloadTags) && !("hom" in tags && old(HomDivides([]))))
      ensures r.Ok? ==> 1 <= |r.value| <= c.payloadNum && Distinct(r.value)
      ensures r.Ok? ==> forall p :: p in r.value ==> |p| == c.payloadSize && p in penalties.payloads
      ensures r.Ok? && old(penalties.payloads) == [] ==> penalties.payloads == r.value
      ensures penalties.JointState() == old(penalties.JointState())
      ensures next >= draw
    {
      var allPayloads: seq<Strand> := [];
      next := draw;
      for i := 0 to c.payloadNum
        invariant Valid()
        invariant Distinct(allPayloads) && |allPayloads| <= i && (i > 0 ==> |allPayloads| >= 1)
        invariant forall p :: p in allPayloads ==> |p| == c.payloadSize && p in penalties.payloads
        invariant old(penalties.payloads) == [] ==> penalties.payloads == allPayloads
        invariant penalties.JointState() == old(penalties.JointState())
        invariant next >= draw
        invariant i > 0 ==> Weighable(tags, weights, PayloadTags) && !("hom" in tags && old(HomDivides([])))
        invariant i > 0 ==> !(c.maxHom == 0 && HomLeads(tags) && !old(penalties.WholeMotifOnly([Alphabet[0]])))
      {
        ghost var before := penalties.payloads;
        var payload, after, _ := BuildPayload(tags, sample, next);
        if payload.Err? {
          return Err(payload.error), after;
        }
        AddedMeaning(allPayloads, payload.value);
        AddedMeaning(before, payload.value);
        allPayloads := Added(allPayloads, payload.value);
        next := after;
      }
      r := Ok(allPayloads);
    }
  }
}
