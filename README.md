# DNA motif builder — constraint-scoring core

The repository builds sets of DNA *keys* and *payloads* and joins them into
*motifs*. A motif is the second half of one key's reverse complement, then a
payload, then the first half of another key's reverse complement. The
reverse complement of a key is called its *joint*.

Builders draw every strand one base at a time. Before each base, they score
the four candidate extensions against the active constraints and draw the
next base from a distribution weighted by those scores. The constraints are:

- homopolymer runs;
- hairpins;
- GC content within a key;
- GC content within the motif a strand will end up in;
- similarity and unique joints, for keys.

Three penalty engines hold the state that scoring depends on:

- a key engine;
- a payload engine;
- a validator that scores a finished set of keys and payloads.

This project models that core in Dafny.

- **Configuration.** `Configuration` covers the constraint record and its
  twelve assertions. `Temperatures` covers the hyperparameter objects.
- **Hairpin search.** `HairpinSearch` and `BasePenalties` cover the shared
  hairpin search. It walks a stem pair base by base across the current
  strand and the pools of other keys or payloads, in both directions.
  `HairpinMeaning`, `KeyHairpinMeaning` and `PoolHairpinMeaning` state what
  that search counts.
  `HairpinExamples` evaluates it on the inputs of the hairpin tests.
- **Key engine.** `KeyPenaltyEngine` is the key engine, a class updated in
  place.
- **Payload engine.** `PayloadPenaltyEngine` is the payload engine, a class
  updated in place. It is supported by:
  - `Scanners` and `RunScans`, for homopolymer runs;
  - `KeyHalves`;
  - `Excesses` and `GcContent`, for the GC windows.
- **Validator.** `Validator` is the validator, a class. It is supported by:
  - `MotifStatistics`;
  - `MotifBoundaries`, for homopolymers across the joint;
  - `ValidationPenalties`;
  - `ValidationLoops`;
  - `ScoreTotals`.
- **Builders.** `KeyBuilding` and `MotifBuilding` are the two builders.
  `Sampling` covers the weighted draw. `KeyMotifBuilding` is the
  top-level pipeline that builds keys, then payloads, then motifs, and
  scores them.

Conventions of the model:

- Strands are sequences of the datatype `Nuc = A | T | C | G`.
- A Python set the source iterates over is a duplicate-free sequence in
  insertion order.
- An exponential penalty `h ** (k / n)` is kept symbolic, as a `Power` term
  of a `Penalty`.
- The draw `np.random.choice` is a parameter: a `Sampler` maps a
  distribution and a position in the random stream to a base.
- Python's `IndexError` in the backward hairpin search, `ZeroDivisionError`
  from a homopolymer term `h ** (k / maxHom)` with maxHom = 0, and
  `KeyError` for a tag without a weight, are error values of a `Result`.
  A `Penalty` is `Evaluable` exactly when none of its terms divides by 0.
- `HomDivides(payload)` in the payload builder means: maxHom = 0 and some
  candidate payload + n has a homopolymer term other than the worst case
  h ^ motifSize, the one term that does not divide by maxHom.
  `HomLeads(tags)` means some 'hom' comes before every 'hairpin' in the
  active tags, so 'hom' is scored first for each base.

## Model

| member | source | states |
|---|---|---|
| Configuration.NewConstraints | constraints.py:2-36 | a configuration is accepted exactly when all twelve assertions hold; an accepted one keeps every argument, has motifSize = payloadSize + keySize and maxPossibleMotifNum = payloadNum·keyNum², and a single loop size (not -1) overrides both ends of the loop range; a rejection names the first failed assertion |
| Configuration.DefaultsAreRejected | constraints.py:2-27 | the constructor's own default arguments (keySize 1) fail its even-key-size assertion |
| Configuration.JointSize | constraints.py:26-27 | int(keySize / 2) of an accepted configuration is at least 1 and exactly half the key |
| Temperatures.ConstraintHyperparameters.constructor | hyperparameters.py:2-3 | the weight object holds the given weight |
| Temperatures.ConstraintHyperparameters.GiveHyperparameter | hyperparameters.py:5-6 | the weight is replaced by the given one |
| Temperatures.Give | hyperparameters.py:24-42 | on values: each of the six recognised names sets its own weight and no other; jointRepeat and keyInPayload can never be set; an unknown name changes nothing |
| Temperatures.Configured | hyperparameters.py:10-21 | the weights a dictionary configures: each settable weight is the dictionary's entry when present and 1 otherwise; jointRepeat and keyInPayload stay 1 |
| Temperatures.GiveExtends | hyperparameters.py:20-21 | giving one more entry of the dictionary turns the configuration of the smaller dictionary into that of the larger |
| Temperatures.GiveCommutes | hyperparameters.py:24-42 | giving two different names commutes, so the dictionary's iteration order does not matter |
| Temperatures.Hyperparameters.constructor | hyperparameters.py:10-21 | after construction the eight weights are Configured(dictionary), whatever the iteration order |
| Temperatures.Hyperparameters.GiveAll | hyperparameters.py:20-21 | the loop over the dictionary, from the default weights, ends at Configured(dictionary) |
| Temperatures.Hyperparameters.GiveHyperparameter | hyperparameters.py:24-42 | the weights become Give(old weights, name, weight) and the object stays well formed |
| Nucleotides.Complement | keyMotifBuilder.py:48 | the converse of a base is a different base with the same GC-ness, and complementing twice is the identity (ComplementInvolutive) |
| Nucleotides.ReverseComplement | keyMotifBuilder.py:45-48 | the joint of a key has the key's length and position i holds the complement of the key's position len-1-i |
| Nucleotides.ReverseComplementRuns | validation.py:307-311 | the reverse complement's first run is the strand's last run and vice versa |
| Nucleotides.GcCountReverseComplement | baseKeyPenalties.py:137 | a key and its joint have the same GC count |
| Nucleotides.AddedMeaning | keyBuilder.py:81 | set.add on a duplicate-free sequence keeps the old members, adds the new one, and keeps every member once |
| Sampling.DrawnAt | keyBuilder.py:69 | the i-th base drawn is the sampler's draw from the i-th distribution at stream position draw + i |
| Sampling.GatherMeaning | keyBuilder.py:37-46 | a tag's penalty list is built exactly when no candidate's hairpin search failed, and then holds every candidate's penalty in order |
| Sampling.Weigh | keyBuilder.py:59-69 | no active tag gives the uniform distribution; otherwise the draw succeeds exactly when every tag has a weight and four penalties, with one weighted term per tag in order; a failure is a KeyError naming the first tag without a weight, or a ValueError at the first tag whose list length differs from the first tag's, or after the loop when the lists are empty |
| KeyPenaltyEngine.BaseKeyPenalties.constructor | baseKeyPenalties.py:8-42 | a new engine has no keys, an empty partial key, statistics that describe it, and registries describing no key |
| KeyPenaltyEngine.BaseKeyPenalties.StartNewKey | baseKeyPenalties.py:94-97 | the partial key and its GC count and run length are reset; the registries are untouched |
| KeyPenaltyEngine.BaseKeyPenalties.AddBase | baseKeyPenalties.py:76-79 | the partial key grows by the base and the running statistics keep describing it; the registries are untouched |
| KeyPenaltyEngine.BaseKeyPenalties.UpdateHomopolymerStats | baseKeyPenalties.py:81-87 | the run length becomes 1 for a first base or a base unlike the previous one, and grows by one otherwise |
| KeyPenaltyEngine.BaseKeyPenalties.UpdateGcCountStats | baseKeyPenalties.py:89-90 | the GC count grows by one exactly for G or C |
| KeyPenaltyEngine.BaseKeyPenalties.AddKey | baseKeyPenalties.py:101-106 | a key of the wrong size is refused and nothing changes; otherwise it is added to the key set and its halves and their GC counts to the registries, which keep describing exactly the registered keys |
| KeyPenaltyEngine.RegisterKeepsRegistryOf | baseKeyPenalties.py:101-148 | registering one key more turns the registries of the old keys into those of the new key set |
| KeyPenaltyEngine.BaseKeyPenalties.AddKeys | baseKeyPenalties.py:108-110 | the key set becomes the old keys plus, in order, every new key of the configured size |
| KeyPenaltyEngine.AddedSizedMeaning | baseKeyPenalties.py:108-110 | after add_keys a key is registered exactly when it was before or is a new key of the configured size; no key is held twice |
| KeyPenaltyEngine.BaseKeyPenalties.AddJoints | baseKeyPenalties.py:113-116 | the first half joins startJoints and the rest joins endJoints; nothing else changes |
| KeyPenaltyEngine.HalfGcCounts | baseKeyPenalties.py:119-142 | the counting loop yields, as both minimum and maximum, the GC count of the key's first half and that of its second half |
| KeyPenaltyEngine.BaseKeyPenalties.AddMotifGcInfo | baseKeyPenalties.py:118-148 | the four registries fold in the two halves' GC counts (minimum with -1 meaning none, maximum) and nothing else changes |
| KeyPenaltyEngine.PartnerRangeWhileFirstHalf | baseKeyPenalties.py:186-191 | while the first half is built, the clamped registered minimum and maximum are the least and greatest GC counts of the registered second halves (0 with no key) |
| KeyPenaltyEngine.PartnerRangeWhileSecondHalf | baseKeyPenalties.py:193-200 | while the second half is built, the folded minimum and maximum are the least and greatest GC counts among the registered first halves and the candidate's own |
| KeyPenaltyEngine.BaseKeyPenalties.HomopolymerStats | baseKeyPenalties.py:158-161 | 0 for the empty candidate; otherwise the length of the candidate's final run when the engine tracks its prefix |
| KeyPenaltyEngine.BaseKeyPenalties.HomopolymerPenalty | baseKeyPenalties.py:152-156 | zero for the empty candidate, otherwise, when the engine tracks the prefix, the single term hom ^ (final run / maxHom) |
| KeyPenaltyEngine.BaseKeyPenalties.CandidateGc | baseKeyPenalties.py:174 | the running count plus the last base is the candidate's GC count |
| KeyPenaltyEngine.BaseKeyPenalties.WithinKeyMeaning | baseKeyPenalties.py:173-179 | the key term is zero exactly when the candidate's GC% is inside the window, and otherwise is the distance past the violated bound times len / keySize |
| KeyPenaltyEngine.ScaledExcess | baseKeyPenalties.py:175-179 | the scaled GC excess is zero inside the window and the scaled distance past the bound outside it |
| KeyPenaltyEngine.BaseKeyPenalties.KeyGcContentWithinMotif | baseKeyPenalties.py:181-204 | the motif term is never negative |
| KeyPenaltyEngine.BaseKeyPenalties.WithinMotifZeroIff | baseKeyPenalties.py:181-204 | the motif term is zero exactly when every motif the candidate can end up in, with any partner half GC count the registries allow, keeps its GC% in the window |
| KeyPenaltyEngine.BaseKeyPenalties.KeyGcContentPenalty | baseKeyPenalties.py:165-171 | non-negative, and zero exactly when both the key term and the motif term are zero |
| KeyPenaltyEngine.BaseKeyPenalties.HairpinPenalty | baseKeyPenalties.py:208-211 | exactly the shared hairpin_penalty with the registered keys as the pool and no opposite pool; never fails for a candidate of at most keySize bases; its value is the hairpin total of the hits |
| KeyPenaltyEngine.BaseKeyPenalties.SimilarityStats | baseKeyPenalties.py:245-251 | the loop yields similarity ^ (len / keySize) when the candidate begins some registered key, similarity ^ 0 otherwise |
| KeyPenaltyEngine.LongestRegisteredPrefix | baseKeyPenalties.py:228-230 | the loop over a joint registry yields the part's length exactly when the part begins a registered half, else 0 |
| KeyPenaltyEngine.BeginsSomeAdd | baseKeyPenalties.py:228-235 | a part begins some half of a grown registry exactly when it begins an old one or the new one |
| KeyPenaltyEngine.BaseKeyPenalties.UniqueJointsScore | baseKeyPenalties.py:219-237 | zero once all 4^jointSize halves are registered on both sides; otherwise one term with exponent between 0 and jointSize over jointSize |
| KeyPenaltyEngine.BaseKeyPenalties.UniqueJointsStats | baseKeyPenalties.py:219-237 | the loops compute UniqueJointsScore: the unused share of the side being built times uniqueJoints ^ (shared / jointSize) |
| KeyPenaltyEngine.BaseKeyPenalties.GetHomopolymerPenalty | baseKeyPenalties.py:54-56 | the homopolymer penalty of key + n: hom ^ (1 / maxHom) for the empty key, hom ^ (final run of key + n / maxHom) when the engine tracks key; it can be evaluated whenever maxHom is not 0, and for the empty or tracked key only then |
| KeyPenaltyEngine.BaseKeyPenalties.GetGcPenalty | baseKeyPenalties.py:62-64 | the key GC penalty of key + n: never negative, and zero exactly when both the key term and the motif term are zero |
| KeyPenaltyEngine.BaseKeyPenalties.GetHairpinPenalty | baseKeyPenalties.py:58-60 | the hairpin penalty of key + n, a hairpin total; the search never fails while key is shorter than keySize |
| KeyPenaltyEngine.BaseKeyPenalties.GetSimilarityPenalty | baseKeyPenalties.py:66-68 | the similarity score of key + n |
| KeyPenaltyEngine.BaseKeyPenalties.GetUniqueJointsPenalty | baseKeyPenalties.py:70-72 | the unique-joints score of key + n |
| KeyPenaltyEngine.BaseKeyPenalties.GetAllPenalties | baseKeyPenalties.py:46-52 | the five penalties of key + n summed. The homopolymer term comes first: with maxHom = 0 it fails with ZeroDivisionError for the empty or tracked key; otherwise it fails, with IndexError, exactly when the hairpin search does, which cannot happen while key is shorter than keySize |
| KeyBuilding.KeyBuilder.constructor | keyBuilder.py:11-20 | a builder over a fresh key engine with no keys and the given weights |
| KeyBuilding.KeyBuilder.CandidatesAt | keyBuilder.py:35-46 | the j-th candidate scored is key + the j-th base of the alphabet |
| KeyBuilding.KeyBuilder.CandidateRaises | keyBuilder.py:37-46 | a candidate raises only ZeroDivisionError under 'hom' with maxHom = 0 or IndexError under 'hairpin' at keySize bases or more, and under 'hom' with maxHom = 0 the empty or tracked key does raise |
| KeyBuilding.KeyBuilder.ColumnMeaning | keyBuilder.py:32-46 | a key tag's list is built exactly when no candidate's search fails, and then holds the penalties of key + A, T, C, G in order; any other tag's list stays empty |
| KeyBuilding.KeyBuilder.ColumnsOk | keyBuilder.py:35-46 | a key tag's list can only fail under 'hom' with maxHom = 0, with ZeroDivisionError, and below keySize it does fail so for the empty or tracked key; every other list is built |
| KeyBuilding.KeyBuilder.ColumnFails | keyBuilder.py:35-46 | a list that fails at some base fails for the whole alphabet |
| KeyBuilding.KeyBuilder.ScoreTag | keyBuilder.py:37-46 | one tag, one base: the list grows by the candidate's penalty, or the whole list fails with an error its tag raises (ZeroDivisionError from 'hom' with maxHom = 0, IndexError from 'hairpin' at keySize bases or more) |
| KeyBuilding.KeyBuilder.ScoreRound | keyBuilder.py:35-46 | one base, every active tag in order: each tag's list grows by that candidate's penalty, or the first tag that raises is named, with the error its tag raises |
| KeyBuilding.KeyBuilder.ScoreCandidates | keyBuilder.py:30-57 | every active tag gets its full list exactly when no candidate raises; an error is IndexError or, with 'hom' active and maxHom = 0, ZeroDivisionError; below keySize it is only the latter, and always the latter for the empty or tracked key |
| KeyBuilding.KeyBuilder.DrawBase | keyBuilder.py:29-69 | the draw succeeds exactly when every active tag has a weight and is a key tag and 'hom' does not divide by maxHom = 0; such a division fails the draw with ZeroDivisionError, and any other failure is a KeyError or ValueError naming the cause; the base is the sampler's draw from the weighted distribution of the candidates' penalties (uniform with no tag) |
| KeyBuilding.KeyBuilder.ExtendKey | keyBuilder.py:29-72 | succeeds exactly when every active tag has a weight and is a key tag and 'hom' does not divide by maxHom = 0, failing with ZeroDivisionError, KeyError or ValueError as DrawBase does; a drawn base is appended to the engine's partial key, which stays tracked; the registered keys are untouched |
| KeyBuilding.KeyBuilder.DrawBases | keyBuilder.py:27-73 | keySize bases drawn in order from consecutive stream positions exactly when every active tag has a weight and is a key tag and 'hom' does not divide by maxHom = 0, failing otherwise with ZeroDivisionError, KeyError or ValueError; the engine's partial key is the key |
| KeyBuilding.KeyBuilder.BuildKey | keyBuilder.py:24-75 | a key of keySize bases drawn from the stream exactly when every active tag has a weight and is a key tag and 'hom' does not divide by maxHom = 0, registered with the engine on success; a failure is ZeroDivisionError, KeyError or ValueError and registers nothing |
| KeyBuilding.KeyBuilder.BuildAllKeys | keyBuilder.py:77-82 | keyNum builds kept as a set: between 1 and keyNum distinct keys of keySize bases, all registered with the engine (exactly them, from an empty engine); fails exactly when 'hom' is active with maxHom = 0 (ZeroDivisionError) or an active tag has no weight (KeyError) or is not a key tag (ValueError) |
| MotifBuilding.MotifBuilder.constructor | motifBuilder.py:11-22 | a builder over a fresh payload engine with no payloads or joints and the given weights |
| MotifBuilding.MotifBuilder.AddJoints | motifBuilder.py:24-25 | the engine holds exactly the given joints, scanned; its payloads are untouched |
| MotifBuilding.MotifBuilder.CandidatesAt | motifBuilder.py:39-49 | the j-th candidate scored is payload + the j-th base of the alphabet |
| MotifBuilding.MotifBuilder.CandidateRaises | motifBuilder.py:40-49 | under 'hom' a candidate raises exactly when maxHom = 0 and it has a term other than h ^ motifSize, with ZeroDivisionError; under 'hairpin' only IndexError, never without joints below payloadSize |
| MotifBuilding.MotifBuilder.ColumnRaises | motifBuilder.py:39-49 | a payload tag's list fails only with an error its tag raises |
| MotifBuilding.MotifBuilder.HomDividesLater | motifBuilder.py:32-49 | between the first and the last base, 'hom' divides by zero for some candidate exactly when maxHom = 0, as for the first base |
| MotifBuilding.MotifBuilder.HomColumn | motifBuilder.py:40-43 | the 'hom' list fails exactly when maxHom = 0 and some candidate scored has a term other than h ^ motifSize, and then with ZeroDivisionError |
| MotifBuilding.MotifBuilder.RoundFails | motifBuilder.py:39-49 | a failed round fails its tag's list for the whole alphabet with IndexError or, with 'hom' active and maxHom = 0, ZeroDivisionError; with no 'hairpin' before 'hom' and a dividing first candidate it is ZeroDivisionError; without joints below payloadSize only 'hom' can fail |
| MotifBuilding.MotifBuilder.ColumnMeaning | motifBuilder.py:36-49 | a payload tag's list is built exactly when no candidate's search fails, and then holds the penalties of payload + A, T, C, G in order; any other tag's list stays empty |
| MotifBuilding.MotifBuilder.ColumnFails | motifBuilder.py:39-49 | a list that fails at some base fails for the whole alphabet |
| MotifBuilding.MotifBuilder.ScoreTag | motifBuilder.py:40-49 | one tag, one base: the list grows by the candidate's penalty, or the whole list fails with an error its tag raises; without joints and below payloadSize it fails exactly when 'hom' divides by maxHom = 0 for this candidate |
| MotifBuilding.MotifBuilder.ScoreRound | motifBuilder.py:39-49 | one base, every active tag in order: each list grows by that candidate's penalty, or the first tag that fails is named and its list fails for the whole alphabet |
| MotifBuilding.MotifBuilder.ScoreCandidates | motifBuilder.py:34-52 | every active tag gets its full list exactly when no candidate raises; an error is IndexError or, with 'hom' active and maxHom = 0, ZeroDivisionError; with 'hom' active some candidate raises when HomDivides; with no 'hairpin' before 'hom' and a dividing first candidate the error is ZeroDivisionError; without joints below payloadSize it fails exactly when 'hom' is active and HomDivides, with ZeroDivisionError |
| MotifBuilding.MotifBuilder.DrawBase | motifBuilder.py:33-64 | the draw succeeds exactly when every tag has a weight and is a payload tag and no candidate raises; with 'hom' active and HomDivides it fails; a failure other than IndexError is ZeroDivisionError from 'hom' with maxHom = 0, or a KeyError or ValueError naming the cause; without joints below payloadSize it fails exactly when a tag is unweighted or unscored or 'hom' divides by zero; the base is the sampler's draw from the distribution the candidates' penalties give |
| MotifBuilding.MotifBuilder.DrawnFromStep | motifBuilder.py:32-66 | drawing one base more leaves the earlier bases with the distributions they were drawn from |
| MotifBuilding.MotifBuilder.DrawPayloadBases | motifBuilder.py:32-66 | payloadSize bases from consecutive stream positions, each drawn from the distribution of the bases before it; 'hom' with maxHom = 0 fails the draw (with ZeroDivisionError when no 'hairpin' comes before it); without joints it fails exactly when a tag has no weight or is not a payload tag or 'hom' divides by maxHom = 0; a failure other than IndexError names its cause |
| MotifBuilding.MotifBuilder.BuildPayload | motifBuilder.py:29-70 | a payload of payloadSize bases, registered with add_payload on success; the success and failure cases, ZeroDivisionError included, are those of DrawPayloadBases; the joint state never changes and a failed build changes nothing |
| MotifBuilding.MotifBuilder.BuildAllPayloads | motifBuilder.py:72-77 | payloadNum builds kept as a set: between 1 and payloadNum distinct payloads of payloadSize bases, all registered (exactly them, from an empty engine); 'hom' with maxHom = 0 fails the build, with ZeroDivisionError when no 'hairpin' comes before it; with all tags weighted payload tags and no such division the only failure is IndexError, otherwise a failure is ZeroDivisionError, KeyError or ValueError naming its cause |
| PayloadPenaltyEngine.RecordJointFrom | basePayloadPenalties.py:92-96 | the scan's closing step files a single-run joint under its base in the whole-joint count and otherwise the final run under the last base |
| PayloadPenaltyEngine.ScanRuns | basePayloadPenalties.py:65-100 | the loop over one joint ends knowing whether the joint is one run, its final run and last base, its first run filed under its first base, and the GC counts of its two halves |
| PayloadPenaltyEngine.JointPrefixStep | basePayloadPenalties.py:65-100 | one joint more extends the histograms by that joint and folds its halves' GC counts into the running minima and maxima |
| PayloadPenaltyEngine.RecordJointsMeaning | basePayloadPenalties.py:58-100 | after the scan, each base's entries list exactly the first runs of the multi-run joints beginning with it, the final runs of those ending with it, and the count of joints made of it alone, in joint order |
| PayloadPenaltyEngine.JointsAccounted | basePayloadPenalties.py:65-96 | every joint lands exactly once among the end-run entries and single-run counts of the four bases, and once among the start-run entries and single-run counts |
| PayloadPenaltyEngine.JointRunsShorter | basePayloadPenalties.py:71-96 | a run recorded for a multi-run joint is at least 1 and shorter than the joint |
| PayloadPenaltyEngine.RecordPayloadsMeaning | basePayloadPenalties.py:137-156 | after recording, each base's entries list exactly the first runs of the payloads beginning with it and the final runs of those ending with it |
| PayloadPenaltyEngine.PayloadsAccounted | basePayloadPenalties.py:137-156 | every payload lands exactly once among the first runs and once among the final runs |
| PayloadPenaltyEngine.AddedAllMeaning | basePayloadPenalties.py:131-133 | adding payloads one by one leaves the old ones and the new ones, each exactly once |
| PayloadPenaltyEngine.PayloadPrefixStep | basePayloadPenalties.py:131-133 | one payload more is added to the set and recorded in the histograms |
| PayloadPenaltyEngine.HalfGcSpans | basePayloadPenalties.py:84-103 | the running minimum and maximum of a non-empty registry's half GC counts are its least and greatest members |
| PayloadPenaltyEngine.PairSumsRange | basePayloadPenalties.py:102-103 | the sums of a first-half and a second-half GC count range exactly from the sum of the minima to the sum of the maxima, both attained |
| PayloadPenaltyEngine.PairSumsInWindow | basePayloadPenalties.py:246-253 | every pair sum keeps the motif's GC% in the window exactly when every pair of halves does |
| PayloadPenaltyEngine.PairWindow | basePayloadPenalties.py:246-253 | the window score over the summed range is zero exactly when every pair of half GC counts keeps the GC% in the window |
| PayloadPenaltyEngine.ShiftedAtLeast | basePayloadPenalties.py:199-200 | extending a run by joint runs never gives an exponent below the run itself |
| PayloadPenaltyEngine.CrossAtLeast | basePayloadPenalties.py:187-189 | extending a run on both sides never gives an exponent below the run itself |
| PayloadPenaltyEngine.RepeatedAtLeast | basePayloadPenalties.py:205-207 | extending a run across a whole joint into neighbouring payloads never gives an exponent below the run itself |
| PayloadPenaltyEngine.AppendShifted | basePayloadPenalties.py:199-200 | the loop appends one term h ^ ((run + x) / maxHom) per recorded run x, in order |
| PayloadPenaltyEngine.AppendCross | basePayloadPenalties.py:187-189 | the nested loops append one term per pair of start and end runs, in order |
| PayloadPenaltyEngine.AppendRepeated | basePayloadPenalties.py:205-207 | the nested loops append each term once per single-run joint of the base |
| PayloadPenaltyEngine.BothSidesTerms | basePayloadPenalties.py:179-193 | the start-and-end-joints branch yields its specification's terms |
| PayloadPenaltyEngine.StartSideTerms | basePayloadPenalties.py:196-207 | the start-joints branch yields its specification's terms |
| PayloadPenaltyEngine.EndSideTerms | basePayloadPenalties.py:210-228 | the end-joints branch yields its specification's terms, with the payload's own leading run of the base |
| PayloadPenaltyEngine.BothSidesFacts | basePayloadPenalties.py:179-193 | the branch always yields at least one term, each with exponent at least the run |
| PayloadPenaltyEngine.StartSideFacts | basePayloadPenalties.py:196-207 | the branch always yields at least one term, each with exponent at least the run |
| PayloadPenaltyEngine.EndSideFacts | basePayloadPenalties.py:210-228 | the branch always yields at least one term, each with exponent at least the run |
| PayloadPenaltyEngine.BasePayloadPenalties.constructor | basePayloadPenalties.py:8-48 | a new engine has no payloads, no joints, empty histograms and GC range -1..-1 |
| PayloadPenaltyEngine.BasePayloadPenalties.AddJoints | basePayloadPenalties.py:52-54 | the joints are replaced and scanned: the histograms gain exactly the new joints' runs and the GC range is that of the new joints; payloads are untouched |
| PayloadPenaltyEngine.BasePayloadPenalties.GenerateJointPreStats | basePayloadPenalties.py:58-103 | the histograms gain the current joints' runs and the GC range becomes the sums of the least and of the greatest half counts |
| PayloadPenaltyEngine.BasePayloadPenalties.ScanJoint | basePayloadPenalties.py:65-100 | one joint's runs are recorded and the GC counts of its two halves returned; nothing else changes |
| PayloadPenaltyEngine.BasePayloadPenalties.AddPayload | basePayloadPenalties.py:127-129 | the payload joins the set once and its end runs are recorded; the joint state is untouched |
| PayloadPenaltyEngine.BasePayloadPenalties.AddPayloads | basePayloadPenalties.py:131-133 | the set becomes the old payloads plus the new ones in order, each once, and every new payload is recorded |
| PayloadPenaltyEngine.BasePayloadPenalties.AddHomStats | basePayloadPenalties.py:137-156 | the payload's first run is filed under its first base and its final run under its last base |
| PayloadPenaltyEngine.BasePayloadPenalties.HomopolymerScoreFacts | basePayloadPenalties.py:164-232 | the homopolymer score is a non-empty sum of terms h ^ (k / maxHom), each k at least the candidate's final run, plus possibly the worst-case term h ^ motifSize; it can be evaluated exactly when maxHom is not 0 or that worst-case term is its only term (WholeMotifOnly), since only the other terms divide by maxHom |
| PayloadPenaltyEngine.BasePayloadPenalties.HomopolymerStats | basePayloadPenalties.py:164-232 | the scan back over the final run and the branch on joints and payload ends compute the homopolymer score |
| PayloadPenaltyEngine.BasePayloadPenalties.NoJointRunsScoresRun | basePayloadPenalties.py:175-176 | a base no joint begins or ends with scores the final run alone |
| PayloadPenaltyEngine.BasePayloadPenalties.InteriorRunScoresRun | basePayloadPenalties.py:230-231 | a final run touching neither end of the payload scores alone |
| PayloadPenaltyEngine.BasePayloadPenalties.FinishedPayloadExtendsIntoJoints | basePayloadPenalties.py:210-214 | a finished payload beside multi-run joints only gets one term per joint run of its last base, added to its final run |
| PayloadPenaltyEngine.BasePayloadPenalties.WholeMotifRun | basePayloadPenalties.py:191-193 | a finished single-run payload beside a single-run joint of its base ends with the worst case h ^ motifSize |
| PayloadPenaltyEngine.BasePayloadPenalties.MotifGcScore | basePayloadPenalties.py:240-253 | the motif GC score is never negative |
| PayloadPenaltyEngine.BasePayloadPenalties.MotifGcZeroIff | basePayloadPenalties.py:240-253 | once the joints are scanned, the score is zero exactly when every pair of joint halves around the candidate keeps the motif's GC% in the window |
| PayloadPenaltyEngine.BasePayloadPenalties.MotifGcContentStats | basePayloadPenalties.py:240-253 | the counting loop computes the motif GC score |
| PayloadPenaltyEngine.BasePayloadPenalties.HairpinPenalty | basePayloadPenalties.py:257-259 | forward plus backward search against payloads and joints; never fails without joints; its value is the hairpin total of the hits |
| PayloadPenaltyEngine.BasePayloadPenalties.GetHomopolymerPenalty | basePayloadPenalties.py:113-115 | the homopolymer score of payload + n, which can be evaluated exactly when maxHom is not 0 or the candidate scores only the worst-case term h ^ motifSize |
| PayloadPenaltyEngine.BasePayloadPenalties.GetHairpinPenalty | basePayloadPenalties.py:117-119 | the hairpin penalty of payload + n, a hairpin total; never fails for a partial payload without joints |
| PayloadPenaltyEngine.BasePayloadPenalties.GetGcPenalty | basePayloadPenalties.py:121-123 | the motif GC score of payload + n |
| PayloadPenaltyEngine.BasePayloadPenalties.GetAllPenalties | basePayloadPenalties.py:107-111 | the three penalties of payload + n summed. With maxHom = 0 it fails with ZeroDivisionError unless the candidate scores only the worst-case term h ^ motifSize; otherwise it fails, with IndexError, exactly when the hairpin search does |
| KeyHalves.HalvesHas | baseKeyPenalties.py:113-116 | the halves of a registered key are in the joint registries and their GC counts among the registered counts |
| KeyHalves.HalfGcBounds | baseKeyPenalties.py:145-148 | with no key both running values are -1; otherwise the running minimum and maximum are attained half GC counts that bound every registered one |
| KeyHalves.HalfGcKnown | baseKeyPenalties.py:145-148 | registering a key already registered leaves the running minimum and maximum as they are |
| GcContent.Excess | validation.py:171-174 | the distance of a GC% outside [minGc, maxGc] is never negative, is zero exactly inside the window, and is the distance past the violated bound otherwise |
| GcContent.WindowScore | basePayloadPenalties.py:250-253 | the motif score is never negative and is zero exactly when the lowest reachable GC% is at least minGc and the highest at most maxGc |
| GcContent.PctMonotone | basePayloadPenalties.py:248-249 | more G/C bases never lower the GC% |
| GcContent.MotifWindowScore | basePayloadPenalties.py:246-253 | the score over a range of partner GC counts is never negative |
| GcContent.WindowOverRange | baseKeyPenalties.py:201-204 | when lo and hi are the least and greatest partner GC counts, the score is zero exactly when every partner count keeps the GC% in the window |
| Excesses.OverEmpty | validation.py:152-158 | nothing is kept exactly when no entry exceeds the bound |
| Excesses.OverHas | validation.py:152-158 | every entry above the bound leaves its excess in the list |
| Excesses.OverFrom | validation.py:152-158 | every kept amount is the excess of some entry |
| Excesses.OverAppend | validation.py:145-158 | the excesses of a concatenation are those of the parts, in order |
| Excesses.PairTotalsSize | validation.py:229-232 | the nested loops consider one total per pair |
| Excesses.PairTotalsHas | validation.py:229-232 | every pair contributes its total |
| Excesses.PairTotalsFrom | validation.py:229-232 | every total comes from a pair |
| Excesses.SumPositiveInts | validation.py:159 | a sum of positive amounts is non-negative and zero only for the empty list |
| Excesses.SumPositiveReals | validation.py:178 | a sum of positive scores is non-negative and zero only for the empty list |
| Nucleotides.UniformRuns | validation.py:341-342 | a single-run strand is its own first and final run |
| RunScans.UniformIffOneRun | validation.py:341-344 | a strand is one run exactly when its run list has one entry |
| RunScans.LeadingRunSnoc | validation.py:320-323 | appending a base changes the first run only while the strand is one run |
| RunScans.InteriorSnoc | validation.py:320-327 | closing a run that is not the first adds its excess to the interior excesses |
| RunScans.ScanAtMeaning | validation.py:308-347 | after i bases the scan knows the current base and run, whether the prefix is one run, its first run, the interior excesses and the GC count of the prefix |
| RunScans.ScanWhole | validation.py:308-381 | after a whole strand the scan holds its last base, whether it is one run, its first and final runs, the excesses of its interior runs and its GC count |
| RunScans.TallyAtMeaning | validation.py:146-156 | after i bases the tally knows the current run and the excesses of every run closed so far |
| RunScans.TallyWhole | validation.py:146-158 | the tally of a key with its final run added is the excess of every run of the key |
| Scanners.JointAtMeaning | validation.py:313-317 | the joint built base by base is the reverse complement of the bases read |
| Scanners.HalfGcsMeaning | validation.py:329-334 | the GC counts set aside at jointSize and kept since are those of the two halves |
| Scanners.KeyScanned | validation.py:308-347 | the three scans of a whole key give its joint, one-run flag, first and last runs, interior excesses and half GC counts |
| Scanners.ScanKey | validation.py:308-347 | the loop over one key returns the reverse complement, whether it is one run, its first and last runs, the excesses of its interior runs and the GC counts of its halves |
| Scanners.ScanPayload | validation.py:350-381 | the loop over one payload returns whether it is one run, its first and last runs, the excesses of its interior runs and its GC count |
| Scanners.RunStep | validation.py:320-336 | one base: a change of base closes the current run, filed as first run or as an interior excess |
| Scanners.HalfGcStep | validation.py:329-334 | one base: at index jointSize the first half's count is set aside |
| Scanners.PayloadStep | validation.py:355-372 | one base of a payload keeps the scan describing the bases read |
| Scanners.KeyRunExcesses | validation.py:146-158 | the inner loop over one key yields the excess over maxHom of every run of it |
| Scanners.CountGc | validation.py:166-169 | the counting loop yields the key's GC count |
| MotifStatistics.KeyRecordedIsJointRecorded | validation.py:319-344 | the runs filed for a key under complemented bases are those of its joint read forwards: the key's first run is the joint's last |
| MotifStatistics.KeyHalvesAreJointHalves | validation.py:329-347 | the GC count filed from a key's first half is that of its joint's second half, and the other way round |
| MotifStatistics.KeyRecordedByScan | validation.py:308-347 | what the scan of a key reports makes the loop body record exactly the key's statistics |
| MotifStatistics.PayloadRecordedByScan | validation.py:350-381 | what the scan of a payload reports makes the loop body record exactly the payload's statistics |
| MotifStatistics.RecordedJoints | validation.py:338 | recording a key adds its reverse complement to the joints; recording a payload keeps them |
| Validator.KeysJointsMeaning | validation.py:308-338 | a strand is a joint exactly when it was one or is the reverse complement of a recorded key |
| Validator.KeysRecordedJoints | validation.py:308-338 | recording n keys adds their reverse complements to the joints |
| Validator.PayloadsKeepJoints | validation.py:350-381 | recording payloads leaves the joints alone |
| Validator.GeneratedJoints | validation.py:303-381 | after generate_motifs_stats the joints are exactly the old joints and the reverse complements of the keys |
| Validator.KeyRecordedConsistent | validation.py:308-347 | recording a key of keySize bases keeps pools sized and homOutBoundary positive |
| Validator.PayloadRecordedConsistent | validation.py:350-381 | recording a payload keeps pools sized and homOutBoundary positive |
| Validator.RecordKeyStats | validation.py:308-347 | the loop body for one key records exactly the key's statistics and leaves the payload statistics alone |
| Validator.RecordPayloadStats | validation.py:350-381 | the loop body for one payload records exactly the payload's statistics and leaves the joint statistics alone |
| Validator.RecordKeysStats | validation.py:308-347 | the key loop records every key in order and keeps the validator consistent |
| Validator.RecordPayloadsStats | validation.py:350-381 | the payload loop records every payload in order and keeps the validator consistent |
| Validator.Validate.constructor | validation.py:8-72 | a validator with no keys, no payloads and empty statistics |
| Validator.Validate.AddKeysAndPayloads | validation.py:76-80 | both sets are replaced and the statistics of every key then every payload are added to the old ones |
| Validator.Validate.AddPayloads | validation.py:82-85 | the payloads are replaced and the keys already held are recorded once more, with the new payloads |
| Validator.Validate.AddKeys | validation.py:87-88 | the keys are replaced and no statistics are gathered |
| Validator.Validate.GenerateMotifsStats | validation.py:303-381 | the statistics gain every key, then every payload, scanned once |
| ValidationPenalties.KeysRunExcessEmpty | validation.py:144-159 | no excess is kept exactly when no run of any key is longer than maxHom |
| ValidationPenalties.KeyHomPenaltyZeroIff | validation.py:144-159 | the key homopolymer penalty is never negative and is zero exactly when no key has a run longer than maxHom |
| ValidationPenalties.KeysGcExcessEmpty | validation.py:163-178 | no score is kept exactly when every key's GC% is in the window |
| ValidationPenalties.KeyGcPenaltyZeroIff | validation.py:163-178 | the key GC penalty is never negative and is zero exactly when every key's GC% lies in [minGc, maxGc] |
| ValidationPenalties.EndsGcExcessEmpty | validation.py:270-277 | no score from the innermost loop exactly when every end-joint count keeps the GC% in the window |
| ValidationPenalties.StartsGcExcessEmpty | validation.py:269-277 | no score from the middle loop exactly when every start and end count keeps the GC% in the window |
| ValidationPenalties.MotifsGcExcessEmpty | validation.py:268-277 | no score exactly when every combination keeps the GC% in the window |
| ValidationPenalties.MotifGcPenaltyZeroIff | validation.py:266-278 | the motif GC penalty is never negative and is zero exactly when every payload, start-joint and end-joint GC count together give a GC% in [minGc, maxGc] |
| ValidationPenalties.StartsHairpinsStep | validation.py:192-193 | one stem start more adds what is recorded from it |
| ValidationPenalties.CountedAt | validation.py:193 | one forward search from a stem start records only full-length hairpins |
| ValidationPenalties.LoopsHairpinsStep | validation.py:188-193 | one loop size more adds that size's count, nothing when two stems and the loop do not fit in a key |
| ValidationPenalties.LoopsHairpinsNone | validation.py:188-190 | loop sizes too long for a key, or keys too short for two stems, contribute nothing |
| KeyHairpinMeaning.CountedAtKey | validation.py:193 | one search from a stem start of a key records one full-length hairpin exactly when the two stems pair, nothing otherwise |
| KeyHairpinMeaning.StartsHairpinsKey | validation.py:192-193 | the stem starts of one key record one full-length hairpin per start whose stems pair |
| KeyHairpinMeaning.KeysHairpinsMeaning | validation.py:191-193 | over the keys, one loop size: one hairpin per key and start whose stems pair |
| KeyHairpinMeaning.LoopsHairpinsMeaning | validation.py:186-194 | key_hairpin_count counts one hairpin per fitting loop size, key and start whose stems pair |
| PoolHairpinMeaning.OccurrencesConcat | validation.py:286-299 | the occurrences of a length in two appended records add up, as the running count of hairpin_stats does |
| PoolHairpinMeaning.SearchInside | basePenalties.py:373-397 | one forward search cannot fail, and records the full stem size when both stems lie inside the element and pair |
| PoolHairpinMeaning.LoopLengthsInside | basePenalties.py:373-397 | the loop over loop sizes lo..hi records the full stem size at least once per loop size whose stems lie inside the element and pair |
| PoolHairpinMeaning.CountedAtInside | validation.py:291-297 | one forward_hairpin_counter_at_startPos call of hairpin_stats records at least one full-size hairpin per configured loop size whose stems lie inside the element and pair |
| PoolHairpinMeaning.StartsHairpinsInside | validation.py:292-293 | the stem starts of one element record at least one full-size hairpin per start and loop size whose stems lie inside it and pair |
| PoolHairpinMeaning.PoolHairpinsInside | validation.py:291-297 | over a pool, at least one full-size hairpin per element, start and loop size whose stems lie inside the element and pair |
| PoolHairpinMeaning.HairpinStatsCountsInside | validation.py:286-299 | hairpin_stats counts at least one hairpin per payload or joint, stem start and loop size whose stems lie inside that element and pair |
| ValidationLoops.CountStarts | validation.py:192-193 | the loop over stem starts counts what the searches record |
| ValidationLoops.CountPayloadHairpins | validation.py:291-293 | the payload loop counts the hairpins recorded from every payload and stem start |
| ValidationLoops.CountJointHairpins | validation.py:295-297 | the joint loop counts the hairpins recorded from every joint and stem start |
| ValidationLoops.CountKeys | validation.py:191-193 | the key loop for one loop size counts what every key records |
| ValidationLoops.EndsScores | validation.py:270-277 | the innermost loop appends the positive scores of every end-joint count |
| ValidationLoops.StartsScores | validation.py:269-277 | the middle loop appends the positive scores of every start and end count |
| ValidationLoops.KeysHomPenalty | validation.py:144-159 | the loops add up the excess of every run of every key: non-negative, zero exactly when no run is longer than maxHom |
| ValidationLoops.KeysGcPenalty | validation.py:163-178 | the loops add up every key's distance outside the GC window: non-negative, zero exactly when every key is inside it |
| ValidationLoops.MotifsGcPenalty | validation.py:266-278 | the three nested loops add up the positive scores of every combination: non-negative, zero exactly when every combination is inside the window |
| ValidationLoops.CountLoopSize | validation.py:188-193 | one pass over a loop size adds that size's count, or nothing when it does not fit |
| ValidationLoops.KeysHairpinCount | validation.py:186-194 | the loops count every hairpin of every fitting loop size, key and stem start |
| ValidationLoops.MotifsHairpinCount | validation.py:286-299 | hairpin_stats counts the forward hairpins of every payload, then of every joint |
| Validator.Validate.GetKeyHomopolymerPenalty | validation.py:144-159 | the sum of the run excesses of the keys: never negative, zero exactly when no key has a run longer than maxHom |
| Validator.Validate.GetKeyGcPenalty | validation.py:163-178 | never negative, zero exactly when every key's GC% lies in [minGc, maxGc] |
| Validator.Validate.GetKeyHairpinPenalty | validation.py:182-194 | one per fitting loop size, key and stem start whose stems pair; zero when even the shortest loop does not fit |
| Validator.Validate.GetMotifAndKeyHairpinPenalty | validation.py:282-299 | the hairpins hairpin_stats finds from the payloads and the joints |
| Validator.Validate.GetMotifGcPenalty | validation.py:266-278 | never negative, zero exactly when every payload, start-joint and end-joint combination is inside the GC window |
| MotifBoundaries.NucBoundary | validation.py:216-260 | what one base adds to homOutBoundary: only positive excesses (with 228-232 corrected) |
| MotifBoundaries.NucBoundaryAsWritten | validation.py:216-260 | what one base adds as written, pairing the payloads' own runs at 228-232 |
| MotifBoundaries.FirstWorst | validation.py:211-214 | the scan's stopping index lies between its start and 4 |
| MotifBoundaries.FirstWorstMeaning | validation.py:211-214 | the scan stops exactly at the first base with a one-run payload and a one-run joint, if there is one |
| MotifBoundaries.NucsBoundary | validation.py:211-260 | what the first k bases add is only positive excesses (homopolymer scan with 228-232 corrected) |
| MotifBoundaries.HomCallStops | validation.py:211-214 | a call meeting a worst case extends homOutBoundary by the bases before it and returns motifSize · maxPossibleMotifNum (homopolymer scan with 228-232 corrected) |
| MotifBoundaries.HomCallCompletes | validation.py:211-262 | a call meeting no worst case extends homOutBoundary by every base and returns the extended field (homopolymer scan with 228-232 corrected) |
| MotifBoundaries.WorstCasePenalty | validation.py:200-262 | with a one-run payload and joint of some base the penalty is motifSize · maxPossibleMotifNum; otherwise it is the sum of homOutBoundary extended by every base's runs (homopolymer scan with 228-232 corrected) |
| MotifBoundaries.NucsBoundaryIgnoresOut | validation.py:216-260 | what a base adds does not depend on homOutBoundary |
| MotifBoundaries.WorstIgnoresOut | validation.py:213 | where the scan stops does not depend on homOutBoundary |
| MotifBoundaries.HomCallNonNegative | validation.py:200-262 | while homOutBoundary holds only positive amounts, a call keeps it so and its penalty is not negative (homopolymer scan with 228-232 corrected) |
| MotifBoundaries.RecallNeverDecreases | validation.py:208-262 | homOutBoundary persists between calls: a second call adds the same amounts again, never lowers the penalty, and is zero exactly when the first was (homopolymer scan with 228-232 corrected) |
| MotifBoundaries.AppendOver | validation.py:221-223 | the loop appends d + hom - maxHom for every run where that is positive |
| MotifBoundaries.PairTotalsPrefixStep | validation.py:229-232 | one more outer row adds its row's excesses |
| MotifBoundaries.AppendPairOver | validation.py:247-250 | the nested loops append the positive excess of every pair total, outer list first |
| MotifBoundaries.AppendAcross | validation.py:216-250 | the four-way split on the neighbours' runs appends the runs through a one-run element |
| MotifBoundaries.NucBoundaryAppend | validation.py:216-260 | the loop body for one base appends exactly what that base adds (homopolymer scan with 228-232 corrected) |
| MotifBoundaries.ExtendNuc | validation.py:216-260 | one base that is not a worst case extends homOutBoundary by what it adds (homopolymer scan with 228-232 corrected) |
| MotifBoundaries.ScanBoundaries | validation.py:208-262 | the loop over the bases leaves the statistics and returns the list that HomCall specifies (homopolymer scan with 228-232 corrected) |
| MotifBoundaries.AcrossPayloadPairs | validation.py:228-232 | (corrected) every run formed by a start joint's last run, a one-run payload and an end joint's first run is counted when it exceeds maxHom, and every amount counted is such a run |
| MotifBoundaries.WitnessStats | validation.py:308-381 | recording the keys TTCC and CCTT and the payload AAAAA gives, for A, a one-run payload of 5, joint runs [2] and [2], and no payload end runs |
| MotifBoundaries.AcrossPayloadAsWrittenMissesRun | validation.py:228-232 | on those statistics the code as written counts nothing for the run of nine A's in the motif AA + AAAAA + AA (the last half of GGAA, the payload, the first half of AAGG), while the corrected pairing counts its excess 7 |
| MotifBoundaries.NucBoundaryAsWrittenDiffers | validation.py:216-260 | for A the scan as written adds one amount fewer than the corrected scan; the missing amount is 7 |
| Validator.Validate.AddHomopolymerOverMotifsStats | validation.py:208-262 | homOutBoundary is extended as HomCall specifies and the returned list is HomCall's (homopolymer scan with 228-232 corrected) |
| Validator.Validate.GetMotifAndKeyHomopolymerPenalty | validation.py:200-206 | the sum of the returned list (0 for none), never negative; the field stays extended (homopolymer scan with 228-232 corrected) |
| Validator.Validate.GetMotifsAndKeysHomopolymerScore | validation.py:122-123 | the negated homopolymer penalty, never positive (homopolymer scan with 228-232 corrected) |
| Validator.Validate.GetKeysHomopolymerScore | validation.py:125-126 | the negated key homopolymer penalty, never positive |
| Validator.Validate.GetMotifsAndKeysHairpinScore | validation.py:128-129 | the negated hairpin count, never positive |
| Validator.Validate.GetKeysHairpinScore | validation.py:131-132 | the negated key hairpin count, never positive |
| Validator.Validate.GetMotifsGcScore | validation.py:134-135 | the negated motif GC penalty, never positive |
| Validator.Validate.GetKeysGcScore | validation.py:137-138 | the negated key GC penalty, never positive |
| Validator.Validate.GetAllKeysScoresTotal | validation.py:99-103 | the negated sum of the three key penalties: never positive, zero exactly when all three are zero |
| Validator.Validate.GetAllMotifsAndKeysScoresTotal | validation.py:92-97 | the negated sum of four penalties: never positive, zero exactly when all four are zero; homOutBoundary is extended (homopolymer scan with 228-232 corrected) |
| Validator.Validate.GetTotalScoresOfConstraints | validation.py:105-120 | the score of the tags in order, each 'hom' running the scan once more (homopolymer scan with 228-232 corrected) |
| Validator.Validate.AddTagScore | validation.py:107-119 | one pass applies one tag to the statistics and the score (homopolymer scan with 228-232 corrected) |
| Validator.Validate.AddHomScore | validation.py:108-109 | 'hom' extends homOutBoundary once more and adds the homopolymer score (homopolymer scan with 228-232 corrected) |
| Validator.Validate.AddFixedScore | validation.py:110-119 | any other tag adds the negation of the penalty it selects, or nothing for an unknown tag |
| ScoreTotals.FixedPenaltiesNonNegative | validation.py:144-299 | none of the five penalties that only read the fields is negative |
| ScoreTotals.HomTagApplied | validation.py:108-109 | the 'hom' tag runs the scan and subtracts its total (homopolymer scan with 228-232 corrected) |
| ScoreTotals.FixedTagApplied | validation.py:110-119 | any other tag leaves the statistics and subtracts its penalty |
| ScoreTotals.TagsTotalNext | validation.py:107-119 | one tag more is one more application of that tag |
| ScoreTotals.ScanUnderLawful | validation.py:208-262 | the scan keeps amounts positive, returns a non-negative total, and a second scan is clean exactly when the first is (homopolymer scan with 228-232 corrected) |
| ScoreTotals.TagPenaltyNonNegative | validation.py:110-119 | the penalty a tag selects is never negative |
| ScoreTotals.SubtractStep | validation.py:107-119 | subtracting a non-negative penalty keeps the score at or below zero, and at zero only when both were zero |
| ScoreTotals.TagStep | validation.py:107-119 | the invariants of the running total carry over one tag |
| ScoreTotals.AllCleanMeaning | validation.py:107-119 | all of the first n tags clean means each of them is |
| ScoreTotals.TagsTotalAt | validation.py:107-119 | after n tags the score is at most zero, and zero exactly when each of those tags names a constraint that holds |
| ScoreTotals.TagsTotalZeroIff | validation.py:105-120 | the score of a tag list is never positive and is zero exactly when every selected constraint holds (homopolymer scan with 228-232 corrected) |
| HairpinSearch.RegionOf | basePenalties.py:40-72 | a position is in exactly one of: the current element, an element of its own kind, an element of the opposite kind |
| HairpinSearch.PyIndex | basePenalties.py:101-173 | a Python index succeeds exactly for -len ≤ i < len, reading from the end for negative i, and raises IndexError otherwise |
| HairpinSearch.PairsWithFirst | basePenalties.py:101-173 | every candidate pair keeps the given element first and takes its partner from the pool |
| HairpinSearch.PairsWithSecond | basePenalties.py:101-173 | every candidate pair keeps the given element second and takes its partner from the pool |
| HairpinSearch.PairsAcross | basePenalties.py:205-234 | every candidate pair takes its first element from one pool and its second from the other |
| HairpinSearch.PairsPerOpposite | basePenalties.py:145-204 | every candidate pair puts an element of the current kind on one side and an element of the opposite pool on the other |
| HairpinSearch.SendToAllCheck | basePenalties.py:73-96 | the search succeeds when the stem is walked out, every recorded length lies in 1..maxHairpin, and no IndexError is raised when every element handed on has its kind's size |
| HairpinSearch.AllCheckLoop | basePenalties.py:75-96 | the loop over the steps: recorded lengths in 1..maxHairpin, success for well-sized elements |
| HairpinSearch.SendToAllPos1Elem1 | basePenalties.py:97-100 | the dispatch for a first stem base in an own-kind element: lengths in 1..maxHairpin, success for well-sized elements |
| HairpinSearch.SendToAllPos1Elem2 | basePenalties.py:174-177 | the dispatch for a first stem base in an opposite-kind element: lengths in 1..maxHairpin, success for well-sized elements |
| HairpinSearch.SendToElem1Elem1 | basePenalties.py:101-144 | nothing found unless both stem bases fall in elements of the current kind; then the search takes over; lengths in 1..maxHairpin |
| HairpinSearch.SendToElem1Elem2 | basePenalties.py:145-173 | nothing found unless the bases fall in own-kind then opposite-kind elements; then the search takes over when there is a partner |
| HairpinSearch.SendToElem2Elem1 | basePenalties.py:178-204 | nothing found unless the bases fall in opposite-kind then own-kind elements; then the search takes over when there is a partner |
| HairpinSearch.SendToElem2Elem2 | basePenalties.py:205-234 | nothing found unless both bases fall in opposite-kind elements; then the search takes over when there are partners |
| HairpinSearch.CountAll | basePenalties.py:101-234 | one walk per candidate pair, the lengths of all of them, each in 1..maxHairpin |
| HairpinSearch.HairpinCount | basePenalties.py:235-339 | the walk chosen by the kinds of the two stem bases: lengths in 1..maxHairpin, success for well-sized elements |
| HairpinSearch.PosA | basePenalties.py:235-339 | the first stem base's position within a motif, in 0..motifSize-1 |
| HairpinSearch.PosB | basePenalties.py:235-339 | the second stem base's position within a motif, in 0..motifSize-1 |
| HairpinSearch.HairpinCountElem1Elem1 | basePenalties.py:235-261 | the walk over two own-kind elements: lengths in 1..maxHairpin, success for well-sized elements |
| HairpinSearch.Interrupts11 | basePenalties.py:240-252 | the test whether the step leaves the own-kind pair for another kind of pair |
| HairpinSearch.Walk11 | basePenalties.py:235-261 | the step-by-step walk while the bases pair: lengths in 1..maxHairpin, success for well-sized elements |
| HairpinSearch.HairpinCountElem1Elem2 | basePenalties.py:262-288 | the walk over an own-kind then an opposite-kind element: lengths in 1..maxHairpin, success for well-sized elements |
| HairpinSearch.Interrupts12 | basePenalties.py:267-279 | when no interruption is found the step is not an own-kind pair |
| HairpinSearch.Walk12 | basePenalties.py:262-288 | the step-by-step walk while the bases pair: lengths in 1..maxHairpin |
| HairpinSearch.HairpinCountElem2Elem1 | basePenalties.py:289-315 | the walk over an opposite-kind then an own-kind element: lengths in 1..maxHairpin, success for well-sized elements |
| HairpinSearch.Interrupts21 | basePenalties.py:294-306 | when no interruption is found the step is not an own-kind pair |
| HairpinSearch.Walk21 | basePenalties.py:289-315 | the step-by-step walk while the bases pair: lengths in 1..maxHairpin |
| HairpinSearch.HairpinCountElem2Elem2 | basePenalties.py:316-339 | the walk over two opposite-kind elements: lengths in 1..maxHairpin, success for well-sized elements |
| HairpinSearch.Interrupts22 | basePenalties.py:320-330 | when no interruption is found with two partners the step is of none of the other kinds |
| HairpinSearch.OppositeStepsStayOpposite | basePenalties.py:316-339 | a walk that starts over two opposite-kind elements only exists when there is an opposite pool and the stem fits |
| HairpinSearch.Walk22 | basePenalties.py:316-339 | the step-by-step walk while the bases pair: lengths in 1..maxHairpin |
| BasePenalties.MakeWindow | basePenalties.py:348-399 | the window of one search: the second stem starts loopSize + maxHairpin after the first going forward, before it going backward |
| BasePenalties.SearchAt | basePenalties.py:348-399 | one search records lengths in 1..maxHairpin, and raises no IndexError for well-sized elements with no opposite pool, or forward with the second stem not before the start |
| BasePenalties.LoopLengths | basePenalties.py:353-399 | the loop over loop sizes concatenates every size's lengths, each in 1..maxHairpin |
| BasePenalties.LoopRange | basePenalties.py:348-399 | a negative bound is replaced by the configured loop size range; given bounds are kept |
| BasePenalties.AtStartPosLengths | basePenalties.py:348-399 | one *_at_startPos call: lengths in 1..maxHairpin, success under the same conditions |
| BasePenalties.CounterLengths | basePenalties.py:340-347 | the start positions from the end of the element: lengths in 1..maxHairpin, success for well-sized elements going forward |
| BasePenalties.Tally | basePenalties.py:74-78 | with hairpinCount the number of hairpins; otherwise one term h^(length/maxHairpin) per recorded length, in order. This is the list the appends at 74-78, 88-92 and 253-335 build; np.sum adds its entries up, as the counters at 346 and 406 do, so the counter's value is the sum of exactly these terms |
| BasePenalties.TallyIsHairpinTotal | basePenalties.py:340-346 | the list a counter sums: in counting mode a count, otherwise only terms with coefficient 1, base h and an exponent length/maxHairpin in (0, 1]; the counter returns np.sum of this list, the plain sum of its entries |
| BasePenalties.ForwardHairpinCounter | basePenalties.py:400-410 | never raises for well-sized elements, and its total is a count or a sum of terms h^(length/maxHairpin) |
| BasePenalties.BackwardHairpinCounter | basePenalties.py:340-372 | never raises for well-sized elements without an opposite pool, and its total has the same shape |
| BasePenalties.HairpinPenalty | basePenalties.py:36-38 | the forward plus the backward score; never fails for well-sized elements without an opposite pool; the sum is made of terms h^(length/maxHairpin) |
| HairpinExamples.ExampleConfigurations | key_penalties_tests.py:7-17 | the configurations of the hairpin tests: motif size 12, one key and a loop range of exactly the given loop size (10 for the key test, 1 for the payload tests); and payloadSize 6, keySize 4, maxHairpin 3, loop size 3 for the IndexError example |
| HairpinExamples.KeyBackwardAt0 | basePenalties.py:348-371 | the backward search of the empty key from start -1 with loop size 10, against the keys AG and GC, records nothing |
| HairpinExamples.KeyBackwardAt1 | basePenalties.py:348-371 | the same from start -2 |
| HairpinExamples.PayloadBackwardAt0 | basePenalties.py:348-371 | the backward search of the empty payload from start -1 with loop size 1, against the joints AT and GC, records nothing |
| HairpinExamples.PayloadBackwardAt1 | basePenalties.py:348-371 | the same from start -2 |
| HairpinExamples.PayloadForwardAt0 | basePenalties.py:373-397 | the forward search of the empty payload from start -1 with loop size 1, against the joints AT and GC, records nothing |
| HairpinExamples.PayloadForwardAt1 | basePenalties.py:373-397 | the same from start -2 |
| HairpinExamples.EmptyKeyBackwardScoresZero | key_penalties_tests.py:367-380 | backward_hairpin_counter of the empty key against the keys AG and GC, maxHairpin 2 and loop size 10, is 0, as the test asserts |
| HairpinExamples.EmptyPayloadBackwardScoresZero | payload_penalties_tests.py:444-457 | backward_hairpin_counter of the empty payload against the joints AT and GC, maxHairpin 2 and loop size 1, is 0, as the test asserts |
| HairpinExamples.EmptyPayloadForwardScoresZero | payload_penalties_tests.py:685-698 | forward_hairpin_counter of the same input is 0, as the test asserts |
| HairpinExamples.EmptyPayloadHairpinPenaltyZero | basePenalties.py:36-38 | hairpin_penalty of that input is the forward 0 plus the backward 0 |
| HairpinExamples.BackwardIndexErrorAt | basePenalties.py:316-339 | the backward search from position 5 of the payload TCCCGG with loop size 3 walks into the joint CAGT and indexes it at -6, which raises IndexError |
| HairpinExamples.BackwardCounterRaises | basePenalties.py:340-346 | so backward_hairpin_counter raises IndexError for the payload TCCCGG against the joint CAGT |
| HairpinMeaning.PresentSteps | basePenalties.py:235-261 | the number of present steps is at most the number of steps |
| HairpinMeaning.StepInside | basePenalties.py:40-72 | a step whose stems lie inside the current element is an own-kind pair and no other kind |
| HairpinMeaning.Interrupts11Quiet | basePenalties.py:240-252 | a step that is an own-kind pair only is never interrupted |
| HairpinMeaning.Walk11Within | basePenalties.py:235-261 | inside the current element the walk records what Expected says: the present steps while they pair |
| HairpinMeaning.ExpectedAbsent | basePenalties.py:245-250 | a step outside the element adds nothing |
| HairpinMeaning.ExpectedPairs | basePenalties.py:245-258 | a present step that pairs adds one to the length, recorded when the last step is reached |
| HairpinMeaning.ExpectedBreaks | basePenalties.py:253-256 | a present step that does not pair ends the walk with nothing recorded |
| HairpinMeaning.Walk11Absent | basePenalties.py:245-250 | the walk agrees with Expected on an absent step |
| HairpinMeaning.Walk11Pairs | basePenalties.py:245-258 | the walk agrees with Expected on a pairing step |
| HairpinMeaning.Walk11Breaks | basePenalties.py:253-256 | the walk agrees with Expected on a breaking step |
| HairpinMeaning.CountAllOne | basePenalties.py:101-144 | one candidate pair gives that pair's walk |
| HairpinMeaning.TopWalksCurrent | basePenalties.py:73-144 | a search whose first step is inside the element hands the whole walk to the current element and reports it found |
| HairpinMeaning.SearchWithin | basePenalties.py:348-399 | a search inside the current element records one hairpin of as many bases as are present exactly when every present step pairs and the first is present, nothing otherwise |
| HairpinMeaning.AllPresentSteps | basePenalties.py:235-261 | with every step present, the walk counts every step and is unbroken exactly when every base pairs |
| HairpinMeaning.StemsPairSteps | basePenalties.py:235-261 | two stems pair exactly when every step of the walk pairs |
| HairpinMeaning.SearchWithinFull | basePenalties.py:348-399 | a search whose two stems of maxHairpin bases lie inside the element, full or partial, records [maxHairpin] exactly when the stems pair, nothing otherwise |
| KeyHairpinMeaning.NoStemNoHairpin | basePenalties.py:73-96 | with maxHairpin 0 and no opposite pool a search records nothing |
| KeyMotifBuilding.GetConstraints | keyMotifBuilder.py:10-22 | the constraints are built exactly when they pass every check, with the given values and loop range |
| KeyMotifBuilding.GetConstraintsDefaultsRejected | keyMotifBuilder.py:10-22 | the default arguments (loop range -1) are rejected |
| KeyMotifBuilding.GetWeights | keyMotifBuilder.py:24-26 | the weights map has exactly the four tags, with the given values |
| KeyMotifBuilding.GetHyperparameters | keyMotifBuilder.py:28-30 | the four given temperatures are set; similarity and uniqueJoints keep 1.0 |
| KeyMotifBuilding.ReverseComplementInvolutive | keyMotifBuilder.py:45-48 | reverse-complementing twice gives the strand back |
| KeyMotifBuilding.ReverseComplementInjective | keyMotifBuilder.py:45-48 | distinct strands have distinct reverse complements |
| KeyMotifBuilding.KeyToJoint | keyMotifBuilder.py:45-48 | the loop builds the reverse complement of the key |
| KeyMotifBuilding.KeysToJoints | keyMotifBuilder.py:43-50 | the joints are the set of the keys' reverse complements |
| KeyMotifBuilding.KeysJointsNoRepeat | keyMotifBuilder.py:43-50 | the joints hold no strand twice |
| KeyMotifBuilding.JointsComeFromKeys | keyMotifBuilder.py:43-50 | every joint is the reverse complement of a key |
| KeyMotifBuilding.OneJointPerKey | keyMotifBuilder.py:43-50 | for distinct keys there is one joint per key, the i-th being the i-th key's reverse complement |
| KeyMotifBuilding.HalvesOf | keyMotifBuilder.py:62-67 | one half per joint |
| KeyMotifBuilding.HalfSetMeaning | keyMotifBuilder.py:62-67 | the half sets hold no strand twice and hold exactly the halves of the joints |
| KeyMotifBuilding.HalvesOfMeaning | keyMotifBuilder.py:62-67 | a strand is among the halves exactly when it is the half of some joint |
| KeyMotifBuilding.JointHalves | keyMotifBuilder.py:62-67 | the start set gets the joints' second halves and the end set their first halves |
| KeyMotifBuilding.AddHalves | keyMotifBuilder.py:64-67 | one joint adds its second half to the starts and its first half to the ends |
| KeyMotifBuilding.AddPayloadMotifs | keyMotifBuilder.py:69-73 | the innermost loop keeps every motif, adds start+payload+end for every payload, and adds nothing else |
| KeyMotifBuilding.AddStartMotifs | keyMotifBuilder.py:69-73 | the middle loop adds every motif for one start half and nothing else |
| KeyMotifBuilding.AssembleMotifs | keyMotifBuilder.py:69-73 | the motifs are exactly the strands start+payload+end, with no repeats and at most one per combination |
| KeyMotifBuilding.StartStepOnly | keyMotifBuilder.py:69-73 | one start more adds only combinations |
| KeyMotifBuilding.StartStepCovers | keyMotifBuilder.py:69-73 | one start more covers its combinations as well |
| KeyMotifBuilding.MotifLengths | keyMotifBuilder.py:69-73 | every motif is as long as a start, a payload and an end |
| KeyMotifBuilding.JointsOfKeys | keyMotifBuilder.py:43-50 | the joints of keySize-long keys are distinct and keySize long |
| KeyMotifBuilding.HalvesOnlyFromKeys | keyMotifBuilder.py:62-67 | every start or end half is the corresponding half of the reverse complement of some key |
| KeyMotifBuilding.HalvesCoverKeys | keyMotifBuilder.py:62-67 | every such half of every key is in the half set |
| KeyMotifBuilding.MotifsOnlyFromKeys | keyMotifBuilder.py:62-73 | every motif is a key's second joint half, a payload and a key's first joint half |
| KeyMotifBuilding.MotifsCoverKeys | keyMotifBuilder.py:62-73 | every strand made that way is a motif |
| KeyMotifBuilding.AssembledOnlyFromKeys | keyMotifBuilder.py:43-73 | what build_motifs_and_keys assembles contains only motifs made from the keys and payloads |
| KeyMotifBuilding.AssembledCoverKeys | keyMotifBuilder.py:43-73 | what it assembles contains every motif made from the keys and payloads |
| KeyMotifBuilding.MotifFromKeysLength | keyMotifBuilder.py:69-73 | every motif is keySize + payloadSize long |
| KeyMotifBuilding.AssemblyMeaning | keyMotifBuilder.py:52-78 | distinct full-length keys and payloads and the motifs made from them form an assembly |
| KeyMotifBuilding.BuildMotifsAndKeys | keyMotifBuilder.py:52-78 | a key tag without a weight or not scored by the key builder fails the build, and 'hom' among the key tags with maxHom = 0 fails it with ZeroDivisionError; for payloads of more than one base, 'hom' among the motif tags with maxHom = 0 fails it too (with ZeroDivisionError when no 'hairpin' precedes it); a failure other than IndexError is ZeroDivisionError, KeyError or ValueError caused by a key or motif tag; with all tags weighted and scored and no division by zero the build fails only with IndexError, and a finished build holds keyNum-bounded distinct keys, payloads and exactly the motifs made from them |
| KeyMotifBuilding.TagSets | keyMotifBuilder.py:106-118 | the key tags are hom, keyGcContent and hairpin as asked for, the motif tags hom, motifGcContent and hairpin, all with weights and all scored by their builder |
| KeyMotifBuilding.AnswerTotalZeroIff | keyMotifBuilder.py:127-139 | the answer's total is never positive and is zero exactly when every scored constraint holds (homopolymer scan with 228-232 corrected) |
| KeyMotifBuilding.AnswerTotalSum | keyMotifBuilder.py:127-139 | the four selected scores add up to the answer's total, zero exactly when every scored constraint holds (homopolymer scan with 228-232 corrected) |
| KeyMotifBuilding.SelectedScores | keyMotifBuilder.py:127-135 | the four scores selected by the tags asked for, 'hom' running the scan once (homopolymer scan with 228-232 corrected) |
| KeyMotifBuilding.FixedScores | keyMotifBuilder.py:129-135 | the three scores that only read the validator, selected by the tags asked for |
| KeyMotifBuilding.AnswerScore | keyMotifBuilder.py:127-139 | the answer is valid exactly when every constraint asked for holds (homopolymer scan with 228-232 corrected) |
| KeyMotifBuilding.BuildAnswer | keyMotifBuilder.py:104-139 | bad arguments are reported; 'hom' asked for with maxHomopolymer 0 fails the build with ZeroDivisionError, and otherwise a build fails only with IndexError; a finished build is an assembly from the keys and payloads, valid exactly when every constraint asked for holds (homopolymer scan with 228-232 corrected) |
| Excesses.Over | validation.py:152-158 | only positive excesses are kept, at most one per entry |
| Nucleotides.GcCount | validation.py:166-169 | the number of G and C bases is at most the strand's length |
| Nucleotides.TrailingRun | validation.py:320-327 | the last run of a non-empty strand has at least one base and no more than the strand |
| Nucleotides.LeadingRun | validation.py:320-327 | the first run of a non-empty strand has at least one base and no more than the strand |
| Nucleotides.ComplementInvolutive | keyMotifBuilder.py:48 | complementing twice gives the base back |
| Nucleotides.ReverseComplementAppend | keyMotifBuilder.py:45-48 | the reverse complement of a concatenation is the reversed concatenation of the reverse complements |
| Nucleotides.ReverseComplementUniform | validation.py:341-344 | a strand is one run exactly when its reverse complement is |
| Nucleotides.AddedDistinct | keyBuilder.py:81 | adding to a set keeps it free of repeats and grows it by at most one |
| ValidationPenalties.KeysRunExcess | validation.py:144-159 | the excesses kept over the keys are all positive |
| ValidationPenalties.KeysGcExcess | validation.py:163-178 | the GC distances kept over the keys are all positive |
| ValidationPenalties.EndsGcExcess | validation.py:270-277 | the scores kept over the end-joint counts are all positive |
| ValidationPenalties.StartsGcExcess | validation.py:269-277 | the scores kept over the start and end counts are all positive |
| ValidationPenalties.MotifsGcExcess | validation.py:268-277 | the scores kept over all combinations are all positive |
| ValidationPenalties.StartsHairpins | validation.py:192-193 | every length recorded over the stem starts lies in 1..maxHairpin |
| ValidationPenalties.PoolHairpins | validation.py:286-299 | every length recorded over a pool lies in 1..maxHairpin |
| ValidationPenalties.KeysHairpins | validation.py:191-193 | every length recorded over the keys lies in 1..maxHairpin |
| ValidationPenalties.LoopsHairpins | validation.py:186-194 | every length recorded over the loop sizes lies in 1..maxHairpin |
| Scores.PowersOf | basePayloadPenalties.py:175-231 | one term h^(num/den) per exponent, in order |
| Scores.Single | baseKeyPenalties.py:156 | the single term h ^ (num / den), which can be evaluated exactly when den is not 0 (Python raises ZeroDivisionError otherwise) |
| Sampling.Drawn | keyBuilder.py:69 | one base is drawn per choice |
| KeyBuilding.KeyBuilder.Candidates | keyBuilder.py:35-46 | one penalty outcome per candidate base considered |
| MotifBuilding.MotifBuilder.Candidates | motifBuilder.py:39-49 | one penalty outcome per candidate base considered |
| KeyPenaltyEngine.BaseKeyPenalties.KeyGcContentWithinKey | baseKeyPenalties.py:173-179 | the within-key GC score is never negative |
| KeyPenaltyEngine.BaseKeyPenalties.MotifSpan | baseKeyPenalties.py:186-198 | the motif length the candidate is weighed against is positive |
| KeyPenaltyEngine.ScaledExcessOf | baseKeyPenalties.py:175-179 | the scaled distance outside the GC window is never negative |
| PayloadPenaltyEngine.Shifted | basePayloadPenalties.py:199-200 | one term per run, each run length shifted by the payload length |
| PayloadPenaltyEngine.Cross | basePayloadPenalties.py:187-189 | two non-empty run lists give at least one term |
| PayloadPenaltyEngine.Repeated | basePayloadPenalties.py:205-207 | each run contributes one term per repetition |
| PayloadPenaltyEngine.BasePayloadPenalties.MotifSpan | basePayloadPenalties.py:246-249 | the motif length is the candidate's length plus a key's |
| MotifBoundaries.WitnessFirstKey | validation.py:308-347 | recording the key TTCC files a start-joint run of two A's and no end-joint run of A |
| MotifBoundaries.WitnessSecondKey | validation.py:308-347 | recording the key CCTT then files an end-joint run of two A's |
| MotifBoundaries.WitnessPayload | validation.py:350-381 | recording the payload AAAAA files one run of five A's and no payload end runs |
| Validator.AddingJoints | validation.py:338 | a loop whose body adds each key's reverse complement to the joints leaves exactly those joints added |
| Validator.KeepingJoints | validation.py:350-381 | a loop whose body keeps the joints leaves them as they were |

## Left out

- Python sets are modelled as duplicate-free sequences in insertion order. The model cannot express hash-dependent iteration order. Every property it states holds for the order used.
- Floating point is not evaluated. `h ** (k / n)`, `np.exp` and the normalisation of the scores into a distribution stay symbolic (`Power`, `Penalty`). The one arithmetic failure the model keeps is the division `k / n` with n = 0, which raises ZeroDivisionError; a `Penalty` with such a term is not `Evaluable`. The GC percentages are exact rationals (`real`), not IEEE doubles.
- The alphabet is taken as A, T, C, G in that order. The module that lists it is not part of this model.
- `async`/`await` is dropped. Every coroutine runs to completion before the next statement, as the source awaits each one.
- `np.random.choice` is the `Sampler` parameter. The model does not state the distribution it draws from, only which candidates it is given.
- The `main()` demonstrations and `__main__` blocks of every file, `generateMotifs.py`, `app.py` and `hyperparameterTuning.py` are not part of this model. They are I/O, a web front end and a parameter search around the core.
- `buildKeys` and `buildMotifs` (keyMotifBuilder.py:32-41) are inlined into `KeyMotifBuilding.BuildMotifsAndKeys`, because each is only a constructor call followed by one build call.
- The key builder's 'similarity' and 'uniqueJoints' tags are commented out at keyBuilder.py:47-52. The builder therefore never scores them. Their penalties are modelled in the key engine, but no builder calls them.
- PayloadPenaltyEngine.BasePayloadPenalties.AddPayload: requires a payload of exactly payloadSize bases. add_hom_stats raises IndexError on a shorter payload, such as the empty string, and ignores bases past payloadSize on a longer one. Only the builder's own payloads, which have the full length, are modelled.
- PayloadPenaltyEngine.BasePayloadPenalties.AddPayloads: requires every payload to have payloadSize bases, for the same reason.
- PayloadPenaltyEngine.BasePayloadPenalties.AddHomStats: requires a payload of payloadSize bases, for the same reason.
- PayloadPenaltyEngine.BasePayloadPenalties.AddJoints: requires distinct joints of keySize bases. generate_joint_pre_stats indexes keySize bases and raises IndexError on a shorter joint.
- PayloadPenaltyEngine.BasePayloadPenalties.GenerateJointPreStats: requires joints of keySize bases, for the same reason.
- Validator.Validate.AddKeysAndPayloads: requires keys of keySize and payloads of payloadSize bases. generate_motifs_stats reads those lengths and raises IndexError on shorter strands.
- Validator.Validate.AddPayloads: requires payloads of payloadSize bases, for the same reason.
- Validator.Validate.AddKeys: requires keys of keySize bases, so that the validator stays ready for the next generate_motifs_stats.
- KeyMotifBuilding.GetConstraintsDefaultsRejected: covers only the default arguments of get_constraints. Other rejected argument lists are described by `KeyMotifBuilding.GetConstraints` itself.
- BasePenalties.BackwardHairpinCounter: states success only when there is no opposite pool. With an opposite pool the backward search can index an element past its start and raise IndexError. `HairpinExamples.BackwardCounterRaises` exhibits one such input: payloadSize 6, keySize 4, maxHairpin 3, loop size 3, the payload TCCCGG against the joint CAGT.
- The hairpin search over the pools (basePenalties.py:73-339) is characterised exactly only for stems inside the current element (`HairpinMeaning.SearchWithin`). A stem that crosses into an element of the pools is bounded, not characterised: the members below state that every recorded length lies in 1..maxHairpin and when the search cannot raise, but not which stem pairs across the pools are recorded. `HairpinExamples` evaluates the search exactly on the strands of the three empty-strand tests and on one input that raises IndexError.
- HairpinSearch.SendToAllCheck: bounds and success conditions only; which stems across pool elements it records is not stated.
- HairpinSearch.AllCheckLoop: bounds and success conditions only; which stems across pool elements it records is not stated.
- HairpinSearch.SendToAllPos1Elem1: bounds and success conditions only; which stems across pool elements it records is not stated.
- HairpinSearch.SendToAllPos1Elem2: bounds and success conditions only; which stems across pool elements it records is not stated.
- HairpinSearch.SendToElem1Elem1: bounds and success conditions only; which stems across pool elements it records is not stated.
- HairpinSearch.SendToElem1Elem2: bounds and success conditions only; which stems across pool elements it records is not stated.
- HairpinSearch.SendToElem2Elem1: bounds and success conditions only; which stems across pool elements it records is not stated.
- HairpinSearch.SendToElem2Elem2: bounds and success conditions only; which stems across pool elements it records is not stated.
- HairpinSearch.CountAll: bounds and success conditions only; which stems across pool elements it records is not stated.
- HairpinSearch.HairpinCount: bounds and success conditions only; which stems across pool elements it records is not stated.
- HairpinSearch.HairpinCountElem1Elem1: bounds and success conditions only; which stems across pool elements it records is not stated.
- HairpinSearch.HairpinCountElem1Elem2: bounds and success conditions only; which stems across pool elements it records is not stated.
- HairpinSearch.HairpinCountElem2Elem1: bounds and success conditions only; which stems across pool elements it records is not stated.
- HairpinSearch.HairpinCountElem2Elem2: bounds and success conditions only; which stems across pool elements it records is not stated.
- HairpinSearch.Interrupts11: bounds and success conditions only; which stems across pool elements it records is not stated.
- HairpinSearch.Interrupts12: bounds and success conditions only; which stems across pool elements it records is not stated.
- HairpinSearch.Interrupts21: bounds and success conditions only; which stems across pool elements it records is not stated.
- HairpinSearch.Interrupts22: bounds and success conditions only; which stems across pool elements it records is not stated.
- HairpinSearch.Walk11: bounds and success conditions only; which stems across pool elements it records is not stated.
- HairpinSearch.Walk12: bounds and success conditions only; which stems across pool elements it records is not stated.
- HairpinSearch.Walk21: bounds and success conditions only; which stems across pool elements it records is not stated.
- HairpinSearch.Walk22: bounds and success conditions only; which stems across pool elements it records is not stated.
- BasePenalties.SearchAt: what one search records is stated exactly only when both stems lie inside the current element, full or partial (`HairpinMeaning.SearchWithin`, where steps past the end of a partial element are skipped and leave the length unchanged, and `HairpinMeaning.SearchWithinFull`). A stem that runs into a pool element is bounded, not characterised.
- BasePenalties.LoopLengths: bounds and success conditions only; which stems across pool elements it records is not stated.
- BasePenalties.AtStartPosLengths: bounds and success conditions only; which stems across pool elements it records is not stated.
- BasePenalties.CounterLengths: bounds and success conditions only; which stems across pool elements it records is not stated.
- BasePenalties.ForwardHairpinCounter: bounds and success conditions only; which stems across pool elements it records is not stated. `HairpinExamples.EmptyPayloadForwardScoresZero` evaluates it on the empty payload of the test.
- BasePenalties.HairpinPenalty: bounds and success conditions only; which stems across pool elements it records is not stated. `HairpinExamples.EmptyPayloadHairpinPenaltyZero` evaluates it on the empty payload of the tests.
- KeyPenaltyEngine.BaseKeyPenalties.HairpinPenalty: stated as the shared hairpin_penalty over the registered keys, with bounds and success conditions; which stems across pool elements it records is not stated, as for `BasePenalties.HairpinPenalty`.
- KeyPenaltyEngine.BaseKeyPenalties.GetHairpinPenalty: the same holds, since it is `HairpinPenalty` of key + n.
- PayloadPenaltyEngine.BasePayloadPenalties.GetHairpinPenalty: the same holds for the payload engine's search.
- PayloadPenaltyEngine.BasePayloadPenalties.HairpinPenalty: bounds and success conditions only; which stems across pool elements it records is not stated.
- ValidationPenalties.PoolHairpins: the count is bounded below by the hairpins that lie inside one payload or joint (`PoolHairpinMeaning.HairpinStatsCountsInside`); hairpins whose second stem runs into the opposite pool are counted but not characterised, so the count is not stated exactly.
- ValidationLoops.CountPayloadHairpins: the count is bounded below by the hairpins that lie inside one payload or joint (`PoolHairpinMeaning.HairpinStatsCountsInside`); hairpins whose second stem runs into the opposite pool are counted but not characterised, so the count is not stated exactly.
- ValidationLoops.CountJointHairpins: the count is bounded below by the hairpins that lie inside one payload or joint (`PoolHairpinMeaning.HairpinStatsCountsInside`); hairpins whose second stem runs into the opposite pool are counted but not characterised, so the count is not stated exactly.
- ValidationLoops.MotifsHairpinCount: the count is bounded below by the hairpins that lie inside one payload or joint (`PoolHairpinMeaning.HairpinStatsCountsInside`); hairpins whose second stem runs into the opposite pool are counted but not characterised, so the count is not stated exactly.
- Validator.Validate.GetMotifAndKeyHairpinPenalty: the count is bounded below by the hairpins that lie inside one payload or joint (`PoolHairpinMeaning.HairpinStatsCountsInside`); hairpins whose second stem runs into the opposite pool are counted but not characterised, so the count is not stated exactly.
- Validator.Validate.GetMotifsAndKeysHairpinScore: the count is bounded below by the hairpins that lie inside one payload or joint (`PoolHairpinMeaning.HairpinStatsCountsInside`); hairpins whose second stem runs into the opposite pool are counted but not characterised, so the count is not stated exactly.
- The homopolymer scan across motif boundaries (validation.py:208-262) is modelled with the pairing at 228-232 corrected, as recorded under "## Findings". `MotifBoundaries.NucBoundaryAsWritten` is the as-written step, and `MotifBoundaries.NucBoundaryAsWrittenDiffers` exhibits an input on which the two differ. The members below are stated about the corrected scan, so on such inputs their results are not what the code as written computes:
- MotifBoundaries.NucBoundary: stated about the corrected scan of validation.py:228-232, not the pairing as written.
- MotifBoundaries.NucsBoundary: stated about the corrected scan of validation.py:228-232, not the pairing as written.
- MotifBoundaries.HomCallStops: stated about the corrected scan of validation.py:228-232, not the pairing as written.
- MotifBoundaries.HomCallCompletes: stated about the corrected scan of validation.py:228-232, not the pairing as written.
- MotifBoundaries.WorstCasePenalty: stated about the corrected scan of validation.py:228-232, not the pairing as written.
- MotifBoundaries.HomCallNonNegative: stated about the corrected scan of validation.py:228-232, not the pairing as written.
- MotifBoundaries.RecallNeverDecreases: stated about the corrected scan of validation.py:228-232, not the pairing as written.
- MotifBoundaries.NucBoundaryAppend: stated about the corrected scan of validation.py:228-232, not the pairing as written.
- MotifBoundaries.ExtendNuc: stated about the corrected scan of validation.py:228-232, not the pairing as written.
- MotifBoundaries.ScanBoundaries: stated about the corrected scan of validation.py:228-232, not the pairing as written.
- Validator.Validate.AddHomopolymerOverMotifsStats: stated about the corrected scan of validation.py:228-232, not the pairing as written.
- Validator.Validate.GetMotifAndKeyHomopolymerPenalty: stated about the corrected scan of validation.py:228-232, not the pairing as written.
- Validator.Validate.GetMotifsAndKeysHomopolymerScore: stated about the corrected scan of validation.py:228-232, not the pairing as written.
- Validator.Validate.GetAllMotifsAndKeysScoresTotal: stated about the corrected scan of validation.py:228-232, not the pairing as written.
- Validator.Validate.GetTotalScoresOfConstraints: stated about the corrected scan of validation.py:228-232, not the pairing as written.
- Validator.Validate.AddTagScore: stated about the corrected scan of validation.py:228-232, not the pairing as written.
- Validator.Validate.AddHomScore: stated about the corrected scan of validation.py:228-232, not the pairing as written.
- ScoreTotals.HomTagApplied: stated about the corrected scan of validation.py:228-232, not the pairing as written.
- ScoreTotals.ScanUnderLawful: stated about the corrected scan of validation.py:228-232, not the pairing as written.
- ScoreTotals.TagsTotalZeroIff: stated about the corrected scan of validation.py:228-232, not the pairing as written.
- KeyMotifBuilding.AnswerTotalZeroIff: stated about the corrected scan of validation.py:228-232, not the pairing as written.
- KeyMotifBuilding.AnswerTotalSum: stated about the corrected scan of validation.py:228-232, not the pairing as written.
- KeyMotifBuilding.SelectedScores: stated about the corrected scan of validation.py:228-232, not the pairing as written.
- KeyMotifBuilding.AnswerScore: stated about the corrected scan of validation.py:228-232, not the pairing as written.
- KeyMotifBuilding.BuildAnswer: stated about the corrected scan of validation.py:228-232, not the pairing as written.
- KeyBuilding.KeyBuilder.DrawBase, MotifBuilding.MotifBuilder.DrawBase: an active tag listed twice gives two terms here, where the source's dict of lists keeps one entry per tag. The tag lists `KeyMotifBuilding.TagSets` hands over never repeat a tag.
- KeyMotifBuilding.BuildMotifsAndKeys: for payloads of one base, 'hom' among the motif tags with maxHom = 0 is not promised to fail. A one-base candidate whose only homopolymer term is h ^ motifSize raises nothing, and whether one does depends on the joints, so only the general failure cases are stated there.
- Sampling.Weigh: a list of one entry, which numpy would broadcast, is not modelled; every list a builder weighs has four entries or none.
- KeyBuilding.KeyBuilder.BuildKey: the draw is any base the `Sampler` returns. The model does not state that a base with zero probability is never drawn.
- MotifBuilding.MotifBuilder.BuildPayload: the same holds for the draw.

## Findings

| source | as written | input that shows it | evidently intended | confidence | as-written member | corrected member |
|---|---|---|---|---|---|---|
| validation.py:228-232 | For a one-run payload, the homopolymer scan across the motif boundary pairs the payloads' own start runs with their end runs (`startHomPayload` × `endHomPayload`). | Keys TTCC and CCTT, payload AAAAA, keySize 4, maxHomopolymer 2. The motif AA + AAAAA + AA (the last half of GGAA, the payload, the first half of AAGG) holds a run of nine A's, an excess of 7. The code counts nothing for it. | Pair the start joints' last runs with the end joints' first runs through the one-run payload (`startJointHom` × `endJointHom`). The whole-joint branch at 234-250 pairs the runs on either side of a one-run joint in the same way. | not executed | MotifBoundaries.AcrossPayloadAsWrittenMissesRun | MotifBoundaries.AcrossPayloadPairs |
