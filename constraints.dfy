/**
 * The run configuration of constraints.py: payload and key geometry, the
 * homopolymer and hairpin bounds, the loop range of a hairpin and the GC
 * content window, with the derived motif size and motif count, checked by
 * the constructor's assertions.
 */
module Configuration {
  import opened Outcomes

  datatype Constraints = Constraints(
    payloadSize: int,
    payloadNum: int,
    motifSize: int,
    maxPossibleMotifNum: int,
    keySize: int,
    keyNum: int,
    maxHom: int,
    maxHairpin: int,
    loopSizeMin: int,
    loopSizeMax: int,
    minGc: int,
    maxGc: int)

  /** The assertion that rejected a configuration, named after what it checks, in checking order. */
  datatype ConfigError =
    | HairpinLongerThanMotif
    | OddKeySize
    | KeyTooShort
    | KeyNotShorterThanMotif
    | EmptyLoopRange
    | NegativeLoopSize
    | EmptyPayload
    | NoKeys
    | NoPayloads
    | EmptyGcWindow
    | NegativeMinGc
    | MaxGcAbove100

  /** Every configuration the constructor accepts satisfies this. */
  predicate Valid(c: Constraints)
  {
    && c.motifSize == c.payloadSize + c.keySize
    && c.maxHairpin <= c.motifSize
    && c.keySize % 2 == 0 && c.keySize > 1 && c.keySize < c.motifSize
    && 0 <= c.loopSizeMin <= c.loopSizeMax
    && c.payloadSize > 0 && c.keyNum > 0 && c.payloadNum > 0 && c.maxPossibleMotifNum > 0
    && 0 <= c.minGc <= c.maxGc <= 100
  }

  /** The configurations the constructor accepts. */
  type ValidConstraints = c: Constraints | Valid(c) witness Constraints(5, 1, 7, 4, 2, 2, 2, 2, 0, 0, 20, 60)

  /** A single loop size, when given (not -1), overrides the loop range. */
  function EffectiveLoop(loopSize: int, bound: int): int
  {
    if loopSize == -1 then bound else loopSize
  }

  /**
   * Constraints(...): builds the configuration and runs the twelve
   * assertions in order; the first that fails is reported.
   */
  function NewConstraints(
    payloadSize: int, payloadNum: int, maxHom: int, maxHairpin: int, loopSize: int,
    minGc: int, maxGc: int, keySize: int, keyNum: int, loopSizeMin: int, loopSizeMax: int
  ): (r: Result<Constraints, ConfigError>)
    ensures r.Ok? ==> Valid(r.value)
    ensures r.Ok? ==>
      && r.value.motifSize == payloadSize + keySize
      && r.value.maxPossibleMotifNum == payloadNum * keyNum * keyNum
      && r.value.loopSizeMin == EffectiveLoop(loopSize, loopSizeMin)
      && r.value.loopSizeMax == EffectiveLoop(loopSize, loopSizeMax)
      && r.value.payloadSize == payloadSize && r.value.payloadNum == payloadNum
      && r.value.keySize == keySize && r.value.keyNum == keyNum
      && r.value.maxHom == maxHom && r.value.maxHairpin == maxHairpin
      && r.value.minGc == minGc && r.value.maxGc == maxGc
    ensures r.Ok? <==>
      && maxHairpin <= payloadSize + keySize
      && keySize % 2 == 0 && 1 < keySize < payloadSize + keySize
      && 0 <= EffectiveLoop(loopSize, loopSizeMin) <= EffectiveLoop(loopSize, loopSizeMax)
      && payloadSize > 0 && keyNum > 0 && payloadNum > 0
      && 0 <= minGc <= maxGc <= 100
    ensures r.Err? && r.error == MaxGcAbove100 ==> maxGc > 100
    ensures r.Err? && r.error == OddKeySize ==> keySize % 2 != 0
  {
    var c := Constraints(
      payloadSize, payloadNum, payloadSize + keySize, payloadNum * keyNum * keyNum,
      keySize, keyNum, maxHom, maxHairpin,
      EffectiveLoop(loopSize, loopSizeMin), EffectiveLoop(loopSize, loopSizeMax),
      minGc, maxGc);
    if !(c.maxHairpin <= c.motifSize) then Err(HairpinLongerThanMotif)
    else if !(keySize % 2 == 0) then Err(OddKeySize)
    else if !(keySize > 1) then Err(KeyTooShort)
    else if !(keySize < c.motifSize) then Err(KeyNotShorterThanMotif)
    else if !(c.loopSizeMin <= c.loopSizeMax) then Err(EmptyLoopRange)
    else if !(c.loopSizeMin >= 0) then Err(NegativeLoopSize)
    else if !(payloadSize > 0) then Err(EmptyPayload)
    else if !(keyNum > 0) then Err(NoKeys)
    else if !(payloadNum > 0) then Err(NoPayloads)
    else if !(minGc <= maxGc) then Err(EmptyGcWindow)
    else if !(minGc >= 0) then Err(NegativeMinGc)
    else if !(maxGc <= 100) then Err(MaxGcAbove100)
    else Ok(c)
  }

  /** The constructor's default arguments (key size 1) fail its own key-size assertion. */
  lemma DefaultsAreRejected()
    ensures NewConstraints(5, 1, 2, 2, -1, 20, 60, 1, 1, -1, -1) == Err(OddKeySize)
  {
  }

  /** Half of a key: the part that joins a payload (int(keySize / 2)). */
  function JointSize(c: ValidConstraints): (js: int)
    ensures 1 <= js && 2 * js == c.keySize
  {
    c.keySize / 2
  }
}
