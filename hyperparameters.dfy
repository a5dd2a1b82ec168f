/**
 * The hyperparameters of hyperparameters.py: one weight (a temperature)
 * per constraint, 1 by default. The weight of hom, hairpin,
 * motifGcContent, keyGcContent, similarity and uniqueJoints can be set by
 * name; jointRepeat and keyInPayload keep their default.
 */
module Temperatures {
  /** One constraint's weight (ConstraintHyperparameters), updated in place. */
  class ConstraintHyperparameters {
    var hyperparameter: real

    constructor (hyperparameter: real)
      ensures this.hyperparameter == hyperparameter
    {
      this.hyperparameter := hyperparameter;
    }

    method GiveHyperparameter(hyperparameter: real)
      modifies this
      ensures this.hyperparameter == hyperparameter
    {
      this.hyperparameter := hyperparameter;
    }
  }

  /** The eight weights as a value. */
  datatype Settings = Settings(
    hom: real, hairpin: real, motifGcContent: real, keyGcContent: real,
    jointRepeat: real, keyInPayload: real, similarity: real, uniqueJoints: real)

  const Defaults: Settings := Settings(1.0, 1.0, 1.0, 1.0, 1.0, 1.0, 1.0, 1.0)

  /** The names give_hyperparameter recognises. */
  const Tunable: set<string> := {"hom", "hairpin", "motifGcContent", "keyGcContent", "similarity", "uniqueJoints"}

  /** give_hyperparameter on values: a recognised name sets its own weight only; any other name changes nothing. */
  function Give(s: Settings, tag: string, h: real): (r: Settings)
    ensures tag == "hom" ==> r == s.(hom := h)
    ensures tag == "hairpin" ==> r == s.(hairpin := h)
    ensures tag == "motifGcContent" ==> r == s.(motifGcContent := h)
    ensures tag == "keyGcContent" ==> r == s.(keyGcContent := h)
    ensures tag == "similarity" ==> r == s.(similarity := h)
    ensures tag == "uniqueJoints" ==> r == s.(uniqueJoints := h)
    ensures tag !in Tunable ==> r == s
    ensures r.jointRepeat == s.jointRepeat && r.keyInPayload == s.keyInPayload
  {
    if tag == "hom" then s.(hom := h)
    else if tag == "hairpin" then s.(hairpin := h)
    else if tag == "motifGcContent" then s.(motifGcContent := h)
    else if tag == "keyGcContent" then s.(keyGcContent := h)
    else if tag == "similarity" then s.(similarity := h)
    else if tag == "uniqueJoints" then s.(uniqueJoints := h)
    else s
  }

  /** The weights a dictionary of named weights configures, independent of its iteration order. */
  function Configured(m: map<string, real>): (s: Settings)
    ensures s.hom == (if "hom" in m then m["hom"] else 1.0)
    ensures s.hairpin == (if "hairpin" in m then m["hairpin"] else 1.0)
    ensures s.motifGcContent == (if "motifGcContent" in m then m["motifGcContent"] else 1.0)
    ensures s.keyGcContent == (if "keyGcContent" in m then m["keyGcContent"] else 1.0)
    ensures s.similarity == (if "similarity" in m then m["similarity"] else 1.0)
    ensures s.uniqueJoints == (if "uniqueJoints" in m then m["uniqueJoints"] else 1.0)
    ensures s.jointRepeat == 1.0 && s.keyInPayload == 1.0
  {
    Settings(if "hom" in m then m["hom"] else 1.0, if "hairpin" in m then m["hairpin"] else 1.0, if "motifGcContent" in m then m["motifGcContent"] else 1.0, if "keyGcContent" in m then m["keyGcContent"] else 1.0, 1.0, 1.0, if "similarity" in m then m["similarity"] else 1.0, if "uniqueJoints" in m then m["uniqueJoints"] else 1.0)
  }

  /** Setting one more name of a dictionary extends the dictionary's configuration. */
  lemma GiveExtends(m: map<string, real>, tag: string, h: real)
    requires tag !in m
    ensures Give(Configured(m), tag, h) == Configured(m[tag := h])
  {
  }

  /** Two different names can be given in either order. */
  lemma GiveCommutes(s: Settings, t1: string, h1: real, t2: string, h2: real)
    requires t1 != t2
    ensures Give(Give(s, t1, h1), t2, h2) == Give(Give(s, t2, h2), t1, h1)
  {
  }

  /** The Hyperparameters object: eight weight objects, each updated in place. */
  class Hyperparameters {
    const hom: ConstraintHyperparameters
    const hairpin: ConstraintHyperparameters
    const motifGcContent: ConstraintHyperparameters
    const keyGcContent: ConstraintHyperparameters
    const jointRepeat: ConstraintHyperparameters
    const keyInPayload: ConstraintHyperparameters
    const similarity: ConstraintHyperparameters
    const uniqueJoints: ConstraintHyperparameters
    ghost const Repr: set<object>

    ghost predicate Valid()
      reads this
    {
      && Repr == {hom, hairpin, motifGcContent, keyGcContent, jointRepeat, keyInPayload, similarity, uniqueJoints}
      && hom != hairpin
      && hom != motifGcContent
      && hom != keyGcContent
      && hom != jointRepeat
      && hom != keyInPayload
      && hom != similarity
      && hom != uniqueJoints
      && hairpin != motifGcContent
      && hairpin != keyGcContent
      && hairpin != jointRepeat
      && hairpin != keyInPayload
      && hairpin != similarity
      && hairpin != uniqueJoints
      && motifGcContent != keyGcContent
      && motifGcContent != jointRepeat
      && motifGcContent != keyInPayload
      && motifGcContent != similarity
      && motifGcContent != uniqueJoints
      && keyGcContent != jointRepeat
      && keyGcContent != keyInPayload
      && keyGcContent != similarity
      && keyGcContent != uniqueJoints
      && jointRepeat != keyInPayload
      && jointRepeat != similarity
      && jointRepeat != uniqueJoints
      && keyInPayload != similarity
      && keyInPayload != uniqueJoints
      && similarity != uniqueJoints
    }

    function Values(): Settings
      reads this, Repr
      requires Valid()
    {
      Settings(hom.hyperparameter, hairpin.hyperparameter, motifGcContent.hyperparameter, keyGcContent.hyperparameter, jointRepeat.hyperparameter, keyInPayload.hyperparameter, similarity.hyperparameter, uniqueJoints.hyperparameter)
    }

    /** Hyperparameters(dict): defaults, then give_hyperparameter for every entry. */
    constructor (hyperparameters: map<string, real>)
      ensures Valid() && fresh(Repr)
      ensures Values() == Configured(hyperparameters)
    {
      hom := new ConstraintHyperparameters(1.0);
      hairpin := new ConstraintHyperparameters(1.0);
      motifGcContent := new ConstraintHyperparameters(1.0);
      keyGcContent := new ConstraintHyperparameters(1.0);
      jointRepeat := new ConstraintHyperparameters(1.0);
      keyInPayload := new ConstraintHyperparameters(1.0);
      similarity := new ConstraintHyperparameters(1.0);
      uniqueJoints := new ConstraintHyperparameters(1.0);
      Repr := {hom, hairpin, motifGcContent, keyGcContent, jointRepeat, keyInPayload, similarity, uniqueJoints};
      new;
      GiveAll(hyperparameters);
    }

    /** The loop of the constructor: give_hyperparameter for every entry of the dictionary, in any order. */
    method GiveAll(hyperparameters: map<string, real>)
      requires Valid() && Values() == Defaults
      modifies Repr
      ensures Valid() && Values() == Configured(hyperparameters)
    {
      var remaining := hyperparameters.Keys;
      ghost var given: map<string, real> := map[];
      while remaining != {}
        invariant Valid()
        invariant remaining !! given.Keys && remaining + given.Keys == hyperparameters.Keys
        invariant forall t :: t in given ==> given[t] == hyperparameters[t]
        invariant Values() == Configured(given)
        decreases |remaining|
      {
        var tag :| tag in remaining;
        GiveExtends(given, tag, hyperparameters[tag]);
        GiveHyperparameter(tag, hyperparameters[tag]);
        given := given[tag := hyperparameters[tag]];
        remaining := remaining - {tag};
      }
      assert given.Keys == hyperparameters.Keys;
      assert given == hyperparameters;
    }

    method GiveHyperparameter(tag: string, h: real)
      requires Valid()
      modifies Repr
      ensures Valid()
      ensures Values() == Give(old(Values()), tag, h)
    {
      if tag == "hom" {
        hom.GiveHyperparameter(h);
      }
      else if tag == "hairpin" {
        hairpin.GiveHyperparameter(h);
      }
      else if tag == "motifGcContent" {
        motifGcContent.GiveHyperparameter(h);
      }
      else if tag == "keyGcContent" {
        keyGcContent.GiveHyperparameter(h);
      }
      else if tag == "similarity" {
        similarity.GiveHyperparameter(h);
      }
      else if tag == "uniqueJoints" {
        uniqueJoints.GiveHyperparameter(h);
      }
    }
  }
}
