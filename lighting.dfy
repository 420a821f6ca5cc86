/** The light-rig presence check of `maxp/lighting.py` (and its copy in
    `bettermaxtools/utils/lighting.py`). The host name lookup is the map `lookup`: a name
    that is not a key resolves to `None`. */
module Lighting {
  import opened Scene

  const LightDomeName: string := "_Dome"
  const LightAccentBackName: string := "_AccentBack"
  const LightAccentSideName: string := "_AccentSide"

  /** The three names, in the order they are looked up. */
  const RigNames: seq<string> := [LightDomeName, LightAccentBackName, LightAccentSideName]

  /** Every rig light resolves to a node. */
  predicate RigPresent(lookup: Lookup)
  {
    forall i :: 0 <= i < |RigNames| ==> RigNames[i] in lookup
  }

  /** `doesRigExist`: looks each rig name up in turn, records whether a node was found, and
      answers whether no lookup failed. */
  method DoesRigExist(lookup: Lookup) returns (found: bool, results: seq<bool>)
    ensures |results| == |RigNames|
    ensures forall i :: 0 <= i < |RigNames| ==> (results[i] <==> RigNames[i] in lookup)
    ensures found <==> LightDomeName in lookup && LightAccentBackName in lookup && LightAccentSideName in lookup
    ensures found == RigPresent(lookup)
  {
    results := [];
    for i := 0 to |RigNames|
      invariant |results| == i
      invariant forall j :: 0 <= j < i ==> (results[j] <==> RigNames[j] in lookup)
    {
      var node := NodeByName(lookup, RigNames[i]);
      if node.None? {
        results := results + [false];
        continue;
      }
      results := results + [true];
    }
    found := if false in results then false else true;
    assert RigNames[0] == LightDomeName && RigNames[1] == LightAccentBackName && RigNames[2] == LightAccentSideName;
    assert (false in results) <==> !results[0] || !results[1] || !results[2];
  }

  /** The rig exists exactly when all three fixed names resolve. */
  lemma RigPresentIffAllThree(lookup: Lookup)
    ensures RigPresent(lookup) <==>
      LightDomeName in lookup && LightAccentBackName in lookup && LightAccentSideName in lookup
  {
    assert RigNames[0] == LightDomeName && RigNames[1] == LightAccentBackName && RigNames[2] == LightAccentSideName;
  }

  /** One missing light is enough for the answer to be false. */
  lemma OneMissingLightFails(lookup: Lookup, k: nat)
    requires k < |RigNames| && RigNames[k] !in lookup
    ensures !RigPresent(lookup)
  {
  }

  /** The answer depends on no name other than the three constants. */
  lemma OnlyRigNamesMatter(a: Lookup, b: Lookup)
    requires forall i :: 0 <= i < |RigNames| ==> (RigNames[i] in a <==> RigNames[i] in b)
    ensures RigPresent(a) == RigPresent(b)
  {
  }
}
