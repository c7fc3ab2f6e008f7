/** The event gate: a trigger OR in which a missing trigger branch counts as
    not fired, and a noise-filter AND in which a missing filter branch counts
    as passing. */
module Gate {
  import opened Events

  /** `triggers_of_interest`, the same list in both lepton scripts. */
  const Triggers: seq<string> := ["HLT_Mu50", "HLT_IsoMu24", "HLT_Ele35_WPTight_Gsf"]

  /** `noise_filters` of the W-boson script. */
  const NoiseFilters: seq<string> := [
    "Flag_goodVertices",
    "Flag_globalSuperTightHalo2016Filter",
    "Flag_HBHENoiseFilter",
    "Flag_HBHENoiseIsoFilter",
    "Flag_EcalDeadCellTriggerPrimitiveFilter",
    "Flag_BadPFMuonFilter",
    "Flag_BadPFMuonDzFilter",
    "Flag_eeBadScFilter"
  ]

  /** The event has the trigger branch and it is true. */
  predicate Fired(flags: Flags, name: string) {
    name in flags && flags[name]
  }

  /** The event has the filter branch and it is false. */
  predicate Vetoes(flags: Flags, name: string) {
    name in flags && !flags[name]
  }

  /** `any(hasattr(tree, t) and getattr(tree, t) for t in names)`. */
  function PassesTrigger(flags: Flags, names: seq<string>): (r: bool)
    ensures r <==> exists i :: 0 <= i < |names| && Fired(flags, names[i])
    decreases |names|
  {
    if |names| == 0 then false
    else
      assert forall i :: 1 <= i < |names| ==> names[1..][i - 1] == names[i];
      Fired(flags, names[0]) || PassesTrigger(flags, names[1..])
  }

  /** The filter loop: reject at the first present filter that is false. */
  function PassesMetFilters(flags: Flags, names: seq<string>): (r: bool)
    ensures r <==> forall i :: 0 <= i < |names| ==> !Vetoes(flags, names[i])
    decreases |names|
  {
    if |names| == 0 then true
    else
      assert forall i :: 1 <= i < |names| ==> names[1..][i - 1] == names[i];
      if Vetoes(flags, names[0]) then false else PassesMetFilters(flags, names[1..])
  }

  /** The trigger check written as a loop with an early `return True`. */
  method PassesTriggerLoop(flags: Flags, names: seq<string>) returns (r: bool)
    ensures r <==> exists i :: 0 <= i < |names| && Fired(flags, names[i])
    ensures r == PassesTrigger(flags, names)
  {
    var i := 0;
    while i < |names|
      invariant 0 <= i <= |names|
      invariant forall k :: 0 <= k < i ==> !Fired(flags, names[k])
    {
      if names[i] in flags && flags[names[i]] {
        return true;
      }
      i := i + 1;
    }
    return false;
  }

  /** The asymmetry between the two checks: when none of the configured
      branches exists, the trigger OR fails and the filter AND passes. */
  lemma AbsentFlagsAsymmetry(flags: Flags, names: seq<string>)
    requires forall i :: 0 <= i < |names| ==> names[i] !in flags
    ensures !PassesTrigger(flags, names)
    ensures PassesMetFilters(flags, names)
  {
  }
}
