/** The MET script: every event that has both `MET_pt` and `MET_phi` adds
    those two values, unchanged, to the two lists; no gate, no threshold. */
module Met {
  import opened Optional
  import opened Events
  import opened Scan
  import opened Fold
  import opened Accumulators

  predicate HasMet(e: ValidEvent) {
    e.met.Present()
  }

  /** The body of the event loop. */
  function EventMet(acc: MetAcc, e: ValidEvent): (r: MetAcc)
    ensures !HasMet(e) ==> r == acc
    ensures HasMet(e) ==> r.pt == acc.pt + [e.met.pt.value] && r.phi == acc.phi + [e.met.phi.value]
    ensures acc.Aligned() ==> r.Aligned()
  {
    match e.met
    case MetBranches(Some(pt), Some(phi)) => acc.Add(pt, phi)
    case _ => acc
  }

  function StepMet(): (MetAcc, ValidEvent) -> MetAcc {
    (acc: MetAcc, e: ValidEvent) => EventMet(acc, e)
  }

  /** The whole script up to the plots. */
  function RunMet(sources: seq<Option<seq<ValidEvent>>>): MetAcc {
    FoldSources(StepMet(), NoMetValues, sources)
  }

  /** Running over `events` appends exactly one (pt, phi) pair per event
      having both branches, in event order, each pair taken from one event. */
  lemma {:induction false} FoldMetContents(acc: MetAcc, events: seq<ValidEvent>)
    requires acc.Aligned()
    ensures var r := FoldEvents(StepMet(), acc, events);
      var idx := Indices(events, HasMet);
      && r.Aligned() && acc.PrefixOf(r)
      && |r.pt| == |acc.pt| + |idx|
      && forall k :: 0 <= k < |idx| ==>
           r.pt[|acc.pt| + k] == events[idx[k]].met.pt.value
           && r.phi[|acc.phi| + k] == events[idx[k]].met.phi.value
    decreases |events|
  {
    if |events| > 0 {
      var n := |events| - 1;
      FoldMetContents(acc, events[..n]);
      var before := FoldEvents(StepMet(), acc, events[..n]);
      var front := Indices(events[..n], HasMet);
      assert FoldEvents(StepMet(), acc, events) == EventMet(before, events[n]);
      assert Indices(events, HasMet) == front + (if HasMet(events[n]) then [n] else []);
      assert forall k :: 0 <= k < |front| ==> events[..n][front[k]] == events[front[k]];
    }
  }

  /** Over a whole run: the two lists stay equally long and hold exactly the
      MET values of the events of the readable sources that have both
      branches, in order. */
  lemma RunMetContents(sources: seq<Option<seq<ValidEvent>>>)
    ensures var r := RunMet(sources);
      var events := Readable(sources);
      var idx := Indices(events, HasMet);
      && r.Aligned()
      && |r.pt| == |idx|
      && forall k :: 0 <= k < |idx| ==>
           r.pt[k] == events[idx[k]].met.pt.value && r.phi[k] == events[idx[k]].met.phi.value
  {
    FoldSourcesIsFoldOfReadable(StepMet(), NoMetValues, sources);
    FoldMetContents(NoMetValues, Readable(sources));
  }
}
