/** The plain lepton-histogram script: per event, the trigger gate, then two
    independent scans that record every tight muon and every tight electron
    (pt, eta, phi), with no MET requirement, no mass window and no early stop. */
module Leptons {
  import opened Optional
  import opened Events
  import opened Scan
  import opened Fold
  import opened Gate
  import opened Cuts
  import opened Accumulators

  datatype LeptonLists = LeptonLists(muon: ObjectAcc, electron: ObjectAcc) {
    predicate Aligned() { muon.Aligned() && electron.Aligned() }
    predicate PrefixOf(later: LeptonLists) { muon.PrefixOf(later.muon) && electron.PrefixOf(later.electron) }
  }

  const NoLeptonLists := LeptonLists(NoObjectValues, NoObjectValues)

  /** Positions of the tight muons of the event, in array order. */
  function PassingMuons(b: MuonBranches): (r: seq<nat>)
    requires b.Covers()
    ensures forall j :: 0 <= j < |b.pt| ==> (j in r <==> TightMuon(Muons(b)[j]))
    ensures forall k :: 0 <= k < |r| ==> r[k] < |b.pt|
    ensures forall k, l :: 0 <= k < l < |r| ==> r[k] < r[l]
  {
    Indices(Muons(b), TightMuon)
  }

  /** Positions of the electrons passing the stepwise selection, in array order. */
  function PassingElectrons(b: ElectronBranches): (r: seq<nat>)
    requires b.Covers()
    ensures forall j :: 0 <= j < |b.pt| ==> (j in r <==> TightElectronStepwise(Electrons(b)[j]))
    ensures forall k :: 0 <= k < |r| ==> r[k] < |b.pt|
    ensures forall k, l :: 0 <= k < l < |r| ==> r[k] < r[l]
  {
    Indices(Electrons(b), TightElectronStepwise)
  }

  /** The body of the event loop. */
  function EventLeptons(acc: LeptonLists, e: ValidEvent): (r: LeptonLists)
    ensures !PassesTrigger(e.flags, Triggers) ==> r == acc
    ensures acc.PrefixOf(r)
    ensures acc.Aligned() ==> r.Aligned()
    ensures e.muons.None? ==> r.muon == acc.muon
    ensures e.electrons.None? ==> r.electron == acc.electron
    ensures PassesTrigger(e.flags, Triggers) && e.muons.Some? ==>
      var b := e.muons.value;
      acc.muon.Appended(r.muon, b.pt, b.eta, b.phi, PassingMuons(b))
    ensures PassesTrigger(e.flags, Triggers) && e.electrons.Some? ==>
      var b := e.electrons.value;
      acc.electron.Appended(r.electron, b.pt, b.eta, b.phi, PassingElectrons(b))
  {
    if !PassesTrigger(e.flags, Triggers) then acc
    else
      var muon := match e.muons
        case None => acc.muon
        case Some(b) => acc.muon.AddPicked(b.pt, b.eta, b.phi, PassingMuons(b));
      var electron := match e.electrons
        case None => acc.electron
        case Some(b) => acc.electron.AddPicked(b.pt, b.eta, b.phi, PassingElectrons(b));
      LeptonLists(muon, electron)
  }

  /** The two flavours are scanned independently: what an event adds to the
      muon lists does not depend on its electrons, and conversely, so one
      event can contribute to both. */
  lemma FlavoursIndependent(acc: LeptonLists, e: ValidEvent)
    ensures EventLeptons(acc, e).muon == EventLeptons(acc, e.(electrons := None)).muon
    ensures EventLeptons(acc, e).electron == EventLeptons(acc, e.(muons := None)).electron
  {
  }

  function StepLeptons(): (LeptonLists, ValidEvent) -> LeptonLists {
    (acc: LeptonLists, e: ValidEvent) => EventLeptons(acc, e)
  }

  /** The whole script up to the plots. */
  function RunLeptons(sources: seq<Option<seq<ValidEvent>>>): LeptonLists {
    FoldSources(StepLeptons(), NoLeptonLists, sources)
  }

  lemma {:induction false} FoldLeptonsAligned(acc: LeptonLists, events: seq<ValidEvent>)
    requires acc.Aligned()
    ensures var r := FoldEvents(StepLeptons(), acc, events);
      r.Aligned() && acc.PrefixOf(r)
    decreases |events|
  {
    if |events| > 0 {
      var n := |events| - 1;
      FoldLeptonsAligned(acc, events[..n]);
      var before := FoldEvents(StepLeptons(), acc, events[..n]);
      var after := EventLeptons(before, events[n]);
      assert FoldEvents(StepLeptons(), acc, events) == after;
      assert before.PrefixOf(after);
    }
  }

  /** Over a whole run, the pt/eta/phi lists of each flavour stay equally long. */
  lemma RunLeptonsAligned(sources: seq<Option<seq<ValidEvent>>>)
    ensures RunLeptons(sources).Aligned()
  {
    FoldSourcesIsFoldOfReadable(StepLeptons(), NoLeptonLists, sources);
    FoldLeptonsAligned(NoLeptonLists, Readable(sources));
  }
}
