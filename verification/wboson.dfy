/** The W-boson script: per event, the trigger/filter gate, the PuppiMET
    presence check and the MET >= 40 cut, one MET entry, then a muon scan and
    (only when no muon was recorded) an electron scan, each stopping at the
    first tight lepton whose transverse mass with the MET lies in [40, 120].
    The recorded lepton and the W kinematics go to their lists. */
module WBoson {
  import opened Optional
  import opened Events
  import opened Scan
  import opened Fold
  import opened Gate
  import opened Cuts
  import opened Accumulators

  /** Transverse mass, pT and phi of the lepton + MET system. */
  datatype WKinematics = WKinematics(mt: real, pt: real, phi: real)

  /** `calculate_w_kinematics(lep_pt, lep_phi, met_pt, met_phi)`: floating-point
      trigonometry, left uninterpreted and passed in. */
  type Kinematics = (real, real, real, real) -> WKinematics

  const MetCut: real := 40.0
  const MassLow: real := 40.0
  const MassHigh: real := 120.0

  /** The mass window, as the negation of the script's skip condition. */
  predicate InMassWindow(mt: real) {
    !(mt < MassLow || mt > MassHigh)
  }

  /** All lists the W-boson script fills. */
  datatype WAcc = WAcc(
    muon: LeptonAcc, electron: LeptonAcc, met: MetAcc,
    mass: seq<real>, wPt: seq<real>, wPhi: seq<real>)
  {
    /** The invariants a run keeps: aligned lists per quantity group, one W
        entry per recorded lepton, never more W entries than MET entries,
        and every recorded mass inside the window. */
    predicate WellFormed() {
      && muon.Aligned() && electron.Aligned() && met.Aligned()
      && |mass| == |muon.pt| + |electron.pt|
      && |wPt| == |mass| && |wPhi| == |mass|
      && |mass| <= |met.pt|
      && forall k :: 0 <= k < |mass| ==> InMassWindow(mass[k])
    }

    predicate PrefixOf(later: WAcc) {
      && muon.PrefixOf(later.muon) && electron.PrefixOf(later.electron) && met.PrefixOf(later.met)
      && mass <= later.mass && wPt <= later.wPt && wPhi <= later.wPhi
    }
  }

  const NoWValues := WAcc(NoLeptonValues, NoLeptonValues, NoMetValues, [], [], [])

  predicate EventGate(e: Event) {
    PassesTrigger(e.flags, Triggers) && PassesMetFilters(e.flags, NoiseFilters)
  }

  /** The event reaches the lepton scans: gate passed, both PuppiMET branches
      present and MET pT not below 40. */
  predicate Survives(e: ValidEvent) {
    EventGate(e) && e.puppiMet.Present() && !(e.puppiMet.pt.value < MetCut)
  }

  /** A muon is recorded when it is tight and its transverse mass with the
      event's MET is in the window. */
  function MuonAccepted(kin: Kinematics, metPt: real, metPhi: real): Muon -> bool {
    m => TightMuon(m) && InMassWindow(kin(m.pt, m.phi, metPt, metPhi).mt)
  }

  function ElectronAccepted(kin: Kinematics, metPt: real, metPhi: real): Electron -> bool {
    e => TightElectron(e) && InMassWindow(kin(e.pt, e.phi, metPt, metPhi).mt)
  }

  /** Some muon of the event would be recorded. */
  predicate MuonFound(kin: Kinematics, e: ValidEvent)
    requires e.puppiMet.Present()
  {
    && e.muons.Some?
    && var ms := Muons(e.muons.value);
       exists j :: 0 <= j < |ms| && MuonAccepted(kin, e.puppiMet.pt.value, e.puppiMet.phi.value)(ms[j])
  }

  predicate ElectronFound(kin: Kinematics, e: ValidEvent)
    requires e.puppiMet.Present()
  {
    && e.electrons.Some?
    && var es := Electrons(e.electrons.value);
       exists j :: 0 <= j < |es| && ElectronAccepted(kin, e.puppiMet.pt.value, e.puppiMet.phi.value)(es[j])
  }

  /** The first muon the scan records, if any. */
  function MuonChoice(kin: Kinematics, e: ValidEvent): (r: Option<nat>)
    requires e.puppiMet.Present()
    ensures r.Some? <==> MuonFound(kin, e)
    ensures r.Some? ==> e.muons.Some? && r.value < |e.muons.value.pt|
    ensures r.Some? ==>
      var ms := Muons(e.muons.value);
      var accepted := MuonAccepted(kin, e.puppiMet.pt.value, e.puppiMet.phi.value);
      accepted(ms[r.value]) && forall i :: 0 <= i < r.value ==> !accepted(ms[i])
  {
    match e.muons
    case None => None
    case Some(b) => FirstIndex(Muons(b), MuonAccepted(kin, e.puppiMet.pt.value, e.puppiMet.phi.value))
  }

  /** The first electron the scan records, if any. */
  function ElectronChoice(kin: Kinematics, e: ValidEvent): (r: Option<nat>)
    requires e.puppiMet.Present()
    ensures r.Some? <==> ElectronFound(kin, e)
    ensures r.Some? ==> e.electrons.Some? && r.value < |e.electrons.value.pt|
    ensures r.Some? ==>
      var es := Electrons(e.electrons.value);
      var accepted := ElectronAccepted(kin, e.puppiMet.pt.value, e.puppiMet.phi.value);
      accepted(es[r.value]) && forall i :: 0 <= i < r.value ==> !accepted(es[i])
  {
    match e.electrons
    case None => None
    case Some(b) => FirstIndex(Electrons(b), ElectronAccepted(kin, e.puppiMet.pt.value, e.puppiMet.phi.value))
  }

  /** Appends a lepton and its W kinematics: to the muon lists when `isMuon`,
      to the electron lists otherwise. */
  function Record(kin: Kinematics, acc: WAcc, isMuon: bool, pt: real, eta: real, phi: real, charge: int, metPt: real, metPhi: real): (r: WAcc)
    ensures r.met == acc.met && acc.PrefixOf(r)
    ensures var w := kin(pt, phi, metPt, metPhi);
      r.mass == acc.mass + [w.mt] && r.wPt == acc.wPt + [w.pt] && r.wPhi == acc.wPhi + [w.phi]
    ensures isMuon ==> r.muon == acc.muon.Add(pt, eta, phi, charge) && r.electron == acc.electron
    ensures !isMuon ==> r.electron == acc.electron.Add(pt, eta, phi, charge) && r.muon == acc.muon
    ensures acc.WellFormed() && |acc.mass| < |acc.met.pt| && InMassWindow(kin(pt, phi, metPt, metPhi).mt) ==> r.WellFormed()
  {
    var w := kin(pt, phi, metPt, metPhi);
    var acc' := acc.(mass := acc.mass + [w.mt], wPt := acc.wPt + [w.pt], wPhi := acc.wPhi + [w.phi]);
    if isMuon then acc'.(muon := acc.muon.Add(pt, eta, phi, charge))
    else acc'.(electron := acc.electron.Add(pt, eta, phi, charge))
  }

  /** The lepton part of the loop body: the muon scan, then the electron scan
      only when no muon was recorded. */
  function RecordLepton(kin: Kinematics, acc: WAcc, e: ValidEvent): (r: WAcc)
    requires e.puppiMet.Present()
    ensures r.met == acc.met && acc.PrefixOf(r)
    ensures |r.mass| == |acc.mass| + (if MuonFound(kin, e) || ElectronFound(kin, e) then 1 else 0)
    ensures |r.muon.pt| == |acc.muon.pt| || |r.electron.pt| == |acc.electron.pt|
    ensures acc.WellFormed() && |acc.mass| < |acc.met.pt| ==> r.WellFormed()
    ensures MuonChoice(kin, e).Some? ==>
      var k := MuonChoice(kin, e).value;
      var b := e.muons.value;
      var w := kin(b.pt[k], b.phi[k], e.puppiMet.pt.value, e.puppiMet.phi.value);
      && r.muon == acc.muon.Add(b.pt[k], b.eta[k], b.phi[k], Muons(b)[k].charge)
      && r.electron == acc.electron
      && r.mass == acc.mass + [w.mt] && r.wPt == acc.wPt + [w.pt] && r.wPhi == acc.wPhi + [w.phi]
    ensures MuonChoice(kin, e).None? && ElectronChoice(kin, e).Some? ==>
      var k := ElectronChoice(kin, e).value;
      var b := e.electrons.value;
      var w := kin(b.pt[k], b.phi[k], e.puppiMet.pt.value, e.puppiMet.phi.value);
      && r.electron == acc.electron.Add(b.pt[k], b.eta[k], b.phi[k], Electrons(b)[k].charge)
      && r.muon == acc.muon
      && r.mass == acc.mass + [w.mt] && r.wPt == acc.wPt + [w.pt] && r.wPhi == acc.wPhi + [w.phi]
    ensures MuonChoice(kin, e).None? && ElectronChoice(kin, e).None? ==> r == acc
  {
    var metPt := e.puppiMet.pt.value;
    var metPhi := e.puppiMet.phi.value;
    match MuonChoice(kin, e)
    case Some(k) =>
      var m := Muons(e.muons.value)[k];
      Record(kin, acc, true, m.pt, m.eta, m.phi, m.charge, metPt, metPhi)
    case None =>
      match ElectronChoice(kin, e)
      case Some(k) =>
        var el := Electrons(e.electrons.value)[k];
        Record(kin, acc, false, el.pt, el.eta, el.phi, el.charge, metPt, metPhi)
      case None => acc
  }

  /** The body of the event loop. */
  function EventW(kin: Kinematics, acc: WAcc, e: ValidEvent): (r: WAcc)
    ensures !Survives(e) ==> r == acc
    ensures Survives(e) ==> r.met == acc.met.Add(e.puppiMet.pt.value, e.puppiMet.phi.value)
    ensures acc.PrefixOf(r)
    ensures |r.mass| <= |acc.mass| + 1
    ensures |r.muon.pt| == |acc.muon.pt| || |r.electron.pt| == |acc.electron.pt|
    ensures |r.mass| == |acc.mass| + 1 <==> Survives(e) && (MuonFound(kin, e) || ElectronFound(kin, e))
    ensures acc.WellFormed() ==> r.WellFormed()
  {
    if !EventGate(e) then acc
    else if !e.puppiMet.Present() then acc
    else if e.puppiMet.pt.value < MetCut then acc
    else RecordLepton(kin, acc.(met := acc.met.Add(e.puppiMet.pt.value, e.puppiMet.phi.value)), e)
  }

  /** Muon priority: when some muon is accepted, the first accepted muon in
      array order is recorded, with its W kinematics, and no electron is. */
  lemma MuonPriority(kin: Kinematics, acc: WAcc, e: ValidEvent, k: nat)
    requires Survives(e) && e.muons.Some?
    requires var ms := Muons(e.muons.value);
      && k < |ms|
      && MuonAccepted(kin, e.puppiMet.pt.value, e.puppiMet.phi.value)(ms[k])
      && forall i :: 0 <= i < k ==> !MuonAccepted(kin, e.puppiMet.pt.value, e.puppiMet.phi.value)(ms[i])
    ensures var b := e.muons.value;
      var w := kin(b.pt[k], b.phi[k], e.puppiMet.pt.value, e.puppiMet.phi.value);
      var r := EventW(kin, acc, e);
      && r.muon == acc.muon.Add(b.pt[k], b.eta[k], b.phi[k], Muons(b)[k].charge)
      && r.electron == acc.electron
      && r.mass == acc.mass + [w.mt] && r.wPt == acc.wPt + [w.pt] && r.wPhi == acc.wPhi + [w.phi]
  {
  }

  /** Electrons are scanned only when no muon is accepted; then the first
      accepted electron is recorded and the muon lists are untouched. */
  lemma ElectronFallback(kin: Kinematics, acc: WAcc, e: ValidEvent, k: nat)
    requires Survives(e) && !MuonFound(kin, e) && e.electrons.Some?
    requires var es := Electrons(e.electrons.value);
      && k < |es|
      && ElectronAccepted(kin, e.puppiMet.pt.value, e.puppiMet.phi.value)(es[k])
      && forall i :: 0 <= i < k ==> !ElectronAccepted(kin, e.puppiMet.pt.value, e.puppiMet.phi.value)(es[i])
    ensures var b := e.electrons.value;
      var w := kin(b.pt[k], b.phi[k], e.puppiMet.pt.value, e.puppiMet.phi.value);
      var r := EventW(kin, acc, e);
      && r.electron == acc.electron.Add(b.pt[k], b.eta[k], b.phi[k], Electrons(b)[k].charge)
      && r.muon == acc.muon
      && r.mass == acc.mass + [w.mt] && r.wPt == acc.wPt + [w.pt] && r.wPhi == acc.wPhi + [w.phi]
  {
  }

  /** A surviving event without an accepted lepton still adds its MET, and
      nothing else. */
  lemma MetWithoutLepton(kin: Kinematics, acc: WAcc, e: ValidEvent)
    requires Survives(e) && !MuonFound(kin, e) && !ElectronFound(kin, e)
    ensures EventW(kin, acc, e) == acc.(met := acc.met.Add(e.puppiMet.pt.value, e.puppiMet.phi.value))
  {
  }

  /** A tight muon outside the mass window does not end the scan: the next
      muon is still considered and recorded when accepted. */
  lemma OutOfWindowMuonSkipped(kin: Kinematics, acc: WAcc, e: ValidEvent)
    requires Survives(e) && e.muons.Some? && |e.muons.value.pt| >= 2
    requires var ms := Muons(e.muons.value);
      && TightMuon(ms[0])
      && !InMassWindow(kin(ms[0].pt, ms[0].phi, e.puppiMet.pt.value, e.puppiMet.phi.value).mt)
      && MuonAccepted(kin, e.puppiMet.pt.value, e.puppiMet.phi.value)(ms[1])
    ensures EventW(kin, acc, e).muon.pt == acc.muon.pt + [e.muons.value.pt[1]]
  {
    MuonPriority(kin, acc, e, 1);
  }

  /** Both ends of the mass window are accepted, and so is MET pT exactly 40. */
  lemma CutsInclusive(e: ValidEvent)
    ensures InMassWindow(MassLow) && InMassWindow(MassHigh)
    ensures forall mt: real :: InMassWindow(mt) <==> 40.0 <= mt <= 120.0
    ensures EventGate(e) && e.puppiMet.Present() && e.puppiMet.pt.value == 40.0 ==> Survives(e)
    ensures e.puppiMet.Present() && e.puppiMet.pt.value < 40.0 ==> !Survives(e)
  {
  }

  /** The event loop as a step of the driver. */
  function StepW(kin: Kinematics): (WAcc, ValidEvent) -> WAcc {
    (acc: WAcc, e: ValidEvent) => EventW(kin, acc, e)
  }

  /** The whole script up to the plots. */
  function RunW(kin: Kinematics, sources: seq<Option<seq<ValidEvent>>>): WAcc {
    FoldSources(StepW(kin), NoWValues, sources)
  }

  lemma {:induction false} FoldWInvariant(kin: Kinematics, acc: WAcc, events: seq<ValidEvent>)
    requires acc.WellFormed()
    ensures var r := FoldEvents(StepW(kin), acc, events);
      && r.WellFormed()
      && acc.PrefixOf(r)
      && |r.met.pt| == |acc.met.pt| + |Indices(events, Survives)|
    decreases |events|
  {
    if |events| > 0 {
      var n := |events| - 1;
      FoldWInvariant(kin, acc, events[..n]);
    }
  }

  /** Over a whole run: every list group stays aligned, the W lists hold one
      entry per recorded lepton and every mass lies in [40, 120], and the MET
      lists hold one entry per surviving event of the readable sources. */
  lemma RunWInvariant(kin: Kinematics, sources: seq<Option<seq<ValidEvent>>>)
    ensures var r := RunW(kin, sources);
      && r.WellFormed()
      && |r.met.pt| == |Indices(Readable(sources), Survives)|
  {
    FoldSourcesIsFoldOfReadable(StepW(kin), NoWValues, sources);
    FoldWInvariant(kin, NoWValues, Readable(sources));
  }
}
