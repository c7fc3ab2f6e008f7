/** Quality predicates of single candidates. Every cut is a comparison, so the
    physical quantities are modelled as reals; strict and inclusive bounds are
    kept exactly as written. */
module Cuts {
  import opened Events

  function Abs(x: real): real {
    if x < 0.0 then -x else x
  }

  /** Tight muon: pT > 30, |eta| < 2.4, tight ID, relative isolation < 0.1,
      |dxy| < 0.02, |dz| < 0.05; the same in both lepton scripts. */
  predicate TightMuon(m: Muon) {
    && m.pt > 30.0 && Abs(m.eta) < 2.4
    && m.tightId && m.iso < 0.1
    && Abs(m.dxy) < 0.02 && Abs(m.dz) < 0.05
  }

  predicate InBarrel(absEta: real) { absEta < 1.444 }

  predicate InEndcap(absEta: real) { 1.566 < absEta < 2.5 }

  /** Tight electron as the W-boson script writes it: leave the detector gap
      out, then one combined condition with region-dependent impact cuts. */
  predicate TightElectron(e: Electron) {
    var a := Abs(e.eta);
    && (InBarrel(a) || InEndcap(a))
    && e.pt > 35.0 && e.wp80
    && ((InBarrel(a) && Abs(e.dxy) < 0.05 && Abs(e.dz) < 0.1)
        || (InEndcap(a) && Abs(e.dxy) < 0.1 && Abs(e.dz) < 0.2))
  }

  /** Tight electron as the lepton-histogram script writes it: a chain of
      early rejections followed by the pT and ID test. */
  predicate TightElectronStepwise(e: Electron) {
    var a := Abs(e.eta);
    if !(InBarrel(a) || InEndcap(a)) then false
    else if InBarrel(a) && (Abs(e.dxy) >= 0.05 || Abs(e.dz) >= 0.1) then false
    else if InEndcap(a) && (Abs(e.dxy) >= 0.1 || Abs(e.dz) >= 0.2) then false
    else e.pt > 35.0 && e.wp80
  }

  /** The two scripts' electron selections accept exactly the same candidates. */
  lemma ElectronSelectionsAgree(e: Electron)
    ensures TightElectron(e) <==> TightElectronStepwise(e)
  {
  }

  /** What an accepted electron satisfies, region by region, and conversely. */
  lemma ElectronAcceptance(e: Electron)
    ensures TightElectron(e) ==> e.pt > 35.0 && e.wp80
    ensures TightElectron(e) ==> Abs(e.eta) < 1.444 || 1.566 < Abs(e.eta) < 2.5
    ensures TightElectron(e) && Abs(e.eta) < 1.444 ==> Abs(e.dxy) < 0.05 && Abs(e.dz) < 0.1
    ensures TightElectron(e) && 1.566 < Abs(e.eta) ==> Abs(e.dxy) < 0.1 && Abs(e.dz) < 0.2
    ensures e.pt > 35.0 && e.wp80 && Abs(e.eta) < 1.444 && Abs(e.dxy) < 0.05 && Abs(e.dz) < 0.1 ==> TightElectron(e)
    ensures e.pt > 35.0 && e.wp80 && 1.566 < Abs(e.eta) < 2.5 && Abs(e.dxy) < 0.1 && Abs(e.dz) < 0.2 ==> TightElectron(e)
  {
  }

  /** The barrel-endcap transition and the region beyond |eta| = 2.5 never
      yield an electron, whatever its other attributes. */
  lemma ElectronGapRejected(e: Electron)
    requires 1.444 <= Abs(e.eta) <= 1.566 || Abs(e.eta) >= 2.5
    ensures !TightElectron(e) && !TightElectronStepwise(e)
  {
  }

  /** Every muon cut is strict: a candidate sitting exactly on any threshold
      is rejected. */
  lemma MuonCutsStrict(m: Muon)
    requires m.pt == 30.0 || Abs(m.eta) == 2.4 || m.iso == 0.1 || Abs(m.dxy) == 0.02 || Abs(m.dz) == 0.05
    ensures !TightMuon(m)
  {
  }
}
