/** One entry of the `Events` tree of a NanoAOD file, as the analysis scripts
    read it: named boolean branches, two missing-energy vectors and the
    per-category candidate branches.

    A branch the file does not have is `None` (or, for trigger and filter
    bits, a name missing from `flags`). The scripts test a category's presence
    with `hasattr` on some of its branches, loop over the positions of the
    `_pt` array and index the sibling arrays at those positions without
    further checks; `ValidEvent` makes "every sibling array is at least as
    long as `_pt`" the standing precondition, for every category of every
    event, including arrays the script at hand never reads. */
module Events {
  import opened Optional

  /** Trigger and noise-filter bits by branch name. */
  type Flags = map<string, bool>

  /** A missing-transverse-energy pair, e.g. `MET_pt` / `MET_phi`. */
  datatype MetBranches = MetBranches(pt: Option<real>, phi: Option<real>) {
    predicate Present() { pt.Some? && phi.Some? }
  }

  /** The `Muon_*` arrays. The category is present when `Muon_pt` is;
      `Muon_charge` may be missing on its own. */
  datatype MuonBranches = MuonBranches(
    pt: seq<real>, eta: seq<real>, phi: seq<real>,
    dxy: seq<real>, dz: seq<real>,
    tightId: seq<bool>, iso: seq<real>,
    charge: Option<seq<int>>)
  {
    /** Every position of `Muon_pt` can be read in every sibling array. */
    predicate Covers() {
      && |eta| >= |pt| && |phi| >= |pt| && |dxy| >= |pt| && |dz| >= |pt|
      && |tightId| >= |pt| && |iso| >= |pt|
      && (charge.Some? ==> |charge.value| >= |pt|)
    }
  }

  /** The `Electron_*` arrays; `wp80` is `Electron_mvaFall17V2Iso_WP80`. */
  datatype ElectronBranches = ElectronBranches(
    pt: seq<real>, eta: seq<real>, phi: seq<real>,
    dxy: seq<real>, dz: seq<real>,
    wp80: seq<bool>,
    charge: Option<seq<int>>)
  {
    /** Every position of `Electron_pt` can be read in every sibling array. */
    predicate Covers() {
      && |eta| >= |pt| && |phi| >= |pt| && |dxy| >= |pt| && |dz| >= |pt|
      && |wp80| >= |pt|
      && (charge.Some? ==> |charge.value| >= |pt|)
    }
  }

  /** The `<Category>_pt/_eta/_phi` arrays of jets or photons, each of which
      may be missing. */
  datatype ObjectBranches = ObjectBranches(pt: Option<seq<real>>, eta: Option<seq<real>>, phi: Option<seq<real>>) {
    predicate Present() { pt.Some? && eta.Some? && phi.Some? }
    /** When all three branches exist, every position of the pt array can be
        read in the eta and phi arrays. */
    predicate Covers() {
      Present() ==> |eta.value| >= |pt.value| && |phi.value| >= |pt.value|
    }
  }

  datatype Event = Event(
    flags: Flags,
    met: MetBranches,          // MET_pt, MET_phi
    puppiMet: MetBranches,     // PuppiMET_pt, PuppiMET_phi
    muons: Option<MuonBranches>,
    electrons: Option<ElectronBranches>,
    jets: ObjectBranches,
    photons: ObjectBranches)
  {
    /** Every present category covers its `_pt` positions. This is stricter
        than any one script needs: a script fails only when it indexes past
        the end of an array it actually reads. */
    predicate Valid() {
      && (muons.Some? ==> muons.value.Covers())
      && (electrons.Some? ==> electrons.value.Covers())
      && jets.Covers()
      && photons.Covers()
    }
  }

  const NoObjects := ObjectBranches(None, None, None)
  const NoMet := MetBranches(None, None)

  type ValidEvent = e: Event | e.Valid()
    witness Event(map[], NoMet, NoMet, None, None, NoObjects, NoObjects)

  /** One muon candidate: position j of every `Muon_*` array. */
  datatype Muon = Muon(pt: real, eta: real, phi: real, dxy: real, dz: real, tightId: bool, iso: real, charge: int)

  /** One electron candidate: position j of every `Electron_*` array. */
  datatype Electron = Electron(pt: real, eta: real, phi: real, dxy: real, dz: real, wp80: bool, charge: int)

  /** The charge read for candidate j: the branch value, or 0 when the event
      has no charge branch. */
  function ChargeAt(charge: Option<seq<int>>, n: nat, j: nat): int
    requires charge.Some? ==> |charge.value| >= n
    requires j < n
  {
    match charge
    case Some(c) => c[j]
    case None => 0
  }

  /** The muon candidates of an event, in array order. */
  function Muons(b: MuonBranches): (r: seq<Muon>)
    requires b.Covers()
    ensures |r| == |b.pt|
    ensures forall j :: 0 <= j < |r| ==>
      && r[j].pt == b.pt[j] && r[j].eta == b.eta[j] && r[j].phi == b.phi[j]
      && r[j].dxy == b.dxy[j] && r[j].dz == b.dz[j]
      && r[j].tightId == b.tightId[j] && r[j].iso == b.iso[j]
    ensures b.charge.None? ==> forall j :: 0 <= j < |r| ==> r[j].charge == 0
    ensures b.charge.Some? ==> forall j :: 0 <= j < |r| ==> r[j].charge == b.charge.value[j]
  {
    seq(|b.pt|, j requires 0 <= j < |b.pt| =>
      Muon(b.pt[j], b.eta[j], b.phi[j], b.dxy[j], b.dz[j], b.tightId[j], b.iso[j],
           ChargeAt(b.charge, |b.pt|, j)))
  }

  /** The electron candidates of an event, in array order. */
  function Electrons(b: ElectronBranches): (r: seq<Electron>)
    requires b.Covers()
    ensures |r| == |b.pt|
    ensures forall j :: 0 <= j < |r| ==>
      && r[j].pt == b.pt[j] && r[j].eta == b.eta[j] && r[j].phi == b.phi[j]
      && r[j].dxy == b.dxy[j] && r[j].dz == b.dz[j] && r[j].wp80 == b.wp80[j]
    ensures b.charge.None? ==> forall j :: 0 <= j < |r| ==> r[j].charge == 0
    ensures b.charge.Some? ==> forall j :: 0 <= j < |r| ==> r[j].charge == b.charge.value[j]
  {
    seq(|b.pt|, j requires 0 <= j < |b.pt| =>
      Electron(b.pt[j], b.eta[j], b.phi[j], b.dxy[j], b.dz[j], b.wp80[j],
               ChargeAt(b.charge, |b.pt|, j)))
  }
}
