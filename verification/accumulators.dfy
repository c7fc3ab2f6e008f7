/** The append-only value lists the scripts fill and later histogram. Each
    record groups the lists that must stay index-aligned: entry k of every
    list in a record comes from the same candidate (or event). */
module Accumulators {
  import opened Scan

  /** pt / eta / phi lists of one object category. */
  datatype ObjectAcc = ObjectAcc(pt: seq<real>, eta: seq<real>, phi: seq<real>) {
    predicate Aligned() {
      |eta| == |pt| && |phi| == |pt|
    }

    /** Every list of `this` is a prefix of the matching list of `later`. */
    predicate PrefixOf(later: ObjectAcc) {
      pt <= later.pt && eta <= later.eta && phi <= later.phi
    }

    /** `later` is `this` followed by one row per position in `idx`, row k
        holding position idx[k] of each of the three parallel arrays. */
    predicate Appended(later: ObjectAcc, pts: seq<real>, etas: seq<real>, phis: seq<real>, idx: seq<nat>)
      requires forall k :: 0 <= k < |idx| ==> idx[k] < |pts| && idx[k] < |etas| && idx[k] < |phis|
    {
      && PrefixOf(later)
      && |later.pt| == |pt| + |idx| && |later.eta| == |eta| + |idx| && |later.phi| == |phi| + |idx|
      && forall k :: 0 <= k < |idx| ==>
           && later.pt[|pt| + k] == pts[idx[k]]
           && later.eta[|eta| + k] == etas[idx[k]]
           && later.phi[|phi| + k] == phis[idx[k]]
    }

    /** Appends, for every position in `idx`, that position of the three
        parallel arrays. */
    function AddPicked(pts: seq<real>, etas: seq<real>, phis: seq<real>, idx: seq<nat>): (r: ObjectAcc)
      requires forall k :: 0 <= k < |idx| ==> idx[k] < |pts| && idx[k] < |etas| && idx[k] < |phis|
      ensures Appended(r, pts, etas, phis, idx)
      ensures Aligned() ==> r.Aligned()
    {
      ObjectAcc(pt + Pick(pts, idx), eta + Pick(etas, idx), phi + Pick(phis, idx))
    }
  }

  /** pt / eta / phi / charge lists of one lepton flavour (W-boson script). */
  datatype LeptonAcc = LeptonAcc(pt: seq<real>, eta: seq<real>, phi: seq<real>, charge: seq<int>) {
    predicate Aligned() {
      |eta| == |pt| && |phi| == |pt| && |charge| == |pt|
    }

    predicate PrefixOf(later: LeptonAcc) {
      pt <= later.pt && eta <= later.eta && phi <= later.phi && charge <= later.charge
    }

    function Add(p: real, e: real, f: real, q: int): LeptonAcc {
      LeptonAcc(pt + [p], eta + [e], phi + [f], charge + [q])
    }
  }

  /** Missing-energy pt / phi lists. */
  datatype MetAcc = MetAcc(pt: seq<real>, phi: seq<real>) {
    predicate Aligned() {
      |phi| == |pt|
    }

    predicate PrefixOf(later: MetAcc) {
      pt <= later.pt && phi <= later.phi
    }

    function Add(p: real, f: real): MetAcc {
      MetAcc(pt + [p], phi + [f])
    }
  }

  const NoObjectValues := ObjectAcc([], [], [])
  const NoLeptonValues := LeptonAcc([], [], [], [])
  const NoMetValues := MetAcc([], [])
}
