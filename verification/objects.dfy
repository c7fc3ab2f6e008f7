/** The jet and photon scripts, which differ only in the category they read
    and the pT threshold: per event, when the pt, eta and phi branches are all
    present, every candidate with pT strictly above the threshold is recorded,
    in array order, with no gate and no per-event cap. */
module Objects {
  import opened Optional
  import opened Events
  import opened Scan
  import opened Fold
  import opened Accumulators

  datatype Category = Jets | Photons

  /** `pt_threshold` of each script. */
  function Threshold(c: Category): real {
    match c
    case Jets => 30.0
    case Photons => 5.0
  }

  function BranchesOf(c: Category, e: Event): ObjectBranches {
    match c
    case Jets => e.jets
    case Photons => e.photons
  }

  function Above(threshold: real): real -> bool {
    pt => pt > threshold
  }

  /** Positions of the candidates above the threshold, in array order. */
  function PassingObjects(b: ObjectBranches, threshold: real): (r: seq<nat>)
    requires b.Present()
    ensures forall j :: 0 <= j < |b.pt.value| ==> (j in r <==> b.pt.value[j] > threshold)
    ensures forall k :: 0 <= k < |r| ==> r[k] < |b.pt.value|
    ensures forall k, l :: 0 <= k < l < |r| ==> r[k] < r[l]
  {
    Indices(b.pt.value, Above(threshold))
  }

  /** The body of the event loop. */
  function EventObjects(c: Category, acc: ObjectAcc, e: ValidEvent): (r: ObjectAcc)
    ensures !BranchesOf(c, e).Present() ==> r == acc
    ensures acc.PrefixOf(r)
    ensures acc.Aligned() ==> r.Aligned()
    ensures BranchesOf(c, e).Present() ==>
      var b := BranchesOf(c, e);
      acc.Appended(r, b.pt.value, b.eta.value, b.phi.value, PassingObjects(b, Threshold(c)))
  {
    var b := BranchesOf(c, e);
    if !b.Present() then acc
    else acc.AddPicked(b.pt.value, b.eta.value, b.phi.value, PassingObjects(b, Threshold(c)))
  }

  /** The threshold is strict: a jet with pT exactly 30 or a photon with pT
      exactly 5 is not recorded, while anything above is. */
  lemma ThresholdStrict(c: Category, b: ObjectBranches, j: nat)
    requires b.Present() && j < |b.pt.value|
    ensures b.pt.value[j] == Threshold(c) ==> j !in PassingObjects(b, Threshold(c))
    ensures b.pt.value[j] > Threshold(c) ==> j in PassingObjects(b, Threshold(c))
    ensures Threshold(Jets) == 30.0 && Threshold(Photons) == 5.0
  {
  }

  function StepObjects(c: Category): (ObjectAcc, ValidEvent) -> ObjectAcc {
    (acc: ObjectAcc, e: ValidEvent) => EventObjects(c, acc, e)
  }

  /** The whole script of category `c` up to the plots. */
  function RunObjects(c: Category, sources: seq<Option<seq<ValidEvent>>>): ObjectAcc {
    FoldSources(StepObjects(c), NoObjectValues, sources)
  }

  lemma {:induction false} FoldObjectsAligned(c: Category, acc: ObjectAcc, events: seq<ValidEvent>)
    requires acc.Aligned()
    ensures var r := FoldEvents(StepObjects(c), acc, events);
      r.Aligned() && acc.PrefixOf(r)
    decreases |events|
  {
    if |events| > 0 {
      var n := |events| - 1;
      FoldObjectsAligned(c, acc, events[..n]);
      var before := FoldEvents(StepObjects(c), acc, events[..n]);
      assert FoldEvents(StepObjects(c), acc, events) == EventObjects(c, before, events[n]);
    }
  }

  /** Over a whole run, the pt, eta and phi lists stay equally long. */
  lemma RunObjectsAligned(c: Category, sources: seq<Option<seq<ValidEvent>>>)
    ensures RunObjects(c, sources).Aligned()
  {
    FoldSourcesIsFoldOfReadable(StepObjects(c), NoObjectValues, sources);
    FoldObjectsAligned(c, NoObjectValues, Readable(sources));
  }
}
