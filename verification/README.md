# Event selection of the wh-suep-distributions analysis scripts, in Dafny

The repository is five Python scripts. Each one reads NanoAOD `Events` trees with
ROOT, selects physics objects event by event, appends the selected values to
lists, and plots those lists. This project models the part between reading and
plotting. That part is the per-event selection, folded over all events of all
readable input files.

- `W_Boson_histograms.py` has an event gate: at least one trigger of
  `triggers_of_interest` fired, and no noise filter of `noise_filters` is present
  and false. The event also needs both PuppiMET branches and MET pT >= 40. One
  MET entry is added per such event. Then the script scans the muons, and the
  electrons only when no muon was recorded. Each scan stops at the first tight
  lepton whose transverse mass with the MET lies in [40, 120]. That lepton
  (pt, eta, phi, charge) and the W kinematics (mt, pT, phi) are recorded.
- `lepton_histograms.py` uses the same trigger gate. It then records every
  tight muon and every tight electron (pt, eta, phi). It has no MET cut, no mass
  window and no early stop.
- `jet_histograms.py` and `photon_histograms.py` record every candidate with
  pT strictly above 30 (jets) or 5 (photons). This happens only when the pt, eta
  and phi branches are all present.
- `MET_histograms.py` records `MET_pt` and `MET_phi` of every event that has both.

Modules and files:

- `optional.dfy` (`Optional`): the `Option` type. `None` stands for a missing
  branch or an unreadable file.
- `events.dfy` (`Events`): the event record. Candidate branches are parallel
  arrays. The scripts loop over the positions of a category's `_pt` array and
  read the sibling arrays at those positions without checks. `ValidEvent`
  requires every sibling array to be at least as long as `_pt`. `Muons` and
  `Electrons` read candidate `j`.
- `gate.dfy` (`Gate`): the trigger OR and the noise-filter AND, with the lists
  of branch names.
- `cuts.dfy` (`Cuts`): the tight-muon predicate and both spellings of the
  tight-electron predicate.
- `scan.dfy` (`Scan`): the two loop shapes. `FirstIndex` is scan-and-break.
  `Indices` is scan-and-keep-all.
- `fold.dfy` (`Fold`): the driver loop over files and events. A readable file
  is `Some(events)`; an unreadable file or one without an `Events` tree is `None`.
- `accumulators.dfy` (`Accumulators`): the value lists, grouped by the lists
  that must stay index-aligned.
- `wboson.dfy`, `leptons.dfy`, `objects.dfy`, `met.dfy`: one module per
  script. Jets and photons share `Objects`, selected by a `Category`.

Physical quantities are `real`, because every cut is a comparison.
`calculate_w_kinematics` is a function parameter `kin` of type
`(real, real, real, real) -> WKinematics` and is left uninterpreted. No
property needs `mt >= 0`: the mass window alone bounds every recorded mass.

Two points about the W and lepton scripts are easy to misread:

- The W-boson script records the first qualifying lepton in array order,
  muons first, and ignores any later qualifying leptons of the event.
- In `lepton_histograms.py`, `pt_threshold` and `pt_upper_cap` are only a plot
  range (line 111), not a selection cut, and there is no tau flavour.

## Model

| member | source | states |
|---|---|---|
| Gate.PassesTrigger | W_Boson_histograms.py:36-37 | The trigger gate holds iff some configured trigger branch is present and true; a missing trigger counts as not fired. |
| Gate.PassesMetFilters | W_Boson_histograms.py:39-43 | The filter gate holds iff no configured filter is present and false; a missing filter counts as passing. |
| Gate.PassesTriggerLoop | lepton_histograms.py:20-24 | The early-return trigger loop returns true iff some configured trigger is present and true, and so agrees with the W-boson script's `any` form. |
| Gate.AbsentFlagsAsymmetry | W_Boson_histograms.py:36-43 | When none of the named branches exists, the trigger OR fails and the filter AND passes. |
| Cuts.ElectronSelectionsAgree | lepton_histograms.py:80-91 | The stepwise early-reject electron selection accepts exactly the candidates that the W-boson script's combined condition (W_Boson_histograms.py:173-187) accepts. |
| Cuts.ElectronAcceptance | W_Boson_histograms.py:173-187 | An accepted electron has pT > 35 and WP80. In the barrel (abs eta < 1.444) it has abs dxy < 0.05 and abs dz < 0.1. In the endcap (1.566 < abs eta < 2.5) it has abs dxy < 0.1 and abs dz < 0.2. Conversely, meeting either region's cuts is enough. |
| Cuts.ElectronGapRejected | W_Boson_histograms.py:173-178 | No electron with 1.444 <= abs eta <= 1.566 or abs eta >= 2.5 is accepted, under either spelling of the predicate. |
| Cuts.MuonCutsStrict | lepton_histograms.py:60-64 | Every muon cut is strict: a muon exactly at pT 30, abs eta 2.4, isolation 0.1, abs dxy 0.02 or abs dz 0.05 is rejected. |
| Cuts.TightMuon | W_Boson_histograms.py:140-141 | Definition: pT > 30, abs eta < 2.4, tight ID, isolation < 0.1, abs dxy < 0.02, abs dz < 0.05, all strict; the same condition as lepton_histograms.py:60-64. |
| Cuts.TightElectron | W_Boson_histograms.py:173-187 | Definition: outside the gap, pT > 35, WP80, and the barrel or endcap impact cuts, as one combined condition. |
| Cuts.TightElectronStepwise | lepton_histograms.py:80-91 | Definition: the early-reject chain, namely gap, then barrel impact cuts, then endcap impact cuts, then pT > 35 and WP80. |
| WBoson.EventGate | W_Boson_histograms.py:109-110 | Definition: trigger OR over `triggers_of_interest` and filter AND over `noise_filters`. |
| WBoson.Survives | W_Boson_histograms.py:109-119 | Definition: gate passed, both PuppiMET branches present and MET pT not below 40. |
| WBoson.InMassWindow | W_Boson_histograms.py:145-146 | Definition: the negation of the skip test `mt < 40 or mt > 120`. |
| Fold.FoldEvents | W_Boson_histograms.py:106-107 | Definition: the event loop, running the loop body on each event in entry order. |
| Fold.FoldSources | W_Boson_histograms.py:91-104 | Definition: the file loop, skipping an unreadable file or one without an `Events` tree and running the event loop over the others. |
| Fold.Readable | W_Boson_histograms.py:91-104 | Definition: the events of the readable files, file after file. |
| Objects.Threshold | jet_histograms.py:5 | Definition: `pt_threshold`, 30 for jets and 5 for photons (photon_histograms.py:5). |
| WBoson.RunW | W_Boson_histograms.py:91-203 | Definition: the whole W-boson script from empty lists, up to the plots. |
| Leptons.RunLeptons | lepton_histograms.py:26-94 | Definition: the whole lepton script from empty lists, up to the plots. |
| Objects.RunObjects | photon_histograms.py:11-37 | Definition: the whole jet or photon script from empty lists, up to the plots. |
| Met.RunMet | MET_histograms.py:9-32 | Definition: the whole MET script from empty lists, up to the plots. |
| Scan.FirstIndex | W_Boson_histograms.py:127-157 | A scan that breaks on its first accepted candidate returns that candidate's position. Every earlier candidate is rejected. It returns nothing only when no candidate is accepted. |
| Scan.Indices | lepton_histograms.py:51-67 | A scan without early stop keeps exactly the accepted positions, each once, in increasing array order. |
| Scan.FirstIndexIsFirstOfIndices | W_Boson_histograms.py:140-157 | The stop-at-first scan finds the first position that the keep-all scan keeps. It finds nothing exactly when the keep-all scan keeps nothing. |
| Events.Muons | W_Boson_histograms.py:128-136 | Muon candidate j carries position j of every `Muon_*` array. Its charge is `Muon_charge[j]`, or 0 when that branch is missing. |
| Events.Electrons | W_Boson_histograms.py:164-171 | Electron candidate j carries position j of every `Electron_*` array. Its charge is `Electron_charge[j]`, or 0 when that branch is missing. |
| Fold.FoldEventsAppend | W_Boson_histograms.py:106-107 | The event loop carries nothing but the lists: two runs of events back to back equal one run over their concatenation. |
| Fold.FoldSourcesIsFoldOfReadable | W_Boson_histograms.py:91-107 | Looping over files and then events equals one event loop over the events of the readable files, in file order. |
| Fold.SkippedSourceContributesNothing | photon_histograms.py:18-25 | A zombie file, or one without an `Events` tree, leaves every list as if the file were absent, wherever it sits in the listing. |
| WBoson.MuonChoice | W_Boson_histograms.py:127-157 | The muon scan yields a muon iff some muon is tight with mt in the window. The muon it yields is accepted, and every muon before it in array order is rejected. |
| WBoson.ElectronChoice | W_Boson_histograms.py:163-203 | The electron scan yields an electron iff some electron is tight with mt in the window. The electron it yields is accepted, and every electron before it is rejected. |
| WBoson.Record | W_Boson_histograms.py:148-155 | Appends the lepton's pt, eta, phi and charge to its own flavour's lists and mt, pT, phi of the W to the W lists; the other flavour and MET are untouched. |
| WBoson.RecordLepton | W_Boson_histograms.py:124-203 | When the muon scan yields muon k, that muon and its W kinematics are appended and the electrons untouched. Otherwise, when the electron scan yields electron k, that electron and its W kinematics are appended and the muons untouched. Otherwise nothing is appended. MET is never touched, and the list invariants are kept. |
| WBoson.EventW | W_Boson_histograms.py:109-122 | An event that fails the gate, lacks a PuppiMET branch or has MET pT < 40 adds nothing. A surviving event adds exactly its MET pT and phi. Every list only grows, by at most one W entry and at most one lepton flavour. A W entry is added iff the event survives and has an accepted muon or electron. The list invariants are kept. |
| WBoson.MuonPriority | W_Boson_histograms.py:140-160 | When some muon is accepted, the first accepted muon in array order is recorded together with its W kinematics, and the electron lists are unchanged. |
| WBoson.ElectronFallback | W_Boson_histograms.py:159-203 | When no muon is accepted, the first accepted electron is recorded together with its W kinematics, and the muon lists are unchanged. |
| WBoson.MetWithoutLepton | W_Boson_histograms.py:121-124 | A surviving event without an accepted lepton adds its MET pair and nothing else. |
| WBoson.OutOfWindowMuonSkipped | W_Boson_histograms.py:143-146 | A tight muon with mt outside the window does not end the scan: an accepted muon after it is still recorded. |
| WBoson.CutsInclusive | W_Boson_histograms.py:118-119 | The MET cut and the mass window are inclusive. MET pT exactly 40 survives; below 40 does not. mt is in the window iff 40 <= mt <= 120. |
| WBoson.FoldWInvariant | W_Boson_histograms.py:106-203 | Over any events: each list group stays aligned, and the lists only grow. The W lists have one entry per recorded lepton, never outnumber the MET entries, and hold only masses in [40, 120]. There is one MET entry per surviving event. |
| WBoson.RunWInvariant | W_Boson_histograms.py:91-203 | The same invariants hold for the whole run from empty lists. The number of MET entries equals the number of surviving events of the readable files. |
| Leptons.PassingMuons | lepton_histograms.py:51-64 | Exactly the tight muons are selected, in increasing array order. |
| Leptons.PassingElectrons | lepton_histograms.py:71-91 | Exactly the electrons passing the stepwise selection are selected, in increasing array order. |
| Leptons.EventLeptons | lepton_histograms.py:43-94 | An event failing the trigger gate adds nothing. Otherwise each present flavour gets one row per selected candidate, in array order. Row k holds pt, eta and phi of the same candidate. An absent flavour is untouched, and alignment is kept. |
| Leptons.FlavoursIndependent | lepton_histograms.py:50-94 | What an event adds to the muon lists does not depend on its electrons, and vice versa, so one event can feed both flavours. |
| Leptons.FoldLeptonsAligned | lepton_histograms.py:43-94 | Over any events, each flavour's pt, eta and phi lists stay equally long and only grow. |
| Leptons.RunLeptonsAligned | lepton_histograms.py:26-94 | Over the whole run, each flavour's pt, eta and phi lists are equally long. |
| Objects.PassingObjects | jet_histograms.py:31-34 | A candidate is selected iff its pT is strictly above the threshold; the selection is in increasing array order. |
| Objects.EventObjects | photon_histograms.py:28-37 | An event lacking any of the pt, eta, phi branches adds nothing. Otherwise every candidate above the threshold adds one row, in array order, with no gate or cap. Row k holds pt, eta and phi of the same candidate. |
| Objects.ThresholdStrict | jet_histograms.py:5-34 | The thresholds are 30 for jets and 5 for photons. A candidate exactly at the threshold is rejected; anything above it is recorded. |
| Objects.FoldObjectsAligned | jet_histograms.py:27-37 | Over any events, the pt, eta and phi lists stay equally long and only grow. |
| Objects.RunObjectsAligned | photon_histograms.py:11-37 | Over the whole run, the pt, eta and phi lists are equally long. |
| Met.EventMet | MET_histograms.py:28-32 | An event with both MET branches appends its pt and phi unchanged. Any other event adds nothing. |
| Met.FoldMetContents | MET_histograms.py:25-32 | Over any events, one (pt, phi) pair is appended per event that has both branches, in event order, and both values come from the same event. |
| Met.RunMetContents | MET_histograms.py:9-32 | Over the whole run, the lists hold exactly the MET pairs of the readable files' events that have both branches, in order, and are equally long. |

## Left out

- ROOT file opening, the `os.listdir` enumeration, the `.root` suffix filter and `GetEntry` iteration. A run takes the already-listed sources as a sequence of `Option<seq<ValidEvent>>`. A file skipped for its suffix is simply not in that sequence.
- The arithmetic inside `calculate_w_kinematics` (sqrt, cos, sin, atan2; W_Boson_histograms.py:45-59). It is floating-point trigonometry, so it is an uninterpreted parameter. Nothing is proved about the values it returns.
- All plotting: `plot_histogram`, `draw_latex_label`, TH1F/TCanvas and PNG output. This is a foreign graphics library.
- The mean/standard-deviation print at W_Boson_histograms.py:230. It is float formatting, and it divides by zero when no W candidate was recorded.
- IEEE floating point: values are exact reals, so NaN inputs and float32 rounding are not modelled. Every cut is a plain comparison, and none of them depends on rounding.
- Cuts.ElectronSelectionsAgree, WBoson.CutsInclusive and the mass bound of WBoson.FoldWInvariant hold over the reals only. With a NaN `dxy` or `dz` the stepwise electron selection (lepton_histograms.py:86-91) accepts while the combined one (W_Boson_histograms.py:185-187) rejects; a NaN MET pT passes line 118; a NaN `mt` passes lines 145 and 192, so a mass outside [40, 120] would be recorded.
- Events in which a sibling array is shorter than its category's `_pt` array, in any category. `ValidEvent` excludes every such event from every script, including arrays the script in question never reads: the MET script reads no candidate array, the jet and photon scripts read `_eta`/`_phi` only at positions above the threshold, the W-boson script reads no lepton array of an event that fails lines 109-119, stops a scan at its `break` and skips the electrons once a muon is recorded, and the lepton script never reads the charge arrays. A script itself fails with IndexError only when it actually indexes past the end of an array. Longer sibling arrays are allowed.
- Events that have `Muon_pt` (or `Electron_pt`) but lack another array, such as `Muon_eta` or `Muon_dxy`. The model has no way to write such an event, whichever script reads it: a muon or electron category is either absent or has all its arrays. Only the charge branch may be missing on its own, read as 0 as the W-boson script does. A script fails with AttributeError only when it actually touches the missing branch, which the W-boson script does not do for an event it has already dropped or a scan it has already stopped.
- File order. Results follow the listing order of the files; no lemma relates runs over permuted files.
- Leptons.RunLeptonsAligned: states alignment over a whole run. The per-event counts and contents are stated by Leptons.EventLeptons, not summed over the run.
- Objects.RunObjectsAligned: states alignment over a whole run. The per-event counts and contents are stated by Objects.EventObjects, not summed over the run.
