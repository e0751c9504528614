# FaST-GShare allocator: a verified model

FaST-GShare's controller-manager admits pods to GPUs. For every node it keeps GPU records (memory in use, share of
SM time in use, a sharing mode, the admitted pods) and a 1024-slot allocator for GPU client ports. This project models
that allocator, the victim selection and pod creation around it, and the node-side resource manager it talks to, and
proves what holds in every run.

| file | what it holds |
|---|---|
| `PortBitmap.dfy`, `NextFit.dfy` | the word-packed bitmap as a class refining a set with a cursor; fairness of the cursor |
| `Requests.dfy` | annotations, parsing and validation of requests; explicit 64-bit arithmetic |
| `Ledger.dfy` | the records as values, and each critical section as a function on them |
| `LedgerSafety.dfy` | the invariants of a record and of a node, kept by each function |
| `LedgerRuns.dfy` | the state machine: registration, check, commit, removals, re-configuration, in any order |
| `Reservations.dfy`, `History.dfy` | ports against the ledger, the ledger against the history of grants and removals |
| `Budget.dfy`, `Admission.dfy`, `FloatShares.dfy` | the compute budget, what a commit meets after its check, NaN and infinite quotas |
| `Mirror.dfy`, `Outcomes.dfy`, `Records.dfy`, `Witnesses.dfy` | pushed configuration, answers and panics, the life of a record, concrete runs |
| `Controller.dfy`, `Execution.dfy` | the mutable controller, proved against the ledger functions, and its execution as a run |
| `PowersOfTwo.dfy`, `VictimOrder.dfy`, `VictimCycles.dfy`, `VictimSelection.dfy` | the eight-rule comparator, when it is an order, node ranks, the in-place sort and its prefix |
| `SlowStart.dfy`, `Creation.dfy` | the doubling loop and its accounting; the creation callback as events of a run |
| `NodeResources.dfy` | the uuid index, the server's calls, provisioning and release under hardware failures |

A run is a sequence of events. Admission is two events, a check (`ScheduleEvent`) and a commit (`CommitEvent`); only one
admission is under way at a time, because `fstp2PodsMtx` is held, but registrations, removals and re-configurations
may come between its check and its commit. A step that panics has no next state. Shares are reals and memory is 64-bit
with explicit wrap-around. `MpsLookup` chooses between the MPS lookup as written, which panics on any entry because it
asserts the wrong type, and the lookup by key that is meant; theorems hold for both unless they say otherwise.

Main results: safety of every run whatever is removed (`EveryRunIsSafe`, `RecordLaw`), also of the mutable controller
(`Execute`); where every port slot is, leaks included (`PortsInRun`, `LeakFreeExactly`); the ledger is exactly the history
of grants and removals (`LedgerIsHistory`, `LivePodsAreAddressable`, `RemovalReleasesExactly`); what a record is made
from and when it ends (`LimitsAreTheDevices`, `RemovalExactly`, `FreedGpu`); how a commit ends after
its check, read off the run (`CommitExactly`, `RefusedExactly`); the exact drift of `Usage` (`UsageDriftsExactly`) and
its exact value with NaN and infinite quotas (`UsageExactly`); what a node's configuration lists, and when that is right (`MirrorAgreement`,
`MirrorExactly`); next-fit fairness (`NextFitFairness`); when the comparator is an order (`LinearOrder`,
`StrictWeakExactly`); what slow start's count is worth (`ReportNeverExceedsSuccesses`, `SlowStartCountsCreations`);
resumable release over any server calls (`ReleaseIsResumable`, `ServeReleases`) and half-provisioned devices
(`StrandedExactly`, `Serve`).

What the proofs found in the code:

- A removal annotated MPS or EXCLUSIVE for a record that holds FastPods deletes the record, leaks its ports for good, and
  pushes nothing, so that the node keeps listing the pods; more generally a removal takes exactly its own reservation
  if and only if it is faithful to the record's occupants.
- `removePodFromList` always panics on EXCLUSIVE pods, and an EXCLUSIVE FaSTPod that asks for an SM count passes
  validation and then always panics in the scheduler.
- With the MPS lookup as written no GPU ever holds two MPS pods.
- Re-configuration can oversell a GPU. A checked request is refused for lack of compute exactly when the shares removed
  since its check leave it no room, which takes a negative re-configured share.
- The quota "NaN" passes validation and every compute test, and `Usage` is NaN from then on. A re-configuration to "Inf" or
  "NaN", which is not checked, does the same once that pod is removed. Exactly then the compute test is off for as long
  as the record lives, and only ports and memory limit how many pods that want the whole GPU are admitted to it.
- Error code 2 means that the node is unknown and code 3 also that the record is gone; the comment on the codes
  (controller.go:530-535) numbers them differently. After a passed check code 2 never comes back, so no creation ever
  waits. The slow-start loop on its own would miscount waiting calls, even below zero; the controller never gets there.
- A FaSTPod with an invalid request counts as created: all expected creations stay outstanding although no pod is made.
- When the API server does not create the pod of a granted request, nothing takes the grant back (`Undo` is a stub): the
  reservation stays although no pod exists whose removal could end it.
- Scaling down to zero replicas deletes nothing and waits forever.
- The comparator can cycle on the logarithmic scale, exactly where a UID falls between two that other rules compare.
- A provisioning attempt that fails after line 503 of virtual_resource.go leaves an object marked provisioned with no device
  behind it. The server never touches that object again; it is out of the index at once and out of the list at the
  next refresh. Only direct calls on the object would see `Access` claim success.
- The loops at gpu_manager.go:419 and 443 have no `break`, but a removed list element has no successor, so they stop as well.

## Model

| member | source | states |
|---|---|---|
| PortBitmap.Bitmap.constructor | pkg/libs/bitmap/bitmap.go:13-20 | a new bitmap is the empty set with its cursor at 0 |
| PortBitmap.Bitmap.Set | pkg/libs/bitmap/bitmap.go:22-30 | adds one slot to the set and leaves every other slot and the cursor alone; an error exactly out of range |
| PortBitmap.Bitmap.Clear | pkg/libs/bitmap/bitmap.go:33-41 | removes one slot and leaves every other slot and the cursor alone; an error exactly out of range |
| PortBitmap.Bitmap.Get | pkg/libs/bitmap/bitmap.go:44-51 | membership in the set; false with an error out of range |
| PortBitmap.Bitmap.FindFirstUnset | pkg/libs/bitmap/bitmap.go:53-63 | the loop computes the circular first-free search and moves the cursor just past the slot found, or changes nothing |
| PortBitmap.Bitmap.FindFirstUnsetAndSet | pkg/libs/bitmap/bitmap.go:65-71 | refines one abstract grant: slot, set and cursor together |
| PortBitmap.Slots.Grant | pkg/libs/bitmap/bitmap.go:53-71 | the granted slot is free and nearest to the cursor among all free slots; -1 exactly when all are taken, and then nothing changes |
| PortBitmap.SetSlot | pkg/libs/bitmap/bitmap.go:26-28 | or-ing a mask into one 64-bit word sets that slot and no other of the whole bitmap |
| PortBitmap.ClearSlot | pkg/libs/bitmap/bitmap.go:37-39 | and-not-ing a mask clears that slot and no other of the whole bitmap |
| NextFit.NextFitFairness | pkg/libs/bitmap/bitmap.go:53-71 | between two grants of one slot, every other slot was granted, or was taken when the cursor passed it, over any interleaving with Set and Clear |
| NextFit.Chase | pkg/libs/bitmap/bitmap.go:53-63 | while the cursor is short of a slot, the slot before its start cannot be granted again before that slot is served or skipped |
| Requests.ParsesExactly | internal/apps/fastpod-controller-manager/new_pod.go:201-286 | which annotations parse, for each mode, and into which request |
| Requests.ValidExactly | internal/apps/fastpod-controller-manager/new_pod.go:288-328 | a parsed request is valid exactly if it has a mode, no negative memory, quotas in [0, 1] and percentages in [0, 100] |
| Requests.AdmissibleExactly | internal/apps/fastpod-controller-manager/new_pod.go:201-328 | parsing undoes annotating, and the requests that reach the scheduler are exactly the valid ones of that form, for real-valued quotas |
| FloatShares.ValidatesExactly | internal/apps/fastpod-controller-manager/new_pod.go:294-307 | over floating-point values validation passes exactly the quotas in [0, 1] and NaN, infinities not; a valid share is NaN or in [0, 1] |
| Requests.AdmissibleShape | internal/apps/fastpod-controller-manager/new_pod.go:201-328 | a parsed and validated request has non-negative memory, a share in [0, 1] exactly if FASTPOD, exactly one SM bound if EXCLUSIVE, for real-valued quotas |
| LedgerSafety.FitsExactly | internal/apps/fastpod-controller-manager/scheduler.go:317-400 | on a safe record the check passes exactly when mode, memory, share and SM bounds leave room, without overflow; panics exactly on an EXCLUSIVE SM count |
| LedgerSafety.FitsValidated | internal/apps/fastpod-controller-manager/scheduler.go:317-400 | the same for any validated request, parsed or not: the panic is exactly an EXCLUSIVE request without an SM percentage |
| Outcomes.ScheduleSelectsExactly | internal/apps/fastpod-controller-manager/scheduler.go:92-143 | the check selects the requested node and GPU exactly when both are known and the record has room or, without a record, the device's own memory and SM percentage suffice; existing records stay as they are, an added one has the device's limits, is vacant and stays even on refusal |
| Outcomes.SmCountPanics | internal/apps/fastpod-controller-manager/scheduler.go:319-322 | an EXCLUSIVE FaSTPod with a positive SM count is valid, and its check panics on any known node and GPU |
| ControllerState.FindInQueue | internal/apps/fastpod-controller-manager/controller_util.go:346-353 | the loop finds the first entry with the key, if any |
| ControllerState.BuildConfig | internal/apps/fastpod-controller-manager/config_manager.go:177-190 | the loop computes the element-wise projection of the pod list |
| ControllerState.ConfigMirror.UpdatePodsGPUConfig | internal/apps/fastpod-controller-manager/config_manager.go:155-215 | a push that gets through replaces the configuration of that GPU only; one that fails changes nothing |
| ControllerState.GpuDevInfo.CommitMpsPod | internal/apps/fastpod-controller-manager/gpu_manager.go:183-205 | the MPS branch computes the ledger function on the record's value, panic and code 4 included |
| ControllerState.GpuDevInfo.CommitFastPodReq | internal/apps/fastpod-controller-manager/gpu_manager.go:217-263 | the FASTPOD branch computes the ledger function on record and bitmap, codes 3, 4 and 5 included |
| ControllerState.GpuDevInfo.Commit | internal/apps/fastpod-controller-manager/gpu_manager.go:160-281 | pinning the mode and the three branches together compute the ledger function |
| ControllerState.GpuDevInfo.RemoveFastPod | internal/apps/fastpod-controller-manager/gpu_manager.go:298-314 | the loop with a break erases the first entry with the key, gives back memory, share and port bit, and nothing else |
| ControllerState.GpuDevInfo.SweepFastPod | internal/apps/fastpod-controller-manager/gpu_manager.go:415-433 | the loop without a break does the same |
| ControllerState.GpuDevInfo.RemoveMpsPod | internal/apps/fastpod-controller-manager/gpu_manager.go:317-328 | the MPS loop with a break erases the first entry with the key and gives back its memory |
| ControllerState.GpuDevInfo.SweepMpsPod | internal/apps/fastpod-controller-manager/gpu_manager.go:443-450 | the MPS loop without a break does the same |
| ControllerState.NodeInfo.RemovePod | internal/apps/fastpod-controller-manager/gpu_manager.go:294-378 | erases by annotated mode, deletes the record when that list is empty, panics exactly for EXCLUSIVE and no mode; what it pushes |
| ControllerState.NodeInfo.SweepPodHere | internal/apps/fastpod-controller-manager/gpu_manager.go:410-484 | the sibling removal, with its guard and its unconditional push |
| ControllerState.Controller.RegisterHost | internal/apps/fastpod-controller-manager/node_init.go:107-125 | a new host gets an empty node; a known one keeps its records and ports |
| ControllerState.Controller.ScheduleRequest | internal/apps/fastpod-controller-manager/scheduler.go:92-143 | refines the check on the whole ledger; no other node or record changes |
| ControllerState.Controller.RequestGPUAndUpdateConfig | internal/apps/fastpod-controller-manager/gpu_manager.go:139-281 | refines the commit on the whole ledger, push included; no other node or record changes |
| ControllerState.Controller.RemovePodFromList | internal/apps/fastpod-controller-manager/gpu_manager.go:284-384 | refines one removal on the whole ledger, and panics exactly when the nil list is dereferenced |
| ControllerState.Controller.RemoveFaSTPodFromList | internal/apps/fastpod-controller-manager/gpu_manager.go:388-500 | the loop over all pods of a deleted FaSTPod is the fold of its iterations |
| ControllerState.Controller.ReconcileResourceConfig | internal/apps/fastpod-controller-manager/controller.go:666-701 | one pod of the re-configuration loop overwrites that pod's share and pushes; usage stays |
| Execution.ExecuteOne | internal/apps/fastpod-controller-manager/gpu_manager.go:139-500 | each event, carried out by its controller method, takes the controller from the ledger before the step to the ledger after it, and panics exactly when the step does |
| Execution.Execute | internal/apps/fastpod-controller-manager/gpu_manager.go:139-500 | a new controller that carries out any events holds the last ledger of a run over them, which is safe, until one panics or is out of turn |
| Execution.CheckOn | internal/apps/fastpod-controller-manager/scheduler.go:92-143 | a check that asks the node's configurator for the device is a step enabled by that configurator's own index invariant, so that all records stay keyed by their device's UUID |
| LedgerSafety.EraseFastKey | internal/apps/fastpod-controller-manager/gpu_manager.go:299-314 | erasing the first match erases the only entry with that key and keeps all others |
| LedgerSafety.CommitNodeSafe | internal/apps/fastpod-controller-manager/gpu_manager.go:139-281 | a commit with room keeps every record and port invariant, although it does not look at the mode again |
| LedgerSafety.ReleaseNodeSafe | internal/apps/fastpod-controller-manager/gpu_manager.go:293-378 | a removal keeps the invariants whatever its annotation says, and leaves astray exactly the slots of the FastPods it drops under the wrong annotation |
| LedgerRuns.EveryRunIsSafe | internal/apps/fastpod-controller-manager/gpu_manager.go:139-500 | in every state of every run all records and ports are safe and the pending request still has room |
| Outcomes.RecordLaw | internal/apps/fastpod-controller-manager/gpu_manager.go:58-76 | every record of every run is keyed by its UUID, holds one kind of occupant matching its mode, and has its pods' memory in use, within the device's |
| Records.LimitsAreTheDevices | internal/apps/fastpod-controller-manager/scheduler.go:117-131 | in every run, for as long as a record lives, its UUID, memory, SM count and SM percentage are those of the device reported to the check that added it |
| Records.RemovalExactly | internal/apps/fastpod-controller-manager/gpu_manager.go:293-378 | on a safe node a removal keeps the record if and only if another pod is in the list its annotation names; it is then the same without that pod, and no other record changes |
| Records.FreedGpu | internal/apps/fastpod-controller-manager/gpu_manager.go:340-376 | in every run a removal annotated FASTPOD or MPS leaves a record with such pods or none; without one, the next check of any mode looks at the device alone |
| Records.ReconfigureExactly | internal/apps/fastpod-controller-manager/controller.go:666-701 | re-configuration goes through exactly for a valid pod that its record lists; it writes request, limit and partition of that entry and nothing else of the ledger, and a push that gets through lists exactly that |
| Reservations.RemovalLeaksExactly | internal/apps/fastpod-controller-manager/gpu_manager.go:293-378 | in any safe state a removal leaves further slots astray if and only if it is annotated MPS or EXCLUSIVE and its record holds FastPods |
| Reservations.PortsInRun | internal/apps/fastpod-controller-manager/gpu_manager.go:241-259 | in every state of every run the taken slots are exactly the ports of the FastPods and, apart from these, the leaked ones; ports are in [56001, 57025) and pairwise different |
| Reservations.LeakFreeExactly | internal/apps/fastpod-controller-manager/gpu_manager.go:439-484 | a node has leaked no slot if and only if no removal on it annotated MPS or EXCLUSIVE has named a record that held FastPods |
| Outcomes.ExhaustedExactly | internal/apps/fastpod-controller-manager/gpu_manager.go:241-247 | in every run the allocator is exhausted exactly when each of the 1024 ports is reserved by some FastPod or has leaked |
| Witnesses.MisannotatedRemovalLeaks | internal/apps/fastpod-controller-manager/gpu_manager.go:439-484 | a concrete run in which a granted MPS pod is removed twice, with a FastPod on its GPU the second time: a port bit stays set, no record is left, and the node still lists the FastPod |
| History.RemovalReleasesExactly | internal/apps/fastpod-controller-manager/gpu_manager.go:284-384 | a removal takes away exactly the reservation it names if and only if it is faithful to the record's occupants |
| History.CommitReserves | internal/apps/fastpod-controller-manager/gpu_manager.go:139-281 | a commit adds exactly the pod it grants, under the annotations that pod will carry, or nothing |
| History.ReservedIsFaithful | internal/apps/fastpod-controller-manager/gpu_manager.go:284-300 | removing a pod that holds a reservation is always faithful and leaks nothing |
| History.LedgerIsHistory | internal/apps/fastpod-controller-manager/controller.go:501-576 | over runs of faithful removals the reservations are exactly the pods granted and not removed since |
| History.LivePodsAreAddressable | internal/apps/fastpod-controller-manager/controller.go:569-576 | if only live pods are removed, each live pod's node and vGPU annotations find the record that holds it |
| History.LivePodsLeakNothing | internal/apps/fastpod-controller-manager/gpu_manager.go:294-314 | if only live pods are removed, no node ever leaks a port |
| History.GrantStays | internal/apps/fastpod-controller-manager/gpu_manager.go:126-137 | if only live pods are removed, a granted pod that no removal names keeps its reservation in every later state |
| Budget.StepGap | internal/apps/fastpod-controller-manager/controller.go:696-698 | one event moves `Usage` minus the shares by old minus new share of a re-configuration, and by nothing otherwise |
| Budget.UsageDriftsExactly | internal/apps/fastpod-controller-manager/controller.go:686-700 | in every run `Usage` minus the sum of shares is the sum of old minus new over the re-configurations since the record was made |
| Budget.UsageIsTheSharesInUse | internal/apps/fastpod-controller-manager/gpu_manager.go:220-259 | without re-configurations `Usage` is the sum of the shares and lies in [0, 1], for real-valued quotas |
| Budget.OversoldExactly | internal/apps/fastpod-controller-manager/controller.go:696-698 | in every run the shares of a GPU exceed 1 exactly when `Usage` less the drift does; without negative shares only if re-configurations raised them |
| FloatShares.AskIsCheckAndCommit | internal/apps/fastpod-controller-manager/gpu_manager.go:217-263 | with real quotas a request to the floating-point record is the ledger's check followed by its commit, on list, usage, memory and ports |
| FloatShares.DropIsErase | internal/apps/fastpod-controller-manager/gpu_manager.go:298-376 | with real quotas a removal is the ledger's removal, and a record without FastPods starts afresh |
| FloatShares.ReconfigureIsReshare | internal/apps/fastpod-controller-manager/controller.go:696-698 | with real quotas a re-configuration writes what the ledger's writes |
| FloatShares.UsageExactly | internal/apps/fastpod-controller-manager/gpu_manager.go:220-314 | over any requests, removals and re-configurations to any value: with the shares added and subtracted since the record was made, `Usage` is finite, and their sum, exactly if all are finite; it is NaN exactly if one is NaN or both infinities occur; the compute test is off exactly if one of them is NaN or minus infinity |
| FloatShares.EverythingFits | internal/apps/fastpod-controller-manager/scheduler.go:391-397 | every valid request passes the compute test exactly if `Usage` is NaN, minus infinity or not positive |
| FloatShares.UncheckedQuotaSwitchesOff | internal/apps/fastpod-controller-manager/controller.go:696-698 | on any record with another FastPod, re-configuring a pod to an infinite or NaN quota on any partition and removing it makes `Usage` NaN or infinite, and which |
| FloatShares.BudgetExactly | internal/apps/fastpod-controller-manager/gpu_manager.go:220-259 | without re-configurations `Usage` is NaN exactly if a NaN quota was admitted since the record was made, and otherwise is the sum of the shares, in [0, 1] |
| FloatShares.OffStays | internal/apps/fastpod-controller-manager/gpu_manager.go:225-228 | once off, the compute test stays off under any requests, removals and re-configurations for as long as the record lives |
| FloatShares.OversellsExactly | internal/apps/fastpod-controller-manager/gpu_manager.go:217-263 | with the test off, any number of pods that each want the whole GPU are all admitted if and only if there is a free port for each and memory for all |
| Admission.CommitExactly | internal/apps/fastpod-controller-manager/gpu_manager.go:139-281 | in every run, after a passed check: code 3 exactly if the record is gone or a new FastPod's share no longer fits, code 5 exactly if it fits and all ports are taken, no other code; a panic exactly on the MPS lookup as written; memory always fits without overflow |
| Admission.UsageSinceCheck | internal/apps/fastpod-controller-manager/gpu_manager.go:306-308 | while a request is pending, `Usage` falls by exactly the shares of the pods removed |
| Admission.RefusedExactly | internal/apps/fastpod-controller-manager/gpu_manager.go:220-235 | a checked request whose record is there is refused for lack of compute exactly if `Usage` at its check less the shares removed since leaves it no room; so only if those are negative in sum |
| Admission.CheckToCommit | internal/apps/fastpod-controller-manager/gpu_manager.go:139-281 | in runs without negative re-configured shares, a commit on a present record fails exactly if it needs a port and none is left |
| Witnesses.ReconfigurationOversells | internal/apps/fastpod-controller-manager/controller.go:696-698 | a concrete run that admits one and a half GPUs' worth of shares to one GPU |
| Witnesses.NegativeShareBreaksAdmission | internal/apps/fastpod-controller-manager/controller.go:691-698 | a concrete run in which a checked request is refused with code 3 although its record is there |
| Mirror.StepMoves | internal/apps/fastpod-controller-manager/config_manager.go:155-215 | one event, seen from one GPU: a push that gets through brings the node in step, a failed one or none leaves its configuration, and only an unpushed drop changes the list without a push |
| Mirror.MirrorAgreement | internal/apps/fastpod-controller-manager/config_manager.go:172-206 | in every run, with any failed pushes and any removals, a node's configuration lists the FastPods as of the last push that got through, field by field, ports undamaged; the present ones exactly if they are the same, which holds unless the last push failed or FastPods were dropped unpushed since |
| Mirror.MirrorExactly | internal/apps/fastpod-controller-manager/gpu_manager.go:439-484 | in runs whose pushes for a GPU all get through, the configuration is wrong exactly if the last event to touch it was a removal annotated MPS or EXCLUSIVE on a record that held FastPods |
| Mirror.DropBreaksMirrorExactly | internal/apps/fastpod-controller-manager/gpu_manager.go:439-484 | from agreement, a step whose push gets through loses it exactly if it is such a removal |
| Outcomes.CommitTwice | internal/apps/fastpod-controller-manager/gpu_manager.go:185-263 | committing the same pod again gives the same answer and takes nothing more |
| Outcomes.GrantAnswers | internal/apps/fastpod-controller-manager/gpu_manager.go:183-281 | a grant answers with the record's UUID and, for FASTPOD, with the port the record now lists for that key |
| Outcomes.CodesInOrder | internal/apps/fastpod-controller-manager/gpu_manager.go:183-247 | on any record a new pod fails with 3 for compute, else 4 for memory, else 5 for ports, and is granted otherwise |
| Outcomes.CodesWithoutRecord | internal/apps/fastpod-controller-manager/gpu_manager.go:139-160 | a commit answers 2 exactly for an unknown node and 3 for an unknown GPU of a known one, and then changes nothing |
| Records.GrantWrites | internal/apps/fastpod-controller-manager/gpu_manager.go:160-281 | the whole record after a grant, field by field: mode pinned if it was not, a new pod at the end of its list as it was requested, share and memory added, nothing for a pod that is there already |
| Outcomes.FailedCommitIsPure | internal/apps/fastpod-controller-manager/gpu_manager.go:143-247 | for every error code only the selected record's mode may change, from NONE to the requested one |
| Outcomes.PanicsExactly | internal/apps/fastpod-controller-manager/gpu_manager.go:338-340 | which events panic in a safe state, and that no other does |
| Outcomes.MpsNeverShares | internal/apps/fastpod-controller-manager/controller_util.go:346-353 | with the lookup as written, no record of any run holds two MPS pods |
| Outcomes.RepeatedRemovalIsHarmless | internal/apps/fastpod-controller-manager/gpu_manager.go:299-378 | repeating a removal on a record still in that shared mode changes nothing but may delete a record nobody holds |
| VictimOrder.LinearOrder | internal/apps/fastpod-controller-manager/controller_util.go:106-187 | with the logarithmic scale off, `Less` is the lexicographic order of an eight-part key, which does not use the phase ordinals |
| VictimOrder.LinearIsStrictWeak | internal/apps/fastpod-controller-manager/controller_util.go:104-180 | hence a strict weak order on every list |
| VictimOrder.LessIsAsymmetric | internal/apps/fastpod-controller-manager/controller_util.go:106-212 | on either scale no pod precedes itself and no two precede each other |
| VictimOrder.FirstRules | internal/apps/fastpod-controller-manager/controller_util.go:106-122 | whatever the gates, times and ranks: unassigned before assigned, then pending or finished before unknown before running, then not ready before ready |
| VictimOrder.BucketExactly | internal/apps/fastpod-controller-manager/controller_util.go:200-212 | an age bucket holds the ages from one power of two to the next, the longest duration capped; times not past come first |
| VictimOrder.LogOrder | internal/apps/fastpod-controller-manager/controller_util.go:140-212 | on the logarithmic scale `Less` is lexicographic with age buckets and UIDs, between pods with different times |
| VictimOrder.SeparatedIsStrictWeak | internal/apps/fastpod-controller-manager/controller_util.go:104-212 | lists of pods with pairwise different times are strictly weakly ordered on either scale |
| VictimCycles.InLevels | internal/apps/fastpod-controller-manager/controller_util.go:106-212 | on the logarithmic scale `Less` is rules 1 to 5, then ready time by tier and UID, then restarts, then creation time by tier and UID |
| VictimCycles.StrictWeakExactly | internal/apps/fastpod-controller-manager/controller_util.go:104-212 | on the logarithmic scale a list is strictly weakly ordered if and only if no three pods form a wedge: a UID between those of two pods with one time, in the same age bucket |
| VictimOrder.LogScaleCanCycle | internal/apps/fastpod-controller-manager/controller_util.go:145-163 | three pods that precede each other in a circle |
| VictimSelection.RankByNode | internal/apps/fastpod-controller-manager/controller_util.go:376-390 | the two loops give each pod the number of pods on its node that are neither finished nor being deleted |
| VictimSelection.SwapRanked | internal/apps/fastpod-controller-manager/controller_util.go:99-102 | a swap keeps each rank attached to its pod and permutes the list |
| VictimSelection.SortPods | internal/apps/fastpod-controller-manager/controller_util.go:395-396 | sorting in place permutes the pods, keeps ranks attached and leaves no pod less than its left neighbour |
| VictimSelection.GetPodsToDelete | internal/apps/fastpod-controller-manager/controller_util.go:393-401 | nil exactly if diff is not below the count; else the first diff pods of a permutation, none unchosen less than a chosen one, and none that the first three rules put before a chosen one |
| VictimSelection.ScaleDown | internal/apps/fastpod-controller-manager/controller.go:613-648 | deletes exactly the surplus, and every awaited completion comes, if and only if at least one replica is wanted |
| SlowStart.SlowStartBatch | internal/apps/fastpod-controller-manager/controller.go:729-765 | the two loops compute the reported count over the batch plan, and which error comes back |
| SlowStart.CallsOfSlowStart | internal/apps/fastpod-controller-manager/controller.go:729-760 | at most count calls, exactly count if none errs, errors in the last batch only, which is at most the earlier calls plus the initial size |
| SlowStart.BatchesDouble | internal/apps/fastpod-controller-manager/controller.go:733-733 | every batch but the last is the initial size doubled once per earlier batch, and the last is no larger than that |
| SlowStart.ReportNeverExceedsSuccesses | internal/apps/fastpod-controller-manager/controller.go:732-764 | the count is calls less errors less cumulative waits, never above the successes, and equal to them exactly if no earlier batch waited |
| SlowStart.ReportCanBeNegative | internal/apps/fastpod-controller-manager/controller.go:753-755 | of the loop alone: three waiting calls are reported as -1 |
| SlowStart.CreateMissing | internal/apps/fastpod-controller-manager/controller.go:473-611 | the creations still expected afterwards are exactly the reported count, at most the number asked for |
| Creation.CreatedExactly | internal/apps/fastpod-controller-manager/controller.go:479-601 | in every run a creation call never waits, and makes a pod exactly if its request is valid, its check selects a GPU, nothing refuses its commit and the API server creates the pod |
| Creation.OrphanStays | internal/apps/fastpod-controller-manager/controller.go:580-591 | a granted call whose pod the API server does not create makes no pod and keeps its reservation in every later state, until a removal names that pod |
| Creation.SlowStartCountsCreations | internal/apps/fastpod-controller-manager/controller.go:478-611 | with that callback slow start reports exactly the calls without an error: the pods created and the calls that returned neither pod nor error |
| Creation.InvalidCountsAsCreated | internal/apps/fastpod-controller-manager/controller.go:486-492 | for an invalid request all calls are made and reported, and no pod is created |
| NodeResources.AccessExactly | internal/apps/fast-configurator/virtual_resource.go:452-592 | on a free entry each end of provisioning leaves exactly the instances created by then, and a completed one is ready to be released |
| NodeResources.ProvisionedIsReleasable | internal/apps/fast-configurator/virtual_resource.go:452-640 | provisioning followed by any release attempts: compute instance first, each destroyed once at most and as soon as it can be, and then the entry is free |
| NodeResources.ReleaseIsResumable | internal/apps/fast-configurator/virtual_resource.go:595-640 | on one object, over any attempts with any failures: compute instance first, each destroyed once at most and as soon as it can be, index entry gone exactly when both are |
| NodeResources.ReleaseLogsFailures | internal/apps/fast-configurator/virtual_resource.go:595-640 | every attempt calls for the compute instance until that goes, and every attempt from then on for the GPU instance until that goes: how often each call fails |
| NodeResources.ResourceManager.ServeReleases | internal/apps/fast-configurator/server_methods.go:62-187 | the same over any server calls, refreshes, provisionings and releases of other devices in between, as long as refreshes report the device only while its compute instance exists |
| NodeResources.PhysicalIsUntouched | internal/apps/fast-configurator/virtual_resource.go:599-601 | no attempt touches a physical device |
| NodeResources.StrandedExactly | internal/apps/fast-configurator/virtual_resource.go:502-574 | on a device not yet provisioned, Access leaves an object marked provisioned with no device exactly if it fails after the mark; no direct Access or Release changes that object again |
| NodeResources.ResourceManager.Refresh | internal/apps/fast-configurator/virtual_resource.go:144-406 | the list is replaced by new objects that have all the data of the reports; every index entry stays keyed by its device's UUID, and exactly the reported devices are added |
| NodeResources.ResourceManager.RefreshedAnswers | internal/apps/fast-configurator/virtual_resource.go:155-436 | after a refresh a profile can be requested exactly if a free one was reported, and the index answers with the memory and SMs reported |
| NodeResources.ResourceManager.FindVirtualGPU | internal/apps/fast-configurator/virtual_resource.go:420-436 | the first entry of the list that is free and has the profile, if any |
| NodeResources.ResourceManager.GetVirtualGPU | internal/apps/fast-configurator/virtual_resource.go:408-418 | answers from an index keyed by UUID, which is what the scheduler's records rely on |
| NodeResources.ResourceManager.Access | internal/apps/fast-configurator/virtual_resource.go:452-592 | provisioning keeps the index keyed, adds an entry exactly when it completes, and then has both instances and the UUID |
| NodeResources.ResourceManager.Release | internal/apps/fast-configurator/virtual_resource.go:595-640 | release keeps the index keyed, and drops the entry exactly when both instances are gone |
| NodeResources.ResourceManager.RequestVirtualGPU | internal/apps/fast-configurator/server_methods.go:85-151 | by profile provisions a free entry, with both instances on success, and touches no other object; by UUID answers from the index; refreshes the list exactly on success |
| NodeResources.ResourceManager.ReleaseVirtualGPU | internal/apps/fast-configurator/server_methods.go:154-187 | releases the device the index has under the UUID and no other; refreshes the list exactly on success |
| NodeResources.ResourceManager.ServeCall | internal/apps/fast-configurator/server_methods.go:62-187 | one call, seen from one UUID that it does not provision: a release acts on the indexed object, and a refresh puts at most a new object of a reported device in its place |
| NodeResources.ResourceManager.Serve | internal/apps/fast-configurator/server_methods.go:62-187 | over any server calls a half-provisioned object never changes, is never in the index, and is out of the list once a call has refreshed it |

## Left out

- Requests.AdmissibleExactly: numbers are parsed outside the model, and quotas are reals; what validation does with NaN and infinite quotas is in `FloatShares.ValidatesExactly`.
- Requests.AdmissibleShape: quotas are reals; a NaN quota passes the code's validation, see `FloatShares.ValidatesExactly`.
- Budget.UsageIsTheSharesInUse: runs of the whole ledger have real quotas; NaN and infinite ones are followed over a record and its node's ports in `FloatShares.UsageExactly`, and are outside the other theorems on shares.
- FloatShares.BudgetExactly: is the case without re-configurations; `FloatShares.UsageExactly` has them all.
- NodeResources.ReleaseIsResumable: follows one object; `NodeResources.ResourceManager.ServeReleases` follows the index over the server's calls.
- Admission.CheckToCommit: asks that no re-configured share is negative; `Admission.CommitExactly` and `Admission.RefusedExactly` are the statements without it.
- VictimSelection.SortPods: is insertion sort, the routine of Go's sort.Sort for short slices; the other routines of that library are not modelled.
- Rounding of float64 shares and of math.Log2: shares are reals, or reals with NaN and infinities, logarithms integer floors; over floating point the two admission tests may differ in the last bit.
- Locks: each critical section is one event; `reconcileResourceConfig` takes no lock in the code and is one event per pod here.
- gRPC, MPS daemons, NVML and heartbeats: success flags and outcomes are inputs; responses are taken to be non-nil, as the code dereferences them.
- Kubernetes clients, informers, queues and events: only pod lists and the outcomes of creations and deletions appear. The history theorems count grants, not running pods.
- Pod specifications built by `newPod`, apart from the node, vGPU and mode annotations: record copying.
- Fields of records that no check reads (GPU type, name, parent, `virtual`), and the order of pods on the wire beyond the list.
- The MPS flag of the node's devices and `CleanUp`: they start and stop MPS daemons, which are outside the model, and decide no allocation.
- How ready time and restart count are read off a pod's conditions and containers: they are fields here.
- The in-place update of a FastPod entry through its pointer: lists are sequences of values, and the entry is replaced.
- The database, HTTP gateway and configuration packages: not used by the allocator.
