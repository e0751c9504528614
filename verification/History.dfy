/** The ledger against the history of a run: which pods hold a reservation, which removals release
    exactly the pod they name, and how a new pod's annotations lead back to its reservation. */
module History {
  import opened Requests
  import opened PortBitmap
  import opened Ledger
  import opened LedgerSafety
  import opened LedgerRuns
  import opened Reservations

  predicate HeldIn(g: Gpu, mode: Mode, key: string) {
    match mode
    case FastPod => InFast(g.fastPods, key)
    case Mps => InMps(g.mpsPods, key)
    case Exclusive => g.exclusive == Some(key)
    case NoMode => false
  }

  predicate HeldOn(n: Node, gpu: string, mode: Mode, key: string) {
    gpu in n.gpus && HeldIn(n.gpus[gpu], mode, key)
  }

  /** The record that the pod's annotations name holds the pod's reservation. */
  predicate Reserved(l: Ledger, pod: Pod) {
    pod.node in l.nodes && HeldOn(l.nodes[pod.node], pod.gpu, pod.mode, pod.key)
  }

  /** A removal is faithful when the record it names is absent, is vacant, is shared in the
      removal's own mode, or is held exclusively by this very pod. */
  predicate FaithfulTo(g: Gpu, mode: Mode, key: string) {
    || mode == NoMode
    || Vacant(g)
    || ((mode == FastPod || mode == Mps) && g.mode == mode)
    || (mode == Exclusive && g.exclusive == Some(key))
  }

  predicate Faithful(l: Ledger, pod: Pod) {
    HasRecord(l, pod) ==> FaithfulTo(RecordOf(l, pod), pod.mode, pod.key)
  }

  lemma ErasedFastKeys(l: seq<FastPodReq>, key: string, k: string)
    requires FastListOk(l)
    ensures InFast(RemoveAt(l, FindFast(l, key)), k) <==> InFast(l, k) && k != key
  {
    if InFast(l, key) {
      EraseFastKey(l, key);
      var r := RemoveAt(l, FindFast(l, key));
      hide RemoveAt;
      if InFast(r, k) {
        assert r[FindFast(r, k)] in l;
      }
      if InFast(l, k) && k != key {
        assert l[FindFast(l, k)] in r;
      }
    }
  }

  lemma ErasedMpsKeys(l: seq<MpsPodReq>, key: string, k: string)
    requires MpsListOk(l)
    ensures InMps(RemoveAt(l, FindMps(l, key)), k) <==> InMps(l, k) && k != key
  {
    if InMps(l, key) {
      EraseMpsKey(l, key);
      var r := RemoveAt(l, FindMps(l, key));
      hide RemoveAt;
      if InMps(r, k) {
        assert r[FindMps(r, k)] in l;
      }
      if InMps(l, k) && k != key {
        assert l[FindMps(l, k)] in r;
      }
    }
  }

  /** What is left of a record after its FastPod `key` is erased. */
  lemma ErasedFastHeld(gpu: string, n: Node, key: string, mode: Mode, k: string)
    requires gpu in n.gpus && GpuSafe(gpu, n.gpus[gpu])
    ensures var g := EraseFast(n, gpu, key).gpus[gpu];
            && (HeldIn(g, mode, k) <==> HeldIn(n.gpus[gpu], mode, k) && (mode, k) != (FastPod, key))
            && g.mpsPods == n.gpus[gpu].mpsPods && g.exclusive == n.gpus[gpu].exclusive
  {
    ErasedFastKeys(n.gpus[gpu].fastPods, key, k);
    hide RemoveAt, InMps;
  }

  lemma ErasedMpsHeld(gpu: string, n: Node, key: string, mode: Mode, k: string)
    requires gpu in n.gpus && GpuSafe(gpu, n.gpus[gpu])
    ensures var g := EraseMps(n, gpu, key).gpus[gpu];
            && (HeldIn(g, mode, k) <==> HeldIn(n.gpus[gpu], mode, k) && (mode, k) != (Mps, key))
            && g.fastPods == n.gpus[gpu].fastPods && g.exclusive == n.gpus[gpu].exclusive
  {
    ErasedMpsKeys(n.gpus[gpu].mpsPods, key, k);
    hide RemoveAt, InFast;
  }

  lemma ReleaseFastHeld(n: Node, pod: Pod, mode: Mode, key: string)
    requires pod.gpu in n.gpus && GpuSafe(pod.gpu, n.gpus[pod.gpu]) && pod.mode == FastPod
    requires FaithfulTo(n.gpus[pod.gpu], FastPod, pod.key)
    ensures HeldOn(ReleaseOnNode(n, pod), pod.gpu, mode, key)
            <==> HeldIn(n.gpus[pod.gpu], mode, key) && (mode, key) != (FastPod, pod.key)
  {
    ErasedFastHeld(pod.gpu, n, pod.key, mode, key);
    NothingInEmpty(key);
    EraseKeepsOthers(n, pod.gpu, pod.key);
    hide EraseFast, InFast, InMps, FastListOk, MpsListOk, MemSafe;
    var g := EraseFast(n, pod.gpu, pod.key).gpus[pod.gpu];
    if g.fastPods == [] {
      assert !HeldIn(g, mode, key);
    }
  }

  lemma ReleaseMpsHeld(n: Node, pod: Pod, mode: Mode, key: string)
    requires pod.gpu in n.gpus && GpuSafe(pod.gpu, n.gpus[pod.gpu]) && pod.mode == Mps
    requires FaithfulTo(n.gpus[pod.gpu], Mps, pod.key)
    ensures HeldOn(ReleaseOnNode(n, pod), pod.gpu, mode, key)
            <==> HeldIn(n.gpus[pod.gpu], mode, key) && (mode, key) != (Mps, pod.key)
  {
    ErasedMpsHeld(pod.gpu, n, pod.key, mode, key);
    NothingInEmpty(key);
    EraseKeepsOthers(n, pod.gpu, pod.key);
    hide EraseMps, InFast, InMps, FastListOk, MpsListOk, MemSafe;
    var g := EraseMps(n, pod.gpu, pod.key).gpus[pod.gpu];
    if g.mpsPods == [] {
      assert !HeldIn(g, mode, key);
    }
  }

  lemma ReleaseElsewhere(n: Node, pod: Pod, gpu: string, mode: Mode, key: string)
    requires pod.gpu in n.gpus && gpu != pod.gpu
    ensures HeldOn(ReleaseOnNode(n, pod), gpu, mode, key) <==> HeldOn(n, gpu, mode, key)
  {
    EraseKeepsOthers(n, pod.gpu, pod.key);
    hide EraseFast, EraseMps, HeldIn;
  }

  /** A faithful removal takes away the named pod's reservation and no other. */
  lemma FaithfulRelease(name: string, n: Node, pod: Pod, gpu: string, mode: Mode, key: string)
    requires NodeSafe(name, n) && pod.gpu in n.gpus && FaithfulTo(n.gpus[pod.gpu], pod.mode, pod.key)
    ensures HeldOn(ReleaseOnNode(n, pod), gpu, mode, key)
            <==> HeldOn(n, gpu, mode, key) && (gpu, mode, key) != (pod.gpu, pod.mode, pod.key)
  {
    RecordFacts(name, n, pod.gpu);
    NothingInEmpty(key);
    hide NodeSafe, EraseFast, EraseMps, FastListOk, MpsListOk, MemSafe, InFast, InMps;
    if gpu != pod.gpu {
      ReleaseElsewhere(n, pod, gpu, mode, key);
    } else if pod.mode == FastPod {
      ReleaseFastHeld(n, pod, mode, key);
    } else if pod.mode == Mps {
      ReleaseMpsHeld(n, pod, mode, key);
    }
  }

  lemma NothingInEmpty(key: string)
    ensures !InFast([], key) && !InMps([], key)
  {}

  /** Some pod that a record holds. */
  lemma SomeOccupant(g: Gpu) returns (mode: Mode, key: string)
    requires !Vacant(g) && ModeSafe(g)
    ensures HeldIn(g, mode, key) && mode == g.mode && mode != NoMode
  {
    if g.fastPods != [] {
      mode, key := FastPod, g.fastPods[0].key;
    } else if g.mpsPods != [] {
      mode, key := Mps, g.mpsPods[0].key;
    } else {
      mode, key := Exclusive, g.exclusive.value;
    }
  }

  /** An unfaithful removal deletes a record that another pod still holds. */
  lemma UnfaithfulRelease(name: string, n: Node, pod: Pod) returns (mode: Mode, key: string)
    requires NodeSafe(name, n) && pod.gpu in n.gpus && !FaithfulTo(n.gpus[pod.gpu], pod.mode, pod.key)
    ensures HeldOn(n, pod.gpu, mode, key) && (mode, key) != (pod.mode, pod.key)
    ensures pod.gpu !in ReleaseOnNode(n, pod).gpus
  {
    RecordFacts(name, n, pod.gpu);
    hide NodeSafe, PortsSafe;
    mode, key := SomeOccupant(n.gpus[pod.gpu]);
  }

  /** A removal gives back exactly the reservation it names, if and only if it is faithful. */
  lemma RemovalReleasesExactly(l: Ledger, pod: Pod, pushes: bool, pushOk: bool)
    requires LedgerSafe(l)
    ensures (forall q :: Reserved(Release(l, pod, pushes, pushOk), q) <==> Reserved(l, q) && q != pod)
            <==> Faithful(l, pod)
  {
    hide NodeSafe, ReleaseOnNode, HeldOn, EraseFast, Projection, FaithfulTo;
    var l' := Release(l, pod, pushes, pushOk);
    if !HasRecord(l, pod) {
      assert !Reserved(l, pod) by { NoRecordNotHeld(l, pod); }
    } else {
      var n := l.nodes[pod.node];
      ReleaseNodes(l, pod, pushes, pushOk);
      hide Release;
      if Faithful(l, pod) {
        forall q: Pod
          ensures Reserved(l', q) <==> Reserved(l, q) && q != pod
        {
          if q.node == pod.node {
            FaithfulRelease(pod.node, n, pod, q.gpu, q.mode, q.key);
          }
        }
      } else {
        var mode, key := UnfaithfulRelease(pod.node, n, pod);
        var q := Pod(pod.node, pod.gpu, key, mode);
        assert Reserved(l, q) && q != pod;
        assert !Reserved(l', q) by { NoRecordNotHeld(l', q); }
      }
    }
  }

  lemma NoRecordNotHeld(l: Ledger, q: Pod)
    requires !HasRecord(l, q)
    ensures !Reserved(l, q)
  {}

  /** A faithful removal leaks no port. */
  lemma FaithfulKeepsPorts(l: Ledger, pod: Pod)
    requires LedgerSafe(l) && Faithful(l, pod)
    ensures KeepsPortsIn(l, pod)
  {
    if HasRecord(l, pod) {
      RecordFacts(pod.node, l.nodes[pod.node], pod.gpu);
      hide NodeSafe, LedgerSafe;
    }
  }

  /** A pod that holds a reservation can always be removed faithfully, and so leaks no port. */
  lemma ReservedIsFaithful(l: Ledger, pod: Pod)
    requires LedgerSafe(l) && Reserved(l, pod)
    ensures Faithful(l, pod) && KeepsPortsIn(l, pod)
  {
    RecordFacts(pod.node, l.nodes[pod.node], pod.gpu);
    hide NodeSafe;
    FaithfulKeepsPorts(l, pod);
  }

  // ---------------------------------------------------------------- grants

  lemma {:induction false} AppendedFastKeys(l: seq<FastPodReq>, e: FastPodReq, k: string)
    ensures InFast(l + [e], k) <==> InFast(l, k) || k == e.key
  {
    var l' := l + [e];
    if InFast(l, k) {
      assert l'[FindFast(l, k)].key == k;
    } else if k == e.key {
      assert l'[|l|].key == k;
    }
  }

  lemma {:induction false} AppendedMpsKeys(l: seq<MpsPodReq>, e: MpsPodReq, k: string)
    ensures InMps(l + [e], k) <==> InMps(l, k) || k == e.key
  {
    var l' := l + [e];
    if InMps(l, k) {
      assert l'[FindMps(l, k)].key == k;
    } else if k == e.key {
      assert l'[|l|].key == k;
    }
  }

  lemma CommitMpsHeld(g: Gpu, req: Request, key: string, lookup: MpsLookup, mode: Mode, k: string)
    ensures var (g', r) := CommitMps(g, req, key, lookup);
            && (r.Granted? ==> (HeldIn(g', mode, k) <==> HeldIn(g, mode, k) || (mode, k) == (Mps, key)))
            && (r.Failed? ==> g' == g)
  {
    AppendedMpsKeys(g.mpsPods, MpsPodReq(key, req.memory), k);
    hide InFast;
  }

  lemma CommitFastHeld(g: Gpu, ports: Ports, req: Request, key: string, mode: Mode, k: string)
    ensures var (g', ports', r) := CommitFastPod(g, ports, req, key);
            && (r.Granted? ==> (HeldIn(g', mode, k) <==> HeldIn(g, mode, k) || (mode, k) == (FastPod, key)))
            && (r.Failed? ==> g' == g && ports' == ports)
  {
    var (g', ports', r) := CommitFastPod(g, ports, req, key);
    if |g'.fastPods| > |g.fastPods| {
      AppendedFastKeys(g.fastPods, g'.fastPods[|g.fastPods|], k);
    }
    hide InMps;
  }

  /** A commit that has room grants exactly the pod it names, or nothing. */
  lemma CommitHeld(
    n: Node, gpu: string, req: Request, key: string, lookup: MpsLookup, gpu': string, mode: Mode, k: string)
    requires gpu in n.gpus && GpuSafe(gpu, n.gpus[gpu]) && Admissible(req) && RoomFor(req, n.gpus[gpu])
    ensures var (n', r) := CommitOnNode(n, gpu, req, key, lookup);
            && (r.Granted? ==>
                  && r.uuid == gpu
                  && (HeldOn(n', gpu', mode, k) <==>
                        HeldOn(n, gpu', mode, k) || (gpu', mode, k) == (gpu, req.mode, key)))
            && (r.Failed? ==> (HeldOn(n', gpu', mode, k) <==> HeldOn(n, gpu', mode, k)))
  {
    hide CommitMps, CommitFastPod, InFast, InMps, FastListOk, MpsListOk, FastMem, MpsMem, Admissible;
    var g := Pinned(n.gpus[gpu], req.mode);
    AdmissibleShape(req);
    assert GpuSafe(gpu, g) && RoomFor(req, g.(mode := n.gpus[gpu].mode));
    match req.mode {
      case Mps =>
        CommitMpsSafe(g, req, key, lookup);
        CommitMpsHeld(g, req, key, lookup, mode, k);
      case FastPod =>
        CommitFastSafe(g, n.ports, req, key);
        CommitFastHeld(g, n.ports, req, key, mode, k);
      case Exclusive =>
    }
  }

  /** The pod that a granted commit goes on to create: its node and GPU annotations come from the
      selection and the allocation, its mode from the request. */
  function PodFor(p: Pending, r: CommitResult, key: string): Pod
    requires r.Granted?
  {
    Pod(p.sel.node, r.uuid, key, p.req.mode)
  }

  lemma CommitReserves(lookup: MpsLookup, s: State, key: string, pushOk: bool, q: Pod)
    requires Safe(s) && s.pending.Some? && Step(lookup, s, CommitEvent(key, pushOk)).Some?
    ensures var r := CommitOutcome(lookup, s, key, pushOk);
            var l' := Step(lookup, s, CommitEvent(key, pushOk)).value.ledger;
            Reserved(l', q) <==> Reserved(s.ledger, q) || (r.Granted? && q == PodFor(s.pending.value, r, key))
  {
    hide NodeSafe, GpuSafe, RoomFor, CommitOnNode, HeldOn, Projection, Admissible;
    var p := s.pending.value;
    var n := s.ledger.nodes[p.sel.node];
    if p.sel.gpu in n.gpus {
      RecordFacts(p.sel.node, n, p.sel.gpu);
      CommitHeld(n, p.sel.gpu, p.req, key, lookup, q.gpu, q.mode, q.key);
    } else {
      CommitWithoutRecord(n, p.sel.gpu, p.req, key, lookup);
    }
  }

  // ---------------------------------------------------------------- the ledger is its history

  lemma ResharedKeys(l: seq<FastPodReq>, i: nat, e: FastPodReq, k: string)
    requires i < |l| && e.key == l[i].key
    ensures InFast(l[i := e], k) <==> InFast(l, k)
  {
    var l' := l[i := e];
    assert forall j :: 0 <= j < |l| ==> l'[j].key == l[j].key;
    if InFast(l, k) {
      assert l'[FindFast(l, k)].key == k;
    }
    if InFast(l', k) {
      assert l[FindFast(l', k)].key == k;
    }
  }

  lemma ReconfigureReserves(l: Ledger, pod: Pod, share: Share, valid: bool, pushOk: bool, q: Pod)
    ensures Reserved(ReconfigurePod(l, pod, share, valid, pushOk), q) <==> Reserved(l, q)
  {
    hide Projection, InMps;
    if CanReconfigure(l, pod, valid) {
      var g := RecordOf(l, pod);
      var i := FindFast(g.fastPods, pod.key);
      ResharedKeys(g.fastPods, i, Reshare(g.fastPods[i], share), q.key);
      hide FindFast, InFast;
    }
  }

  lemma ScheduleReserves(l: Ledger, req: Request, index: map<string, Device>, q: Pod)
    ensures Reserved(Schedule(l, req, index).0, q) <==> Reserved(l, q)
  {
    hide CanFit;
    NothingInEmpty(q.key);
    hide InFast, InMps;
  }

  /** The pods granted so far and not removed since. */
  ghost predicate Live(lookup: MpsLookup, es: seq<Event>, ss: seq<State>, i: nat, q: Pod)
    requires IsRun(lookup, es, ss) && i <= |es|
    decreases i
  {
    if i == 0 then false
    else
      match es[i - 1]
      case CommitEvent(key, pushOk) =>
        var r := CommitOutcome(lookup, ss[i - 1], key, pushOk);
        (r.Granted? && q == PodFor(ss[i - 1].pending.value, r, key)) || Live(lookup, es, ss, i - 1, q)
      case RemoveEvent(pod, _) => Live(lookup, es, ss, i - 1, q) && q != pod
      case SweepEvent(pod, _) => Live(lookup, es, ss, i - 1, q) && q != pod
      case _ => Live(lookup, es, ss, i - 1, q)
  }

  ghost predicate FaithfulEvent(s: State, e: Event) {
    match e
    case RemoveEvent(pod, _) => Faithful(s.ledger, pod)
    case SweepEvent(pod, _) => Faithful(s.ledger, pod)
    case _ => true
  }

  /** The history-only form: a removal names a pod that was granted and not removed yet. */
  ghost predicate RemovesLivePod(lookup: MpsLookup, es: seq<Event>, ss: seq<State>, i: nat)
    requires IsRun(lookup, es, ss) && i < |es|
  {
    match es[i]
    case RemoveEvent(pod, _) => Live(lookup, es, ss, i, pod)
    case SweepEvent(pod, _) => Live(lookup, es, ss, i, pod)
    case _ => true
  }

  /** One step of the ledger against one step of its history. */
  lemma StepReserves(lookup: MpsLookup, s: State, e: Event, q: Pod)
    requires Safe(s) && Enabled(s, e) && FaithfulEvent(s, e) && Step(lookup, s, e).Some?
    ensures var before := Reserved(s.ledger, q);
            Reserved(Step(lookup, s, e).value.ledger, q) <==>
              match e
              case CommitEvent(key, pushOk) =>
                var r := CommitOutcome(lookup, s, key, pushOk);
                before || (r.Granted? && q == PodFor(s.pending.value, r, key))
              case RemoveEvent(pod, _) => before && q != pod
              case SweepEvent(pod, _) => before && q != pod
              case _ => before
  {
    hide LedgerSafe, Schedule, Commit, Release, ReconfigurePod, PendingSafe, HeldOn;
    match e {
      case RegisterEvent(name) => RegisterReserves(s.ledger, name, q);
      case ScheduleEvent(req, index) => ScheduleReserves(s.ledger, req, index, q);
      case CommitEvent(key, pushOk) => CommitReserves(lookup, s, key, pushOk, q);
      case RemoveEvent(pod, pushOk) =>
        RemovalReleasesExactly(s.ledger, pod, Found(s.ledger, pod), pushOk);
      case SweepEvent(pod, pushOk) => RemovalReleasesExactly(s.ledger, pod, true, pushOk);
      case ReconfigureEvent(pod, share, valid, pushOk) => ReconfigureReserves(s.ledger, pod, share, valid, pushOk, q);
    }
  }

  lemma RegisterReserves(l: Ledger, name: string, q: Pod)
    ensures Reserved(RegisterNode(l, name), q) <==> Reserved(l, q)
  {}

  /** In every run of faithful removals the ledger holds exactly the pods granted and not removed
      since, each in the record its own annotations name. */
  lemma {:induction false} LedgerIsHistory(lookup: MpsLookup, es: seq<Event>, ss: seq<State>, i: nat, q: Pod)
    requires IsRun(lookup, es, ss) && i <= |es|
    requires forall j :: 0 <= j < i ==> FaithfulEvent(ss[j], es[j])
    ensures Reserved(ss[i].ledger, q) <==> Live(lookup, es, ss, i, q)
    decreases i
  {
    hide Step, Safe, FaithfulEvent, Reserved, CommitOutcome;
    if i == 0 {
      assert !Reserved(INITIAL.ledger, q) by { NothingReservedInitially(q); }
    } else {
      LedgerIsHistory(lookup, es, ss, i - 1, q);
      EveryRunIsSafe(lookup, es, ss, i - 1);
      assert Step(lookup, ss[i - 1], es[i - 1]) == Some(ss[i]);
      StepReserves(lookup, ss[i - 1], es[i - 1], q);
    }
  }

  lemma NothingReservedInitially(q: Pod)
    ensures !Reserved(INITIAL.ledger, q)
  {}

  /** Removing only pods that are live is always faithful: the ledger then follows the history, and the
      pod's annotations find the record that holds its reservation. */
  lemma {:induction false} LivePodsAreAddressable(lookup: MpsLookup, es: seq<Event>, ss: seq<State>, i: nat)
    requires IsRun(lookup, es, ss) && i <= |es|
    requires forall j :: 0 <= j < i ==> RemovesLivePod(lookup, es, ss, j)
    ensures forall j :: 0 <= j < i ==> FaithfulEvent(ss[j], es[j])
    ensures forall q :: Reserved(ss[i].ledger, q) <==> Live(lookup, es, ss, i, q)
    decreases i
  {
    hide Step, Reserved, Faithful, Live;
    if i > 0 {
      LivePodsAreAddressable(lookup, es, ss, i - 1);
      EveryRunIsSafe(lookup, es, ss, i - 1);
      hide LedgerSafe, PendingSafe;
      assert RemovesLivePod(lookup, es, ss, i - 1);
      match es[i - 1] {
        case RemoveEvent(pod, _) => ReservedIsFaithful(ss[i - 1].ledger, pod);
        case SweepEvent(pod, _) => ReservedIsFaithful(ss[i - 1].ledger, pod);
        case _ =>
      }
    }
    forall q
      ensures Reserved(ss[i].ledger, q) <==> Live(lookup, es, ss, i, q)
    {
      LedgerIsHistory(lookup, es, ss, i, q);
    }
  }

  /** The event removes this pod. */
  predicate Removes(e: Event, q: Pod) {
    (e.RemoveEvent? || e.SweepEvent?) && e.pod == q
  }

  lemma {:induction false} LiveStays(lookup: MpsLookup, es: seq<Event>, ss: seq<State>, k: nat, i: nat, q: Pod)
    requires IsRun(lookup, es, ss) && k <= i <= |es| && Live(lookup, es, ss, k, q)
    requires forall j :: k <= j < i ==> !Removes(es[j], q)
    ensures Live(lookup, es, ss, i, q)
    decreases i
  {
    hide Step, Enabled, CommitOutcome;
    if k < i {
      LiveStays(lookup, es, ss, k, i - 1, q);
      assert !Removes(es[i - 1], q);
    }
  }

  /** In runs that remove only live pods, a granted pod that no removal names keeps its reservation. */
  lemma GrantStays(lookup: MpsLookup, es: seq<Event>, ss: seq<State>, k: nat, i: nat)
    requires IsRun(lookup, es, ss) && k < i <= |es| && es[k].CommitEvent? && ss[k].pending.Some?
    requires CommitOutcome(lookup, ss[k], es[k].key, es[k].pushOk).Granted?
    requires forall j :: 0 <= j < i ==> RemovesLivePod(lookup, es, ss, j)
    requires var q := PodFor(ss[k].pending.value, CommitOutcome(lookup, ss[k], es[k].key, es[k].pushOk), es[k].key);
             forall j :: k < j < i ==> !Removes(es[j], q)
    ensures var q := PodFor(ss[k].pending.value, CommitOutcome(lookup, ss[k], es[k].key, es[k].pushOk), es[k].key);
            Reserved(ss[i].ledger, q)
  {
    var q := PodFor(ss[k].pending.value, CommitOutcome(lookup, ss[k], es[k].key, es[k].pushOk), es[k].key);
    assert Live(lookup, es, ss, k + 1, q);
    LiveStays(lookup, es, ss, k + 1, i, q);
    LivePodsAreAddressable(lookup, es, ss, i);
    hide IsRun, Live, Reserved, RemovesLivePod, FaithfulEvent;
  }

  /** Removing only live pods leaks no port. */
  lemma LivePodsLeakNothing(lookup: MpsLookup, es: seq<Event>, ss: seq<State>, i: nat, name: string)
    requires IsRun(lookup, es, ss) && i <= |es|
    requires forall j :: 0 <= j < i ==> RemovesLivePod(lookup, es, ss, j)
    ensures Leaked(lookup, es, ss, i, name) == {}
  {
    LivePodsAreAddressable(lookup, es, ss, i);
    LeakFreeExactly(lookup, es, ss, i, name);
    hide Step, Leaked, Faithful, LedgerSafe, PendingSafe, RemovesLivePod;
    forall j | 0 <= j < i
      ensures KeepsPortsOf(ss[j], es[j], name)
    {
      EveryRunIsSafe(lookup, es, ss, j);
      assert FaithfulEvent(ss[j], es[j]);
      if es[j].RemoveEvent? || es[j].SweepEvent? { FaithfulKeepsPorts(ss[j].ledger, es[j].pod); }
    }
  }
}
