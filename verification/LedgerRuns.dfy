/** Whole runs of the ledger.  Admission is two critical sections, a check and a commit; admissions
    are serialised with each other, but removals, re-configurations and registrations may run
    between the two (controller.go:469-524, 613-648, 666-713, 785). */
module LedgerRuns {
  import opened Requests
  import opened Ledger
  import opened LedgerSafety

  /** The admission that has passed its check and not yet committed. */
  datatype Pending = Pending(req: Request, sel: Selection)

  datatype State = State(ledger: Ledger, pending: Option<Pending>)

  datatype Event =
    | RegisterEvent(name: string)
    | ScheduleEvent(req: Request, index: map<string, Device>)
    | CommitEvent(key: string, pushOk: bool)
    | RemoveEvent(pod: Pod, pushOk: bool)
    | SweepEvent(pod: Pod, pushOk: bool)
    | ReconfigureEvent(pod: Pod, share: Share, valid: bool, pushOk: bool)

  const INITIAL := State(Ledger(map[], map[]), None)

  /** What the callers guarantee: requests are validated, and one admission runs at a time. */
  ghost predicate Enabled(s: State, e: Event) {
    match e
    case ScheduleEvent(req, index) => s.pending.None? && Admissible(req) && Keyed(index)
    case CommitEvent(_, _) => s.pending.Some?
    case _ => true
  }

  /** The next state, or None when the code panics. */
  function Step(lookup: MpsLookup, s: State, e: Event): Option<State> {
    match e
    case RegisterEvent(name) => Some(s.(ledger := RegisterNode(s.ledger, name)))
    case ScheduleEvent(req, index) =>
      var (l, r) := Schedule(s.ledger, req, index);
      (match r
       case CheckPanics => None
       case Refused => Some(State(l, None))
       case Selected(sel) => Some(State(l, Some(Pending(req, sel)))))
    case CommitEvent(key, pushOk) =>
      if s.pending.None? then None
      else
        var (l, r) := Commit(s.ledger, s.pending.value.sel, s.pending.value.req, key, pushOk, lookup);
        if r.CommitPanics? then None else Some(State(l, None))
    case RemoveEvent(pod, pushOk) =>
      if RemovePanics(s.ledger, pod) then None else Some(s.(ledger := RemovePod(s.ledger, pod, pushOk)))
    case SweepEvent(pod, pushOk) => Some(s.(ledger := SweepPod(s.ledger, pod, pushOk)))
    case ReconfigureEvent(pod, share, valid, pushOk) =>
      Some(s.(ledger := ReconfigurePod(s.ledger, pod, share, valid, pushOk)))
  }

  /** What committing the pending request answers. */
  function CommitOutcome(lookup: MpsLookup, s: State, key: string, pushOk: bool): CommitResult
    requires s.pending.Some?
  {
    Commit(s.ledger, s.pending.value.sel, s.pending.value.req, key, pushOk, lookup).1
  }

  /** A run that has not panicked: `ss[i]` is the state before event `i`. */
  ghost predicate IsRun(lookup: MpsLookup, es: seq<Event>, ss: seq<State>) {
    && |ss| == |es| + 1
    && ss[0] == INITIAL
    && forall i :: 0 <= i < |es| ==> Enabled(ss[i], es[i]) && Step(lookup, ss[i], es[i]) == Some(ss[i + 1])
  }

  // ---------------------------------------------------------------- safety of every run

  /** The pending request still has room, if its record is still there. */
  ghost predicate PendingSafe(s: State) {
    s.pending.Some? ==>
      var p := s.pending.value;
      && Admissible(p.req)
      && p.sel.node in s.ledger.nodes
      && var n := s.ledger.nodes[p.sel.node];
         p.sel.gpu in n.gpus ==> RoomFor(p.req, n.gpus[p.sel.gpu])
  }

  ghost predicate Safe(s: State) {
    LedgerSafe(s.ledger) && PendingSafe(s)
  }

  /** The same mode and device, with no more memory in use. */
  predicate NoFuller(g': Gpu, g: Gpu) {
    g'.mode == g.mode && g'.mem == g.mem && g'.usageMem <= g.usageMem
  }

  lemma EraseFastNoFuller(n: Node, gpu: string, key: string)
    requires gpu in n.gpus && GpuSafe(gpu, n.gpus[gpu]) && DistinctPorts(n.gpus[gpu].fastPods)
    ensures NoFuller(EraseFast(n, gpu, key).gpus[gpu], n.gpus[gpu])
  {
    hide GpuSafe, DistinctPorts, RemoveAt;
    var g := n.gpus[gpu];
    if InFast(g.fastPods, key) {
      DropFastSafe(gpu, g, FindFast(g.fastPods, key));
      hide SlotsOf;
    }
  }

  lemma EraseMpsNoFuller(n: Node, gpu: string, key: string)
    requires gpu in n.gpus && GpuSafe(gpu, n.gpus[gpu])
    ensures NoFuller(EraseMps(n, gpu, key).gpus[gpu], n.gpus[gpu])
  {
    hide GpuSafe, RemoveAt;
    var g := n.gpus[gpu];
    if InMps(g.mpsPods, key) { DropMpsSafe(gpu, g, key); }
  }

  /** A removal takes nothing away from what a pending request needs. */
  lemma ReleaseKeepsRoom(name: string, n: Node, pod: Pod, gpu: string, req: Request)
    requires NodeSafe(name, n) && gpu in n.gpus && RoomFor(req, n.gpus[gpu])
    ensures var n' := ReleaseOnNode(n, pod);
            gpu in n'.gpus ==> RoomFor(req, n'.gpus[gpu])
  {
    hide NodeSafe, GpuSafe, DistinctPorts, SlotsOf, SlotsAt, EraseFast, EraseMps;
    if pod.gpu in n.gpus {
      EraseKeepsOthers(n, pod.gpu, pod.key);
      if gpu == pod.gpu { RecordFacts(name, n, gpu); }
      match pod.mode {
        case FastPod => if gpu == pod.gpu { EraseFastNoFuller(n, gpu, pod.key); }
        case Mps => if gpu == pod.gpu { EraseMpsNoFuller(n, gpu, pod.key); }
        case Exclusive =>
        case NoMode =>
      }
    }
  }

  lemma ReplaceNode(l: Ledger, name: string, n: Node)
    requires LedgerSafe(l) && NodeSafe(name, n)
    ensures LedgerSafe(l.(nodes := l.nodes[name := n]))
  {
    hide NodeSafe;
  }

  /** Replacing one node by a safe one that still has room for the pending request. */
  lemma ReplaceNodeStep(s: State, name: string, n: Node)
    requires Safe(s) && NodeSafe(name, n) && name in s.ledger.nodes
    requires s.pending.Some? && s.pending.value.sel.node == name && s.pending.value.sel.gpu in n.gpus
             ==> RoomFor(s.pending.value.req, n.gpus[s.pending.value.sel.gpu])
    ensures Safe(s.(ledger := s.ledger.(nodes := s.ledger.nodes[name := n])))
  {
    ReplaceNode(s.ledger, name, n);
    hide NodeSafe, RoomFor, LedgerSafe;
  }

  lemma ReleaseStepSafe(s: State, pod: Pod, pushes: bool, pushOk: bool)
    requires Safe(s)
    ensures Safe(s.(ledger := Release(s.ledger, pod, pushes, pushOk)))
  {
    hide NodeSafe, RoomFor, ReleaseOnNode, EraseFast, Projection;
    if HasRecord(s.ledger, pod) {
      var n := s.ledger.nodes[pod.node];
      ReleaseNodeSafe(pod.node, n, pod);
      if s.pending.Some? && s.pending.value.sel.node == pod.node && s.pending.value.sel.gpu in n.gpus {
        ReleaseKeepsRoom(pod.node, n, pod, s.pending.value.sel.gpu, s.pending.value.req);
      }
      ReleaseKeepsKeys(n, pod);
      ReplaceNodeStep(s, pod.node, ReleaseOnNode(n, pod));
      hide LedgerSafe;
    }
  }

  lemma ReleaseKeepsKeys(n: Node, pod: Pod)
    ensures ReleaseOnNode(n, pod).gpus.Keys <= n.gpus.Keys
  {}

  lemma ReconfigureStepSafe(s: State, pod: Pod, share: Share, valid: bool, pushOk: bool)
    requires Safe(s)
    ensures Safe(s.(ledger := ReconfigurePod(s.ledger, pod, share, valid, pushOk)))
  {
    hide NodeSafe, Projection, FindFast;
    if CanReconfigure(s.ledger, pod, valid) {
      var n := s.ledger.nodes[pod.node];
      var g := n.gpus[pod.gpu];
      var i := FindFast(g.fastPods, pod.key);
      ReshareNodeSafe(pod.node, n, pod.gpu, i, share);
      var n' := n.(gpus := n.gpus[pod.gpu := g.(fastPods := g.fastPods[i := Reshare(g.fastPods[i], share)])]);
      ReplaceNodeStep(s, pod.node, n');
      hide LedgerSafe, RoomFor;
    }
  }

  /** The check may add an empty record; it never touches an existing one. */
  lemma WithRecordSafe(name: string, n: Node, gpu: string, d: Device)
    requires NodeSafe(name, n) && d.uuid == gpu
    ensures NodeSafe(name, WithRecord(n, gpu, d))
    ensures Stray(WithRecord(n, gpu, d)) == Stray(n)
    ensures GpuSafe(gpu, WithRecord(n, gpu, d).gpus[gpu])
  {
    if gpu !in n.gpus {
      NewGpuSafe(d);
      UpdateRecordSameList(name, n, gpu, NewGpu(d));
    }
  }

  lemma ScheduleStepSafe(lookup: MpsLookup, s: State, req: Request, index: map<string, Device>)
    requires Safe(s) && Enabled(s, ScheduleEvent(req, index))
    ensures var r := Step(lookup, s, ScheduleEvent(req, index));
            r.Some? ==> Safe(r.value)
  {
    hide NodeSafe, GpuSafe, CanFit, RoomFor, WithRecord;
    if req.node.Some? && req.gpu.Some? && req.node.value in s.ledger.nodes && req.gpu.value in index {
      var name, gpu := req.node.value, req.gpu.value;
      var n := WithRecord(s.ledger.nodes[name], gpu, index[gpu]);
      WithRecordSafe(name, s.ledger.nodes[name], gpu, index[gpu]);
      HostNameOf(name, n);
      FitsExactly(req, gpu, n.gpus[gpu]);
      ReplaceNode(s.ledger, name, n);
      hide LedgerSafe;
    }
  }

  lemma HostNameOf(name: string, n: Node)
    requires NodeSafe(name, n)
    ensures n.hostName == name
  {}

  lemma CommitStepSafe(lookup: MpsLookup, s: State, key: string, pushOk: bool)
    requires Safe(s) && s.pending.Some?
    ensures var r := Step(lookup, s, CommitEvent(key, pushOk));
            r.Some? ==> Safe(r.value)
  {
    hide NodeSafe, RoomFor, CommitOnNode, Projection;
    var p := s.pending.value;
    var n := s.ledger.nodes[p.sel.node];
    CommitNodeSafe(p.sel.node, n, p.sel.gpu, p.req, key, lookup);
    var (n', r) := CommitOnNode(n, p.sel.gpu, p.req, key, lookup);
    if !r.CommitPanics? {
      ReplaceNode(s.ledger, p.sel.node, n');
    }
  }

  lemma RegisterStepSafe(s: State, name: string)
    requires Safe(s)
    ensures Safe(s.(ledger := RegisterNode(s.ledger, name)))
  {}

  lemma StepSafe(lookup: MpsLookup, s: State, e: Event)
    requires Safe(s) && Enabled(s, e)
    ensures Step(lookup, s, e).Some? ==> Safe(Step(lookup, s, e).value)
  {
    hide LedgerSafe, PendingSafe, Schedule, Commit, Release, ReconfigurePod;
    match e {
      case RegisterEvent(name) => RegisterStepSafe(s, name);
      case ScheduleEvent(req, index) => ScheduleStepSafe(lookup, s, req, index);
      case CommitEvent(key, pushOk) => CommitStepSafe(lookup, s, key, pushOk);
      case RemoveEvent(pod, pushOk) =>
        ReleaseStepSafe(s, pod, Found(s.ledger, pod), pushOk);
      case SweepEvent(pod, pushOk) => ReleaseStepSafe(s, pod, true, pushOk);
      case ReconfigureEvent(pod, share, valid, pushOk) => ReconfigureStepSafe(s, pod, share, valid, pushOk);
    }
  }

  /** In every run, whatever is removed: records are keyed by their UUID and hold one kind of
      occupant, memory is conserved, and no port is reserved twice. */
  lemma {:induction false} EveryRunIsSafe(lookup: MpsLookup, es: seq<Event>, ss: seq<State>, i: nat)
    requires IsRun(lookup, es, ss) && i <= |es|
    ensures Safe(ss[i])
  {
    hide Safe, Step;
    if i == 0 {
      assert Safe(INITIAL) by { InitialSafe(); }
    } else {
      EveryRunIsSafe(lookup, es, ss, i - 1);
      StepSafe(lookup, ss[i - 1], es[i - 1]);
    }
  }

  lemma InitialSafe()
    ensures Safe(INITIAL)
  {}
}
