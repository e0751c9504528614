/** The configuration each node last received against the ledger, over whole runs with any pattern
    of failed pushes and any removals. */
module Mirror {
  import opened Requests
  import opened Ledger
  import opened LedgerSafety
  import opened LedgerRuns
  import opened Reservations
  import opened Budget

  ghost function FastPodsAt(l: Ledger, node: string, gpu: string): seq<FastPodReq> {
    if HasGpu(l, node, gpu) then GpuAt(l, node, gpu).fastPods else []
  }

  ghost function LastPushed(l: Ledger, node: string, gpu: string): seq<PodConfig> {
    if (node, gpu) in l.pushed then l.pushed[(node, gpu)] else []
  }

  /** The node has what the ledger has. */
  ghost predicate Agrees(l: Ledger, node: string, gpu: string) {
    LastPushed(l, node, gpu) == Projection(FastPodsAt(l, node, gpu))
  }

  /** The GPU that an event pushes a configuration for, if any, and whether it gets through. */
  function PushOf(lookup: MpsLookup, s: State, e: Event): Option<((string, string), bool)> {
    match e
    case CommitEvent(key, pushOk) =>
      if s.pending.Some? && s.pending.value.req.mode == FastPod
         && Commit(s.ledger, s.pending.value.sel, s.pending.value.req, key, pushOk, lookup).1.Granted?
      then Some(((s.pending.value.sel.node, s.pending.value.sel.gpu), pushOk)) else None
    case RemoveEvent(pod, pushOk) =>
      if HasRecord(s.ledger, pod) && pod.mode == FastPod && InFast(RecordOf(s.ledger, pod).fastPods, pod.key)
      then Some(((pod.node, pod.gpu), pushOk)) else None
    case SweepEvent(pod, pushOk) =>
      if HasRecord(s.ledger, pod) && pod.mode == FastPod then Some(((pod.node, pod.gpu), pushOk)) else None
    case ReconfigureEvent(pod, _, valid, pushOk) =>
      if CanReconfigure(s.ledger, pod, valid) then Some(((pod.node, pod.gpu), pushOk)) else None
    case _ => None
  }

  /** The push an event makes for one GPU, if it makes one: whether it gets through. */
  function PushFor(lookup: MpsLookup, s: State, e: Event, node: string, gpu: string): Option<bool> {
    var push := PushOf(lookup, s, e);
    if push.Some? && push.value.0 == (node, gpu) then Some(push.value.1) else None
  }

  predicate GetsThrough(push: Option<bool>) {
    push.Some? ==> push.value
  }

  /** A removal annotated MPS or EXCLUSIVE deletes a record that holds FastPods, and pushes nothing. */
  predicate DropsUnpushed(s: State, e: Event, node: string, gpu: string) {
    match e
    case RemoveEvent(pod, _) => pod.node == node && pod.gpu == gpu && !KeepsPortsIn(s.ledger, pod)
    case SweepEvent(pod, _) => pod.node == node && pod.gpu == gpu && !KeepsPortsIn(s.ledger, pod)
    case _ => false
  }

  // ---------------------------------------------------------------- one step

  /** What one change of the ledger does to a GPU's FastPod list and to the node's configuration. */
  ghost predicate Moves(l: Ledger, l': Ledger, node: string, gpu: string, push: Option<bool>, drops: bool) {
    if push.Some? && push.value then Agrees(l', node, gpu)
    else
      && LastPushed(l', node, gpu) == LastPushed(l, node, gpu)
      && (push.None? ==>
            if drops then FastPodsAt(l, node, gpu) != [] && FastPodsAt(l', node, gpu) == []
            else FastPodsAt(l', node, gpu) == FastPodsAt(l, node, gpu))
  }

  /** A push after a change that touches one GPU's list only. */
  lemma PushMoves(
    l: Ledger, l1: Ledger, at: (string, string), pods: seq<FastPodReq>, ok: bool, node: string, gpu: string)
    requires l1.pushed == l.pushed && pods == FastPodsAt(l1, at.0, at.1)
    requires (node, gpu) != at ==> FastPodsAt(l1, node, gpu) == FastPodsAt(l, node, gpu)
    ensures Moves(l, Push(l1, at.0, at.1, pods, ok), node, gpu, if at == (node, gpu) then Some(ok) else None, false)
  {
    hide Projection;
    assert FastPodsAt(Push(l1, at.0, at.1, pods, ok), node, gpu) == FastPodsAt(l1, node, gpu);
  }

  lemma CommitMoves(lookup: MpsLookup, s: State, key: string, pushOk: bool, node: string, gpu: string)
    requires Safe(s) && s.pending.Some? && Step(lookup, s, CommitEvent(key, pushOk)).Some?
    ensures var e := CommitEvent(key, pushOk);
            Moves(s.ledger, Step(lookup, s, e).value.ledger, node, gpu, PushFor(lookup, s, e, node, gpu), false)
  {
    hide CommitOnNode, Projection, RoomFor, NodeSafe, GpuSafe, Moves, Admissible, Push;
    var p, l := s.pending.value, s.ledger;
    var n := l.nodes[p.sel.node];
    var (n', r) := CommitOnNode(n, p.sel.gpu, p.req, key, lookup);
    var l1 := l.(nodes := l.nodes[p.sel.node := n']);
    CommitNodeSafe(p.sel.node, n, p.sel.gpu, p.req, key, lookup);
    CommitLists(n, p.sel.gpu, p.req, key, lookup);
    if p.sel.gpu !in n.gpus { CommitWithoutRecord(n, p.sel.gpu, p.req, key, lookup); }
    hide LedgerSafe, PendingSafe;
    if r.Granted? && p.req.mode == FastPod {
      RecordUuid(p.sel.node, n', p.sel.gpu);
      PushMoves(l, l1, (p.sel.node, p.sel.gpu), n'.gpus[p.sel.gpu].fastPods, pushOk, node, gpu);
    } else {
      SameListsMove(l, l1, node, gpu);
    }
  }

  lemma SameListsMove(l: Ledger, l1: Ledger, node: string, gpu: string)
    requires l1.pushed == l.pushed && FastPodsAt(l1, node, gpu) == FastPodsAt(l, node, gpu)
    ensures Moves(l, l1, node, gpu, None, false)
  {}

  lemma RecordUuid(name: string, n: Node, gpu: string)
    requires NodeSafe(name, n) && gpu in n.gpus
    ensures n.gpus[gpu].uuid == gpu
  {}

  /** Only a granted FASTPOD commit changes a FastPod list, and only the selected record's. */
  lemma CommitLists(n: Node, gpu: string, req: Request, key: string, lookup: MpsLookup)
    requires Admissible(req)
    ensures var (n', r) := CommitOnNode(n, gpu, req, key, lookup);
            && n'.gpus.Keys == n.gpus.Keys
            && (forall k :: k in n.gpus && (k != gpu || req.mode != FastPod || r.Failed?) ==>
                  n'.gpus[k].fastPods == n.gpus[k].fastPods)
  {
    AdmissibleShape(req);
  }

  /** What a removal does to the FastPod lists of its node. */
  lemma ReleaseLists(name: string, n: Node, pod: Pod)
    requires NodeSafe(name, n) && pod.gpu in n.gpus
    ensures var n' := ReleaseOnNode(n, pod);
            && (forall k :: k != pod.gpu ==>
                  (k in n'.gpus <==> k in n.gpus) && (k in n.gpus ==> n'.gpus[k].fastPods == n.gpus[k].fastPods))
            && (pod.mode != FastPod && pod.gpu in n'.gpus ==> n'.gpus[pod.gpu].fastPods == n.gpus[pod.gpu].fastPods)
            && (pod.gpu !in n'.gpus && pod.mode != FastPod && KeepsPorts(n, pod) ==> n.gpus[pod.gpu].fastPods == [])
  {
    hide NodeSafe, EraseFast, EraseMps;
    EraseKeepsOthers(n, pod.gpu, pod.key);
    match pod.mode {
      case FastPod =>
      case Mps => EraseMpsKeepsFast(name, n, pod.gpu, pod.key);
      case Exclusive =>
      case NoMode =>
    }
  }

  lemma ReleaseFastList(name: string, n: Node, pod: Pod)
    requires NodeSafe(name, n) && pod.gpu in n.gpus && pod.mode == FastPod
    ensures var n' := ReleaseOnNode(n, pod);
            var g := EraseFast(n, pod.gpu, pod.key).gpus[pod.gpu];
            && (if pod.gpu in n'.gpus then n'.gpus[pod.gpu].fastPods == g.fastPods else g.fastPods == [])
            && (!InFast(n.gpus[pod.gpu].fastPods, pod.key) ==> g.fastPods == n.gpus[pod.gpu].fastPods)
            && g.uuid == pod.gpu
  {
    RecordFacts(name, n, pod.gpu);
    hide NodeSafe, RemoveAt, SlotsAt, SlotsOf, DistinctPorts;
  }

  lemma ReleaseMoves(l: Ledger, pod: Pod, pushes: bool, pushOk: bool, node: string, gpu: string)
    requires LedgerSafe(l)
    requires HasRecord(l, pod) && pod.mode == FastPod && !pushes ==> !InFast(RecordOf(l, pod).fastPods, pod.key)
    ensures var push := if HasRecord(l, pod) && pod.mode == FastPod && pushes && (pod.node, pod.gpu) == (node, gpu)
                        then Some(pushOk) else None;
            var drops := (pod.node, pod.gpu) == (node, gpu) && !KeepsPortsIn(l, pod);
            Moves(l, Release(l, pod, pushes, pushOk), node, gpu, push, drops)
  {
    hide Projection, NodeSafe, ReleaseOnNode, EraseFast, InFast, Push, Moves;
    if HasRecord(l, pod) {
      var n := l.nodes[pod.node];
      ReleaseLists(pod.node, n, pod);
      var l1 := l.(nodes := l.nodes[pod.node := ReleaseOnNode(n, pod)]);
      if pod.mode == FastPod {
        ReleaseFastList(pod.node, n, pod);
        hide LedgerSafe;
        if pushes {
          var pods := EraseFast(n, pod.gpu, pod.key).gpus[pod.gpu].fastPods;
          PushMoves(l, l1, (pod.node, pod.gpu), pods, pushOk, node, gpu);
        } else {
          SameListsMove(l, l1, node, gpu);
        }
      } else if (pod.node, pod.gpu) == (node, gpu) && !KeepsPorts(n, pod) {
        assert Moves(l, l1, node, gpu, None, true) by { DropMoves(l, pod); }
      } else {
        SameListsMove(l, l1, node, gpu);
      }
    } else {
      SameListsMove(l, l, node, gpu);
    }
  }

  lemma DropMoves(l: Ledger, pod: Pod)
    requires LedgerSafe(l) && HasRecord(l, pod) && !KeepsPortsIn(l, pod)
    ensures Moves(l, l.(nodes := l.nodes[pod.node := ReleaseOnNode(l.nodes[pod.node], pod)]),
                  pod.node, pod.gpu, None, true)
  {
    var n := l.nodes[pod.node];
    RecordFacts(pod.node, n, pod.gpu);
    hide NodeSafe, SlotsAt, DistinctPorts, RemoveAt;
    assert n.gpus[pod.gpu].mpsPods == [];
  }

  lemma ReconfigureMoves(l: Ledger, pod: Pod, share: Share, valid: bool, pushOk: bool, node: string, gpu: string)
    requires LedgerSafe(l)
    ensures var push :=
              if CanReconfigure(l, pod, valid) && (pod.node, pod.gpu) == (node, gpu) then Some(pushOk) else None;
            Moves(l, ReconfigurePod(l, pod, share, valid, pushOk), node, gpu, push, false)
  {
    hide Projection, NodeSafe, Moves, Push;
    if CanReconfigure(l, pod, valid) {
      var n := l.nodes[pod.node];
      RecordUuid(pod.node, n, pod.gpu);
      hide FindFast, LedgerSafe;
      var g := n.gpus[pod.gpu];
      var i := FindFast(g.fastPods, pod.key);
      var g' := g.(fastPods := g.fastPods[i := Reshare(g.fastPods[i], share)]);
      var l1 := l.(nodes := l.nodes[pod.node := n.(gpus := n.gpus[pod.gpu := g'])]);
      PushMoves(l, l1, (pod.node, pod.gpu), g'.fastPods, pushOk, node, gpu);
    } else {
      SameListsMove(l, l, node, gpu);
    }
  }

  lemma ScheduleMoves(l: Ledger, req: Request, index: map<string, Device>, node: string, gpu: string)
    ensures Moves(l, Schedule(l, req, index).0, node, gpu, None, false)
  {
    hide CanFit, Projection, Moves;
    SameListsMove(l, Schedule(l, req, index).0, node, gpu);
  }

  lemma RegisterMoves(l: Ledger, name: string, node: string, gpu: string)
    ensures Moves(l, RegisterNode(l, name), node, gpu, None, false)
  {
    hide Projection, Moves;
    SameListsMove(l, RegisterNode(l, name), node, gpu);
  }

  /** One event, seen from one GPU: a push that gets through brings the node in step, a failed push leaves
      the configuration as it was, an unpushed drop empties the ledger's list behind the node's back,
      and nothing else changes either side. */
  lemma StepMoves(lookup: MpsLookup, s: State, e: Event, node: string, gpu: string)
    requires Safe(s) && Enabled(s, e) && Step(lookup, s, e).Some?
    ensures Moves(s.ledger, Step(lookup, s, e).value.ledger, node, gpu,
                  PushFor(lookup, s, e, node, gpu), DropsUnpushed(s, e, node, gpu))
  {
    hide PendingSafe, LedgerSafe, Schedule, Commit, Release, ReconfigurePod, Moves, KeepsPorts, RegisterNode;
    match e {
      case RegisterEvent(name) => RegisterMoves(s.ledger, name, node, gpu);
      case ScheduleEvent(req, index) => ScheduleMoves(s.ledger, req, index, node, gpu);
      case CommitEvent(key, pushOk) => CommitMoves(lookup, s, key, pushOk, node, gpu);
      case RemoveEvent(pod, pushOk) =>
        ReleaseMoves(s.ledger, pod, Found(s.ledger, pod), pushOk, node, gpu);
      case SweepEvent(pod, pushOk) => ReleaseMoves(s.ledger, pod, true, pushOk, node, gpu);
      case ReconfigureEvent(pod, share, valid, pushOk) =>
        ReconfigureMoves(s.ledger, pod, share, valid, pushOk, node, gpu);
    }
  }

  /** From agreement, and when pushes get through, a step loses agreement exactly when it is an unpushed
      drop. */
  lemma DropBreaksMirrorExactly(lookup: MpsLookup, s: State, e: Event, node: string, gpu: string)
    requires Safe(s) && Enabled(s, e) && Step(lookup, s, e).Some?
    requires Agrees(s.ledger, node, gpu) && GetsThrough(PushFor(lookup, s, e, node, gpu))
    ensures Agrees(Step(lookup, s, e).value.ledger, node, gpu) <==> !DropsUnpushed(s, e, node, gpu)
  {
    hide Safe, Enabled, Step, FastPodsAt, LastPushed, PushFor, DropsUnpushed;
    StepMoves(lookup, s, e, node, gpu);
    if DropsUnpushed(s, e, node, gpu) {
      DropsDoNotPush(lookup, s, e, node, gpu);
      assert |LastPushed(s.ledger, node, gpu)| == |FastPodsAt(s.ledger, node, gpu)|;
    }
  }

  lemma DropsDoNotPush(lookup: MpsLookup, s: State, e: Event, node: string, gpu: string)
    requires DropsUnpushed(s, e, node, gpu)
    ensures PushFor(lookup, s, e, node, gpu).None?
  {}

  // ---------------------------------------------------------------- whole runs

  /** The record's FastPods as they were when a push for this GPU last got through. */
  ghost function ListAtLastPush(lookup: MpsLookup, es: seq<Event>, ss: seq<State>, i: nat, node: string, gpu: string)
    : seq<FastPodReq>
    requires IsRun(lookup, es, ss) && i <= |es|
    decreases i
  {
    if i == 0 then []
    else
      var push := PushFor(lookup, ss[i - 1], es[i - 1], node, gpu);
      if push.Some? && push.value then FastPodsAt(ss[i].ledger, node, gpu)
      else ListAtLastPush(lookup, es, ss, i - 1, node, gpu)
  }

  /** The last event that pushed for this GPU, or dropped its FastPods unpushed, left the node behind. */
  ghost predicate OutOfStep(lookup: MpsLookup, es: seq<Event>, ss: seq<State>, i: nat, node: string, gpu: string)
    requires IsRun(lookup, es, ss) && i <= |es|
    decreases i
  {
    if i == 0 then false
    else
      var push := PushFor(lookup, ss[i - 1], es[i - 1], node, gpu);
      if push.Some? then !push.value
      else DropsUnpushed(ss[i - 1], es[i - 1], node, gpu) || OutOfStep(lookup, es, ss, i - 1, node, gpu)
  }

  lemma {:induction false} ConfigAlong(
    lookup: MpsLookup, es: seq<Event>, ss: seq<State>, i: nat, node: string, gpu: string)
    requires IsRun(lookup, es, ss) && i <= |es|
    ensures LastPushed(ss[i].ledger, node, gpu) == Projection(ListAtLastPush(lookup, es, ss, i, node, gpu))
    ensures !OutOfStep(lookup, es, ss, i, node, gpu) ==>
              FastPodsAt(ss[i].ledger, node, gpu) == ListAtLastPush(lookup, es, ss, i, node, gpu)
  {
    hide Step, Safe, Enabled, PushFor, DropsUnpushed, FastPodsAt, LastPushed, Projection;
    if i == 0 {
      NothingPushedInitially(node, gpu);
    } else {
      ConfigAlong(lookup, es, ss, i - 1, node, gpu);
      EveryRunIsSafe(lookup, es, ss, i - 1);
      assert Step(lookup, ss[i - 1], es[i - 1]) == Some(ss[i]);
      StepMoves(lookup, ss[i - 1], es[i - 1], node, gpu);
    }
  }

  lemma NothingPushedInitially(node: string, gpu: string)
    ensures FastPodsAt(INITIAL.ledger, node, gpu) == [] && LastPushed(INITIAL.ledger, node, gpu) == Projection([])
  {}

  /** The ports of a record survive the conversion to 32 bits, because they are in range. */
  ghost predicate InRange(l: seq<FastPodReq>) {
    forall j :: 0 <= j < |l| ==> GPU_CLIENT_PORT_START <= l[j].port < GPU_CLIENT_PORT_START + PORT_RANGE
  }

  lemma PortsInRange(s: State, node: string, gpu: string)
    requires LedgerSafe(s.ledger)
    ensures InRange(FastPodsAt(s.ledger, node, gpu))
  {
    if HasGpu(s.ledger, node, gpu) {
      var n := s.ledger.nodes[node];
      var l := n.gpus[gpu].fastPods;
      RecordFacts(node, n, gpu);
      assert n.ports.size == PORT_RANGE;
      hide NodeSafe, GpuSafe, DistinctPorts;
      forall j | 0 <= j < |l|
        ensures l[j].port - GPU_CLIENT_PORT_START in n.ports.used
      {
        assert l[j].port - GPU_CLIENT_PORT_START in SlotsOf(l);
      }
    }
  }

  lemma {:induction false} PushedInRange(
    lookup: MpsLookup, es: seq<Event>, ss: seq<State>, i: nat, node: string, gpu: string)
    requires IsRun(lookup, es, ss) && i <= |es|
    ensures InRange(ListAtLastPush(lookup, es, ss, i, node, gpu))
  {
    hide Step, LedgerSafe, PendingSafe, PushFor, FastPodsAt;
    if i > 0 {
      EveryRunIsSafe(lookup, es, ss, i);
      PortsInRange(ss[i], node, gpu);
      PushedInRange(lookup, es, ss, i - 1, node, gpu);
    }
  }

  /** A configuration that lists exactly these FastPods, in order and field by field. */
  ghost predicate Lists(config: seq<PodConfig>, pods: seq<FastPodReq>) {
    && |config| == |pods|
    && forall j :: 0 <= j < |pods| ==>
         var e := pods[j];
         config[j] == PodConfig(e.key, e.qtRequest, e.qtLimit, e.smPartition, e.memory, e.port)
  }

  lemma ProjectionLists(pods: seq<FastPodReq>)
    requires InRange(pods)
    ensures Lists(Projection(pods), pods)
  {
    forall j | 0 <= j < |pods|
      ensures ToInt32(pods[j].port) == pods[j].port
    {}
    hide ToInt32;
  }

  lemma ListsIsInjective(config: seq<PodConfig>, a: seq<FastPodReq>, b: seq<FastPodReq>)
    requires Lists(config, a) && Lists(config, b)
    ensures a == b
  {
    forall j | 0 <= j < |a|
      ensures a[j] == b[j]
    {
      assert config[j].key == a[j].key == b[j].key;
    }
  }

  /** Mirror agreement, in every run, with any failed pushes and any removals: a node's configuration for a
      GPU always lists the record's FastPods as they were when a push last got through; it lists
      the record's present FastPods, field by field, exactly when those are still the same; and it does
      unless the last push failed or an unpushed drop came after it. */
  lemma MirrorAgreement(lookup: MpsLookup, es: seq<Event>, ss: seq<State>, i: nat, node: string, gpu: string)
    requires IsRun(lookup, es, ss) && i <= |es|
    ensures var config, pods := LastPushed(ss[i].ledger, node, gpu), FastPodsAt(ss[i].ledger, node, gpu);
            var sent := ListAtLastPush(lookup, es, ss, i, node, gpu);
            && Lists(config, sent)
            && (Lists(config, pods) <==> pods == sent)
            && (!OutOfStep(lookup, es, ss, i, node, gpu) ==> Lists(config, pods))
  {
    ConfigAlong(lookup, es, ss, i, node, gpu);
    PushedInRange(lookup, es, ss, i, node, gpu);
    hide IsRun, Projection, ListAtLastPush, OutOfStep, FastPodsAt, LastPushed, InRange;
    var config, pods := LastPushed(ss[i].ledger, node, gpu), FastPodsAt(ss[i].ledger, node, gpu);
    var sent := ListAtLastPush(lookup, es, ss, i, node, gpu);
    ProjectionLists(sent);
    if Lists(config, pods) { ListsIsInjective(config, pods, sent); }
    hide Lists;
  }

  /** Where every push gets through, a node is behind exactly when its FastPods were dropped unpushed and
      nothing has been pushed for the GPU since; it then still lists pods and the ledger has none. */
  lemma {:induction false} MirrorExactly(
    lookup: MpsLookup, es: seq<Event>, ss: seq<State>, i: nat, node: string, gpu: string)
    requires IsRun(lookup, es, ss) && i <= |es|
    requires forall j :: 0 <= j < i ==> GetsThrough(PushFor(lookup, ss[j], es[j], node, gpu))
    ensures Lists(LastPushed(ss[i].ledger, node, gpu), FastPodsAt(ss[i].ledger, node, gpu))
            <==> !OutOfStep(lookup, es, ss, i, node, gpu)
    ensures OutOfStep(lookup, es, ss, i, node, gpu) ==>
              LastPushed(ss[i].ledger, node, gpu) != [] && FastPodsAt(ss[i].ledger, node, gpu) == []
  {
    MirrorAgreement(lookup, es, ss, i, node, gpu);
    hide Step, Safe, Enabled, PushFor, DropsUnpushed, FastPodsAt, LastPushed, Projection;
    if i > 0 && OutOfStep(lookup, es, ss, i, node, gpu) {
      MirrorExactly(lookup, es, ss, i - 1, node, gpu);
      EveryRunIsSafe(lookup, es, ss, i - 1);
      assert Step(lookup, ss[i - 1], es[i - 1]) == Some(ss[i]);
      StepMoves(lookup, ss[i - 1], es[i - 1], node, gpu);
    }
  }
}
