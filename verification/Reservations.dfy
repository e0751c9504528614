/** The port bitmap against the ledger: where every taken slot is, over whole runs with any removals. */
module Reservations {
  import opened Requests
  import opened Ledger
  import opened LedgerSafety
  import opened LedgerRuns

  // ---------------------------------------------------------------- ports

  predicate KeepsPortsIn(l: Ledger, pod: Pod) {
    pod.node in l.nodes ==> KeepsPorts(l.nodes[pod.node], pod)
  }

  // ---------------------------------------------------------------- one step

  /** The slots of a node that a removal leaves astray. */
  ghost function LostBy(l: Ledger, pod: Pod, name: string): set<int> {
    if pod.node == name && name in l.nodes then LostSlots(l.nodes[name], pod) else {}
  }

  ghost function Lost(s: State, e: Event, name: string): set<int> {
    match e
    case RemoveEvent(pod, _) => LostBy(s.ledger, pod, name)
    case SweepEvent(pod, _) => LostBy(s.ledger, pod, name)
    case _ => {}
  }

  lemma ReleaseNodes(l: Ledger, pod: Pod, pushes: bool, pushOk: bool)
    requires HasRecord(l, pod)
    ensures Release(l, pod, pushes, pushOk).nodes == l.nodes[pod.node := ReleaseOnNode(l.nodes[pod.node], pod)]
  {
    hide ReleaseOnNode, Projection, EraseFast;
  }

  lemma ReleaseStrays(l: Ledger, pod: Pod, pushes: bool, pushOk: bool, name: string)
    requires LedgerSafe(l) && name in l.nodes
    ensures name in Release(l, pod, pushes, pushOk).nodes
    ensures Stray(Release(l, pod, pushes, pushOk).nodes[name]) == Stray(l.nodes[name]) + LostBy(l, pod, name)
  {
    hide NodeSafe, Stray, ReleaseOnNode, Projection, EraseFast, SlotsAt;
    if HasRecord(l, pod) && pod.node == name { ReleaseNodeSafe(name, l.nodes[name], pod); }
  }

  /** A removal leaves slots astray exactly when its annotation is MPS or EXCLUSIVE and the record it names
      holds FastPods; whatever was astray before stays so. */
  lemma RemovalLeaksExactly(l: Ledger, pod: Pod, pushes: bool, pushOk: bool)
    requires LedgerSafe(l) && pod.node in l.nodes
    ensures pod.node in Release(l, pod, pushes, pushOk).nodes
    ensures var before, after := Stray(l.nodes[pod.node]), Stray(Release(l, pod, pushes, pushOk).nodes[pod.node]);
            && after == before + LostSlots(l.nodes[pod.node], pod)
            && before <= after && (before == after <==> KeepsPortsIn(l, pod))
  {
    var n := l.nodes[pod.node];
    ReleaseStrays(l, pod, pushes, pushOk, pod.node);
    if !KeepsPorts(n, pod) {
      var p := n.gpus[pod.gpu].fastPods[0].port - GPU_CLIENT_PORT_START;
      assert p in SlotsAt(n, pod.gpu);
      assert HoldsSlot(n, p);
    }
    hide Release, LedgerSafe;
  }

  lemma ScheduleStrays(l: Ledger, req: Request, index: map<string, Device>, name: string)
    requires LedgerSafe(l) && Keyed(index) && name in l.nodes
    ensures var l' := Schedule(l, req, index).0;
            name in l'.nodes && Stray(l'.nodes[name]) == Stray(l.nodes[name])
  {
    hide NodeSafe, Stray, WithRecord, CanFit;
    if req.node == Some(name) && req.gpu.Some? && req.gpu.value in index {
      WithRecordSafe(name, l.nodes[name], req.gpu.value, index[req.gpu.value]);
    }
  }

  lemma CommitStrays(lookup: MpsLookup, s: State, key: string, pushOk: bool, name: string)
    requires Safe(s) && s.pending.Some? && name in s.ledger.nodes && Step(lookup, s, CommitEvent(key, pushOk)).Some?
    ensures var l' := Step(lookup, s, CommitEvent(key, pushOk)).value.ledger;
            name in l'.nodes && Stray(l'.nodes[name]) == Stray(s.ledger.nodes[name])
  {
    hide NodeSafe, Stray, CommitOnNode, Projection, RoomFor, Admissible;
    var p := s.pending.value;
    if p.sel.node == name { CommitNodeSafe(name, s.ledger.nodes[name], p.sel.gpu, p.req, key, lookup); }
  }

  lemma ReconfigureStrays(l: Ledger, pod: Pod, share: Share, valid: bool, pushOk: bool, name: string)
    requires LedgerSafe(l) && name in l.nodes
    ensures var l' := ReconfigurePod(l, pod, share, valid, pushOk);
            name in l'.nodes && Stray(l'.nodes[name]) == Stray(l.nodes[name])
  {
    hide NodeSafe, Stray, Projection, FindFast;
    if CanReconfigure(l, pod, valid) && pod.node == name {
      ReshareNodeSafe(name, l.nodes[name], pod.gpu, FindFast(RecordOf(l, pod).fastPods, pod.key), share);
    }
  }

  /** One event adds to the stray slots of a node exactly those it loses. */
  lemma StepStrays(lookup: MpsLookup, s: State, e: Event, name: string)
    requires Safe(s) && Enabled(s, e) && Step(lookup, s, e).Some? && name in s.ledger.nodes
    ensures var l' := Step(lookup, s, e).value.ledger;
            name in l'.nodes && Stray(l'.nodes[name]) == Stray(s.ledger.nodes[name]) + Lost(s, e, name)
  {
    hide LedgerSafe, Schedule, Commit, Release, ReconfigurePod, PendingSafe, LostBy, Stray, Admissible, Keyed;
    match e {
      case RegisterEvent(_) =>
      case ScheduleEvent(req, index) => ScheduleStrays(s.ledger, req, index, name);
      case CommitEvent(key, pushOk) => CommitStrays(lookup, s, key, pushOk, name);
      case RemoveEvent(pod, pushOk) =>
        ReleaseStrays(s.ledger, pod, Found(s.ledger, pod), pushOk, name);
      case SweepEvent(pod, pushOk) => ReleaseStrays(s.ledger, pod, true, pushOk, name);
      case ReconfigureEvent(pod, share, valid, pushOk) => ReconfigureStrays(s.ledger, pod, share, valid, pushOk, name);
    }
  }

  lemma NewNodeHasNoStrays(lookup: MpsLookup, s: State, e: Event, name: string)
    requires Step(lookup, s, e).Some? && name in Step(lookup, s, e).value.ledger.nodes && name !in s.ledger.nodes
    ensures Stray(Step(lookup, s, e).value.ledger.nodes[name]) == {}
  {
    hide CommitOnNode, CanFit, WithRecord, ReleaseOnNode, EraseFast, Projection, FindFast;
  }

  // ---------------------------------------------------------------- whole runs

  /** The `i`-th FastPod of a record. */
  predicate IsEntry(n: Node, gpu: string, i: int) {
    gpu in n.gpus && 0 <= i < |n.gpus[gpu].fastPods|
  }

  function PortAt(n: Node, gpu: string, i: int): int
    requires IsEntry(n, gpu, i)
  {
    n.gpus[gpu].fastPods[i].port
  }

  /** Some FastPod of the node reserves this port. */
  ghost predicate PortHeld(n: Node, port: int) {
    exists gpu, i :: IsEntry(n, gpu, i) && PortAt(n, gpu, i) == port
  }

  lemma SlotMember(n: Node, gpu: string, i: int)
    requires IsEntry(n, gpu, i)
    ensures PortAt(n, gpu, i) - GPU_CLIENT_PORT_START in SlotsAt(n, gpu)
  {}

  lemma SlotEntry(n: Node, gpu: string, p: int) returns (i: int)
    requires p in SlotsAt(n, gpu)
    ensures IsEntry(n, gpu, i) && PortAt(n, gpu, i) == p + GPU_CLIENT_PORT_START
  {
    var l := n.gpus[gpu].fastPods;
    i :| 0 <= i < |l| && l[i].port - GPU_CLIENT_PORT_START == p;
  }

  lemma DifferentPorts(n: Node, gpu: string, i: int, gpu': string, i': int)
    requires PortsSafe(n) && IsEntry(n, gpu, i) && IsEntry(n, gpu', i') && (gpu, i) != (gpu', i')
    ensures PortAt(n, gpu, i) != PortAt(n, gpu', i')
  {
    SlotMember(n, gpu, i);
    SlotMember(n, gpu', i');
    hide SlotsAt;
    if gpu != gpu' {
      assert SlotsAt(n, gpu) !! SlotsAt(n, gpu');
    }
  }

  /** The slots of a node lost to removals so far; nothing ever gives one back. */
  ghost function Leaked(lookup: MpsLookup, es: seq<Event>, ss: seq<State>, i: nat, name: string): set<int>
    requires IsRun(lookup, es, ss) && i <= |es|
    decreases i
  {
    if i == 0 then {} else Leaked(lookup, es, ss, i - 1, name) + Lost(ss[i - 1], es[i - 1], name)
  }

  lemma {:induction false} StraysAlong(lookup: MpsLookup, es: seq<Event>, ss: seq<State>, i: nat, name: string)
    requires IsRun(lookup, es, ss) && i <= |es|
    ensures if name in ss[i].ledger.nodes then Stray(ss[i].ledger.nodes[name]) == Leaked(lookup, es, ss, i, name)
            else Leaked(lookup, es, ss, i, name) == {}
  {
    hide Step, Safe, Enabled, Lost, Stray;
    if i > 0 {
      StraysAlong(lookup, es, ss, i - 1, name);
      EveryRunIsSafe(lookup, es, ss, i - 1);
      assert Step(lookup, ss[i - 1], es[i - 1]) == Some(ss[i]);
      if name in ss[i - 1].ledger.nodes {
        StepStrays(lookup, ss[i - 1], es[i - 1], name);
      } else {
        NothingToLose(ss[i - 1], es[i - 1], name);
        if name in ss[i].ledger.nodes { NewNodeHasNoStrays(lookup, ss[i - 1], es[i - 1], name); }
      }
    }
  }

  lemma NothingToLose(s: State, e: Event, name: string)
    requires name !in s.ledger.nodes
    ensures Lost(s, e, name) == {}
  {}

  /** The port law: the taken slots of a node are exactly those of the FastPods in its records and, apart from
      these, the leaked ones; the FastPods' ports are in range and pairwise different. */
  ghost predicate PortLaw(n: Node, leaked: set<int>) {
    && (forall port :: port - GPU_CLIENT_PORT_START in n.ports.used <==>
          PortHeld(n, port) || port - GPU_CLIENT_PORT_START in leaked)
    && (forall port :: !(PortHeld(n, port) && port - GPU_CLIENT_PORT_START in leaked))
    && (forall gpu, i :: IsEntry(n, gpu, i) ==>
          GPU_CLIENT_PORT_START <= PortAt(n, gpu, i) < GPU_CLIENT_PORT_START + PORT_RANGE)
    && (forall gpu, i, gpu', i' :: IsEntry(n, gpu, i) && IsEntry(n, gpu', i') && (gpu, i) != (gpu', i')
          ==> PortAt(n, gpu, i) != PortAt(n, gpu', i'))
  }

  lemma HeldIsPort(n: Node, port: int)
    ensures HoldsSlot(n, port - GPU_CLIENT_PORT_START) <==> PortHeld(n, port)
  {
    hide SlotsAt, IsEntry, PortAt;
    if HoldsSlot(n, port - GPU_CLIENT_PORT_START) {
      var gpu :| port - GPU_CLIENT_PORT_START in SlotsAt(n, gpu);
      var i := SlotEntry(n, gpu, port - GPU_CLIENT_PORT_START);
    }
    if PortHeld(n, port) {
      var gpu, i :| IsEntry(n, gpu, i) && PortAt(n, gpu, i) == port;
      SlotMember(n, gpu, i);
    }
  }

  lemma PortLawHolds(name: string, n: Node)
    requires NodeSafe(name, n)
    ensures PortLaw(n, Stray(n))
  {
    hide GpuSafe, SlotsAt, DistinctPorts, IsEntry, PortAt;
    forall gpu, i | IsEntry(n, gpu, i)
      ensures PortAt(n, gpu, i) - GPU_CLIENT_PORT_START in n.ports.used
    {
      SlotMember(n, gpu, i);
    }
    forall port
      ensures port - GPU_CLIENT_PORT_START in n.ports.used <==>
                PortHeld(n, port) || port - GPU_CLIENT_PORT_START in Stray(n)
      ensures !(PortHeld(n, port) && port - GPU_CLIENT_PORT_START in Stray(n))
    {
      HeldIsPort(n, port);
      hide HoldsSlot;
    }
    forall gpu, i, gpu', i' | IsEntry(n, gpu, i) && IsEntry(n, gpu', i') && (gpu, i) != (gpu', i')
      ensures PortAt(n, gpu, i) != PortAt(n, gpu', i')
    {
      DifferentPorts(n, gpu, i, gpu', i');
    }
  }

  /** The port law, in every state of every run, whatever is removed. */
  lemma PortsInRun(lookup: MpsLookup, es: seq<Event>, ss: seq<State>, i: nat, name: string)
    requires IsRun(lookup, es, ss) && i <= |es| && name in ss[i].ledger.nodes
    ensures PortLaw(ss[i].ledger.nodes[name], Leaked(lookup, es, ss, i, name))
  {
    hide PortLaw, Stray, NodeSafe, PendingSafe, Step, Enabled;
    StraysAlong(lookup, es, ss, i, name);
    EveryRunIsSafe(lookup, es, ss, i);
    PortLawHolds(name, ss[i].ledger.nodes[name]);
  }

  /** The event is no removal on this node that is annotated MPS or EXCLUSIVE and names a record that holds
      FastPods. */
  ghost predicate KeepsPortsOf(s: State, e: Event, name: string) {
    (e.RemoveEvent? || e.SweepEvent?) && e.pod.node == name ==> KeepsPortsIn(s.ledger, e.pod)
  }

  lemma LosesExactly(s: State, e: Event, name: string)
    ensures Lost(s, e, name) == {} <==> KeepsPortsOf(s, e, name)
  {
    if !KeepsPortsOf(s, e, name) {
      var n := s.ledger.nodes[name];
      assert n.gpus[e.pod.gpu].fastPods[0].port - GPU_CLIENT_PORT_START in SlotsAt(n, e.pod.gpu);
    }
  }

  /** No slot of a node has leaked if and only if every removal on it kept its ports. */
  lemma {:induction false} LeakFreeExactly(lookup: MpsLookup, es: seq<Event>, ss: seq<State>, i: nat, name: string)
    requires IsRun(lookup, es, ss) && i <= |es|
    ensures Leaked(lookup, es, ss, i, name) == {} <==> forall j :: 0 <= j < i ==> KeepsPortsOf(ss[j], es[j], name)
  {
    hide Step, Enabled, Lost, KeepsPortsOf;
    if i > 0 {
      LeakFreeExactly(lookup, es, ss, i - 1, name);
      LosesExactly(ss[i - 1], es[i - 1], name);
    }
  }
}
