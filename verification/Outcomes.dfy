/** What each critical section can end in: selection, failed and repeated commits, panics, repeated removals,
    exhausted ports. */
module Outcomes {
  import opened Requests
  import opened PortBitmap
  import opened Ledger
  import opened LedgerSafety
  import opened LedgerRuns
  import opened Reservations
  import opened Budget
  import opened Admission

  /** A device that has no record yet can take the request: its memory suffices, as a signed 64-bit number, and
      so does its share of the SMs. */
  predicate DeviceSuffices(req: Request, d: Device) {
    && req.memory <= d.memoryBytes <= MAX_INT64
    && (req.mode == Exclusive && req.smPercentage.Some? ==> req.smPercentage.value <= d.smPercentage)
  }

  /** A record nobody holds yet, with the limits of its device. */
  predicate IsNewRecordOf(g: Gpu, d: Device) {
    && g.uuid == d.uuid && g.smCount == d.smCount && g.smPercentage == d.smPercentage
    && (d.memoryBytes <= MAX_INT64 ==> g.mem == d.memoryBytes) && (d.memoryBytes > MAX_INT64 ==> g.mem < 0)
    && Vacant(g) && g.mode == NoMode && g.usage == 0.0 && g.usageMem == 0
  }

  /** What the check answers, in a safe ledger: it selects the requested GPU exactly when the node is
      registered, its configurator knows the GPU, and the record has room or, if there is none, the device
      suffices; an SM count panics.  A record that it had to add stays there even when the request is
      refused; it has the device's limits and is vacant. */
  lemma ScheduleSelectsExactly(l: Ledger, req: Request, index: map<string, Device>)
    requires LedgerSafe(l) && Admissible(req) && Keyed(index)
    ensures var r := Schedule(l, req, index).1;
            if req.node.None? || req.gpu.None? || req.node.value !in l.nodes || req.gpu.value !in index then
              r == Refused
            else
              var node, gpu := req.node.value, req.gpu.value;
              var room :=
                if HasGpu(l, node, gpu) then
                  var g := GpuAt(l, node, gpu);
                  RoomFor(req, g) && ShareFits(req, g) && SmsSuffice(req, g)
                else DeviceSuffices(req, index[gpu]);
              r == if req.mode == Exclusive && req.smRequest.Some? then CheckPanics
                   else if room then Selected(Selection(node, gpu)) else Refused
    ensures var l' := Schedule(l, req, index).0;
            forall node, gpu ::
              && (HasGpu(l, node, gpu) ==> HasGpu(l', node, gpu) && GpuAt(l', node, gpu) == GpuAt(l, node, gpu))
              && (HasGpu(l', node, gpu) && !HasGpu(l, node, gpu) ==>
                    gpu in index && IsNewRecordOf(GpuAt(l', node, gpu), index[gpu]))
    ensures req.node.Some? && req.gpu.Some? && req.node.value in l.nodes && req.gpu.value in index
            ==> HasGpu(Schedule(l, req, index).0, req.node.value, req.gpu.value)
  {
    ScheduleAddsVacant(l, req, index);
    hide NodeSafe, CanFit, RoomFor, ShareFits, SmsSuffice, GpuSafe, Admissible, IsNewRecordOf, DeviceSuffices;
    if req.node.Some? && req.gpu.Some? && req.node.value in l.nodes && req.gpu.value in index {
      var name, gpu := req.node.value, req.gpu.value;
      var n := WithRecord(l.nodes[name], gpu, index[gpu]);
      WithRecordSafe(name, l.nodes[name], gpu, index[gpu]);
      HostNameOf(name, n);
      FitsExactly(req, gpu, n.gpus[gpu]);
      if !(req.mode == Exclusive && req.smRequest.Some?) { NewRecordFits(req, index[gpu]); }
    }
  }

  lemma NewRecord(d: Device)
    ensures IsNewRecordOf(NewGpu(d), d)
  {}

  lemma NewRecordFits(req: Request, d: Device)
    requires Admissible(req) && !(req.mode == Exclusive && req.smRequest.Some?)
    ensures var g := NewGpu(d);
            RoomFor(req, g) && ShareFits(req, g) && SmsSuffice(req, g) <==> DeviceSuffices(req, d)
  {
    NewRecord(d);
    AdmissibleShape(req);
    hide Admissible, NewGpu, Contribution;
  }

  /** An EXCLUSIVE FaSTPod that asks for an SM count, whatever its other annotations: wherever it can be
      checked at all, the check panics. */
  lemma SmCountPanics(l: Ledger, a: Annotations, index: map<string, Device>)
    requires a.mode == Exclusive && a.memory.ok && a.memory.value >= 0 && a.smValue.ok && a.smValue.value > 0
    requires a.node in l.nodes && a.node != "" && a.gpu in index && a.gpu != ""
    ensures GetPodRequest(a).Some? && Admissible(GetPodRequest(a).value)
    ensures Schedule(l, GetPodRequest(a).value, index).1 == CheckPanics
  {
    SmCountLosesPercentage(a);
    hide Admissible, WithRecord;
  }

  lemma ScheduleAddsVacant(l: Ledger, req: Request, index: map<string, Device>)
    ensures var l' := Schedule(l, req, index).0;
            forall node, gpu ::
              && (HasGpu(l, node, gpu) ==> HasGpu(l', node, gpu) && GpuAt(l', node, gpu) == GpuAt(l, node, gpu))
              && (HasGpu(l', node, gpu) && !HasGpu(l, node, gpu) ==>
                    gpu in index && IsNewRecordOf(GpuAt(l', node, gpu), index[gpu]))
  {
    if req.gpu.Some? && req.gpu.value in index { NewRecord(index[req.gpu.value]); }
    hide CanFit, IsNewRecordOf, NewGpu;
  }

  /** A new FASTPOD grant records the request as it was made, on the port it answers with, and that
      port is the first free one from the allocator's cursor. */
  lemma GrantRecordsTheRequest(g: Gpu, ports: Ports, req: Request, key: string)
    requires !InFast(g.fastPods, key) && CommitFastPod(g, ports, req, key).2.Granted?
    ensures req.fast.Some?
    ensures var (g', ports', r) := CommitFastPod(g, ports, req, key);
            var share := req.fast.value;
            var e := FastPodReq(key, share.quotaReq, share.quotaLimit, share.smPartition, req.memory, r.port);
            && g'.fastPods == g.fastPods + [e]
            && ports.FirstFree(r.port - GPU_CLIENT_PORT_START)
            && ports'.used == ports.used + {r.port - GPU_CLIENT_PORT_START}
            && r.uuid == g.uuid && g'.mode == g.mode && g'.mem == g.mem
            && g'.mpsPods == g.mpsPods && g'.exclusive == g.exclusive
  {}

  /** The answer of a grant: the record's UUID, and for a FASTPOD request the port that the record now lists for
      this key; no port otherwise. */
  lemma GrantAnswers(g: Gpu, ports: Ports, req: Request, key: string, lookup: MpsLookup)
    requires Admissible(req) && CommitOnGpu(g, ports, req, key, lookup).2.Granted?
    ensures var (g', ports', r) := CommitOnGpu(g, ports, req, key, lookup);
            && r.uuid == g.uuid
            && (req.mode != FastPod ==> r.port == 0 && ports' == ports)
            && (req.mode == FastPod ==> exists e :: e in g'.fastPods && e.key == key && e.port == r.port)
  {
    AdmissibleShape(req);
    var p := Pinned(g, req.mode);
    var (g', ports', r) := CommitOnGpu(g, ports, req, key, lookup);
    match req.mode {
      case FastPod =>
        if InFast(p.fastPods, key) {
          assert p.fastPods[FindFast(p.fastPods, key)] in g'.fastPods;
        } else {
          GrantRecordsTheRequest(p, ports, req, key);
          assert g'.fastPods[|p.fastPods|] in g'.fastPods;
        }
      case Mps =>
      case Exclusive =>
    }
  }

  /** A commit that finds no node answers 2, one that finds no record 3, and neither changes anything. */
  lemma CodesWithoutRecord(l: Ledger, sel: Selection, req: Request, key: string, pushOk: bool, lookup: MpsLookup)
    ensures !HasGpu(l, sel.node, sel.gpu) ==>
              Commit(l, sel, req, key, pushOk, lookup) == (l, Failed(if sel.node in l.nodes then 3 else 2))
  {
    if sel.node in l.nodes && !HasGpu(l, sel.node, sel.gpu) {
      assert l.nodes[sel.node := l.nodes[sel.node]] == l.nodes;
    }
    hide CommitOnGpu;
  }

  /** The error codes of a new pod on any record: too much compute (3), then too much memory (4), then no port (5). */
  lemma CodesInOrder(g: Gpu, ports: Ports, req: Request, key: string, lookup: MpsLookup)
    ensures req.fast.Some? && !InFast(g.fastPods, key) ==>
              var compute := g.usage + Contribution(req.fast.value.quotaReq, req.fast.value.smPartition) <= 1.0;
              var memory := Wrap64(g.usageMem + req.memory) <= g.mem;
              var r := CommitFastPod(g, ports, req, key).2;
              && (!compute <==> r == Failed(3)) && (compute && !memory <==> r == Failed(4))
              && (compute && memory && ports.Full() <==> r == Failed(5))
              && (compute && memory && !ports.Full() <==> r.Granted?)
    ensures !(lookup == AsWritten && g.mpsPods != []) && !InMps(g.mpsPods, key) ==>
              var r := CommitMps(g, req, key, lookup).1;
              if Wrap64(g.usageMem + req.memory) <= g.mem then r == Granted(g.uuid, 0) else r == Failed(4)
  {
    hide Contribution, FindMps, FindFast;
  }

  lemma {:induction false} AppendedFind(l: seq<FastPodReq>, e: FastPodReq)
    requires FindFast(l, e.key) == |l|
    ensures FindFast(l + [e], e.key) == |l|
  {
    var l' := l + [e];
    assert l'[|l|].key == e.key;
    assert forall j :: 0 <= j < |l| ==> l'[j] == l[j];
  }

  lemma {:induction false} AppendedFindMps(l: seq<MpsPodReq>, e: MpsPodReq)
    requires FindMps(l, e.key) == |l|
    ensures FindMps(l + [e], e.key) == |l|
  {
    var l' := l + [e];
    assert l'[|l|].key == e.key;
    assert forall j :: 0 <= j < |l| ==> l'[j] == l[j];
  }

  /** Committing the same pod again, by key, answers the same and changes nothing: a second grant takes
      no second port, share or memory. */
  lemma CommitTwice(g: Gpu, ports: Ports, req: Request, key: string)
    requires Admissible(req) && CommitOnGpu(g, ports, req, key, ByKey).2.Granted?
    ensures var (g', ports', r) := CommitOnGpu(g, ports, req, key, ByKey);
            CommitOnGpu(g', ports', req, key, ByKey) == (g', ports', r)
  {
    AdmissibleShape(req);
    var p := Pinned(g, req.mode);
    match req.mode {
      case Mps =>
        if FindMps(p.mpsPods, key) == |p.mpsPods| { AppendedFindMps(p.mpsPods, MpsPodReq(key, req.memory)); }
        hide FindMps;
      case FastPod =>
        if !InFast(p.fastPods, key) {
          GrantRecordsTheRequest(p, ports, req, key);
          AppendedFind(p.fastPods, CommitFastPod(p, ports, req, key).0.fastPods[|p.fastPods|]);
        }
        hide FindFast;
      case Exclusive =>
    }
  }

  /** A failed commit changes nothing but, at most, the mode of the selected record from NONE to the
      requested one: the same usage, memory, lists, bitmap, cursor and pushed configurations. */
  lemma FailedCommitIsPure(l: Ledger, sel: Selection, req: Request, key: string, pushOk: bool, lookup: MpsLookup)
    requires Commit(l, sel, req, key, pushOk, lookup).1.Failed?
    ensures var l' := Commit(l, sel, req, key, pushOk, lookup).0;
            if !HasGpu(l, sel.node, sel.gpu) then l' == l
            else
              var n := l.nodes[sel.node];
              l' == l.(nodes := l.nodes[sel.node := n.(gpus := n.gpus[sel.gpu := Pinned(n.gpus[sel.gpu], req.mode)])])
  {
    if HasGpu(l, sel.node, sel.gpu) {
      var n := l.nodes[sel.node];
      FailedListsArePure(Pinned(n.gpus[sel.gpu], req.mode), n.ports, req, key, lookup);
      hide CommitMps, CommitFastPod, Projection;
    } else if sel.node in l.nodes {
      assert l.nodes[sel.node := l.nodes[sel.node]] == l.nodes;
    }
  }

  lemma FailedListsArePure(g: Gpu, ports: Ports, req: Request, key: string, lookup: MpsLookup)
    ensures CommitMps(g, req, key, lookup).1.Failed? ==> CommitMps(g, req, key, lookup).0 == g
    ensures CommitFastPod(g, ports, req, key).2.Failed? ==>
              CommitFastPod(g, ports, req, key).0 == g && CommitFastPod(g, ports, req, key).1 == ports
  {}

  /** The events that panic, in any safe state: checking an EXCLUSIVE request that asks for an SM
      count, committing to a non-empty MPS list, and removing a pod annotated EXCLUSIVE or with no
      mode from an existing record.  Nothing else does. */
  ghost predicate PanicsOn(lookup: MpsLookup, s: State, e: Event) {
    match e
    case ScheduleEvent(req, index) =>
      && req.node.Some? && req.gpu.Some? && req.node.value in s.ledger.nodes && req.gpu.value in index
      && req.mode == Exclusive && req.smRequest.Some?
    case CommitEvent(_, _) =>
      && s.pending.Some?
      && var p := s.pending.value;
         && lookup == AsWritten && p.req.mode == Mps
         && HasGpu(s.ledger, p.sel.node, p.sel.gpu) && GpuAt(s.ledger, p.sel.node, p.sel.gpu).mpsPods != []
    case RemoveEvent(pod, _) => HasRecord(s.ledger, pod) && (pod.mode == Exclusive || pod.mode == NoMode)
    case _ => false
  }

  lemma PanicsExactly(lookup: MpsLookup, s: State, e: Event)
    requires Safe(s) && Enabled(s, e)
    ensures Step(lookup, s, e).None? <==> PanicsOn(lookup, s, e)
  {
    hide Projection, NodeSafe;
    match e {
      case ScheduleEvent(req, index) =>
        AdmissibleShape(req);
        hide CanFitMps, CanFitFastPod, Admissible;
      case CommitEvent(key, pushOk) =>
        var p := s.pending.value;
        var n := s.ledger.nodes[p.sel.node];
        if p.sel.gpu in n.gpus {
          RecordFacts(p.sel.node, n, p.sel.gpu);
          CommitAfterCheck(n, p.sel.gpu, p.req, key, lookup);
          hide CommitOnNode, InFast, ShareFits, Slots.Full;
        }
      case _ =>
    }
  }

  ghost predicate OneMps(n: Node) {
    forall gpu :: gpu in n.gpus ==> |n.gpus[gpu].mpsPods| <= 1
  }

  ghost predicate AtMostOneMps(l: Ledger) {
    forall node :: node in l.nodes ==> OneMps(l.nodes[node])
  }

  lemma CommitOneMps(n: Node, gpu: string, req: Request, key: string)
    requires OneMps(n) && !CommitOnNode(n, gpu, req, key, AsWritten).1.CommitPanics?
    ensures OneMps(CommitOnNode(n, gpu, req, key, AsWritten).0)
  {}

  lemma ReleaseOneMps(n: Node, pod: Pod)
    requires OneMps(n)
    ensures OneMps(ReleaseOnNode(n, pod))
  {}

  lemma StepAtMostOneMps(s: State, e: Event)
    requires AtMostOneMps(s.ledger) && Step(AsWritten, s, e).Some?
    ensures AtMostOneMps(Step(AsWritten, s, e).value.ledger)
  {
    hide Projection, CanFit, CommitOnNode, ReleaseOnNode, EraseFast, FindFast;
    match e {
      case CommitEvent(key, _) =>
        var p := s.pending.value;
        if p.sel.node in s.ledger.nodes {
          CommitOneMps(s.ledger.nodes[p.sel.node], p.sel.gpu, p.req, key);
          hide OneMps;
        }
      case RemoveEvent(pod, _) =>
        if HasRecord(s.ledger, pod) { ReleaseOneMps(s.ledger.nodes[pod.node], pod); }
        hide OneMps;
      case SweepEvent(pod, _) =>
        if HasRecord(s.ledger, pod) { ReleaseOneMps(s.ledger.nodes[pod.node], pod); }
        hide OneMps;
      case _ =>
    }
  }

  /** With the lookup as written, MPS never shares: no run that has not panicked has two MPS pods on
      one GPU. */
  lemma {:induction false} MpsNeverShares(es: seq<Event>, ss: seq<State>, i: nat)
    requires IsRun(AsWritten, es, ss) && i <= |es|
    ensures AtMostOneMps(ss[i].ledger)
  {
    hide Step, AtMostOneMps;
    if i == 0 {
      assert AtMostOneMps(INITIAL.ledger) by { NoMpsInitially(); }
    } else {
      MpsNeverShares(es, ss, i - 1);
      assert Step(AsWritten, ss[i - 1], es[i - 1]) == Some(ss[i]);
      StepAtMostOneMps(ss[i - 1], es[i - 1]);
    }
  }

  lemma NoMpsInitially()
    ensures AtMostOneMps(INITIAL.ledger)
  {}

  /** Repeating a removal on a record still in that shared mode changes nothing, except that a record
      nobody holds may be deleted. */
  lemma RepeatedRemovalIsHarmless(name: string, n: Node, pod: Pod)
    requires NodeSafe(name, n) && pod.gpu in n.gpus
    requires pod.mode == n.gpus[pod.gpu].mode && (pod.mode == FastPod || pod.mode == Mps)
    requires !InFast(n.gpus[pod.gpu].fastPods, pod.key) && !InMps(n.gpus[pod.gpu].mpsPods, pod.key)
    ensures ReleaseOnNode(n, pod) == if Vacant(n.gpus[pod.gpu]) then n.(gpus := n.gpus - {pod.gpu}) else n
  {
    RecordFacts(name, n, pod.gpu);
    hide NodeSafe;
  }

  /** What every run keeps of every record, spelled out: it is keyed by its own UUID; it holds
      FastPods, MPS pods or one exclusive pod, never two of these, and in the mode it is pinned to;
      and its memory in use is the sum over its pods, at most what the device has. */
  lemma RecordLaw(lookup: MpsLookup, es: seq<Event>, ss: seq<State>, i: nat, node: string, gpu: string)
    requires IsRun(lookup, es, ss) && i <= |es| && HasGpu(ss[i].ledger, node, gpu)
    ensures var g := GpuAt(ss[i].ledger, node, gpu);
            && ss[i].ledger.nodes[node].hostName == node && g.uuid == gpu
            && (g.fastPods != [] ==> g.mode == FastPod && g.mpsPods == [] && g.exclusive.None?)
            && (g.mpsPods != [] ==> g.mode == Mps && g.fastPods == [] && g.exclusive.None?)
            && (g.exclusive.Some? ==> g.mode == Exclusive && g.fastPods == [] && g.mpsPods == [])
            && 0 <= g.usageMem == FastMem(g.fastPods) + MpsMem(g.mpsPods)
            && (g.fastPods != [] || g.mpsPods != [] ==> g.usageMem <= g.mem)
  {
    EveryRunIsSafe(lookup, es, ss, i);
    hide IsRun, PendingSafe;
    var n := ss[i].ledger.nodes[node];
    RecordFacts(node, n, gpu);
    HostNameOf(node, n);
    hide NodeSafe;
    MemNonNegative(n.gpus[gpu].fastPods, n.gpus[gpu].mpsPods);
  }

  /** The allocator of a node is exhausted exactly when each of the 1024 ports is reserved by a FastPod in one
      of its records or has leaked. */
  lemma ExhaustedExactly(lookup: MpsLookup, es: seq<Event>, ss: seq<State>, i: nat, name: string)
    requires IsRun(lookup, es, ss) && i <= |es| && name in ss[i].ledger.nodes
    ensures var n := ss[i].ledger.nodes[name];
            n.ports.Full() <==>
              forall port :: GPU_CLIENT_PORT_START <= port < GPU_CLIENT_PORT_START + PORT_RANGE ==>
                PortHeld(n, port) || port - GPU_CLIENT_PORT_START in Leaked(lookup, es, ss, i, name)
  {
    PortsInRun(lookup, es, ss, i, name);
    EveryRunIsSafe(lookup, es, ss, i);
    var leaked := Leaked(lookup, es, ss, i, name);
    hide IsRun, PendingSafe, Leaked;
    var n := ss[i].ledger.nodes[name];
    assert n.ports.size == PORT_RANGE;
    hide NodeSafe, PortHeld;
    if forall port :: GPU_CLIENT_PORT_START <= port < GPU_CLIENT_PORT_START + PORT_RANGE ==>
         PortHeld(n, port) || port - GPU_CLIENT_PORT_START in leaked {
      forall p | 0 <= p < PORT_RANGE
        ensures p in n.ports.used
      {
        var port := p + GPU_CLIENT_PORT_START;
        assert PortHeld(n, port) || port - GPU_CLIENT_PORT_START in leaked;
      }
    }
  }
}
