/** The life of a record, stated on its fields: what it is made from, what a grant and a re-configuration write
    into it, and when a removal ends it. */
module Records {
  import opened Requests
  import opened PortBitmap
  import opened Ledger
  import opened LedgerSafety
  import opened LedgerRuns
  import opened Reservations
  import opened Budget
  import opened Admission
  import opened Mirror
  import opened Outcomes

  /** The limits that a record takes from its device. */
  predicate SameLimits(g: Gpu, g': Gpu) {
    g.uuid == g'.uuid && g.mem == g'.mem && g.smCount == g'.smCount && g.smPercentage == g'.smPercentage
  }

  // ---------------------------------------------------------------- grant

  /** What a grant writes: it pins a mode that was not set, and then a new FASTPOD pod goes to the end of the list with
      its request as it was made, and its share and memory are added; a new MPS pod likewise with its memory; an
      EXCLUSIVE pod takes the record; a pod that is there already changes nothing. */
  lemma GrantWrites(g: Gpu, ports: Ports, req: Request, key: string, lookup: MpsLookup)
    requires Admissible(req) && CommitOnGpu(g, ports, req, key, lookup).2.Granted?
    ensures var (g', _, r) := CommitOnGpu(g, ports, req, key, lookup);
            && SameLimits(g, g') && (g'.mode == if g.mode == NoMode then req.mode else g.mode)
            && match req.mode
               case FastPod =>
                 && req.fast.Some? && g'.mpsPods == g.mpsPods && g'.exclusive == g.exclusive
                 && var share := req.fast.value;
                    if InFast(g.fastPods, key) then
                      g'.fastPods == g.fastPods && g'.usage == g.usage && g'.usageMem == g.usageMem
                    else
                      && g'.fastPods == g.fastPods + [FastPodReq(
                           key, share.quotaReq, share.quotaLimit, share.smPartition, req.memory, r.port)]
                      && g'.usage == g.usage + share.quotaReq * (share.smPartition as real) / 100.0
                      && g'.usageMem == Wrap64(g.usageMem + req.memory)
               case Mps =>
                 && g'.fastPods == g.fastPods && g'.exclusive == g.exclusive && g'.usage == g.usage
                 && if InMps(g.mpsPods, key) then g'.mpsPods == g.mpsPods && g'.usageMem == g.usageMem
                    else
                      && g'.mpsPods == g.mpsPods + [MpsPodReq(key, req.memory)]
                      && g'.usageMem == Wrap64(g.usageMem + req.memory)
               case Exclusive => g' == g.(mode := g'.mode, exclusive := Some(key))
               case NoMode => false
  {
    AdmissibleShape(req);
    var p := Pinned(g, req.mode);
    match req.mode {
      case FastPod =>
        var share := req.fast.value;
        assert Contribution(share.quotaReq, share.smPartition) == share.quotaReq * (share.smPartition as real) / 100.0;
        hide Contribution, FindFast, Slots.Grant, Admissible;
      case Mps => hide FindMps, Admissible;
      case Exclusive =>
    }
  }

  // ---------------------------------------------------------------- removal

  /** Who else is in the list that the annotation names, or for EXCLUSIVE and no mode whether the record stays. */
  ghost predicate OthersStay(g: Gpu, mode: Mode, key: string) {
    match mode
    case FastPod => exists e :: e in g.fastPods && e.key != key
    case Mps => exists e :: e in g.mpsPods && e.key != key
    case Exclusive => false
    case NoMode => true
  }

  /** A record without the pod: the entry with its key is gone from the list the annotation names, and nothing
      else but the memory and the share in use is different. */
  ghost predicate WithoutPod(g: Gpu, g': Gpu, mode: Mode, key: string) {
    && SameLimits(g, g') && g'.mode == g.mode && g'.exclusive == g.exclusive
    && (forall e :: e in g'.fastPods <==> e in g.fastPods && !(mode == FastPod && e.key == key))
    && (forall e :: e in g'.mpsPods <==> e in g.mpsPods && !(mode == Mps && e.key == key))
  }

  lemma ErasedFastRecord(name: string, n: Node, gpu: string, key: string)
    requires NodeSafe(name, n) && gpu in n.gpus
    ensures WithoutPod(n.gpus[gpu], EraseFast(n, gpu, key).gpus[gpu], FastPod, key)
  {
    RecordFacts(name, n, gpu);
    hide NodeSafe, DistinctPorts, SlotsAt, SlotsOf;
    var l := n.gpus[gpu].fastPods;
    if InFast(l, key) { EraseFastKey(l, key); } else { NotListed(l, key); }
    hide RemoveAt, FindFast, FastListOk;
  }

  lemma NotListed(l: seq<FastPodReq>, key: string)
    requires !InFast(l, key)
    ensures forall e :: e in l ==> e.key != key
  {}

  lemma ErasedMpsRecord(name: string, n: Node, gpu: string, key: string)
    requires NodeSafe(name, n) && gpu in n.gpus
    ensures WithoutPod(n.gpus[gpu], EraseMps(n, gpu, key).gpus[gpu], Mps, key)
  {
    RecordFacts(name, n, gpu);
    hide NodeSafe, DistinctPorts, SlotsAt, SlotsOf;
    var l := n.gpus[gpu].mpsPods;
    if InMps(l, key) { EraseMpsKey(l, key); } else { assert forall e :: e in l ==> e.key != key; }
    hide RemoveAt, FindMps, MpsListOk;
  }

  lemma SomeoneLeft<T>(l: seq<T>)
    ensures l != [] <==> exists e :: e in l
  {
    if l != [] { assert l[0] in l; }
  }

  /** Removal, record by record, on a safe node: the record that the pod names stays if and only if another pod is
      in the list its annotation names, and is then the same without that pod; no other record changes. */
  lemma RemovalExactly(name: string, n: Node, pod: Pod)
    requires NodeSafe(name, n) && pod.gpu in n.gpus
    ensures var n' := ReleaseOnNode(n, pod);
            && n'.hostName == n.hostName
            && (forall k :: k != pod.gpu ==>
                  (k in n'.gpus <==> k in n.gpus) && (k in n.gpus ==> n'.gpus[k] == n.gpus[k]))
            && (pod.gpu in n'.gpus <==> OthersStay(n.gpus[pod.gpu], pod.mode, pod.key))
            && (pod.gpu in n'.gpus ==> WithoutPod(n.gpus[pod.gpu], n'.gpus[pod.gpu], pod.mode, pod.key))
            && (pod.gpu in n'.gpus && pod.mode == FastPod ==> n'.gpus[pod.gpu].fastPods != [])
            && (pod.gpu in n'.gpus && pod.mode == Mps ==> n'.gpus[pod.gpu].mpsPods != [])
  {
    hide NodeSafe, EraseFast, EraseMps;
    EraseKeepsOthers(n, pod.gpu, pod.key);
    EraseKeepsName(n, pod.gpu, pod.key);
    match pod.mode {
      case FastPod =>
        ErasedFastRecord(name, n, pod.gpu, pod.key);
        SomeoneLeft(EraseFast(n, pod.gpu, pod.key).gpus[pod.gpu].fastPods);
        hide SameLimits;
      case Mps =>
        ErasedMpsRecord(name, n, pod.gpu, pod.key);
        SomeoneLeft(EraseMps(n, pod.gpu, pod.key).gpus[pod.gpu].mpsPods);
        hide SameLimits;
      case Exclusive =>
      case NoMode =>
    }
  }

  lemma EraseKeepsName(n: Node, gpu: string, key: string)
    requires gpu in n.gpus
    ensures EraseFast(n, gpu, key).hostName == n.hostName == EraseMps(n, gpu, key).hostName
  {}

  /** The same in every run, and what it is good for: a GPU whose last FastPod, or last MPS pod, is removed has no
      record left, so that the next check looks at its device alone and any mode may have it. */
  lemma FreedGpu(lookup: MpsLookup, es: seq<Event>, ss: seq<State>, i: nat, req: Request, index: map<string, Device>)
    requires IsRun(lookup, es, ss) && i < |es| && (es[i].RemoveEvent? || es[i].SweepEvent?)
    requires HasRecord(ss[i].ledger, es[i].pod) && Admissible(req) && Keyed(index)
    requires req.node == Some(es[i].pod.node) && req.gpu == Some(es[i].pod.gpu) && es[i].pod.gpu in index
    requires !(req.mode == Exclusive && req.smRequest.Some?)
    ensures var pod := es[i].pod;
            var l := ss[i + 1].ledger;
            && (HasGpu(l, pod.node, pod.gpu) <==> OthersStay(RecordOf(ss[i].ledger, pod), pod.mode, pod.key))
            && (HasGpu(l, pod.node, pod.gpu) && pod.mode == FastPod ==> GpuAt(l, pod.node, pod.gpu).fastPods != [])
            && (HasGpu(l, pod.node, pod.gpu) && pod.mode == Mps ==> GpuAt(l, pod.node, pod.gpu).mpsPods != [])
            && (!HasGpu(l, pod.node, pod.gpu) ==>
                  Schedule(l, req, index).1 ==
                    if DeviceSuffices(req, index[pod.gpu]) then Selected(Selection(pod.node, pod.gpu)) else Refused)
  {
    var pod, s := es[i].pod, ss[i];
    EveryRunIsSafe(lookup, es, ss, i);
    EveryRunIsSafe(lookup, es, ss, i + 1);
    assert Step(lookup, s, es[i]) == Some(ss[i + 1]);
    RemovalExactly(pod.node, s.ledger.nodes[pod.node], pod);
    StepReleases(lookup, s, es[i]);
    ScheduleSelectsExactly(ss[i + 1].ledger, req, index);
    hide IsRun, Step, NodeSafe, PendingSafe, Schedule, ReleaseOnNode, Admissible;
    hide WithoutPod, OthersStay, DeviceSuffices;
  }

  lemma StepReleases(lookup: MpsLookup, s: State, e: Event)
    requires (e.RemoveEvent? || e.SweepEvent?) && HasRecord(s.ledger, e.pod) && Step(lookup, s, e).Some?
    ensures Step(lookup, s, e).value.ledger.nodes ==
              s.ledger.nodes[e.pod.node := ReleaseOnNode(s.ledger.nodes[e.pod.node], e.pod)]
  {
    ReleaseNodes(s.ledger, e.pod, if e.SweepEvent? then true else Found(s.ledger, e.pod), e.pushOk);
    hide ReleaseOnNode, Release;
  }

  // ---------------------------------------------------------------- the limits of a record

  lemma ReleaseLimits(name: string, n: Node, pod: Pod, k: string)
    requires NodeSafe(name, n) && k in ReleaseOnNode(n, pod).gpus
    ensures k in n.gpus && SameLimits(n.gpus[k], ReleaseOnNode(n, pod).gpus[k])
  {
    if pod.gpu in n.gpus { RemovalExactly(name, n, pod); }
  }

  lemma CommitLimits(n: Node, gpu: string, req: Request, key: string, lookup: MpsLookup, k: string)
    requires k in n.gpus
    ensures var n' := CommitOnNode(n, gpu, req, key, lookup).0;
            k in n'.gpus && SameLimits(n.gpus[k], n'.gpus[k])
  {
    if k == gpu {
      var g := Pinned(n.gpus[gpu], req.mode);
      CommitListLimits(g, n.ports, req, key, lookup);
    }
    hide CommitFastPod, CommitMps;
  }

  lemma CommitListLimits(g: Gpu, ports: Ports, req: Request, key: string, lookup: MpsLookup)
    ensures SameLimits(g, CommitFastPod(g, ports, req, key).0) && SameLimits(g, CommitMps(g, req, key, lookup).0)
  {
    hide FindFast, FindMps, Slots.Grant, Contribution;
  }

  lemma ReleaseStepLimits(l: Ledger, pod: Pod, pushes: bool, pushOk: bool, node: string, gpu: string)
    requires LedgerSafe(l) && HasGpu(Release(l, pod, pushes, pushOk), node, gpu)
    ensures HasGpu(l, node, gpu) && SameLimits(GpuAt(l, node, gpu), GpuAt(Release(l, pod, pushes, pushOk), node, gpu))
  {
    hide Projection, ReleaseOnNode, EraseFast, NodeSafe, SameLimits;
    if HasRecord(l, pod) && pod.node == node {
      ReleaseLimits(node, l.nodes[node], pod, gpu);
    } else if HasGpu(l, node, gpu) {
      LimitsStay(GpuAt(l, node, gpu));
    }
  }

  lemma LimitsStay(g: Gpu)
    ensures SameLimits(g, g)
  {}

  lemma CommitStepLimits(lookup: MpsLookup, s: State, key: string, pushOk: bool, node: string, gpu: string)
    requires s.pending.Some?
    ensures var l' := Commit(s.ledger, s.pending.value.sel, s.pending.value.req, key, pushOk, lookup).0;
            HasGpu(l', node, gpu) ==>
              HasGpu(s.ledger, node, gpu) && SameLimits(GpuAt(s.ledger, node, gpu), GpuAt(l', node, gpu))
  {
    hide Projection, CommitOnNode, SameLimits;
    var p := s.pending.value;
    if HasGpu(s.ledger, node, gpu) { LimitsStay(GpuAt(s.ledger, node, gpu)); }
    if p.sel.node in s.ledger.nodes {
      CommitKeepsKeys(s.ledger.nodes[p.sel.node], p.sel.gpu, p.req, key, lookup);
      if p.sel.node == node && HasGpu(s.ledger, node, gpu) {
        CommitLimits(s.ledger.nodes[node], p.sel.gpu, p.req, key, lookup, gpu);
      }
    }
  }

  lemma ReconfigureLimits(l: Ledger, pod: Pod, share: Share, valid: bool, pushOk: bool, node: string, gpu: string)
    requires HasGpu(ReconfigurePod(l, pod, share, valid, pushOk), node, gpu)
    ensures HasGpu(l, node, gpu)
    ensures SameLimits(GpuAt(l, node, gpu), GpuAt(ReconfigurePod(l, pod, share, valid, pushOk), node, gpu))
  {
    hide Projection, FindFast;
  }

  /** The limits of a record: those of the device that was reported when the record was added. */
  ghost predicate HasLimitsOf(g: Gpu, d: Device) {
    && g.uuid == d.uuid && g.smCount == d.smCount && g.smPercentage == d.smPercentage
    && (d.memoryBytes <= MAX_INT64 ==> g.mem == d.memoryBytes) && (d.memoryBytes > MAX_INT64 ==> g.mem < 0)
  }

  /** One event keeps the limits of a record; only a check adds one, with the limits of its device. */
  lemma StepLimits(lookup: MpsLookup, s: State, e: Event, node: string, gpu: string)
    requires Safe(s) && Step(lookup, s, e).Some? && HasGpu(Step(lookup, s, e).value.ledger, node, gpu)
    ensures var g := GpuAt(Step(lookup, s, e).value.ledger, node, gpu);
            if HasGpu(s.ledger, node, gpu) then SameLimits(GpuAt(s.ledger, node, gpu), g)
            else e.ScheduleEvent? && gpu in e.index && HasLimitsOf(g, e.index[gpu])
  {
    hide Commit, Release, Schedule, ReconfigurePod, LedgerSafe, PendingSafe;
    match e {
      case RegisterEvent(name) =>
      case ScheduleEvent(req, index) => ScheduleAddsVacant(s.ledger, req, index);
      case CommitEvent(key, pushOk) => CommitStepLimits(lookup, s, key, pushOk, node, gpu);
      case RemoveEvent(pod, pushOk) => ReleaseStepLimits(s.ledger, pod, Found(s.ledger, pod), pushOk, node, gpu);
      case SweepEvent(pod, pushOk) => ReleaseStepLimits(s.ledger, pod, true, pushOk, node, gpu);
      case ReconfigureEvent(pod, share, valid, pushOk) =>
        ReconfigureLimits(s.ledger, pod, share, valid, pushOk, node, gpu);
    }
  }

  /** The event that added the record which a GPU has in state `i`. */
  ghost function AddedBy(ss: seq<State>, i: nat, node: string, gpu: string): (k: nat)
    requires i < |ss| && HasGpu(ss[i].ledger, node, gpu)
    ensures k <= i
    decreases i
  {
    if i == 0 || !HasGpu(ss[i - 1].ledger, node, gpu) then (if i == 0 then 0 else i - 1)
    else AddedBy(ss, i - 1, node, gpu)
  }

  /** In every run, for as long as a record lives, its limits are those of the device that the configurator
      reported to the check which added it. */
  lemma {:induction false} LimitsAreTheDevices(
    lookup: MpsLookup, es: seq<Event>, ss: seq<State>, i: nat, node: string, gpu: string)
    requires IsRun(lookup, es, ss) && i <= |es| && HasGpu(ss[i].ledger, node, gpu)
    ensures var k := AddedBy(ss, i, node, gpu);
            && k < i && es[k].ScheduleEvent? && gpu in es[k].index
            && HasLimitsOf(GpuAt(ss[i].ledger, node, gpu), es[k].index[gpu])
    decreases i
  {
    hide Step, Safe, Enabled;
    assert i > 0;
    assert Step(lookup, ss[i - 1], es[i - 1]) == Some(ss[i]);
    EveryRunIsSafe(lookup, es, ss, i - 1);
    StepLimits(lookup, ss[i - 1], es[i - 1], node, gpu);
    if HasGpu(ss[i - 1].ledger, node, gpu) {
      LimitsAreTheDevices(lookup, es, ss, i - 1, node, gpu);
    }
  }

  // ---------------------------------------------------------------- re-configuration

  /** The list with the share of one pod written over. */
  ghost predicate Rewritten(l: seq<FastPodReq>, l': seq<FastPodReq>, key: string, share: Share) {
    && |l'| == |l|
    && forall j :: 0 <= j < |l| ==>
         && l'[j].key == l[j].key && l'[j].memory == l[j].memory && l'[j].port == l[j].port
         && if l[j].key == key then
              && l'[j].qtRequest == share.quotaReq && l'[j].qtLimit == share.quotaLimit
              && l'[j].smPartition == share.smPartition
            else l'[j] == l[j]
  }

  lemma RewritesOne(l: seq<FastPodReq>, key: string, share: Share)
    requires FastListOk(l) && InFast(l, key)
    ensures var i := FindFast(l, key);
            Rewritten(l, l[i := Reshare(l[i], share)], key, share)
  {}

  /** Re-configuration goes through exactly for a valid pod that its record lists; it then writes the request, the
      limit and the partition of that one entry and nothing else of the ledger, and a push that gets
      through hands exactly that list to the node. */
  lemma ReconfigureExactly(l: Ledger, pod: Pod, share: Share, valid: bool, pushOk: bool)
    requires LedgerSafe(l)
    ensures var l' := ReconfigurePod(l, pod, share, valid, pushOk);
            if valid && HasGpu(l, pod.node, pod.gpu) && InFast(GpuAt(l, pod.node, pod.gpu).fastPods, pod.key) then
              && HasGpu(l', pod.node, pod.gpu)
              && var g, g' := GpuAt(l, pod.node, pod.gpu), GpuAt(l', pod.node, pod.gpu);
                 && Rewritten(g.fastPods, g'.fastPods, pod.key, share) && g' == g.(fastPods := g'.fastPods)
                 && l'.nodes == l.nodes[pod.node := l.nodes[pod.node].(gpus := l.nodes[pod.node].gpus[pod.gpu := g'])]
                 && l'.pushed.Keys == l.pushed.Keys + (if pushOk then {(pod.node, pod.gpu)} else {})
                 && (forall k :: k in l.pushed && !(pushOk && k == (pod.node, pod.gpu)) ==> l'.pushed[k] == l.pushed[k])
                 && (pushOk ==> Lists(LastPushed(l', pod.node, pod.gpu), g'.fastPods))
            else l' == l
  {
    hide NodeSafe, Projection, Lists, Rewritten, InFast;
    if valid && HasGpu(l, pod.node, pod.gpu) && InFast(GpuAt(l, pod.node, pod.gpu).fastPods, pod.key) {
      var n := l.nodes[pod.node];
      var g := n.gpus[pod.gpu];
      RecordFacts(pod.node, n, pod.gpu);
      assert Found(l, pod) by { FoundMeans(l, pod); }
      RewritesOne(g.fastPods, pod.key, share);
      RangeAfter(l, pod, share);
      var l2 := g.fastPods[FindFast(g.fastPods, pod.key) := Reshare(g.fastPods[FindFast(g.fastPods, pod.key)], share)];
      ProjectionLists(l2);
      hide FindFast, Reshare, FastListOk, MpsListOk, DistinctPorts, SlotsAt, SlotsOf, InRange;
    } else {
      assert !CanReconfigure(l, pod, valid) by { FoundMeans(l, pod); }
    }
  }

  lemma FoundMeans(l: Ledger, pod: Pod)
    ensures Found(l, pod) <==> HasGpu(l, pod.node, pod.gpu) && InFast(GpuAt(l, pod.node, pod.gpu).fastPods, pod.key)
  {}

  lemma RangeAfter(l: Ledger, pod: Pod, share: Share)
    requires LedgerSafe(l) && HasGpu(l, pod.node, pod.gpu) && InFast(GpuAt(l, pod.node, pod.gpu).fastPods, pod.key)
    ensures var pods := GpuAt(l, pod.node, pod.gpu).fastPods;
            var i := FindFast(pods, pod.key);
            InRange(pods[i := Reshare(pods[i], share)])
  {
    PortsInRange(State(l, None), pod.node, pod.gpu);
    hide LedgerSafe, FindFast;
  }
}
