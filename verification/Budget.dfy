/** The compute budget over whole runs: the exact drift of `Usage`, and what stays within 1. */
module Budget {
  import opened Requests
  import opened PortBitmap
  import opened Ledger
  import opened LedgerSafety
  import opened LedgerRuns

  predicate HasGpu(l: Ledger, node: string, gpu: string) {
    node in l.nodes && gpu in l.nodes[node].gpus
  }

  function GpuAt(l: Ledger, node: string, gpu: string): Gpu
    requires HasGpu(l, node, gpu)
  {
    l.nodes[node].gpus[gpu]
  }

  /** How far `Usage` is from the shares it stands for. */
  ghost function Gap(g: Gpu): real {
    g.usage - ShareSum(g.fastPods)
  }

  // ---------------------------------------------------------------- drift

  lemma CommitGap(n: Node, gpu: string, req: Request, key: string, lookup: MpsLookup, k: string)
    requires k in n.gpus
    ensures var n' := CommitOnNode(n, gpu, req, key, lookup).0;
            k in n'.gpus && Gap(n'.gpus[k]) == Gap(n.gpus[k])
  {
    hide CommitFastPod, CommitMps, ShareSum;
    if k == gpu {
      var g := Pinned(n.gpus[gpu], req.mode);
      CommitFastGap(g, n.ports, req, key);
      CommitMpsGap(g, req, key, lookup);
    }
  }

  lemma CommitMpsGap(g: Gpu, req: Request, key: string, lookup: MpsLookup)
    ensures Gap(CommitMps(g, req, key, lookup).0) == Gap(g)
  {
    hide ShareSum;
  }

  lemma CommitFastGap(g: Gpu, ports: Ports, req: Request, key: string)
    ensures Gap(CommitFastPod(g, ports, req, key).0) == Gap(g)
  {
    var g' := CommitFastPod(g, ports, req, key).0;
    if |g'.fastPods| > |g.fastPods| {
      AppendFast(g.fastPods, g'.fastPods[|g.fastPods|]);
    }
  }

  lemma ReleaseGap(n: Node, pod: Pod, k: string)
    requires k in ReleaseOnNode(n, pod).gpus
    ensures k in n.gpus && Gap(ReleaseOnNode(n, pod).gpus[k]) == Gap(n.gpus[k])
  {
    if pod.gpu in n.gpus {
      var l := n.gpus[pod.gpu].fastPods;
      if InFast(l, pod.key) {
        RemoveFast(l, FindFast(l, pod.key));
      }
      hide RemoveAt, ShareSum;
    }
  }

  /** What one event adds to the gap of a record: re-configuration overwrites the entry's share and
      leaves `Usage` alone, so the gap moves by the old share minus the new one. */
  ghost function DriftOf(s: State, e: Event, node: string, gpu: string): real {
    match e
    case ReconfigureEvent(pod, share, valid, _) =>
      if pod.node == node && pod.gpu == gpu && CanReconfigure(s.ledger, pod, valid) then
        var l := RecordOf(s.ledger, pod).fastPods;
        ShareOf(l[FindFast(l, pod.key)]) - Contribution(share.quotaReq, share.smPartition)
      else 0.0
    case _ => 0.0
  }

  lemma ReconfigureGap(s: State, e: Event, node: string, gpu: string)
    requires e.ReconfigureEvent? && HasGpu(s.ledger, node, gpu)
    ensures var l' := ReconfigurePod(s.ledger, e.pod, e.share, e.valid, e.pushOk);
            && HasGpu(l', node, gpu)
            && Gap(GpuAt(l', node, gpu)) == Gap(GpuAt(s.ledger, node, gpu)) + DriftOf(s, e, node, gpu)
  {
    hide Projection;
    if CanReconfigure(s.ledger, e.pod, e.valid) {
      var l := RecordOf(s.ledger, e.pod).fastPods;
      var i := FindFast(l, e.pod.key);
      UpdateFast(l, i, Reshare(l[i], e.share));
      hide FindFast, ShareSum;
    }
  }

  lemma ReconfigureKeepsRecords(l: Ledger, pod: Pod, share: Share, valid: bool, pushOk: bool, node: string, gpu: string)
    ensures HasGpu(ReconfigurePod(l, pod, share, valid, pushOk), node, gpu) <==> HasGpu(l, node, gpu)
  {
    hide Projection, FindFast;
  }

  lemma CommitStepGap(lookup: MpsLookup, s: State, key: string, pushOk: bool, node: string, gpu: string)
    requires s.pending.Some?
    ensures var l' := Commit(s.ledger, s.pending.value.sel, s.pending.value.req, key, pushOk, lookup).0;
            && (HasGpu(l', node, gpu) <==> HasGpu(s.ledger, node, gpu))
            && (HasGpu(l', node, gpu) ==> Gap(GpuAt(l', node, gpu)) == Gap(GpuAt(s.ledger, node, gpu)))
  {
    hide Projection, CommitOnNode, Gap;
    var p := s.pending.value;
    if p.sel.node in s.ledger.nodes {
      CommitKeepsKeys(s.ledger.nodes[p.sel.node], p.sel.gpu, p.req, key, lookup);
      if p.sel.node == node && HasGpu(s.ledger, node, gpu) {
        CommitGap(s.ledger.nodes[node], p.sel.gpu, p.req, key, lookup, gpu);
      }
    }
  }

  lemma ReleaseStepGap(l: Ledger, pod: Pod, pushes: bool, pushOk: bool, node: string, gpu: string)
    requires HasGpu(Release(l, pod, pushes, pushOk), node, gpu)
    ensures HasGpu(l, node, gpu) && Gap(GpuAt(Release(l, pod, pushes, pushOk), node, gpu)) == Gap(GpuAt(l, node, gpu))
  {
    hide Projection, ReleaseOnNode, Gap, EraseFast;
    if HasRecord(l, pod) && pod.node == node {
      ReleaseGap(l.nodes[node], pod, gpu);
    }
  }

  /** One event moves the gap of a record by exactly its drift; a new record starts at zero. */
  lemma StepGap(lookup: MpsLookup, s: State, e: Event, node: string, gpu: string)
    requires Step(lookup, s, e).Some? && HasGpu(Step(lookup, s, e).value.ledger, node, gpu)
    ensures var g' := GpuAt(Step(lookup, s, e).value.ledger, node, gpu);
            if HasGpu(s.ledger, node, gpu) then Gap(g') == Gap(GpuAt(s.ledger, node, gpu)) + DriftOf(s, e, node, gpu)
            else Gap(g') == 0.0
  {
    hide Commit, Release, CanFit, ShareSum, ReconfigurePod;
    match e {
      case RegisterEvent(name) =>
      case ScheduleEvent(req, index) =>
        assert ShareSum([]) == 0.0 by { EmptyShares(); }
      case CommitEvent(key, pushOk) =>
        CommitStepGap(lookup, s, key, pushOk, node, gpu);
      case RemoveEvent(pod, pushOk) =>
        ReleaseStepGap(s.ledger, pod, Found(s.ledger, pod), pushOk, node, gpu);
      case SweepEvent(pod, pushOk) =>
        ReleaseStepGap(s.ledger, pod, true, pushOk, node, gpu);
      case ReconfigureEvent(pod, share, valid, pushOk) =>
        ReconfigureKeepsRecords(s.ledger, pod, share, valid, pushOk, node, gpu);
        ReconfigureGap(s, e, node, gpu);
    }
  }

  lemma EmptyShares()
    ensures ShareSum([]) == 0.0
  {}

  lemma CommitKeepsKeys(n: Node, gpu: string, req: Request, key: string, lookup: MpsLookup)
    ensures CommitOnNode(n, gpu, req, key, lookup).0.gpus.Keys == n.gpus.Keys
  {
    hide CommitMps, CommitFastPod;
  }

  /** The drift a record has gathered since it was last created. */
  ghost function DriftSince(lookup: MpsLookup, es: seq<Event>, ss: seq<State>, i: nat, node: string, gpu: string): real
    requires IsRun(lookup, es, ss) && i <= |es|
    decreases i
  {
    if i == 0 || !HasGpu(ss[i].ledger, node, gpu) || !HasGpu(ss[i - 1].ledger, node, gpu) then 0.0
    else DriftSince(lookup, es, ss, i - 1, node, gpu) + DriftOf(ss[i - 1], es[i - 1], node, gpu)
  }

  /** The exact drift law: in every run, `Usage` minus the shares of a record's FastPods is the sum of
      old minus new shares over the re-configurations since the record was created. */
  lemma {:induction false} UsageDriftsExactly(
    lookup: MpsLookup, es: seq<Event>, ss: seq<State>, i: nat, node: string, gpu: string)
    requires IsRun(lookup, es, ss) && i <= |es| && HasGpu(ss[i].ledger, node, gpu)
    ensures Gap(GpuAt(ss[i].ledger, node, gpu)) == DriftSince(lookup, es, ss, i, node, gpu)
    decreases i
  {
    hide Step, Gap, DriftOf;
    if i > 0 {
      assert Step(lookup, ss[i - 1], es[i - 1]) == Some(ss[i]);
      StepGap(lookup, ss[i - 1], es[i - 1], node, gpu);
      if HasGpu(ss[i - 1].ledger, node, gpu) {
        UsageDriftsExactly(lookup, es, ss, i - 1, node, gpu);
      }
    }
  }

  // ---------------------------------------------------------------- staying within the budget

  ghost predicate NonNegative(l: seq<FastPodReq>) {
    forall i :: 0 <= i < |l| ==> ShareOf(l[i]) >= 0.0
  }

  ghost predicate GpuBudget(g: Gpu) {
    NonNegative(g.fastPods) && g.usage <= 1.0
  }

  ghost predicate NodeBudget(n: Node) {
    forall gpu :: gpu in n.gpus ==> GpuBudget(n.gpus[gpu])
  }

  /** No record is over its budget, and the pending share still fits if its record is there. */
  ghost predicate InBudget(s: State) {
    && (forall name :: name in s.ledger.nodes ==> NodeBudget(s.ledger.nodes[name]))
    && (s.pending.Some? ==>
          var p := s.pending.value;
          HasGpu(s.ledger, p.sel.node, p.sel.gpu) ==> ShareFits(p.req, GpuAt(s.ledger, p.sel.node, p.sel.gpu)))
  }

  /** Re-configurations write the FaSTPod's annotations unchecked; these are the ones whose share is
      not negative. */
  predicate SoundShare(e: Event) {
    e.ReconfigureEvent? ==> Contribution(e.share.quotaReq, e.share.smPartition) >= 0.0
  }

  lemma CommitGpuBudget(g: Gpu, ports: Ports, req: Request, key: string)
    requires GpuBudget(g) && Admissible(req) && req.mode == FastPod
    ensures GpuBudget(CommitFastPod(g, ports, req, key).0)
  {
    AdmissibleShape(req);
  }

  lemma CommitNodeBudget(n: Node, gpu: string, req: Request, key: string, lookup: MpsLookup)
    requires NodeBudget(n) && Admissible(req)
    ensures NodeBudget(CommitOnNode(n, gpu, req, key, lookup).0)
  {
    AdmissibleShape(req);
    if gpu in n.gpus {
      var g := Pinned(n.gpus[gpu], req.mode);
      assert GpuBudget(g);
      if req.mode == FastPod { CommitGpuBudget(g, n.ports, req, key); }
      hide CommitFastPod, NonNegative, Admissible;
    }
  }

  lemma EraseBudget(n: Node, gpu: string, key: string)
    requires gpu in n.gpus && GpuBudget(n.gpus[gpu])
    ensures var g := EraseFast(n, gpu, key).gpus[gpu];
            GpuBudget(g) && g.usage <= n.gpus[gpu].usage && g.mode == n.gpus[gpu].mode
    ensures var g := EraseMps(n, gpu, key).gpus[gpu];
            GpuBudget(g) && g.usage <= n.gpus[gpu].usage && g.mode == n.gpus[gpu].mode
  {
    var l := n.gpus[gpu].fastPods;
    if InFast(l, key) {
      RemoveAtElements(l, FindFast(l, key));
    }
    hide RemoveAt;
  }

  /** A removal never raises `Usage` of a record whose shares are not negative. */
  lemma ReleaseNodeBudget(n: Node, pod: Pod, k: string)
    requires NodeBudget(n) && k in ReleaseOnNode(n, pod).gpus
    ensures var g := ReleaseOnNode(n, pod).gpus[k];
            k in n.gpus && GpuBudget(g) && g.usage <= n.gpus[k].usage && g.mode == n.gpus[k].mode
  {
    hide EraseFast, EraseMps, GpuBudget;
    if pod.gpu in n.gpus {
      EraseKeepsOthers(n, pod.gpu, pod.key);
      match pod.mode {
        case FastPod => EraseBudget(n, pod.gpu, pod.key);
        case Mps => EraseBudget(n, pod.gpu, pod.key);
        case Exclusive =>
        case NoMode =>
      }
    }
  }

  lemma ReleaseStepBudget(s: State, pod: Pod, pushes: bool, pushOk: bool)
    requires InBudget(s)
    ensures InBudget(s.(ledger := Release(s.ledger, pod, pushes, pushOk)))
  {
    hide Projection, ReleaseOnNode, EraseFast, GpuBudget;
    if HasRecord(s.ledger, pod) {
      var n := s.ledger.nodes[pod.node];
      forall k | k in ReleaseOnNode(n, pod).gpus
        ensures var g := ReleaseOnNode(n, pod).gpus[k];
                k in n.gpus && GpuBudget(g) && g.usage <= n.gpus[k].usage && g.mode == n.gpus[k].mode
      {
        ReleaseNodeBudget(n, pod, k);
      }
    }
  }

  lemma WithRecordBudget(n: Node, gpu: string, d: Device)
    requires NodeBudget(n)
    ensures NodeBudget(WithRecord(n, gpu, d))
  {}

  lemma ScheduleBudget(lookup: MpsLookup, s: State, req: Request, index: map<string, Device>)
    requires Safe(s) && Enabled(s, ScheduleEvent(req, index)) && InBudget(s)
    ensures var r := Step(lookup, s, ScheduleEvent(req, index));
            r.Some? ==> InBudget(r.value)
  {
    hide RoomFor, NodeSafe, GpuSafe, CanFit, ShareFits, WithRecord, NodeBudget, Admissible;
    if req.node.Some? && req.gpu.Some? && req.node.value in s.ledger.nodes && req.gpu.value in index {
      var name, gpu := req.node.value, req.gpu.value;
      var n := WithRecord(s.ledger.nodes[name], gpu, index[gpu]);
      WithRecordSafe(name, s.ledger.nodes[name], gpu, index[gpu]);
      WithRecordBudget(s.ledger.nodes[name], gpu, index[gpu]);
      HostNameOf(name, n);
      FitsExactly(req, gpu, n.gpus[gpu]);
    }
  }

  lemma CommitBudget(lookup: MpsLookup, s: State, key: string, pushOk: bool)
    requires Safe(s) && s.pending.Some? && InBudget(s)
    ensures var r := Step(lookup, s, CommitEvent(key, pushOk));
            r.Some? ==> InBudget(r.value)
  {
    hide CommitOnNode, Projection, NodeSafe, NodeBudget, Admissible, RoomFor;
    var p := s.pending.value;
    CommitNodeBudget(s.ledger.nodes[p.sel.node], p.sel.gpu, p.req, key, lookup);
  }

  lemma ReconfigureBudget(s: State, pod: Pod, share: Share, valid: bool, pushOk: bool)
    requires InBudget(s) && Contribution(share.quotaReq, share.smPartition) >= 0.0
    ensures InBudget(s.(ledger := ReconfigurePod(s.ledger, pod, share, valid, pushOk)))
  {
    hide Projection, FindFast;
  }

  lemma StepBudget(lookup: MpsLookup, s: State, e: Event)
    requires Safe(s) && Enabled(s, e) && InBudget(s) && SoundShare(e)
    ensures Step(lookup, s, e).Some? ==> InBudget(Step(lookup, s, e).value)
  {
    hide Safe, Schedule, Commit, Release, ReconfigurePod, NodeBudget, ShareFits;
    match e {
      case RegisterEvent(name) => RegisterBudget(s, name);
      case ScheduleEvent(req, index) => ScheduleBudget(lookup, s, req, index);
      case CommitEvent(key, pushOk) => CommitBudget(lookup, s, key, pushOk);
      case RemoveEvent(pod, pushOk) =>
        ReleaseStepBudget(s, pod, Found(s.ledger, pod), pushOk);
      case SweepEvent(pod, pushOk) => ReleaseStepBudget(s, pod, true, pushOk);
      case ReconfigureEvent(pod, share, valid, pushOk) => ReconfigureBudget(s, pod, share, valid, pushOk);
    }
  }

  lemma RegisterBudget(s: State, name: string)
    requires InBudget(s)
    ensures InBudget(s.(ledger := RegisterNode(s.ledger, name)))
  {}

  lemma {:induction false} BudgetAlong(lookup: MpsLookup, es: seq<Event>, ss: seq<State>, i: nat)
    requires IsRun(lookup, es, ss) && i <= |es|
    requires forall j :: 0 <= j < i ==> SoundShare(es[j])
    ensures InBudget(ss[i])
  {
    hide Step, Safe, SoundShare;
    if i > 0 {
      BudgetAlong(lookup, es, ss, i - 1);
      EveryRunIsSafe(lookup, es, ss, i - 1);
      assert Step(lookup, ss[i - 1], es[i - 1]) == Some(ss[i]);
      StepBudget(lookup, ss[i - 1], es[i - 1]);
    }
  }

  // ---------------------------------------------------------------- what the caller can count on

  lemma {:induction false} NonNegativeSum(l: seq<FastPodReq>)
    requires NonNegative(l)
    ensures ShareSum(l) >= 0.0
  {
    if l != [] {
      NonNegativeSum(l[1..]);
    }
  }

  lemma {:induction false} NoDrift(lookup: MpsLookup, es: seq<Event>, ss: seq<State>, i: nat, node: string, gpu: string)
    requires IsRun(lookup, es, ss) && i <= |es|
    requires forall j :: 0 <= j < i ==> !es[j].ReconfigureEvent?
    ensures DriftSince(lookup, es, ss, i, node, gpu) == 0.0
  {
    if i > 0 {
      NoDrift(lookup, es, ss, i - 1, node, gpu);
    }
  }

  /** Without re-configurations `Usage` is the sum of the admitted shares and lies in [0, 1]. */
  lemma UsageIsTheSharesInUse(lookup: MpsLookup, es: seq<Event>, ss: seq<State>, i: nat, node: string, gpu: string)
    requires IsRun(lookup, es, ss) && i <= |es| && HasGpu(ss[i].ledger, node, gpu)
    requires forall j :: 0 <= j < i ==> !es[j].ReconfigureEvent?
    ensures var g := GpuAt(ss[i].ledger, node, gpu);
            g.usage == ShareSum(g.fastPods) && 0.0 <= g.usage <= 1.0
  {
    hide Step;
    UsageDriftsExactly(lookup, es, ss, i, node, gpu);
    NoDrift(lookup, es, ss, i, node, gpu);
    BudgetAlong(lookup, es, ss, i);
    NonNegativeSum(GpuAt(ss[i].ledger, node, gpu).fastPods);
  }

  /** The shares of a record's FastPods outgrow the device exactly when `Usage` less the drift does; and
      where no re-configured share is negative, only if the re-configurations raised shares. */
  lemma OversoldExactly(lookup: MpsLookup, es: seq<Event>, ss: seq<State>, i: nat, node: string, gpu: string)
    requires IsRun(lookup, es, ss) && i <= |es| && HasGpu(ss[i].ledger, node, gpu)
    ensures var g := GpuAt(ss[i].ledger, node, gpu);
            var drift := DriftSince(lookup, es, ss, i, node, gpu);
            && (ShareSum(g.fastPods) <= 1.0 <==> g.usage - drift <= 1.0)
            && ((forall j :: 0 <= j < i ==> SoundShare(es[j])) && ShareSum(g.fastPods) > 1.0 ==> drift < 0.0)
  {
    UsageDriftsExactly(lookup, es, ss, i, node, gpu);
    if forall j :: 0 <= j < i ==> SoundShare(es[j]) {
      BudgetAlong(lookup, es, ss, i);
    }
    hide IsRun, DriftSince, SoundShare;
  }
}
