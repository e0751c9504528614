/** What a commit can still run into after its check has passed, whatever happens in between. */
module Admission {
  import opened Requests
  import opened PortBitmap
  import opened Ledger
  import opened LedgerSafety
  import opened LedgerRuns
  import opened Budget

  // ---------------------------------------------------------------- on one node

  lemma CommitFastFails(g: Gpu, ports: Ports, req: Request, key: string)
    requires req.fast.Some? && req.mode == FastPod
    ensures InFast(g.fastPods, key) ==> CommitFastPod(g, ports, req, key).2.Granted?
    ensures !InFast(g.fastPods, key) && !ShareFits(req, g) ==> CommitFastPod(g, ports, req, key).2 == Failed(3)
    ensures !InFast(g.fastPods, key) && ports.Full() ==> CommitFastPod(g, ports, req, key).2.Failed?
  {}

  /** How a commit ends on a record that has the memory and the mode the check saw. */
  ghost predicate CommitEnds(lookup: MpsLookup, g: Gpu, ports: Ports, req: Request, key: string, r: CommitResult) {
    && g.usageMem + req.memory <= g.mem
    && (r.CommitPanics? <==> lookup == AsWritten && req.mode == Mps && g.mpsPods != [])
    && (r == Failed(3) <==> req.mode == FastPod && !InFast(g.fastPods, key) && !ShareFits(req, g))
    && (r == Failed(5) <==> req.mode == FastPod && !InFast(g.fastPods, key) && ShareFits(req, g) && ports.Full())
    && (r.Failed? ==> r.code == 3 || r.code == 5)
  }

  lemma CommitAfterCheck(n: Node, gpu: string, req: Request, key: string, lookup: MpsLookup)
    requires gpu in n.gpus && GpuSafe(gpu, n.gpus[gpu]) && Admissible(req) && RoomFor(req, n.gpus[gpu])
    ensures CommitEnds(lookup, n.gpus[gpu], n.ports, req, key, CommitOnNode(n, gpu, req, key, lookup).1)
  {
    AdmissibleShape(req);
    MemNonNegative(n.gpus[gpu].fastPods, n.gpus[gpu].mpsPods);
    var g := Pinned(n.gpus[gpu], req.mode);
    match req.mode {
      case Mps => CommitMpsSafe(g, req, key, lookup); hide CommitMps;
      case FastPod =>
        CommitFastSafe(g, n.ports, req, key);
        CommitFastFails(g, n.ports, req, key);
        hide CommitFastPod, Slots.Full;
      case Exclusive =>
    }
  }

  // ---------------------------------------------------------------- over whole runs

  /** Check to commit, in every run: however records change between the two, a commit fails only because
      its record is gone (3), because the compute share no longer fits (3), or because all 1024 ports are
      taken (5), each exactly then; it panics only on the MPS lookup as written; and its memory always
      fits, without overflow. */
  lemma CommitExactly(lookup: MpsLookup, es: seq<Event>, ss: seq<State>, i: nat, key: string, pushOk: bool)
    requires IsRun(lookup, es, ss) && i <= |es| && ss[i].pending.Some?
    ensures
      var p, l := ss[i].pending.value, ss[i].ledger;
      var r := Commit(l, p.sel, p.req, key, pushOk, lookup).1;
      p.sel.node in l.nodes &&
      if !HasGpu(l, p.sel.node, p.sel.gpu) then r == Failed(3)
      else CommitEnds(lookup, GpuAt(l, p.sel.node, p.sel.gpu), l.nodes[p.sel.node].ports, p.req, key, r)
  {
    EveryRunIsSafe(lookup, es, ss, i);
    hide IsRun, Step, NodeSafe, GpuSafe, CommitOnNode, Projection, RoomFor, Admissible, CommitEnds;
    var p, l := ss[i].pending.value, ss[i].ledger;
    var n := l.nodes[p.sel.node];
    if HasGpu(l, p.sel.node, p.sel.gpu) {
      RecordFacts(p.sel.node, n, p.sel.gpu);
      CommitAfterCheck(n, p.sel.gpu, p.req, key, lookup);
    } else {
      CommitWithoutRecord(n, p.sel.gpu, p.req, key, lookup);
    }
  }

  /** As long as no re-configured share is negative, the share always fits: the commit then fails on a
      present record exactly when it needs a port and there is none. */
  lemma CheckToCommit(lookup: MpsLookup, es: seq<Event>, ss: seq<State>, i: nat, key: string, pushOk: bool)
    requires IsRun(lookup, es, ss) && i <= |es| && ss[i].pending.Some?
    requires forall j :: 0 <= j < i ==> SoundShare(es[j])
    ensures
      var p, l := ss[i].pending.value, ss[i].ledger;
      var r := Commit(l, p.sel, p.req, key, pushOk, lookup).1;
      p.sel.node in l.nodes &&
      if !HasGpu(l, p.sel.node, p.sel.gpu) then r == Failed(3)
      else
        var g := GpuAt(l, p.sel.node, p.sel.gpu);
        && g.usageMem + p.req.memory <= g.mem
        && (r.CommitPanics? <==> lookup == AsWritten && p.req.mode == Mps && g.mpsPods != [])
        && (r.Failed? <==> p.req.mode == FastPod && !InFast(g.fastPods, key) && l.nodes[p.sel.node].ports.Full())
        && (r.Failed? ==> r.code == 5)
  {
    CommitExactly(lookup, es, ss, i, key, pushOk);
    BudgetAlong(lookup, es, ss, i);
    hide IsRun, NodeBudget, Commit, ShareFits, InFast;
  }

  // ---------------------------------------------------------------- the refusal, read off the run

  /** The share that an event takes out of a record by erasing one of its FastPods. */
  ghost function RemovedShare(s: State, e: Event, node: string, gpu: string): real {
    match e
    case RemoveEvent(pod, _) => ErasedShare(s.ledger, pod, node, gpu)
    case SweepEvent(pod, _) => ErasedShare(s.ledger, pod, node, gpu)
    case _ => 0.0
  }

  ghost function ErasedShare(l: Ledger, pod: Pod, node: string, gpu: string): real {
    if pod.node == node && pod.gpu == gpu && pod.mode == FastPod && HasRecord(l, pod)
       && InFast(RecordOf(l, pod).fastPods, pod.key)
    then ShareOf(RecordOf(l, pod).fastPods[FindFast(RecordOf(l, pod).fastPods, pod.key)])
    else 0.0
  }

  /** The state right after the check of the request that is pending in state `i`. */
  ghost function CheckedAt(ss: seq<State>, i: nat): (c: nat)
    requires i < |ss| && ss[i].pending.Some?
    ensures c <= i && (forall j :: c <= j <= i ==> ss[j].pending.Some?)
    ensures c > 0 ==> ss[c - 1].pending.None?
    decreases i
  {
    if i == 0 || ss[i - 1].pending.None? then i else CheckedAt(ss, i - 1)
  }

  /** The shares taken out of a record between states `c` and `i`. */
  ghost function RemovedBetween(es: seq<Event>, ss: seq<State>, c: nat, i: nat, node: string, gpu: string): real
    requires c <= i <= |es| && |ss| == |es| + 1
    decreases i
  {
    if i == c then 0.0
    else RemovedBetween(es, ss, c, i - 1, node, gpu) + RemovedShare(ss[i - 1], es[i - 1], node, gpu)
  }

  lemma ReleaseUsage(n: Node, pod: Pod, k: string)
    requires k in ReleaseOnNode(n, pod).gpus
    ensures k in n.gpus
    ensures var l := n.gpus[k].fastPods;
            ReleaseOnNode(n, pod).gpus[k].usage ==
              if pod.gpu == k && pod.mode == FastPod && InFast(l, pod.key)
              then n.gpus[k].usage - ShareOf(l[FindFast(l, pod.key)]) else n.gpus[k].usage
  {
    hide RemoveAt;
  }

  lemma ReleaseStepUsage(l: Ledger, pod: Pod, pushes: bool, pushOk: bool, node: string, gpu: string)
    requires HasGpu(Release(l, pod, pushes, pushOk), node, gpu)
    ensures HasGpu(l, node, gpu)
    ensures GpuAt(Release(l, pod, pushes, pushOk), node, gpu).usage ==
              GpuAt(l, node, gpu).usage - ErasedShare(l, pod, node, gpu)
  {
    hide Projection, ReleaseOnNode, EraseFast, InFast;
    if HasRecord(l, pod) && pod.node == node {
      ReleaseUsage(l.nodes[node], pod, gpu);
    }
  }

  lemma ReconfigureUsage(l: Ledger, pod: Pod, share: Share, valid: bool, pushOk: bool, node: string, gpu: string)
    requires HasGpu(ReconfigurePod(l, pod, share, valid, pushOk), node, gpu)
    ensures HasGpu(l, node, gpu)
    ensures GpuAt(ReconfigurePod(l, pod, share, valid, pushOk), node, gpu).usage == GpuAt(l, node, gpu).usage
  {
    hide Projection, FindFast;
  }

  /** While a request is pending no record is added, and `Usage` moves only by what is removed. */
  lemma StepUsage(lookup: MpsLookup, s: State, e: Event, node: string, gpu: string)
    requires s.pending.Some? && Enabled(s, e) && Step(lookup, s, e).Some? && Step(lookup, s, e).value.pending.Some?
    ensures Step(lookup, s, e).value.pending == s.pending
    ensures var l' := Step(lookup, s, e).value.ledger;
            HasGpu(l', node, gpu) ==>
              && HasGpu(s.ledger, node, gpu)
              && GpuAt(l', node, gpu).usage == GpuAt(s.ledger, node, gpu).usage - RemovedShare(s, e, node, gpu)
  {
    hide Schedule, Commit, Release, ReconfigurePod, ErasedShare;
    var l' := Step(lookup, s, e).value.ledger;
    if HasGpu(l', node, gpu) {
      match e {
        case RemoveEvent(pod, pushOk) =>
          ReleaseStepUsage(s.ledger, pod, Found(s.ledger, pod), pushOk, node, gpu);
        case SweepEvent(pod, pushOk) => ReleaseStepUsage(s.ledger, pod, true, pushOk, node, gpu);
        case ReconfigureEvent(pod, share, valid, pushOk) =>
          ReconfigureUsage(s.ledger, pod, share, valid, pushOk, node, gpu);
        case _ =>
      }
    }
  }

  /** `Usage` in state `i` is `Usage` in state `c` less the shares removed in between, as long as one
      request is pending throughout. */
  lemma {:induction false} UsageSinceCheck(
    lookup: MpsLookup, es: seq<Event>, ss: seq<State>, c: nat, i: nat, node: string, gpu: string)
    requires IsRun(lookup, es, ss) && c <= i <= |es| && HasGpu(ss[i].ledger, node, gpu)
    requires forall j :: c <= j <= i ==> ss[j].pending.Some?
    ensures ss[c].pending == ss[i].pending && HasGpu(ss[c].ledger, node, gpu)
    ensures GpuAt(ss[i].ledger, node, gpu).usage ==
              GpuAt(ss[c].ledger, node, gpu).usage - RemovedBetween(es, ss, c, i, node, gpu)
    decreases i
  {
    hide Step, Enabled, RemovedShare;
    if i > c {
      assert Step(lookup, ss[i - 1], es[i - 1]) == Some(ss[i]);
      StepUsage(lookup, ss[i - 1], es[i - 1], node, gpu);
      UsageSinceCheck(lookup, es, ss, c, i - 1, node, gpu);
    }
  }

  /** The step that makes a request pending is its check, and its share fits in the state after it. */
  lemma CheckSelects(lookup: MpsLookup, s: State, e: Event)
    requires Safe(s) && Enabled(s, e) && s.pending.None? && Step(lookup, s, e).Some? &&
               Step(lookup, s, e).value.pending.Some?
    ensures var t := Step(lookup, s, e).value;
            var p := t.pending.value;
            && e.ScheduleEvent? && e.req == p.req
            && (HasGpu(t.ledger, p.sel.node, p.sel.gpu) ==> ShareFits(p.req, GpuAt(t.ledger, p.sel.node, p.sel.gpu)))
  {
    hide Commit, Release, ReconfigurePod, NodeSafe, GpuSafe, CanFit, RoomFor, WithRecord, ShareFits, Admissible;
    if e.ScheduleEvent? {
      var name, gpu := e.req.node.value, e.req.gpu.value;
      var n := WithRecord(s.ledger.nodes[name], gpu, e.index[gpu]);
      WithRecordSafe(name, s.ledger.nodes[name], gpu, e.index[gpu]);
      HostNameOf(name, n);
      FitsExactly(e.req, gpu, n.gpus[gpu]);
    }
  }

  /** What the run says about the check behind a pending request. */
  lemma PendingWasChecked(lookup: MpsLookup, es: seq<Event>, ss: seq<State>, i: nat)
    requires IsRun(lookup, es, ss) && i <= |es| && ss[i].pending.Some?
    requires HasGpu(ss[i].ledger, ss[i].pending.value.sel.node, ss[i].pending.value.sel.gpu)
    ensures
      var p, c := ss[i].pending.value, CheckedAt(ss, i);
      var node, gpu := p.sel.node, p.sel.gpu;
      && c > 0 && es[c - 1].ScheduleEvent? && es[c - 1].req == p.req && ss[c].pending == ss[i].pending
      && HasGpu(ss[c].ledger, node, gpu) && ShareFits(p.req, GpuAt(ss[c].ledger, node, gpu))
      && GpuAt(ss[i].ledger, node, gpu).usage ==
           GpuAt(ss[c].ledger, node, gpu).usage - RemovedBetween(es, ss, c, i, node, gpu)
  {
    hide Step, Enabled, Safe, CheckedAt, RemovedBetween, ShareFits;
    var p, c := ss[i].pending.value, CheckedAt(ss, i);
    UsageSinceCheck(lookup, es, ss, c, i, p.sel.node, p.sel.gpu);
    assert c > 0;
    EveryRunIsSafe(lookup, es, ss, c - 1);
    assert Step(lookup, ss[c - 1], es[c - 1]) == Some(ss[c]);
    CheckSelects(lookup, ss[c - 1], es[c - 1]);
  }

  /** The refusal read off the run: a checked request whose record is still there is refused for lack of
      compute exactly when `Usage` at its check, less the shares removed from the record since, leaves
      its own share no room; so only if the removed shares were negative in sum. */
  lemma RefusedExactly(lookup: MpsLookup, es: seq<Event>, ss: seq<State>, i: nat, key: string, pushOk: bool)
    requires IsRun(lookup, es, ss) && i <= |es| && ss[i].pending.Some?
    requires HasGpu(ss[i].ledger, ss[i].pending.value.sel.node, ss[i].pending.value.sel.gpu)
    ensures
      var p, c := ss[i].pending.value, CheckedAt(ss, i);
      var node, gpu := p.sel.node, p.sel.gpu;
      var removed := RemovedBetween(es, ss, c, i, node, gpu);
      var r := Commit(ss[i].ledger, p.sel, p.req, key, pushOk, lookup).1;
      && c > 0 && es[c - 1].ScheduleEvent? && es[c - 1].req == p.req && ss[c].pending == ss[i].pending
      && HasGpu(ss[c].ledger, node, gpu)
      && (p.req.mode == FastPod ==>
            && p.req.fast.Some?
            && var after := GpuAt(ss[c].ledger, node, gpu).usage +
                 Contribution(p.req.fast.value.quotaReq, p.req.fast.value.smPartition);
               && after <= 1.0
               && (r == Failed(3) <==> !InFast(GpuAt(ss[i].ledger, node, gpu).fastPods, key) && after - removed > 1.0))
      && (r == Failed(3) ==> p.req.mode == FastPod && removed < 0.0)
  {
    CommitExactly(lookup, es, ss, i, key, pushOk);
    PendingWasChecked(lookup, es, ss, i);
    hide IsRun, Commit, CheckedAt, RemovedBetween, InFast, Contribution, Slots.Full;
  }
}
