/** What every critical section of the ledger keeps, whatever the caller does: records keyed by
    their own UUID, one kind of occupant per record, memory accounted to the byte, and no port
    handed out twice. */
module LedgerSafety {
  import opened Requests
  import opened PortBitmap
  import opened Ledger

  // ---------------------------------------------------------------- sums over the pod lists

  ghost function FastMem(l: seq<FastPodReq>): int {
    if l == [] then 0 else l[0].memory + FastMem(l[1..])
  }

  ghost function ShareSum(l: seq<FastPodReq>): real {
    if l == [] then 0.0 else ShareOf(l[0]) + ShareSum(l[1..])
  }

  ghost function MpsMem(l: seq<MpsPodReq>): int {
    if l == [] then 0 else l[0].memory + MpsMem(l[1..])
  }

  lemma {:induction false} AppendFast(l: seq<FastPodReq>, e: FastPodReq)
    ensures FastMem(l + [e]) == FastMem(l) + e.memory
    ensures ShareSum(l + [e]) == ShareSum(l) + ShareOf(e)
  {
    if l != [] {
      AppendFast(l[1..], e);
      assert (l + [e])[1..] == l[1..] + [e];
    }
  }

  lemma {:induction false} AppendMps(l: seq<MpsPodReq>, e: MpsPodReq)
    ensures MpsMem(l + [e]) == MpsMem(l) + e.memory
  {
    if l != [] {
      AppendMps(l[1..], e);
      assert (l + [e])[1..] == l[1..] + [e];
    }
  }

  lemma RemoveAtTail<T>(l: seq<T>, i: nat)
    requires i < |l|
    ensures i == 0 ==> RemoveAt(l, i) == l[1..]
    ensures i > 0 ==>
              |RemoveAt(l, i)| > 0 && RemoveAt(l, i)[0] == l[0] && RemoveAt(l, i)[1..] == RemoveAt(l[1..], i - 1)
  {}

  lemma {:induction false} RemoveFast(l: seq<FastPodReq>, i: nat)
    requires i < |l|
    ensures FastMem(RemoveAt(l, i)) == FastMem(l) - l[i].memory
    ensures ShareSum(RemoveAt(l, i)) == ShareSum(l) - ShareOf(l[i])
  {
    hide RemoveAt;
    RemoveAtTail(l, i);
    if i > 0 {
      RemoveFast(l[1..], i - 1);
    }
  }

  lemma {:induction false} RemoveMps(l: seq<MpsPodReq>, i: nat)
    requires i < |l|
    ensures MpsMem(RemoveAt(l, i)) == MpsMem(l) - l[i].memory
  {
    hide RemoveAt;
    RemoveAtTail(l, i);
    if i > 0 {
      RemoveMps(l[1..], i - 1);
    }
  }

  lemma {:induction false} UpdateFast(l: seq<FastPodReq>, i: nat, e: FastPodReq)
    requires i < |l|
    ensures FastMem(l[i := e]) == FastMem(l) - l[i].memory + e.memory
    ensures ShareSum(l[i := e]) == ShareSum(l) - ShareOf(l[i]) + ShareOf(e)
  {
    if i == 0 {
      assert l[i := e][1..] == l[1..];
    } else {
      UpdateFast(l[1..], i - 1, e);
      assert l[i := e][1..] == l[1..][i - 1 := e];
    }
  }

  // ---------------------------------------------------------------- the list invariants

  ghost predicate FastListOk(l: seq<FastPodReq>) {
    && (forall i, j :: 0 <= i < j < |l| ==> l[i].key != l[j].key)
    && (forall i :: 0 <= i < |l| ==> l[i].memory >= 0)
  }

  ghost predicate MpsListOk(l: seq<MpsPodReq>) {
    && (forall i, j :: 0 <= i < j < |l| ==> l[i].key != l[j].key)
    && (forall i :: 0 <= i < |l| ==> l[i].memory >= 0)
  }

  lemma {:induction false} MemNonNegative(l: seq<FastPodReq>, m: seq<MpsPodReq>)
    requires FastListOk(l) && MpsListOk(m)
    ensures FastMem(l) >= 0 && MpsMem(m) >= 0
    decreases |l| + |m|
  {
    if l != [] {
      MemNonNegative(l[1..], m);
    } else if m != [] {
      MemNonNegative(l, m[1..]);
    }
  }

  predicate InFast(l: seq<FastPodReq>, key: string) {
    FindFast(l, key) < |l|
  }

  predicate InMps(l: seq<MpsPodReq>, key: string) {
    FindMps(l, key) < |l|
  }

  lemma RemoveAtElements<T>(l: seq<T>, i: nat)
    requires i < |l|
    ensures |RemoveAt(l, i)| == |l| - 1
    ensures forall j :: 0 <= j < |l| - 1 ==> RemoveAt(l, i)[j] == l[if j < i then j else j + 1]
    ensures forall j :: 0 <= j < |l| && j != i ==> l[j] in RemoveAt(l, i)
  {
    forall j | 0 <= j < |l| && j != i
      ensures l[j] in RemoveAt(l, i)
    {
      assert RemoveAt(l, i)[if j < i then j else j - 1] == l[j];
    }
  }

  /** Erasing the first match erases the only entry with that key; the rest keep their order. */
  lemma EraseFastKey(l: seq<FastPodReq>, key: string)
    requires FastListOk(l) && InFast(l, key)
    ensures var r := RemoveAt(l, FindFast(l, key));
            FastListOk(r) && forall e :: e in r <==> e in l && e.key != key
  {
    RemoveAtElements(l, FindFast(l, key));
    hide RemoveAt;
  }

  lemma EraseMpsKey(l: seq<MpsPodReq>, key: string)
    requires MpsListOk(l) && InMps(l, key)
    ensures var r := RemoveAt(l, FindMps(l, key));
            MpsListOk(r) && forall e :: e in r <==> e in l && e.key != key
  {
    RemoveAtElements(l, FindMps(l, key));
    hide RemoveAt;
  }

  // ---------------------------------------------------------------- the record invariant

  /** A record never holds two kinds of occupant, an exclusive occupant is alone, and whatever is
      there matches the record's mode. */
  ghost predicate ModeSafe(g: Gpu) {
    && (g.fastPods != [] ==> g.mode == FastPod)
    && (g.mpsPods != [] ==> g.mode == Mps)
    && (g.exclusive.Some? ==> g.mode == Exclusive)
  }

  predicate Vacant(g: Gpu) {
    g.fastPods == [] && g.mpsPods == [] && g.exclusive.None?
  }

  /** `UsageMem` is the memory of the admitted pods, and never more than the device has. */
  ghost predicate MemSafe(g: Gpu) {
    && g.usageMem == FastMem(g.fastPods) + MpsMem(g.mpsPods)
    && (g.fastPods != [] || g.mpsPods != [] ==> g.usageMem <= g.mem)
  }

  ghost predicate GpuSafe(key: string, g: Gpu) {
    g.uuid == key && ModeSafe(g) && FastListOk(g.fastPods) && MpsListOk(g.mpsPods) && MemSafe(g)
  }

  // ---------------------------------------------------------------- the port invariant

  ghost function SlotsOf(l: seq<FastPodReq>): set<int> {
    set i | 0 <= i < |l| :: l[i].port - GPU_CLIENT_PORT_START
  }

  /** The slots that a node's record reserves. */
  ghost function SlotsAt(n: Node, gpu: string): set<int> {
    if gpu in n.gpus then SlotsOf(n.gpus[gpu].fastPods) else {}
  }

  ghost predicate DistinctPorts(l: seq<FastPodReq>) {
    forall i, j :: 0 <= i < j < |l| ==> l[i].port != l[j].port
  }

  /** Every reserved port is marked taken, and no two reservations of a node share one. */
  ghost predicate PortsSafe(n: Node) {
    && (forall gpu :: gpu in n.gpus ==> DistinctPorts(n.gpus[gpu].fastPods))
    && (forall gpu :: SlotsAt(n, gpu) <= n.ports.used)
    && (forall gpu, gpu' :: gpu != gpu' ==> SlotsAt(n, gpu) !! SlotsAt(n, gpu'))
  }

  ghost predicate HoldsSlot(n: Node, p: int) {
    exists gpu :: p in SlotsAt(n, gpu)
  }

  /** The taken slots that no pod reserves. */
  ghost function Stray(n: Node): set<int> {
    set p | p in n.ports.used && !HoldsSlot(n, p)
  }

  ghost predicate NodeSafe(name: string, n: Node) {
    && n.hostName == name
    && n.ports.size == PORT_RANGE
    && (forall gpu :: gpu in n.gpus ==> GpuSafe(gpu, n.gpus[gpu]))
    && PortsSafe(n)
  }

  ghost predicate LedgerSafe(l: Ledger) {
    forall name :: name in l.nodes ==> NodeSafe(name, l.nodes[name])
  }

  /** The record leaves room for the request: what the check establishes and removals keep. */
  ghost predicate RoomFor(req: Request, g: Gpu) {
    match req.mode
    case Exclusive => g.mode == NoMode && g.mem >= req.memory
    case Mps => (g.mode == Mps || g.mode == NoMode) && g.usageMem + req.memory <= g.mem
    case FastPod => (g.mode == FastPod || g.mode == NoMode) && g.usageMem + req.memory <= g.mem
    case NoMode => false
  }

  ghost predicate ShareFits(req: Request, g: Gpu) {
    req.mode == FastPod ==>
      req.fast.Some? && g.usage + Contribution(req.fast.value.quotaReq, req.fast.value.smPartition) <= 1.0
  }

  // ---------------------------------------------------------------- admission

  /** The SM bounds of an EXCLUSIVE request, the only mode that has any. */
  predicate SmsSuffice(req: Request, g: Gpu) {
    req.mode == Exclusive ==>
      && (req.smRequest.Some? ==> g.smCount >= req.smRequest.value)
      && (req.smPercentage.Some? ==> g.smPercentage >= req.smPercentage.value)
  }

  /** On a safe record the check's wrapping subtraction is exact, and the two admission tests, which
      associate the share product differently, agree over the reals: so for any validated request the check
      passes exactly when there is room, and panics exactly on an EXCLUSIVE request without a percentage. */
  lemma FitsValidated(req: Request, key: string, g: Gpu)
    requires ValidatePodRequest(req) && GpuSafe(key, g)
    ensures CanFit(req, g) == FitPanics <==> req.mode == Exclusive && req.smPercentage.None?
    ensures CanFit(req, g) == Fits <==>
              && RoomFor(req, g) && ShareFits(req, g) && SmsSuffice(req, g)
              && !(req.mode == Exclusive && req.smPercentage.None?)
  {
    MemNonNegative(g.fastPods, g.mpsPods);
    assert MIN_INT64 <= g.mem - g.usageMem <= MAX_INT64;
    if req.fast.Some? {
      var s := req.fast.value;
      assert s.quotaReq * (s.smPartition as real / 100.0) == s.quotaReq * (s.smPartition as real) / 100.0;
    }
  }

  /** As parsing leaves them, that is an EXCLUSIVE request with an SM count. */
  lemma FitsExactly(req: Request, key: string, g: Gpu)
    requires Admissible(req) && GpuSafe(key, g)
    ensures CanFit(req, g) == FitPanics <==> req.mode == Exclusive && req.smRequest.Some?
    ensures CanFit(req, g) == Fits <==>
              && RoomFor(req, g) && ShareFits(req, g) && SmsSuffice(req, g)
              && !(req.mode == Exclusive && req.smRequest.Some?)
  {
    AdmissibleShape(req);
    FitsValidated(req, key, g);
    hide CanFit, RoomFor, ShareFits, SmsSuffice, GpuSafe;
  }

  lemma NewGpuSafe(d: Device)
    ensures GpuSafe(d.uuid, NewGpu(d))
  {}

  lemma CommitMpsSafe(g: Gpu, req: Request, key: string, lookup: MpsLookup)
    requires GpuSafe(g.uuid, g) && Admissible(req) && req.mode == Mps && g.mode == Mps && RoomFor(req, g)
    ensures var (g', r) := CommitMps(g, req, key, lookup);
            && GpuSafe(g.uuid, g') && g'.fastPods == g.fastPods
            && (r.CommitPanics? <==> lookup == AsWritten && g.mpsPods != [])
            && (!r.CommitPanics? ==> r == Granted(g.uuid, 0) && g'.usage == g.usage)
  {
    AdmissibleShape(req);
    MemNonNegative(g.fastPods, g.mpsPods);
    AppendMps(g.mpsPods, MpsPodReq(key, req.memory));
  }

  lemma CommitFastSafe(g: Gpu, ports: Ports, req: Request, key: string)
    requires GpuSafe(g.uuid, g) && Admissible(req) && req.mode == FastPod && g.mode == FastPod && RoomFor(req, g)
    ensures var (g', ports', r) := CommitFastPod(g, ports, req, key);
            && GpuSafe(g.uuid, g')
            && (r.Granted? ==> r.uuid == g.uuid)
            && (r.CommitPanics? <==> false)
            && (r.Failed? ==> g' == g && ports' == ports && (r.code == 3 || r.code == 5))
            && (r == Failed(3) ==> !ShareFits(req, g))
            && (r == Failed(5) ==> ports.Full())
  {
    AdmissibleShape(req);
    MemNonNegative(g.fastPods, g.mpsPods);
    var (g', ports', r) := CommitFastPod(g, ports, req, key);
    if g' != g {
      AppendFast(g.fastPods, g'.fastPods[|g.fastPods|]);
    }
  }

  // ---------------------------------------------------------------- ports

  lemma SlotsAppend(l: seq<FastPodReq>, e: FastPodReq)
    requires DistinctPorts(l) && e.port - GPU_CLIENT_PORT_START !in SlotsOf(l)
    ensures DistinctPorts(l + [e])
    ensures SlotsOf(l + [e]) == SlotsOf(l) + {e.port - GPU_CLIENT_PORT_START}
  {
    assert (l + [e])[|l|] == e;
    forall i | 0 <= i < |l|
      ensures (l + [e])[i] == l[i] && l[i].port != e.port
    {
      assert l[i].port - GPU_CLIENT_PORT_START in SlotsOf(l);
    }
  }

  lemma SlotsConcat(a: seq<FastPodReq>, b: seq<FastPodReq>)
    ensures SlotsOf(a + b) == SlotsOf(a) + SlotsOf(b)
  {
    var l := a + b;
    forall x | x in SlotsOf(b)
      ensures x in SlotsOf(l)
    {
      var j :| 0 <= j < |b| && b[j].port - GPU_CLIENT_PORT_START == x;
      assert l[|a| + j] == b[j];
    }
    forall x | x in SlotsOf(a)
      ensures x in SlotsOf(l)
    {
      var j :| 0 <= j < |a| && a[j].port - GPU_CLIENT_PORT_START == x;
      assert l[j] == a[j];
    }
  }

  lemma SlotsRemove(l: seq<FastPodReq>, i: nat)
    requires DistinctPorts(l) && i < |l|
    ensures DistinctPorts(RemoveAt(l, i))
    ensures SlotsOf(RemoveAt(l, i)) == SlotsOf(l) - {l[i].port - GPU_CLIENT_PORT_START}
  {
    var x := l[i].port - GPU_CLIENT_PORT_START;
    SlotsConcat(l[..i], l[i + 1..]);
    SlotsConcat([l[i]], l[i + 1..]);
    SlotsConcat(l[..i], [l[i]] + l[i + 1..]);
    assert l == l[..i] + ([l[i]] + l[i + 1..]);
    assert SlotsOf([l[i]]) == {x} by { assert [l[i]][0] == l[i]; }
    assert x !in SlotsOf(l[..i]) && x !in SlotsOf(l[i + 1..]);
  }

  lemma SlotsUpdate(l: seq<FastPodReq>, i: nat, e: FastPodReq)
    requires i < |l| && e.port == l[i].port
    ensures DistinctPorts(l) ==> DistinctPorts(l[i := e])
    ensures SlotsOf(l[i := e]) == SlotsOf(l)
  {
    assert forall j :: 0 <= j < |l| ==> l[i := e][j].port == l[j].port;
  }

  /** Replacing one record, and the taken slots to match, keeps ports and slots in step. */
  lemma PortsUpdate(n: Node, gpu: string, g: Gpu, ports: Ports)
    requires PortsSafe(n) && DistinctPorts(g.fastPods)
    requires SlotsOf(g.fastPods) - SlotsAt(n, gpu) !! n.ports.used
    requires ports.used == n.ports.used - SlotsAt(n, gpu) + SlotsOf(g.fastPods)
    ensures var n' := n.(gpus := n.gpus[gpu := g], ports := ports);
            PortsSafe(n') && Stray(n') == Stray(n)
  {
    var n' := n.(gpus := n.gpus[gpu := g], ports := ports);
    assert forall k :: k != gpu ==> SlotsAt(n', k) == SlotsAt(n, k);
    assert SlotsAt(n', gpu) == SlotsOf(g.fastPods);
    hide SlotsOf, SlotsAt;
    forall p
      ensures p in Stray(n') <==> p in Stray(n)
    {
      HoldsElsewhere(n, n', gpu, p);
      hide HoldsSlot;
    }
  }

  /** Which slots are held once one record may have changed. */
  lemma HoldsElsewhere(n: Node, n': Node, gpu: string, p: int)
    requires forall k :: k != gpu ==> SlotsAt(n', k) == SlotsAt(n, k)
    ensures p !in SlotsAt(n, gpu) && p !in SlotsAt(n', gpu) ==> (HoldsSlot(n', p) <==> HoldsSlot(n, p))
    ensures p in SlotsAt(n, gpu) ==> HoldsSlot(n, p)
    ensures p in SlotsAt(n', gpu) ==> HoldsSlot(n', p)
    ensures PortsSafe(n) && p in SlotsAt(n, gpu) && p !in SlotsAt(n', gpu) ==> !HoldsSlot(n', p)
  {
    hide SlotsAt;
    if PortsSafe(n) && p in SlotsAt(n, gpu) && p !in SlotsAt(n', gpu) {
      forall k
        ensures p !in SlotsAt(n', k)
      {
        assert k != gpu ==> SlotsAt(n, gpu) !! SlotsAt(n, k);
      }
    }
    if p !in SlotsAt(n, gpu) && p !in SlotsAt(n', gpu) {
      if HoldsSlot(n, p) {
        var k :| p in SlotsAt(n, k);
        assert p in SlotsAt(n', k);
      }
    }
  }

  /** Deleting a record leaves the slots of its FastPods astray. */
  lemma PortsAfterDelete(n: Node, gpu: string)
    requires gpu in n.gpus && PortsSafe(n)
    ensures var n' := n.(gpus := n.gpus - {gpu});
            PortsSafe(n') && Stray(n') == Stray(n) + SlotsAt(n, gpu)
  {
    var n' := n.(gpus := n.gpus - {gpu});
    assert forall k :: k != gpu ==> SlotsAt(n', k) == SlotsAt(n, k);
    assert SlotsAt(n', gpu) == {};
    hide SlotsAt;
    forall p
      ensures p in Stray(n') <==> p in Stray(n) || p in SlotsAt(n, gpu)
    {
      HoldsElsewhere(n, n', gpu, p);
      hide HoldsSlot;
    }
  }

  // ---------------------------------------------------------------- the steps, on one node

  /** Replacing one record of a safe node by a safe one, with the taken slots to match. */
  lemma UpdateRecord(name: string, n: Node, gpu: string, g: Gpu, ports: Ports)
    requires NodeSafe(name, n) && GpuSafe(gpu, g) && DistinctPorts(g.fastPods) && ports.size == n.ports.size
    requires SlotsOf(g.fastPods) - SlotsAt(n, gpu) !! n.ports.used
    requires ports.used == n.ports.used - SlotsAt(n, gpu) + SlotsOf(g.fastPods)
    ensures var n' := n.(gpus := n.gpus[gpu := g], ports := ports);
            NodeSafe(name, n') && Stray(n') == Stray(n)
  {
    hide GpuSafe, SlotsOf, SlotsAt, DistinctPorts;
    PortsUpdate(n, gpu, g, ports);
    hide PortsSafe, Stray;
  }

  /** As `UpdateRecord`, when the FastPod list stays as it is. */
  lemma UpdateRecordSameList(name: string, n: Node, gpu: string, g: Gpu)
    requires NodeSafe(name, n) && GpuSafe(gpu, g)
    requires g.fastPods == if gpu in n.gpus then n.gpus[gpu].fastPods else []
    ensures var n' := n.(gpus := n.gpus[gpu := g]);
            NodeSafe(name, n') && Stray(n') == Stray(n)
  {
    hide GpuSafe, SlotsOf;
    assert SlotsOf([]) == {} by { SlotsOfNothing(); }
    UpdateRecord(name, n, gpu, g, n.ports);
    assert n.(gpus := n.gpus[gpu := g]) == n.(gpus := n.gpus[gpu := g], ports := n.ports);
  }

  lemma SlotsOfNothing()
    ensures SlotsOf([]) == {}
  {}

  function Pinned(g: Gpu, mode: Mode): Gpu {
    if g.mode == NoMode then g.(mode := mode) else g
  }

  lemma SlotAlgebra(used: set<int>, mine: set<int>, slot: int)
    requires mine <= used
    ensures slot in mine ==> used - mine + (mine - {slot}) == used - {slot}
    ensures slot !in used ==> used - mine + (mine + {slot}) == used + {slot}
    ensures used - mine + mine == used
    ensures slot !in used ==> mine + {slot} - mine !! used
    ensures mine - {slot} - mine !! used && mine - mine !! used
  {}

  /** What a safe node says about one of its records. */
  lemma RecordFacts(name: string, n: Node, gpu: string)
    requires NodeSafe(name, n) && gpu in n.gpus
    ensures var l := n.gpus[gpu].fastPods;
            GpuSafe(gpu, n.gpus[gpu]) && DistinctPorts(l) && SlotsAt(n, gpu) == SlotsOf(l) <= n.ports.used
  {}

  /** A grant appends one entry whose port comes from a slot that was free. */
  lemma CommitFastPorts(g: Gpu, ports: Ports, req: Request, key: string)
    ensures var (g', ports', r) := CommitFastPod(g, ports, req, key);
            if |g'.fastPods| == |g.fastPods| then g'.fastPods == g.fastPods && ports' == ports
            else
              && |g'.fastPods| == |g.fastPods| + 1
              && var e := g'.fastPods[|g.fastPods|];
                 var slot := e.port - GPU_CLIENT_PORT_START;
                 && g'.fastPods == g.fastPods + [e]
                 && slot !in ports.used && ports'.used == ports.used + {slot} && ports'.size == ports.size
  {}

  lemma CommitFastSlots(g: Gpu, ports: Ports, req: Request, key: string)
    requires DistinctPorts(g.fastPods) && SlotsOf(g.fastPods) <= ports.used
    ensures var (g', ports', r) := CommitFastPod(g, ports, req, key);
            && DistinctPorts(g'.fastPods) && ports'.size == ports.size
            && SlotsOf(g'.fastPods) - SlotsOf(g.fastPods) !! ports.used
            && ports'.used == ports.used - SlotsOf(g.fastPods) + SlotsOf(g'.fastPods)
  {
    CommitFastPorts(g, ports, req, key);
    hide CommitFastPod, SlotsOf, DistinctPorts;
    var (g', ports', r) := CommitFastPod(g, ports, req, key);
    if |g'.fastPods| != |g.fastPods| {
      var e := g'.fastPods[|g.fastPods|];
      SlotsAppend(g.fastPods, e);
      SlotAlgebra(ports.used, SlotsOf(g.fastPods), e.port - GPU_CLIENT_PORT_START);
    } else {
      SlotAlgebra(ports.used, SlotsOf(g.fastPods), 0);
    }
  }

  lemma CommitFastNodeSafe(name: string, n: Node, gpu: string, req: Request, key: string)
    requires NodeSafe(name, n) && Admissible(req) && gpu in n.gpus
    requires req.mode == FastPod && RoomFor(req, n.gpus[gpu])
    ensures var (g, ports, r) := CommitFastPod(Pinned(n.gpus[gpu], FastPod), n.ports, req, key);
            var n' := n.(gpus := n.gpus[gpu := g], ports := ports);
            NodeSafe(name, n') && Stray(n') == Stray(n)
  {
    var g0 := Pinned(n.gpus[gpu], FastPod);
    RecordFacts(name, n, gpu);
    hide NodeSafe, CommitFastPod, SlotsOf, SlotsAt, DistinctPorts, Stray;
    assert GpuSafe(gpu, g0);
    hide GpuSafe;
    CommitFastSafe(g0, n.ports, req, key);
    CommitFastSlots(g0, n.ports, req, key);
    var (g, ports, r) := CommitFastPod(g0, n.ports, req, key);
    UpdateRecord(name, n, gpu, g, ports);
  }

  lemma CommitWithoutRecord(n: Node, gpu: string, req: Request, key: string, lookup: MpsLookup)
    requires gpu !in n.gpus
    ensures CommitOnNode(n, gpu, req, key, lookup) == (n, Failed(3))
  {}

  lemma CommitNodeSafe(name: string, n: Node, gpu: string, req: Request, key: string, lookup: MpsLookup)
    requires NodeSafe(name, n) && Admissible(req)
    requires gpu in n.gpus ==> RoomFor(req, n.gpus[gpu])
    ensures var (n', r) := CommitOnNode(n, gpu, req, key, lookup);
            !r.CommitPanics? ==> NodeSafe(name, n') && Stray(n') == Stray(n)
  {
    AdmissibleShape(req);
    if gpu in n.gpus {
      var g := Pinned(n.gpus[gpu], req.mode);
      match req.mode {
        case Mps =>
          CommitMpsSafe(g, req, key, lookup);
          UpdateRecordSameList(name, n, gpu, CommitMps(g, req, key, lookup).0);
        case Exclusive =>
          UpdateRecordSameList(name, n, gpu, g.(exclusive := Some(key)));
        case FastPod =>
          CommitFastNodeSafe(name, n, gpu, req, key);
      }
    }
  }

  lemma DropFastList(l: seq<FastPodReq>, i: nat)
    requires FastListOk(l) && i < |l|
    ensures FastListOk(RemoveAt(l, i))
  {
    RemoveAtElements(l, i);
    hide RemoveAt;
  }

  lemma DropFastSafe(gpu: string, g: Gpu, i: nat)
    requires GpuSafe(gpu, g) && i < |g.fastPods| && DistinctPorts(g.fastPods)
    ensures GpuSafe(gpu, DropFast(g, i)) && DistinctPorts(DropFast(g, i).fastPods)
    ensures SlotsOf(DropFast(g, i).fastPods) == SlotsOf(g.fastPods) - {g.fastPods[i].port - GPU_CLIENT_PORT_START}
    ensures g.fastPods[i].port - GPU_CLIENT_PORT_START in SlotsOf(g.fastPods)
    ensures 0 <= DropFast(g, i).usageMem <= g.usageMem
  {
    assert g.fastPods[i].memory >= 0;
    assert g.fastPods[i].port - GPU_CLIENT_PORT_START in SlotsOf(g.fastPods);
    SlotsRemove(g.fastPods, i);
    DropFastList(g.fastPods, i);
    RemoveFast(g.fastPods, i);
    hide SlotsOf, RemoveAt, FastListOk, MpsListOk, DistinctPorts, FastMem, MpsMem;
    MemNonNegative(RemoveAt(g.fastPods, i), g.mpsPods);
  }

  lemma EraseFastSafe(name: string, n: Node, gpu: string, key: string)
    requires NodeSafe(name, n) && gpu in n.gpus
    ensures NodeSafe(name, EraseFast(n, gpu, key))
    ensures Stray(EraseFast(n, gpu, key)) == Stray(n)
  {
    RecordFacts(name, n, gpu);
    hide NodeSafe, GpuSafe, SlotsOf, SlotsAt, Stray, DistinctPorts, DropFast;
    var g := n.gpus[gpu];
    var i := FindFast(g.fastPods, key);
    if i < |g.fastPods| {
      DropFastSafe(gpu, g, i);
      SlotAlgebra(n.ports.used, SlotsAt(n, gpu), g.fastPods[i].port - GPU_CLIENT_PORT_START);
      UpdateRecord(name, n, gpu, DropFast(g, i), EraseFast(n, gpu, key).ports);
    }
  }

  lemma EraseMpsSafe(name: string, n: Node, gpu: string, key: string)
    requires NodeSafe(name, n) && gpu in n.gpus
    ensures NodeSafe(name, EraseMps(n, gpu, key))
    ensures Stray(EraseMps(n, gpu, key)) == Stray(n)
  {
    RecordFacts(name, n, gpu);
    var g := n.gpus[gpu];
    if InMps(g.mpsPods, key) {
      DropMpsSafe(gpu, g, key);
      assert DropMps(g, FindMps(g.mpsPods, key)).fastPods == g.fastPods;
      hide NodeSafe, Stray, GpuSafe, DropMps, DistinctPorts, SlotsAt, SlotsOf, FindMps;
      UpdateRecordSameList(name, n, gpu, DropMps(g, FindMps(g.mpsPods, key)));
    }
  }

  lemma DropMpsSafe(gpu: string, g: Gpu, key: string)
    requires GpuSafe(gpu, g) && InMps(g.mpsPods, key)
    ensures var i := FindMps(g.mpsPods, key);
            var g' := DropMps(g, i);
            GpuSafe(gpu, g') && 0 <= g'.usageMem <= g.usageMem
  {
    var i := FindMps(g.mpsPods, key);
    assert g.mpsPods[i].memory >= 0;
    EraseMpsKey(g.mpsPods, key);
    RemoveMps(g.mpsPods, i);
    hide RemoveAt, FastListOk, MpsListOk, FastMem, MpsMem;
    MemNonNegative(g.fastPods, RemoveAt(g.mpsPods, i));
  }

  /** Erasing an entry touches no other record. */
  lemma EraseKeepsOthers(n: Node, gpu: string, key: string)
    requires gpu in n.gpus
    ensures EraseFast(n, gpu, key).gpus - {gpu} == n.gpus - {gpu} && EraseFast(n, gpu, key).gpus.Keys == n.gpus.Keys
    ensures EraseMps(n, gpu, key).gpus - {gpu} == n.gpus - {gpu} && EraseMps(n, gpu, key).gpus.Keys == n.gpus.Keys
    ensures forall k :: k in n.gpus && k != gpu ==>
              EraseFast(n, gpu, key).gpus[k] == n.gpus[k] == EraseMps(n, gpu, key).gpus[k]
  {}

  /** A removal whose annotation names the record's own kind of occupant, or none at all. */
  predicate KeepsPorts(n: Node, pod: Pod) {
    pod.gpu in n.gpus && n.gpus[pod.gpu].fastPods != [] ==> pod.mode == FastPod || pod.mode == NoMode
  }

  /** The slots that a removal leaves astray. */
  ghost function LostSlots(n: Node, pod: Pod): set<int> {
    if KeepsPorts(n, pod) then {} else SlotsAt(n, pod.gpu)
  }

  /** Removal is safe whatever the annotation says; it leaves slots astray exactly when it is annotated
      MPS or EXCLUSIVE and the record it names holds FastPods, and then all of theirs. */
  lemma ReleaseNodeSafe(name: string, n: Node, pod: Pod)
    requires NodeSafe(name, n)
    ensures NodeSafe(name, ReleaseOnNode(n, pod))
    ensures Stray(ReleaseOnNode(n, pod)) == Stray(n) + LostSlots(n, pod)
  {
    hide NodeSafe, Stray, EraseFast, EraseMps;
    if pod.gpu in n.gpus {
      match pod.mode {
        case FastPod =>
          EraseFastSafe(name, n, pod.gpu, pod.key);
          DeleteEmptySafe(name, EraseFast(n, pod.gpu, pod.key), pod.gpu);
        case Mps =>
          EraseMpsSafe(name, n, pod.gpu, pod.key);
          EraseMpsKeepsFast(name, n, pod.gpu, pod.key);
          DeleteEmptySafe(name, EraseMps(n, pod.gpu, pod.key), pod.gpu);
          DeleteSafe(name, EraseMps(n, pod.gpu, pod.key), pod.gpu);
          hide SlotsOf;
        case Exclusive =>
          DeleteEmptySafe(name, n, pod.gpu);
          DeleteSafe(name, n, pod.gpu);
          hide SlotsOf;
        case NoMode =>
      }
    }
  }

  lemma DeleteEmptySafe(name: string, n: Node, gpu: string)
    requires NodeSafe(name, n) && gpu in n.gpus
    ensures n.gpus[gpu].fastPods == [] ==>
              NodeSafe(name, n.(gpus := n.gpus - {gpu})) && Stray(n.(gpus := n.gpus - {gpu})) == Stray(n)
  {
    hide NodeSafe, Stray, SlotsOf;
    DeleteSafe(name, n, gpu);
    SlotsOfNothing();
  }

  lemma DeleteSafe(name: string, n: Node, gpu: string)
    requires NodeSafe(name, n) && gpu in n.gpus
    ensures var n' := n.(gpus := n.gpus - {gpu});
            NodeSafe(name, n') && Stray(n') == Stray(n) + SlotsAt(n, gpu)
  {
    hide GpuSafe, Stray, SlotsAt, PortsSafe;
    PortsAfterDelete(n, gpu);
  }

  /** Erasing an MPS pod leaves the FastPods alone; a safe record does not hold both. */
  lemma EraseMpsKeepsFast(name: string, n: Node, gpu: string, key: string)
    requires NodeSafe(name, n) && gpu in n.gpus
    ensures EraseMps(n, gpu, key).gpus[gpu].fastPods == n.gpus[gpu].fastPods
    ensures n.gpus[gpu].fastPods != [] ==> EraseMps(n, gpu, key).gpus[gpu].mpsPods == []
  {}

  lemma ReshareNodeSafe(name: string, n: Node, gpu: string, i: nat, share: Share)
    requires NodeSafe(name, n) && gpu in n.gpus && i < |n.gpus[gpu].fastPods|
    ensures var g := n.gpus[gpu];
            var n' := n.(gpus := n.gpus[gpu := g.(fastPods := g.fastPods[i := Reshare(g.fastPods[i], share)])]);
            NodeSafe(name, n') && Stray(n') == Stray(n)
  {
    var g := n.gpus[gpu];
    var e' := Reshare(g.fastPods[i], share);
    UpdateFast(g.fastPods, i, e');
    SlotsUpdate(g.fastPods, i, e');
    var g' := g.(fastPods := g.fastPods[i := e']);
    UpdateRecord(name, n, gpu, g', n.ports);
    assert n.(gpus := n.gpus[gpu := g']) == n.(gpus := n.gpus[gpu := g'], ports := n.ports);
  }
}
