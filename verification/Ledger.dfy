/** The reservation ledger as values: the records, and each critical section that changes them as
    a function (internal/apps/fastpod-controller-manager/gpu_manager.go, scheduler.go, node_init.go,
    and reconcileResourceConfig in controller.go). */
module Ledger {
  import opened Requests
  import opened PortBitmap

  const GPU_CLIENT_PORT_START := 56001
  const PORT_RANGE := 1024

  datatype FastPodReq = FastPodReq(
    key: string, qtRequest: real, qtLimit: real, smPartition: int, memory: int64, port: int)

  datatype MpsPodReq = MpsPodReq(key: string, memory: int64)

  /** A GPU record of a node (`GPUDevInfo`). */
  datatype Gpu = Gpu(
    uuid: string, smCount: int, smPercentage: int, mem: int64,
    mode: Mode, usage: real, usageMem: int64,
    fastPods: seq<FastPodReq>, mpsPods: seq<MpsPodReq>, exclusive: Option<string>)

  datatype Node = Node(hostName: string, gpus: map<string, Gpu>, ports: Ports)

  /** What the node's configurator says about a GPU it has provisioned. */
  datatype Device = Device(uuid: string, memoryBytes: uint64, smCount: int, smPercentage: int)

  /** A configurator's uuid index leads from each UUID to the device with that UUID. */
  ghost predicate Keyed(index: map<string, Device>) {
    forall u :: u in index ==> index[u].uuid == u
  }

  /** One entry of the configuration pushed to a node. */
  datatype PodConfig = PodConfig(
    key: string, qtRequest: real, qtLimit: real, smPartition: int, memory: int64, port: int)

  /** `pushed` is the configuration each node last received for a GPU. */
  datatype Ledger = Ledger(nodes: map<string, Node>, pushed: map<(string, string), seq<PodConfig>>)

  /** A pod as removal and re-configuration see it: its node, key and annotations. */
  datatype Pod = Pod(node: string, gpu: string, key: string, mode: Mode)

  datatype Selection = Selection(node: string, gpu: string)

  function ShareOf(e: FastPodReq): real {
    Contribution(e.qtRequest, e.smPartition)
  }

  // ---------------------------------------------------------------- list lookups

  /** Index of the first entry with this key, or the length of the list. */
  function FindFast(l: seq<FastPodReq>, key: string): (r: nat)
    ensures r <= |l|
    ensures r < |l| ==> l[r].key == key
    ensures forall j :: 0 <= j < r ==> l[j].key != key
  {
    if l == [] || l[0].key == key then 0 else 1 + FindFast(l[1..], key)
  }

  function FindMps(l: seq<MpsPodReq>, key: string): (r: nat)
    ensures r <= |l|
    ensures r < |l| ==> l[r].key == key
    ensures forall j :: 0 <= j < r ==> l[j].key != key
  {
    if l == [] || l[0].key == key then 0 else 1 + FindMps(l[1..], key)
  }

  function RemoveAt<T>(l: seq<T>, i: nat): seq<T> {
    if i < |l| then l[..i] + l[i + 1..] else l
  }

  // ---------------------------------------------------------------- admission check

  datatype Fit = Fits | NoFit | FitPanics

  /** `canFitExclusive` logs `*req.SMPercentage` before it looks whether the pointer is nil. */
  function CanFitExclusive(req: Request, g: Gpu): Fit {
    if req.smPercentage.None? then FitPanics
    else if && g.mode == NoMode
            && g.mem >= req.memory
            && (req.smRequest.Some? ==> g.smCount >= req.smRequest.value)
            && g.smPercentage >= req.smPercentage.value
    then Fits else NoFit
  }

  predicate CanFitMps(req: Request, g: Gpu) {
    && (g.mode == Mps || g.mode == NoMode)
    && Wrap64(g.mem - g.usageMem) >= req.memory
  }

  predicate CanFitFastPod(req: Request, g: Gpu) {
    && req.fast.Some?
    && (g.mode == FastPod || g.mode == NoMode)
    && Wrap64(g.mem - g.usageMem) >= req.memory
    && g.usage + req.fast.value.quotaReq * (req.fast.value.smPartition as real) / 100.0 <= 1.0
  }

  function CanFit(req: Request, g: Gpu): Fit {
    match req.mode
    case Exclusive => CanFitExclusive(req, g)
    case Mps => if CanFitMps(req, g) then Fits else NoFit
    case FastPod => if CanFitFastPod(req, g) then Fits else NoFit
    case NoMode => NoFit
  }

  function NewGpu(d: Device): Gpu {
    Gpu(d.uuid, d.smCount, d.smPercentage, Wrap64(d.memoryBytes), NoMode, 0.0, 0, [], [], None)
  }

  /** The record that the check looks at: the existing one, or a fresh one for the device. */
  function WithRecord(n: Node, gpu: string, d: Device): (r: Node)
    ensures gpu in r.gpus
  {
    if gpu in n.gpus then n else n.(gpus := n.gpus[gpu := NewGpu(d)])
  }

  datatype CheckResult = CheckPanics | Refused | Selected(sel: Selection)

  /** `ScheduleRequest`: `index` is the node configurator's uuid index, which GetGPU consults.
      The record is inserted even when the request is then refused. */
  function Schedule(l: Ledger, req: Request, index: map<string, Device>): (Ledger, CheckResult) {
    if req.node.None? || req.gpu.None? || req.node.value !in l.nodes || req.gpu.value !in index then (l, Refused)
    else
      var gpu := req.gpu.value;
      var n := WithRecord(l.nodes[req.node.value], gpu, index[gpu]);
      var l' := l.(nodes := l.nodes[req.node.value := n]);
      match CanFit(req, n.gpus[gpu])
      case FitPanics => (l', CheckPanics)
      case NoFit => (l', Refused)
      case Fits => (l', Selected(Selection(n.hostName, gpu)))
  }

  // ---------------------------------------------------------------- commit

  /** How the commit step looks a key up in the MPS list.  `AsWritten` is the code: it asserts that
      every entry is a `*FastPodReq`, so it panics on any entry.  `ByKey` is the lookup intended. */
  datatype MpsLookup = AsWritten | ByKey

  datatype CommitResult = CommitPanics | Failed(code: int) | Granted(uuid: string, port: int)

  function CommitMps(g: Gpu, req: Request, key: string, lookup: MpsLookup): (Gpu, CommitResult) {
    if lookup == AsWritten && g.mpsPods != [] then (g, CommitPanics)
    else if FindMps(g.mpsPods, key) < |g.mpsPods| then (g, Granted(g.uuid, 0))
    else
      var newMem := Wrap64(g.usageMem + req.memory);
      if newMem > g.mem then (g, Failed(4))
      else (g.(usageMem := newMem, mpsPods := g.mpsPods + [MpsPodReq(key, req.memory)]), Granted(g.uuid, 0))
  }

  function CommitFastPod(g: Gpu, ports: Ports, req: Request, key: string): (Gpu, Ports, CommitResult) {
    var i := FindFast(g.fastPods, key);
    if req.fast.None? then (g, ports, CommitPanics)
    else if i < |g.fastPods| then (g, ports, Granted(g.uuid, g.fastPods[i].port))
    else
      var share := req.fast.value;
      var newUsage := g.usage + Contribution(share.quotaReq, share.smPartition);
      var newMem := Wrap64(g.usageMem + req.memory);
      if newUsage > 1.0 then (g, ports, Failed(3))
      else if newMem > g.mem then (g, ports, Failed(4))
      else
        var (ports', slot) := ports.Grant();
        if slot == -1 then (g, ports', Failed(5))
        else
          var port := slot + GPU_CLIENT_PORT_START;
          var e := FastPodReq(key, share.quotaReq, share.quotaLimit, share.smPartition, req.memory, port);
          (g.(usage := newUsage, usageMem := newMem, fastPods := g.fastPods + [e]), ports', Granted(g.uuid, port))
  }

  /** The body of `RequestGPUAndUpdateConfig` on the selected record.  The mode is pinned before
      anything is checked, and is not compared with the request; a FASTPOD grant on a record whose
      mode enables no MPS server dereferences a nil configuration at the end. */
  function CommitOnGpu(g0: Gpu, ports: Ports, req: Request, key: string, lookup: MpsLookup)
    : (Gpu, Ports, CommitResult)
  {
    var g := if g0.mode == NoMode then g0.(mode := req.mode) else g0;
    match req.mode
    case Mps =>
      var (g', r) := CommitMps(g, req, key, lookup);
      (g', ports, r)
    case Exclusive => (g.(exclusive := Some(key)), ports, Granted(g.uuid, 0))
    case _ =>
      var (g', ports', r) := CommitFastPod(g, ports, req, key);
      (g', ports', if r.Granted? && g.mode != Mps && g.mode != FastPod then CommitPanics else r)
  }

  function CommitOnNode(n: Node, gpu: string, req: Request, key: string, lookup: MpsLookup): (Node, CommitResult) {
    if gpu !in n.gpus then (n, Failed(3))
    else
      var (g, ports, r) := CommitOnGpu(n.gpus[gpu], n.ports, req, key, lookup);
      (n.(gpus := n.gpus[gpu := g], ports := ports), r)
  }

  function Project(e: FastPodReq): PodConfig {
    PodConfig(e.key, e.qtRequest, e.qtLimit, e.smPartition, e.memory, ToInt32(e.port))
  }

  function ToInt32(x: int): (r: int)
    ensures -0x8000_0000 <= r < 0x8000_0000 && (x - r) % 0x1_0000_0000 == 0
    ensures -0x8000_0000 <= x < 0x8000_0000 ==> r == x
  {
    (x + 0x8000_0000) % 0x1_0000_0000 - 0x8000_0000
  }

  function Projection(l: seq<FastPodReq>): seq<PodConfig> {
    seq(|l|, i requires 0 <= i < |l| => Project(l[i]))
  }

  /** `updatePodsGPUConfig`: replace the node's configuration for a GPU, if the push gets through. */
  function Push(l: Ledger, node: string, uuid: string, pods: seq<FastPodReq>, ok: bool): Ledger {
    if ok then l.(pushed := l.pushed[(node, uuid) := Projection(pods)]) else l
  }

  function Commit(l: Ledger, sel: Selection, req: Request, key: string, pushOk: bool, lookup: MpsLookup)
    : (Ledger, CommitResult)
  {
    if sel.node !in l.nodes then (l, Failed(2))
    else
      var (n, r) := CommitOnNode(l.nodes[sel.node], sel.gpu, req, key, lookup);
      var l' := l.(nodes := l.nodes[sel.node := n]);
      if r.Granted? && req.mode == FastPod && sel.gpu in n.gpus
      then (Push(l', sel.node, n.gpus[sel.gpu].uuid, n.gpus[sel.gpu].fastPods, pushOk), r)
      else (l', r)
  }

  // ---------------------------------------------------------------- removal

  /** The record once its `i`-th FastPod is gone. */
  function DropFast(g: Gpu, i: nat): Gpu
    requires i < |g.fastPods|
  {
    var e := g.fastPods[i];
    g.(fastPods := RemoveAt(g.fastPods, i), usageMem := Wrap64(g.usageMem - e.memory), usage := g.usage - ShareOf(e))
  }

  function DropMps(g: Gpu, i: nat): Gpu
    requires i < |g.mpsPods|
  {
    g.(mpsPods := RemoveAt(g.mpsPods, i), usageMem := Wrap64(g.usageMem - g.mpsPods[i].memory))
  }

  function EraseFast(n: Node, gpu: string, key: string): (r: Node)
    requires gpu in n.gpus
    ensures r.gpus.Keys == n.gpus.Keys
  {
    var g := n.gpus[gpu];
    var i := FindFast(g.fastPods, key);
    if i == |g.fastPods| then n
    else n.(gpus := n.gpus[gpu := DropFast(g, i)], ports := n.ports.Drop(g.fastPods[i].port - GPU_CLIENT_PORT_START))
  }

  function EraseMps(n: Node, gpu: string, key: string): (r: Node)
    requires gpu in n.gpus
    ensures r.gpus.Keys == n.gpus.Keys
  {
    var g := n.gpus[gpu];
    var i := FindMps(g.mpsPods, key);
    if i == |g.mpsPods| then n
    else n.(gpus := n.gpus[gpu := DropMps(g, i)])
  }

  /** The ledger effect of a removal: erase the pod's entry from the list its annotation names, and
      delete the whole record once that list is empty. */
  function ReleaseOnNode(n: Node, pod: Pod): Node {
    if pod.gpu !in n.gpus then n
    else
      match pod.mode
      case FastPod =>
        var n' := EraseFast(n, pod.gpu, pod.key);
        if n'.gpus[pod.gpu].fastPods == [] then n'.(gpus := n'.gpus - {pod.gpu}) else n'
      case Mps =>
        var n' := EraseMps(n, pod.gpu, pod.key);
        if n'.gpus[pod.gpu].mpsPods == [] then n'.(gpus := n'.gpus - {pod.gpu}) else n'
      case Exclusive => n.(gpus := n.gpus - {pod.gpu})
      case NoMode => n
  }

  predicate HasRecord(l: Ledger, pod: Pod) {
    pod.node in l.nodes && pod.gpu in l.nodes[pod.node].gpus
  }

  function RecordOf(l: Ledger, pod: Pod): Gpu
    requires HasRecord(l, pod)
  {
    l.nodes[pod.node].gpus[pod.gpu]
  }

  /** The pod is in the FastPod list of its record. */
  predicate Found(l: Ledger, pod: Pod) {
    HasRecord(l, pod) && FindFast(RecordOf(l, pod).fastPods, pod.key) < |RecordOf(l, pod).fastPods|
  }

  /** `removePodFromList` calls `podlist.Len()` on a list that is nil for these annotations. */
  predicate RemovePanics(l: Ledger, pod: Pod) {
    HasRecord(l, pod) && (pod.mode == Exclusive || pod.mode == NoMode)
  }

  function Release(l: Ledger, pod: Pod, pushes: bool, pushOk: bool): Ledger {
    if !HasRecord(l, pod) then l
    else
      var l' := l.(nodes := l.nodes[pod.node := ReleaseOnNode(l.nodes[pod.node], pod)]);
      if pushes && pod.mode == FastPod then
        var g := EraseFast(l.nodes[pod.node], pod.gpu, pod.key).gpus[pod.gpu];
        Push(l', pod.node, g.uuid, g.fastPods, pushOk)
      else l'
  }

  /** `removePodFromList` pushes only when it found the entry. */
  function RemovePod(l: Ledger, pod: Pod, pushOk: bool): Ledger {
    Release(l, pod, Found(l, pod), pushOk)
  }

  /** One iteration of `removeFaSTPodFromList`, which always pushes. */
  function SweepPod(l: Ledger, pod: Pod, pushOk: bool): Ledger {
    Release(l, pod, true, pushOk)
  }

  /** `removeFaSTPodFromList`: one iteration for each pod of the FaSTPod, under one lock. */
  function SweepAll(l: Ledger, pods: seq<Pod>, pushOk: seq<bool>): Ledger
    requires |pods| == |pushOk|
  {
    if pods == [] then l
    else
      var k := |pods| - 1;
      SweepPod(SweepAll(l, pods[..k], pushOk[..k]), pods[k], pushOk[k])
  }

  // ---------------------------------------------------------------- registration, re-configuration

  function RegisterNode(l: Ledger, name: string): Ledger {
    if name in l.nodes then l
    else l.(nodes := l.nodes[name := Node(name, map[], Slots(PORT_RANGE, {}, 0))])
  }

  function Reshare(e: FastPodReq, share: Share): FastPodReq {
    e.(qtRequest := share.quotaReq, qtLimit := share.quotaLimit, smPartition := share.smPartition)
  }

  predicate CanReconfigure(l: Ledger, pod: Pod, valid: bool) {
    valid && Found(l, pod)
  }

  /** One pod of `reconcileResourceConfig`: the entry's share is overwritten, `Usage` is not.
      `valid` is the validity check, which looks at the pod's old annotations only. */
  function ReconfigurePod(l: Ledger, pod: Pod, share: Share, valid: bool, pushOk: bool): Ledger {
    if !CanReconfigure(l, pod, valid) then l
    else
      var n := l.nodes[pod.node];
      var g := n.gpus[pod.gpu];
      var i := FindFast(g.fastPods, pod.key);
      var g' := g.(fastPods := g.fastPods[i := Reshare(g.fastPods[i], share)]);
      Push(l.(nodes := l.nodes[pod.node := n.(gpus := n.gpus[pod.gpu := g'])]), pod.node, g'.uuid, g'.fastPods, pushOk)
  }
}
