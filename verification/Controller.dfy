/** The controller's mutable state: GPU records, nodes with their port bitmap, and the global node
    map, with every critical section proved to compute the ledger function of the same name. */
module ControllerState {
  import opened Requests
  import opened PortBitmap
  import opened Ledger
  import opened LedgerSafety

  /** `FindInQueue`, as the FastPod callers use it. */
  method FindInQueue(key: string, pods: seq<FastPodReq>) returns (at: nat, found: bool)
    ensures at == FindFast(pods, key)
    ensures found <==> at < |pods|
  {
    at := 0;
    while at < |pods|
      invariant at <= |pods|
      invariant forall j :: 0 <= j < at ==> pods[j].key != key
    {
      if pods[at].key == key {
        return at, true;
      }
      at := at + 1;
    }
    found := false;
  }

  method FindInMpsQueue(key: string, pods: seq<MpsPodReq>) returns (at: nat, found: bool)
    ensures at == FindMps(pods, key)
    ensures found <==> at < |pods|
  {
    at := 0;
    while at < |pods|
      invariant at <= |pods|
      invariant forall j :: 0 <= j < at ==> pods[j].key != key
    {
      if pods[at].key == key {
        return at, true;
      }
      at := at + 1;
    }
    found := false;
  }

  /** The loop of `updatePodsGPUConfig`. */
  method BuildConfig(pods: seq<FastPodReq>) returns (config: seq<PodConfig>)
    ensures config == Projection(pods)
  {
    config := [];
    for i := 0 to |pods|
      invariant config == Projection(pods[..i])
    {
      assert pods[..i + 1] == pods[..i] + [pods[i]];
      config := config + [Project(pods[i])];
    }
    assert pods[..|pods|] == pods;
  }

  lemma MapUpdated<V>(before: map<string, V>, after: map<string, V>, key: string, value: V)
    requires after.Keys == before.Keys + {key} && after[key] == value
    requires forall k :: k in before && k != key ==> after[k] == before[k]
    ensures after == before[key := value]
  {}

  /** A record and its node's ports once the FastPod `key` is erased from it. */
  ghost function Erased(g: Gpu, ports: Slots, key: string): (Gpu, Slots) {
    var i := FindFast(g.fastPods, key);
    if i == |g.fastPods| then (g, ports)
    else (DropFast(g, i), ports.Drop(g.fastPods[i].port - GPU_CLIENT_PORT_START))
  }

  /** A record once the MPS pod `key` is erased from it. */
  ghost function MpsErased(g: Gpu, key: string): Gpu {
    var i := FindMps(g.mpsPods, key);
    if i == |g.mpsPods| then g else DropMps(g, i)
  }

  class GpuDevInfo {
    const uuid: string
    const smCount: int
    const smPercentage: int
    var mem: int64
    var mode: Mode
    var usage: real
    var usageMem: int64
    var fastPods: seq<FastPodReq>
    var mpsPods: seq<MpsPodReq>
    var exclusive: Option<string>

    ghost function View(): Gpu
      reads this
    {
      Gpu(uuid, smCount, smPercentage, mem, mode, usage, usageMem, fastPods, mpsPods, exclusive)
    }

    constructor (d: Device)
      ensures View() == NewGpu(d)
    {
      uuid, smCount, smPercentage, mem := d.uuid, d.smCount, d.smPercentage, Wrap64(d.memoryBytes);
      mode, usage, usageMem := NoMode, 0.0, 0;
      fastPods, mpsPods, exclusive := [], [], None;
    }

    method Read() returns (g: Gpu)
      ensures g == View()
    {
      g := Gpu(uuid, smCount, smPercentage, mem, mode, usage, usageMem, fastPods, mpsPods, exclusive);
    }

    method CommitMpsPod(req: Request, key: string, lookup: MpsLookup) returns (r: CommitResult)
      modifies this
      ensures (View(), r) == CommitMps(old(View()), req, key, lookup)
    {
      if lookup == AsWritten && |mpsPods| > 0 {
        return CommitPanics;
      }
      var _, found := FindInMpsQueue(key, mpsPods);
      if !found {
        var newMemoryUsage := Wrap64(usageMem + req.memory);
        if newMemoryUsage > mem {
          return Failed(4);
        }
        usageMem := newMemoryUsage;
        mpsPods := mpsPods + [MpsPodReq(key, req.memory)];
      }
      r := Granted(uuid, 0);
    }

    method CommitFastPodReq(ports: Bitmap, req: Request, key: string) returns (r: CommitResult)
      requires ports.Valid()
      modifies this, ports`position, ports.bits
      ensures ports.Valid()
      ensures (View(), ports.View(), r) == CommitFastPod(old(View()), old(ports.View()), req, key)
    {
      hide SlotBit;
      if req.fast.None? {
        return CommitPanics;
      }
      var at, found := FindInQueue(key, fastPods);
      if found {
        return Granted(uuid, fastPods[at].port);
      }
      var share := req.fast.value;
      var newUsage := usage + Contribution(share.quotaReq, share.smPartition);
      if newUsage > 1.0 {
        return Failed(3);
      }
      var newMemoryUsage := Wrap64(usageMem + req.memory);
      if newMemoryUsage > mem {
        return Failed(4);
      }
      var newPort := ports.FindFirstUnsetAndSet();
      if newPort == -1 {
        return Failed(5);
      }
      var port := newPort + GPU_CLIENT_PORT_START;
      usage, usageMem := newUsage, newMemoryUsage;
      fastPods := fastPods + [FastPodReq(key, share.quotaReq, share.quotaLimit, share.smPartition, req.memory, port)];
      r := Granted(uuid, port);
    }

    method Commit(ports: Bitmap, req: Request, key: string, lookup: MpsLookup) returns (r: CommitResult)
      requires ports.Valid()
      modifies this, ports`position, ports.bits
      ensures ports.Valid()
      ensures r == CommitOnGpu(old(View()), old(ports.View()), req, key, lookup).2
      ensures !r.CommitPanics? ==>
                (View(), ports.View(), r) == CommitOnGpu(old(View()), old(ports.View()), req, key, lookup)
    {
      hide Bitmap.View, CommitMps, CommitFastPod;
      if mode == NoMode {
        mode := req.mode;
      }
      var hasMpsConfig := mode == Mps || mode == FastPod;
      if req.mode == Mps {
        r := CommitMpsPod(req, key, lookup);
      } else if req.mode == Exclusive {
        exclusive := Some(key);
        r := Granted(uuid, 0);
      } else {
        r := CommitFastPodReq(ports, req, key);
        if r.Granted? && !hasMpsConfig {
          r := CommitPanics;
        }
      }
    }

    /** What both removal loops do with the entry they find. */
    method DropAt(ports: Bitmap, k: nat)
      requires ports.Valid() && k < |fastPods|
      modifies this, ports.bits
      ensures ports.Valid()
      ensures View() == DropFast(old(View()), k)
      ensures ports.View() == old(ports.View()).Drop(old(fastPods)[k].port - GPU_CLIENT_PORT_START)
    {
      hide Bitmap.View, RemoveAt;
      var podreq := fastPods[k];
      fastPods := RemoveAt(fastPods, k);
      usageMem := Wrap64(usageMem - podreq.memory);
      usage := usage - podreq.qtRequest * (podreq.smPartition as real / 100.0);
      var _ := ports.Clear(podreq.port - GPU_CLIENT_PORT_START);
    }

    /** The FastPod loop of `removePodFromList`, which breaks at the first match. */
    method RemoveFastPod(ports: Bitmap, key: string) returns (found: bool)
      requires ports.Valid()
      modifies this, ports.bits
      ensures ports.Valid()
      ensures found <==> InFast(old(fastPods), key)
      ensures (View(), ports.View()) == Erased(old(View()), old(ports.View()), key)
    {
      hide Bitmap.View, DropFast;
      found := false;
      var k := 0;
      while k < |fastPods|
        invariant 0 <= k <= |fastPods| && !found && unchanged(this) && unchanged(ports.bits)
        invariant forall j :: 0 <= j < k ==> fastPods[j].key != key
      {
        if fastPods[k].key == key {
          assert k == FindFast(fastPods, key);
          DropAt(ports, k);
          found := true;
          break;
        }
        k := k + 1;
      }
    }

    /** The FastPod loop of `removeFaSTPodFromList`, which has no break: a removed list element has
        no successor, so the loop ends there all the same. */
    method SweepFastPod(ports: Bitmap, key: string)
      requires ports.Valid()
      modifies this, ports.bits
      ensures ports.Valid()
      ensures (View(), ports.View()) == Erased(old(View()), old(ports.View()), key)
    {
      hide Bitmap.View, DropFast;
      var element: Option<nat> := if |fastPods| > 0 then Some(0) else None;
      while element.Some?
        invariant ports.Valid()
        invariant element.Some? ==>
                    && 0 <= element.value < |fastPods| && unchanged(this) && unchanged(ports.bits)
                    && forall j :: 0 <= j < element.value ==> fastPods[j].key != key
        invariant element.None? ==> (View(), ports.View()) == Erased(old(View()), old(ports.View()), key)
        decreases if element.Some? then 1 + |fastPods| - element.value else 0
      {
        var k := element.value;
        if fastPods[k].key == key {
          assert k == FindFast(fastPods, key);
          DropAt(ports, k);
          element := None;
        } else {
          element := if k + 1 < |fastPods| then Some(k + 1) else None;
        }
      }
    }

    /** The MPS loop of `removePodFromList`, which breaks at the first match. */
    method RemoveMpsPod(key: string)
      modifies this
      ensures View() == MpsErased(old(View()), key)
    {
      var k := 0;
      while k < |mpsPods|
        invariant 0 <= k <= |mpsPods| && unchanged(this)
        invariant forall j :: 0 <= j < k ==> mpsPods[j].key != key
      {
        var podreq := mpsPods[k];
        if podreq.key == key {
          assert k == FindMps(mpsPods, key);
          mpsPods := RemoveAt(mpsPods, k);
          usageMem := Wrap64(usageMem - podreq.memory);
          break;
        }
        k := k + 1;
      }
    }

    /** The MPS loop of `removeFaSTPodFromList`, which has no break either. */
    method SweepMpsPod(key: string)
      modifies this
      ensures View() == MpsErased(old(View()), key)
    {
      var element: Option<nat> := if |mpsPods| > 0 then Some(0) else None;
      while element.Some?
        invariant element.Some? ==>
                    && 0 <= element.value < |mpsPods| && unchanged(this)
                    && forall j :: 0 <= j < element.value ==> mpsPods[j].key != key
        invariant element.None? ==> View() == MpsErased(old(View()), key)
        decreases if element.Some? then 1 + |mpsPods| - element.value else 0
      {
        var k := element.value;
        var podreq := mpsPods[k];
        if podreq.key == key {
          assert k == FindMps(mpsPods, key);
          mpsPods := RemoveAt(mpsPods, k);
          usageMem := Wrap64(usageMem - podreq.memory);
          element := None;
        } else {
          element := if k + 1 < |mpsPods| then Some(k + 1) else None;
        }
      }
    }
  }

  class NodeInfo {
    const hostName: string
    const ports: Bitmap
    var gpus: map<string, GpuDevInfo>

    ghost var Repr: set<object>

    /** Each vGPU id has a record object of its own. */
    ghost predicate Valid()
      reads this, Repr
    {
      && this in Repr && ports in Repr && ports.bits in Repr
      && ports.Valid()
      && (forall k :: k in gpus ==> gpus[k] in Repr)
      && (forall j, k :: j in gpus && k in gpus && j != k ==> gpus[j] != gpus[k])
    }

    ghost function View(): (n: Node)
      requires Valid()
      reads this, Repr
      ensures n.hostName == hostName && n.gpus.Keys == gpus.Keys
    {
      Node(hostName, map k | k in gpus :: gpus[k].View(), ports.View())
    }

    constructor (name: string)
      ensures Valid() && this in Repr && fresh(Repr) && hostName == name
      ensures View() == Node(name, map[], Slots(PORT_RANGE, {}, 0))
    {
      hostName := name;
      var allocator := new Bitmap(PORT_RANGE);
      ports := allocator;
      gpus := map[];
      Repr := {this, allocator, allocator.bits};
    }

    /** Changing or adding one record object, and the ports, changes one entry of the node's value. */
    twostate lemma OneRecordChanged(gpu: string)
      requires old(Valid()) && Valid() && gpus.Keys == old(gpus.Keys) + {gpu}
      requires forall k :: k in old(gpus) && k != gpu ==> gpus[k].View() == old(gpus[k].View())
      ensures View() == old(View()).(gpus := old(View()).gpus[gpu := gpus[gpu].View()], ports := ports.View())
    {
      hide Bitmap.View, GpuDevInfo.View;
      MapUpdated(old(View()).gpus, View().gpus, gpu, gpus[gpu].View());
    }

    /** Deleting one record object deletes one entry of the node's value. */
    twostate lemma OneRecordDeleted(gpu: string)
      requires old(Valid()) && Valid() && gpus == old(gpus) - {gpu}
      requires forall k :: k in gpus ==> gpus[k].View() == old(gpus[k].View())
      ensures View() == old(View()).(gpus := old(View()).gpus - {gpu}, ports := ports.View())
    {
      hide Bitmap.View, GpuDevInfo.View;
    }

    method HasRecordFor(gpu: string) returns (known: bool)
      requires Valid()
      ensures known <==> gpu in View().gpus
      ensures known <==> gpu in gpus
    {
      known := gpu in gpus;
    }

    /** The lookup-or-insert of `ScheduleRequest`. */
    method EnsureRecord(gpu: string, d: Device) returns (info: Gpu)
      requires Valid()
      modifies Repr
      ensures Valid() && old(Repr) <= Repr && fresh(Repr - old(Repr))
      ensures View() == WithRecord(old(View()), gpu, d) && info == View().gpus[gpu]
    {
      hide Bitmap.View, NewGpu, GpuDevInfo.View;
      if gpu !in gpus {
        var record := new GpuDevInfo(d);
        gpus := gpus[gpu := record];
        Repr := Repr + {record};
        OneRecordChanged(gpu);
      }
      info := gpus[gpu].Read();
    }

    method CommitPod(gpu: string, req: Request, key: string, lookup: MpsLookup)
      returns (r: CommitResult, info: Option<Gpu>)
      requires Valid()
      modifies Repr
      ensures Valid() && Repr == old(Repr)
      ensures r == CommitOnNode(old(View()), gpu, req, key, lookup).1
      ensures !r.CommitPanics? ==> View() == CommitOnNode(old(View()), gpu, req, key, lookup).0
      ensures info == if gpu in View().gpus then Some(View().gpus[gpu]) else None
    {
      hide CommitOnGpu, Bitmap.View, GpuDevInfo.View;
      if gpu !in gpus {
        return Failed(3), None;
      }
      r := gpus[gpu].Commit(ports, req, key, lookup);
      OneRecordChanged(gpu);
      var value := gpus[gpu].Read();
      info := Some(value);
    }

    method DeleteRecord(gpu: string)
      requires Valid()
      modifies this`gpus
      ensures Valid() && Repr == old(Repr)
      ensures View() == old(View()).(gpus := old(View()).gpus - {gpu})
    {
      hide Bitmap.View, GpuDevInfo.View;
      gpus := gpus - {gpu};
      OneRecordDeleted(gpu);
    }

    method EraseFastPod(gpu: string, key: string) returns (found: bool)
      requires Valid() && gpu in gpus
      modifies gpus.Values, ports.bits
      ensures Valid() && gpus == old(gpus) && Repr == old(Repr)
      ensures found <==> InFast(old(gpus[gpu].fastPods), key)
      ensures View() == EraseFast(old(View()), gpu, key)
    {
      hide Bitmap.View, DropFast;
      found := gpus[gpu].RemoveFastPod(ports, key);
      hide GpuDevInfo.View;
      OneRecordChanged(gpu);
    }

    method SweepFastPods(gpu: string, key: string)
      requires Valid() && gpu in gpus
      modifies gpus.Values, ports.bits
      ensures Valid() && gpus == old(gpus) && Repr == old(Repr)
      ensures View() == EraseFast(old(View()), gpu, key)
    {
      hide Bitmap.View, DropFast;
      gpus[gpu].SweepFastPod(ports, key);
      hide GpuDevInfo.View;
      OneRecordChanged(gpu);
    }

    method EraseMpsPod(gpu: string, key: string)
      requires Valid() && gpu in gpus
      modifies gpus.Values
      ensures Valid() && gpus == old(gpus) && Repr == old(Repr)
      ensures View() == EraseMps(old(View()), gpu, key)
    {
      hide Bitmap.View, RemoveAt, FindMps;
      gpus[gpu].RemoveMpsPod(key);
      hide GpuDevInfo.View;
      OneRecordChanged(gpu);
    }

    method SweepMpsPods(gpu: string, key: string)
      requires Valid() && gpu in gpus
      modifies gpus.Values
      ensures Valid() && gpus == old(gpus) && Repr == old(Repr)
      ensures View() == EraseMps(old(View()), gpu, key)
    {
      hide Bitmap.View, RemoveAt, FindMps;
      gpus[gpu].SweepMpsPod(key);
      hide GpuDevInfo.View;
      OneRecordChanged(gpu);
    }

    /** The body of `removePodFromList` on the pod's node; `push` is what it sends, if anything. */
    method RemovePod(pod: Pod) returns (panics: bool, push: Option<(string, seq<FastPodReq>)>)
      requires Valid() && pod.gpu in gpus
      modifies Repr
      ensures Valid() && Repr == old(Repr)
      ensures panics <==> pod.mode == Exclusive || pod.mode == NoMode
      ensures !panics ==> View() == ReleaseOnNode(old(View()), pod)
      ensures push == if pod.mode == FastPod && InFast(old(View()).gpus[pod.gpu].fastPods, pod.key)
                      then var g := EraseFast(old(View()), pod.gpu, pod.key).gpus[pod.gpu]; Some((g.uuid, g.fastPods))
                      else None
    {
      hide Bitmap.View, InFast, EraseFast, EraseMps;
      var info := gpus[pod.gpu];
      push := None;
      if pod.mode == FastPod {
        var found := EraseFastPod(pod.gpu, pod.key);
        if found {
          push := Some((info.uuid, info.fastPods));
        }
        assert View().gpus[pod.gpu] == info.View();
        if |info.fastPods| == 0 {
          DeleteRecord(pod.gpu);
        }
        panics := false;
      } else if pod.mode == Mps {
        EraseMpsPod(pod.gpu, pod.key);
        assert View().gpus[pod.gpu] == info.View();
        if |info.mpsPods| == 0 {
          DeleteRecord(pod.gpu);
        }
        panics := false;
      } else {
        panics := true;
      }
    }

    /** One iteration of `removeFaSTPodFromList` on the pod's node. */
    method SweepPodHere(pod: Pod) returns (push: Option<(string, seq<FastPodReq>)>)
      requires Valid() && pod.gpu in gpus
      modifies Repr
      ensures Valid() && Repr == old(Repr)
      ensures View() == ReleaseOnNode(old(View()), pod)
      ensures push == if pod.mode == FastPod
                      then var g := EraseFast(old(View()), pod.gpu, pod.key).gpus[pod.gpu]; Some((g.uuid, g.fastPods))
                      else None
    {
      hide Bitmap.View, EraseFast, EraseMps;
      var info := gpus[pod.gpu];
      push := None;
      if pod.mode == FastPod {
        SweepFastPods(pod.gpu, pod.key);
        push := Some((info.uuid, info.fastPods));
        assert View().gpus[pod.gpu] == info.View();
        if |info.fastPods| == 0 {
          DeleteRecord(pod.gpu);
        }
      } else if pod.mode == Mps {
        SweepMpsPods(pod.gpu, pod.key);
        assert View().gpus[pod.gpu] == info.View();
        if |info.mpsPods| == 0 {
          DeleteRecord(pod.gpu);
        }
      } else if pod.mode == Exclusive {
        DeleteRecord(pod.gpu);
      }
    }

    /** Overwriting the share of the entry with this key, in place. */
    method ReshareKey(gpu: string, key: string, share: Share) returns (info: Option<Gpu>)
      requires Valid() && gpu in gpus
      modifies Repr
      ensures Valid() && Repr == old(Repr)
      ensures var g := old(View()).gpus[gpu];
              var i := FindFast(g.fastPods, key);
              if i == |g.fastPods| then info == None && View() == old(View())
              else
                var g' := g.(fastPods := g.fastPods[i := Reshare(g.fastPods[i], share)]);
                info == Some(g') && View() == old(View()).(gpus := old(View()).gpus[gpu := g'])
    {
      hide Bitmap.View;
      var record := gpus[gpu];
      var at, found := FindInQueue(key, record.fastPods);
      if !found {
        return None;
      }
      record.fastPods := record.fastPods[at := Reshare(record.fastPods[at], share)];
      var value := record.Read();
      info := Some(value);
      hide GpuDevInfo.View, FindFast;
      OneRecordChanged(gpu);
    }
  }

  /** The configuration each node was last sent. */
  class ConfigMirror {
    var pushed: map<(string, string), seq<PodConfig>>

    constructor ()
      ensures pushed == map[]
    {
      pushed := map[];
    }

    /** `updatePodsGPUConfig`; `ok` says whether the node was ready and the call got through. */
    method UpdatePodsGPUConfig(node: string, uuid: string, pods: seq<FastPodReq>, ok: bool)
      modifies this
      ensures forall nodes :: Ledger(nodes, pushed) == Push(Ledger(nodes, old(pushed)), node, uuid, pods, ok)
    {
      hide Projection;
      if !ok {
        return;
      }
      var config := BuildConfig(pods);
      pushed := pushed[(node, uuid) := config];
    }
  }

  /** The global node map. */
  class Controller {
    const mirror: ConfigMirror
    var nodes: map<string, NodeInfo>
    ghost var Repr: set<object>

    /** Different nodes share no object. */
    ghost predicate Valid()
      reads this, Repr
    {
      && this !in Repr && mirror !in Repr
      && (forall a :: a in nodes ==>
            nodes[a] in Repr && nodes[a] in nodes[a].Repr && nodes[a].Repr <= Repr && nodes[a].Valid())
      && (forall a, b :: a in nodes && b in nodes && a != b ==> nodes[a].Repr !! nodes[b].Repr)
    }

    ghost function Nodes(): (m: map<string, Node>)
      requires Valid()
      reads this, Repr
      ensures m.Keys == nodes.Keys
    {
      map a | a in nodes :: nodes[a].View()
    }

    ghost function View(): Ledger
      requires Valid()
      reads this, mirror, Repr
    {
      Ledger(Nodes(), mirror.pushed)
    }

    constructor ()
      ensures Valid() && View() == Ledger(map[], map[]) && fresh(mirror) && Repr == {}
    {
      nodes, Repr := map[], {};
      mirror := new ConfigMirror();
    }

    /** A node that only gains fresh objects stays apart from the others. */
    twostate lemma StillValid(name: string)
      requires old(Valid()) && nodes == old(nodes) && name in nodes
      requires nodes[name] in nodes[name].Repr && nodes[name].Valid()
      requires fresh(nodes[name].Repr - old(nodes[name].Repr)) && Repr == old(Repr) + nodes[name].Repr
      requires forall a :: a in nodes && a != name ==> nodes[a].Repr == old(nodes[a].Repr) && nodes[a].Valid()
      ensures Valid()
    {
      hide NodeInfo.Valid;
    }

    /** Work done inside one node's objects changes one entry of the ledger. */
    twostate lemma OneNodeChanged(name: string)
      requires old(Valid()) && nodes == old(nodes) && name in nodes
      requires nodes[name] in nodes[name].Repr && nodes[name].Valid()
      requires fresh(nodes[name].Repr - old(nodes[name].Repr)) && Repr == old(Repr) + nodes[name].Repr
      requires forall a :: a in nodes && a != name ==>
                 nodes[a].Repr == old(nodes[a].Repr) && nodes[a].Valid() && nodes[a].View() == old(nodes[a].View())
      ensures Valid() && Nodes() == old(Nodes())[name := nodes[name].View()]
    {
      hide NodeInfo.View, NodeInfo.Valid;
      StillValid(name);
      MapUpdated(old(Nodes()), Nodes(), name, nodes[name].View());
    }

    /** The record is there afterwards, and no other node has changed. */
    method EnsureInside(name: string, gpu: string, d: Device) returns (info: Gpu)
      requires Valid() && name in nodes
      modifies this`Repr, nodes[name].Repr
      ensures nodes[name] in nodes[name].Repr && nodes[name].Valid()
      ensures fresh(nodes[name].Repr - old(nodes[name].Repr)) && Repr == old(Repr) + nodes[name].Repr
      ensures nodes[name].View() == WithRecord(old(nodes[name].View()), gpu, d) && info == nodes[name].View().gpus[gpu]
      ensures forall a :: a in nodes && a != name ==>
                nodes[a].Repr == old(nodes[a].Repr) && nodes[a].Valid() && nodes[a].View() == old(nodes[a].View())
    {
      hide WithRecord, NodeInfo.View, NodeInfo.Valid;
      info := nodes[name].EnsureRecord(gpu, d);
      Repr := Repr + nodes[name].Repr;
    }

    method EnsureOn(name: string, gpu: string, d: Device) returns (hostName: string, info: Gpu)
      requires Valid() && name in nodes
      modifies this`Repr, Repr
      ensures Valid() && fresh(Repr - old(Repr))
      ensures Nodes() == old(Nodes())[name := WithRecord(old(Nodes())[name], gpu, d)]
      ensures hostName == Nodes()[name].hostName && gpu in Nodes()[name].gpus && info == Nodes()[name].gpus[gpu]
    {
      NodesAt(name);
      NodeWithin(name);
      hide WithRecord, NodeInfo.View, NodeInfo.Valid, Controller.Nodes, Controller.Valid;
      hostName := nodes[name].hostName;
      info := EnsureInside(name, gpu, d);
      OneNodeChanged(name);
    }

    method ScheduleRequest(req: Request, index: map<string, Device>) returns (r: CheckResult)
      requires Valid()
      modifies this`Repr, Repr
      ensures Valid() && fresh(Repr - old(Repr))
      ensures (View(), r) == Schedule(old(View()), req, index)
    {
      hide CanFit, WithRecord, Controller.Nodes;
      if req.node.None? || req.gpu.None? || req.node.value !in nodes || req.gpu.value !in index {
        return Refused;
      }
      var gpu := req.gpu.value;
      var hostName, info := EnsureOn(req.node.value, gpu, index[gpu]);
      match CanFit(req, info) {
        case FitPanics => r := CheckPanics;
        case NoFit => r := Refused;
        case Fits => r := Selected(Selection(hostName, gpu));
      }
    }

    method CommitOnSelected(sel: Selection, req: Request, key: string, lookup: MpsLookup)
      returns (r: CommitResult, info: Option<Gpu>)
      requires Valid() && sel.node in nodes
      modifies Repr
      ensures Valid() && sel.node in Nodes()
      ensures r == CommitOnNode(old(Nodes())[sel.node], sel.gpu, req, key, lookup).1
      ensures !r.CommitPanics? ==>
                Nodes() == old(Nodes())[sel.node := CommitOnNode(old(Nodes())[sel.node], sel.gpu, req, key, lookup).0]
      ensures var n := Nodes()[sel.node];
              info == if sel.gpu in n.gpus then Some(n.gpus[sel.gpu]) else None
    {
      hide CommitOnNode, NodeInfo.View, NodeInfo.Valid, Controller.Nodes;
      NodesAt(sel.node);
      var node := nodes[sel.node];
      r, info := node.CommitPod(sel.gpu, req, key, lookup);
      OneNodeChanged(sel.node);
    }

    method RequestGPUAndUpdateConfig(sel: Selection, req: Request, key: string, pushOk: bool, lookup: MpsLookup)
      returns (r: CommitResult)
      requires Valid()
      modifies mirror, Repr
      ensures Valid()
      ensures r == Commit(old(View()), sel, req, key, pushOk, lookup).1
      ensures !r.CommitPanics? ==> View() == Commit(old(View()), sel, req, key, pushOk, lookup).0
    {
      hide CommitOnNode, NodeInfo.View, Projection, Controller.Nodes;
      if sel.node !in nodes {
        return Failed(2);
      }
      var info;
      r, info := CommitOnSelected(sel, req, key, lookup);
      if r.Granted? && req.mode == FastPod && info.Some? {
        mirror.UpdatePodsGPUConfig(sel.node, info.value.uuid, info.value.fastPods, pushOk);
      }
    }

    method RemoveOn(pod: Pod) returns (panics: bool, push: Option<(string, seq<FastPodReq>)>)
      requires Valid() && pod.node in nodes && pod.gpu in nodes[pod.node].gpus
      modifies Repr
      ensures Valid() && pod.gpu in old(Nodes())[pod.node].gpus
      ensures panics <==> pod.mode == Exclusive || pod.mode == NoMode
      ensures !panics ==> Nodes() == old(Nodes())[pod.node := ReleaseOnNode(old(Nodes())[pod.node], pod)]
      ensures var n := old(Nodes())[pod.node];
              push == if pod.mode == FastPod && InFast(n.gpus[pod.gpu].fastPods, pod.key)
                      then var g := EraseFast(n, pod.gpu, pod.key).gpus[pod.gpu]; Some((g.uuid, g.fastPods))
                      else None
    {
      hide ReleaseOnNode, EraseFast, InFast, NodeInfo.Valid, NodeInfo.View, Controller.Nodes;
      NodesAt(pod.node);
      var node := nodes[pod.node];
      panics, push := node.RemovePod(pod);
      OneNodeChanged(pod.node);
    }

    method RemovePodFromList(pod: Pod, pushOk: bool) returns (panics: bool)
      requires Valid()
      modifies mirror, Repr
      ensures Valid()
      ensures panics <==> RemovePanics(old(View()), pod)
      ensures !panics ==> View() == RemovePod(old(View()), pod, pushOk)
    {
      hide ReleaseOnNode, EraseFast, Projection, Controller.Nodes, NodeInfo.Valid;
      panics := false;
      if pod.node in nodes {
        var known := nodes[pod.node].HasRecordFor(pod.gpu);
        assert known <==> HasRecord(View(), pod) by { NodesAt(pod.node); }
        if known {
          var push;
          panics, push := RemoveOn(pod);
          if !panics && push.Some? {
            mirror.UpdatePodsGPUConfig(pod.node, push.value.0, push.value.1, pushOk);
          }
        }
      }
    }

    lemma NodeWithin(name: string)
      requires Valid() && name in nodes
      ensures nodes[name].Repr <= Repr && nodes[name].Valid()
    {}

    lemma NodesAt(name: string)
      requires Valid() && name in nodes
      ensures Nodes()[name] == nodes[name].View()
    {}

    method SweepOn(pod: Pod) returns (push: Option<(string, seq<FastPodReq>)>)
      requires Valid() && pod.node in nodes && pod.gpu in nodes[pod.node].gpus
      modifies Repr
      ensures Valid() && Repr == old(Repr) && pod.gpu in old(Nodes())[pod.node].gpus
      ensures Nodes() == old(Nodes())[pod.node := ReleaseOnNode(old(Nodes())[pod.node], pod)]
      ensures push == if pod.mode == FastPod
                      then
                        var g := EraseFast(old(Nodes())[pod.node], pod.gpu, pod.key).gpus[pod.gpu];
                        Some((g.uuid, g.fastPods))
                      else None
    {
      hide ReleaseOnNode, EraseFast, NodeInfo.Valid, NodeInfo.View, Controller.Nodes;
      NodesAt(pod.node);
      push := nodes[pod.node].SweepPodHere(pod);
      OneNodeChanged(pod.node);
    }

    method SweepOne(pod: Pod, pushOk: bool)
      requires Valid()
      modifies mirror, Repr
      ensures Valid() && Repr == old(Repr)
      ensures View() == SweepPod(old(View()), pod, pushOk)
    {
      hide ReleaseOnNode, EraseFast, Projection, Controller.Nodes, NodeInfo.Valid;
      if pod.node in nodes {
        var known := nodes[pod.node].HasRecordFor(pod.gpu);
        assert known <==> HasRecord(View(), pod) by { NodesAt(pod.node); }
        if known {
          var push := SweepOn(pod);
          if push.Some? {
            mirror.UpdatePodsGPUConfig(pod.node, push.value.0, push.value.1, pushOk);
          }
        }
      }
    }

    /** Remove every pod of a deleted FaSTPod, in one critical section. */
    method RemoveFaSTPodFromList(pods: seq<Pod>, pushOk: seq<bool>)
      requires Valid() && |pods| == |pushOk|
      modifies mirror, Repr
      ensures Valid()
      ensures View() == SweepAll(old(View()), pods, pushOk)
    {
      hide SweepPod, Controller.View;
      for i := 0 to |pods|
        invariant Valid() && Repr == old(Repr)
        invariant View() == SweepAll(old(View()), pods[..i], pushOk[..i])
      {
        SweepOne(pods[i], pushOk[i]);
        assert pods[..i + 1][..i] == pods[..i] && pushOk[..i + 1][..i] == pushOk[..i];
      }
      assert pods[..|pods|] == pods && pushOk[..|pods|] == pushOk;
    }

    /** A node's hello: a known node keeps its records and ports. */
    method RegisterHost(name: string)
      requires Valid()
      modifies this
      ensures Valid() && fresh(Repr - old(Repr))
      ensures View() == RegisterNode(old(View()), name)
    {
      hide NodeInfo.View, NodeInfo.Valid, Controller.Nodes;
      if name !in nodes {
        var node := new NodeInfo(name);
        nodes := nodes[name := node];
        Repr := Repr + node.Repr;
        NodeAdded(name);
      }
    }

    twostate lemma NodeAdded(name: string)
      requires old(Valid()) && name !in old(nodes) && name in nodes && nodes == old(nodes)[name := nodes[name]]
      requires nodes[name] in nodes[name].Repr && nodes[name].Valid()
      requires fresh(nodes[name].Repr) && Repr == old(Repr) + nodes[name].Repr
      requires this !in nodes[name].Repr && mirror !in nodes[name].Repr
      requires forall a :: a in old(nodes) ==>
                 nodes[a].Repr == old(nodes[a].Repr) && nodes[a].Valid() && nodes[a].View() == old(nodes[a].View())
      ensures Valid() && Nodes() == old(Nodes())[name := nodes[name].View()]
    {
      NodeAddedValid(name);
      hide NodeInfo.View, NodeInfo.Valid, Controller.Valid;
      MapUpdated(old(Nodes()), Nodes(), name, nodes[name].View());
    }

    twostate lemma NodeAddedValid(name: string)
      requires old(Valid()) && name !in old(nodes) && name in nodes && nodes == old(nodes)[name := nodes[name]]
      requires nodes[name] in nodes[name].Repr && nodes[name].Valid()
      requires fresh(nodes[name].Repr) && Repr == old(Repr) + nodes[name].Repr
      requires this !in nodes[name].Repr && mirror !in nodes[name].Repr
      requires forall a :: a in old(nodes) ==> nodes[a].Repr == old(nodes[a].Repr) && nodes[a].Valid()
      ensures Valid()
    {
      hide NodeInfo.Valid;
      forall a | a in old(nodes)
        ensures nodes[a].Repr !! nodes[name].Repr
      {
        assert old(nodes[a].Repr) <= old(Repr);
      }
    }

    method ReshareOn(pod: Pod, share: Share) returns (info: Option<Gpu>)
      requires Valid() && pod.node in nodes && pod.gpu in nodes[pod.node].gpus
      modifies Repr
      ensures Valid() && pod.gpu in old(Nodes())[pod.node].gpus
      ensures var n := old(Nodes())[pod.node];
              var g := n.gpus[pod.gpu];
              var i := FindFast(g.fastPods, pod.key);
              if i == |g.fastPods| then info == None && Nodes() == old(Nodes())
              else
                var g' := g.(fastPods := g.fastPods[i := Reshare(g.fastPods[i], share)]);
                info == Some(g') && Nodes() == old(Nodes())[pod.node := n.(gpus := n.gpus[pod.gpu := g'])]
    {
      hide NodeInfo.Valid, NodeInfo.View, Controller.Nodes, FindFast;
      NodesAt(pod.node);
      info := nodes[pod.node].ReshareKey(pod.gpu, pod.key, share);
      OneNodeChanged(pod.node);
      assert old(Nodes())[pod.node := old(Nodes())[pod.node]] == old(Nodes());
    }

    /** One pod of `reconcileResourceConfig`. */
    method ReconcileResourceConfig(pod: Pod, share: Share, valid: bool, pushOk: bool)
      requires Valid()
      modifies mirror, Repr
      ensures Valid()
      ensures View() == ReconfigurePod(old(View()), pod, share, valid, pushOk)
    {
      hide Projection, Controller.Nodes, NodeInfo.Valid, FindFast;
      if pod.node in nodes && valid {
        var known := nodes[pod.node].HasRecordFor(pod.gpu);
        assert known <==> HasRecord(View(), pod) by { NodesAt(pod.node); }
        if known {
          var info := ReshareOn(pod, share);
          if info.Some? {
            mirror.UpdatePodsGPUConfig(pod.node, info.value.uuid, info.value.fastPods, pushOk);
          }
        }
      }
    }
  }
}
