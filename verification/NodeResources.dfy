/** The node-side resource manager: the uuid index of provisioned GPUs, and provisioning and release
    under arbitrary hardware failures (internal/apps/fast-configurator/virtual_resource.go). */
module NodeResources {
  import opened Requests
  import opened Ledger

  /** A virtual GPU: `uuid` is that of its provisioned device, `compute` and `instance` say whether it
      still refers to a compute instance and to a GPU instance. */
  datatype VGpu = VGpu(physical: bool, isProvisioned: bool, uuid: Option<string>, compute: bool, instance: bool)

  datatype HwEvent = DestroyCompute(ok: bool) | DestroyInstance(ok: bool)

  /** One `Release`, given how the two destroy calls go if they are made: the device, whether the
      index still has it, and the hardware calls made. */
  function ReleaseOnce(v: VGpu, indexed: bool, computeOk: bool, instanceOk: bool): (VGpu, bool, seq<HwEvent>) {
    if !v.isProvisioned || v.physical || v.uuid.None? then (v, indexed, [])
    else if v.compute && !computeOk then (v, indexed, [DestroyCompute(false)])
    else
      var first := if v.compute then [DestroyCompute(true)] else [];
      if v.instance && !instanceOk then (v.(compute := false), indexed, first + [DestroyInstance(false)])
      else
        (v.(compute := false, instance := false, isProvisioned := false, uuid := None), false,
         first + if v.instance then [DestroyInstance(true)] else [])
  }

  /** How a provisioning attempt ends: before the GPU instance is recorded, before the compute
      instance is, after the device has been marked provisioned, or with a device UUID. */
  datatype AccessEnd = NoInstance | NoCompute | NoDevice | Provisioned(uuid: string)

  function AccessOnce(v: VGpu, end: AccessEnd): (VGpu, bool) {
    if v.isProvisioned then (v, true)
    else
      match end
      case NoInstance => (v, false)
      case NoCompute => (v.(instance := true), false)
      case NoDevice => (v.(instance := true, compute := true, isProvisioned := true), false)
      case Provisioned(u) => (v.(instance := true, compute := true, isProvisioned := true, uuid := Some(u)), true)
  }

  // ---------------------------------------------------------------- release is resumable

  /** Any number of release attempts, each with its own hardware outcome. */
  function ReleaseMany(v: VGpu, indexed: bool, attempts: seq<(bool, bool)>): (VGpu, bool, seq<HwEvent>) {
    if attempts == [] then (v, indexed, [])
    else
      var k := |attempts| - 1;
      var (v1, i1, h1) := ReleaseMany(v, indexed, attempts[..k]);
      var (v2, i2, h2) := ReleaseOnce(v1, i1, attempts[k].0, attempts[k].1);
      (v2, i2, h1 + h2)
  }

  function Times(h: seq<HwEvent>, e: HwEvent): nat {
    multiset(h)[e]
  }

  /** The GPU instance is touched only once its compute instance has been destroyed. */
  ghost predicate ComputeFirst(h: seq<HwEvent>) {
    forall i :: 0 <= i < |h| && h[i].DestroyInstance? ==> DestroyCompute(true) in h[..i]
  }

  lemma ComputeFirstConcat(h: seq<HwEvent>, t: seq<HwEvent>)
    requires ComputeFirst(h) && (ComputeFirst(t) || DestroyCompute(true) in h)
    ensures ComputeFirst(h + t)
  {
    forall i | 0 <= i < |h + t| && (h + t)[i].DestroyInstance?
      ensures DestroyCompute(true) in (h + t)[..i]
    {
      if i < |h| {
        assert (h + t)[..i] == h[..i];
      } else {
        assert (h + t)[..i] == h + t[..i - |h|];
        assert (h + t)[i] == t[i - |h|];
      }
    }
  }

  /** What one attempt on a live device does: a success exactly where a reference disappears. */
  lemma OnceCounts(v: VGpu, indexed: bool, computeOk: bool, instanceOk: bool)
    ensures var (v', i', h) := ReleaseOnce(v, indexed, computeOk, instanceOk);
            && Times(h, DestroyCompute(true)) == (if v.compute && !v'.compute then 1 else 0)
            && Times(h, DestroyInstance(true)) == (if v.instance && !v'.instance then 1 else 0)
            && (v.compute ==> ComputeFirst(h))
            && (v'.compute ==> v.compute) && (v'.instance ==> v.instance)
  {
    var h := ReleaseOnce(v, indexed, computeOk, instanceOk).2;
    if |h| == 2 {
      assert h == [h[0], h[1]] && h[..1] == [h[0]];
    } else if |h| == 1 {
      assert h == [h[0]];
    }
  }

  ghost predicate Ready(v: VGpu) {
    v.isProvisioned && !v.physical && v.uuid.Some? && v.compute && v.instance
  }

  /** Some attempt would have destroyed the compute instance. */
  predicate ComputeSucceeds(attempts: seq<(bool, bool)>) {
    exists i :: 0 <= i < |attempts| && attempts[i].0
  }

  /** Some attempt would have destroyed the GPU instance, in the same attempt as the compute instance
      or in a later one. */
  predicate InstanceSucceeds(attempts: seq<(bool, bool)>) {
    exists i :: 0 <= i < |attempts| && attempts[i].1 && ComputeSucceeds(attempts[..i + 1])
  }

  lemma OneMoreAttempt(attempts: seq<(bool, bool)>)
    requires attempts != []
    ensures var k := |attempts| - 1;
            && (ComputeSucceeds(attempts) <==> ComputeSucceeds(attempts[..k]) || attempts[k].0)
            && (InstanceSucceeds(attempts) <==>
                  InstanceSucceeds(attempts[..k]) || (attempts[k].1 && ComputeSucceeds(attempts)))
  {
    var k := |attempts| - 1;
    var before := attempts[..k];
    assert attempts[..k + 1] == attempts;
    assert forall i :: 0 <= i < k ==> before[i] == attempts[i] && before[..i + 1] == attempts[..i + 1];
    if ComputeSucceeds(before) {
      var i :| 0 <= i < |before| && before[i].0;
      assert attempts[i].0;
    }
    if InstanceSucceeds(before) {
      var i :| 0 <= i < |before| && before[i].1 && ComputeSucceeds(before[..i + 1]);
      assert attempts[i].1 && ComputeSucceeds(attempts[..i + 1]);
    }
    if attempts[k].1 && ComputeSucceeds(attempts) {
      assert ComputeSucceeds(attempts[..k + 1]);
    }
  }

  /** Release is resumable: over any attempts with any hardware failures, the compute instance is
      destroyed before the GPU instance is touched, each is successfully destroyed at most once, and
      the index entry is gone exactly when both are; and each is destroyed as soon as an attempt lets
      it. */
  lemma {:induction false} ReleaseIsResumable(v: VGpu, attempts: seq<(bool, bool)>)
    requires Ready(v)
    ensures var (v', indexed, h) := ReleaseMany(v, true, attempts);
            && ComputeFirst(h)
            && Times(h, DestroyCompute(true)) == (if v'.compute then 0 else 1)
            && Times(h, DestroyInstance(true)) == (if v'.instance then 0 else 1)
            && (indexed <==> v'.compute || v'.instance)
            && (indexed ==> v'.isProvisioned && v'.uuid == v.uuid && !v'.physical)
            && (!indexed ==> v' == VGpu(false, false, None, false, false))
            && (v'.compute <==> !ComputeSucceeds(attempts))
            && (v'.instance <==> !InstanceSucceeds(attempts))
  {
    if attempts != [] {
      var k := |attempts| - 1;
      ReleaseIsResumable(v, attempts[..k]);
      OneMoreAttempt(attempts);
      var (v1, i1, h1) := ReleaseMany(v, true, attempts[..k]);
      var (v2, i2, h2) := ReleaseOnce(v1, i1, attempts[k].0, attempts[k].1);
      assert ReleaseMany(v, true, attempts) == (v2, i2, h1 + h2);
      hide ReleaseMany, ComputeSucceeds, InstanceSucceeds;
      OnceCounts(v1, i1, attempts[k].0, attempts[k].1);
      assert v1.compute ==> v1.instance by { if v1.compute && !v1.instance { ComputeGoesFirst(h1); } }
      ComputeFirstConcat(h1, h2);
      hide ComputeFirst;
    }
  }

  /** The first attempt in which the call for this instance would go through, or the number of attempts. */
  function FirstCompute(attempts: seq<(bool, bool)>): (k: nat)
    ensures k <= |attempts|
  {
    if attempts == [] || attempts[0].0 then 0 else 1 + FirstCompute(attempts[1..])
  }

  function FirstInstance(attempts: seq<(bool, bool)>): (k: nat)
    ensures k <= |attempts|
  {
    if attempts == [] || attempts[0].1 then 0 else 1 + FirstInstance(attempts[1..])
  }

  /** The calls that failed: every attempt calls for the compute instance until that goes, and every attempt from
      then on calls for the GPU instance until that goes too. */
  function FailedCalls(attempts: seq<(bool, bool)>): (nat, nat) {
    var k := FirstCompute(attempts);
    (k, FirstInstance(attempts[k..]))
  }

  lemma {:induction false} FirstOfMore(attempts: seq<(bool, bool)>, a: (bool, bool))
    ensures FirstCompute(attempts + [a]) ==
              if FirstCompute(attempts) < |attempts| || a.0 then FirstCompute(attempts) else |attempts| + 1
    ensures FirstInstance(attempts + [a]) ==
              if FirstInstance(attempts) < |attempts| || a.1 then FirstInstance(attempts) else |attempts| + 1
  {
    if attempts != [] {
      FirstOfMore(attempts[1..], a);
      assert (attempts + [a])[1..] == attempts[1..] + [a];
    } else {
      assert attempts + [a] == [a];
    }
  }

  lemma FailedOfMore(attempts: seq<(bool, bool)>, a: (bool, bool))
    ensures var (c, i) := FailedCalls(attempts);
            FailedCalls(attempts + [a]) ==
              if c == |attempts| then (if a.0 then (c, if a.1 then 0 else 1) else (c + 1, 0))
              else (c, if i < |attempts| - c || a.1 then i else i + 1)
  {
    var c := FirstCompute(attempts);
    FirstOfMore(attempts, a);
    if c < |attempts| {
      assert (attempts + [a])[c..] == attempts[c..] + [a];
      FirstOfMore(attempts[c..], a);
    } else if a.0 {
      assert (attempts + [a])[c..] == [a] && [a][1..] == [];
    } else {
      assert (attempts + [a])[c + 1..] == [];
    }
  }

  /** Where a release stands after `n` attempts of which `c` failed on the compute instance and `i` on the other. */
  ghost predicate Stands(v: VGpu, now: VGpu, indexed: bool, h: seq<HwEvent>, n: nat, c: nat, i: nat) {
    && Times(h, DestroyCompute(false)) == c && Times(h, DestroyInstance(false)) == i && c + i <= n
    && (now.compute <==> c == n) && (now.instance <==> c + i == n) && (indexed <==> now.instance)
    && now == if indexed then v.(compute := now.compute) else VGpu(false, false, None, false, false)
  }

  /** The log of a release has every failed call, each as often as it was made. */
  lemma {:induction false} ReleaseLogsFailures(v: VGpu, attempts: seq<(bool, bool)>)
    requires Ready(v)
    ensures var (v', indexed, h) := ReleaseMany(v, true, attempts);
            var (c, i) := FailedCalls(attempts);
            Stands(v, v', indexed, h, |attempts|, c, i)
  {
    if attempts != [] {
      hide FailedCalls, ReleaseMany, ReleaseOnce, Stands, Ready;
      var k := |attempts| - 1;
      assert attempts[..k] + [attempts[k]] == attempts;
      ReleaseLogsFailures(v, attempts[..k]);
      FailedOfMore(attempts[..k], attempts[k]);
      ManyAndOne(v, attempts[..k], attempts[k]);
      var (v1, i1, h1) := ReleaseMany(v, true, attempts[..k]);
      var (c, i) := FailedCalls(attempts[..k]);
      OneMoreLogged(v, v1, i1, h1, k, c, i, attempts[k]);
    }
  }

  lemma OneMoreLogged(v: VGpu, now: VGpu, indexed: bool, h: seq<HwEvent>, n: nat, c: nat, i: nat, a: (bool, bool))
    requires Ready(v) && Stands(v, now, indexed, h, n, c, i)
    ensures var (now', indexed', t) := ReleaseOnce(now, indexed, a.0, a.1);
            var (c', i') := if c == n then (if a.0 then (c, if a.1 then 0 else 1) else (c + 1, 0))
                            else (c, if i < n - c || a.1 then i else i + 1);
            Stands(v, now', indexed', h + t, n + 1, c', i')
  {
    OnceLogs(now, indexed, a.0, a.1);
    var t := ReleaseOnce(now, indexed, a.0, a.1).2;
    TimesAdd(h, t, DestroyCompute(false));
    TimesAdd(h, t, DestroyInstance(false));
    hide Times;
  }

  lemma TimesAdd(h: seq<HwEvent>, t: seq<HwEvent>, e: HwEvent)
    ensures Times(h + t, e) == Times(h, e) + Times(t, e)
  {}

  lemma OnceLogs(v: VGpu, indexed: bool, computeOk: bool, instanceOk: bool)
    ensures var h := ReleaseOnce(v, indexed, computeOk, instanceOk).2;
            var live := v.isProvisioned && !v.physical && v.uuid.Some?;
            && Times(h, DestroyCompute(false)) == (if live && v.compute && !computeOk then 1 else 0)
            && Times(h, DestroyInstance(false)) ==
                 (if live && v.instance && (v.compute ==> computeOk) && !instanceOk then 1 else 0)
  {
    var h := ReleaseOnce(v, indexed, computeOk, instanceOk).2;
    if |h| == 2 {
      assert h == [h[0], h[1]];
    } else if |h| == 1 {
      assert h == [h[0]];
    }
  }

  lemma ComputeGoesFirst(h: seq<HwEvent>)
    requires ComputeFirst(h) && DestroyInstance(true) in h
    ensures DestroyCompute(true) in h
  {
    var i :| 0 <= i < |h| && h[i] == DestroyInstance(true);
    assert DestroyCompute(true) in h[..i];
  }

  /** Physical devices are never touched. */
  lemma {:induction false} PhysicalIsUntouched(v: VGpu, indexed: bool, attempts: seq<(bool, bool)>)
    requires v.physical
    ensures ReleaseMany(v, indexed, attempts) == (v, indexed, [])
  {
    if attempts != [] {
      PhysicalIsUntouched(v, indexed, attempts[..|attempts| - 1]);
      var nothing: seq<HwEvent> := [];
      assert nothing + nothing == nothing;
    }
  }

  // ---------------------------------------------------------------- provisioning

  /** Provisioning a free entry: each end leaves exactly the instances created by then, the mark is set once both
      are, and a device that was found makes the entry ready to be released. */
  lemma AccessExactly(v: VGpu, end: AccessEnd)
    requires !v.physical && !v.isProvisioned && v.uuid.None?
    ensures var (v', ok) := AccessOnce(v, end);
            && (ok <==> end.Provisioned?) && !v'.physical
            && (v'.instance <==> v.instance || end != NoInstance)
            && (v'.compute <==> v.compute || end == NoDevice || end.Provisioned?)
            && (v'.isProvisioned <==> end == NoDevice || end.Provisioned?)
            && (v'.uuid == if end.Provisioned? then Some(end.uuid) else None)
            && (end.Provisioned? ==> Ready(v'))
  {}

  /** Provisioning and then any release attempts: the compute instance goes before the GPU instance is touched,
      each is destroyed once at most, as soon as an attempt lets it, and once both are gone the entry is free. */
  lemma ProvisionedIsReleasable(v: VGpu, u: string, attempts: seq<(bool, bool)>)
    requires !v.physical && !v.isProvisioned && v.uuid.None?
    ensures var start := AccessOnce(v, Provisioned(u)).0;
            var (v', indexed, h) := ReleaseMany(start, true, attempts);
            && ComputeFirst(h)
            && Times(h, DestroyCompute(true)) == (if ComputeSucceeds(attempts) then 1 else 0)
            && Times(h, DestroyInstance(true)) == (if InstanceSucceeds(attempts) then 1 else 0)
            && (indexed ==> v'.isProvisioned && v'.uuid == Some(u))
            && (!indexed ==> v' == VGpu(false, false, None, false, false))
            && (indexed <==> v'.compute || v'.instance)
  {
    AccessExactly(v, Provisioned(u));
    ReleaseIsResumable(AccessOnce(v, Provisioned(u)).0, attempts);
    hide AccessOnce, ReleaseMany, ComputeFirst, ComputeSucceeds, InstanceSucceeds, Times;
  }

  // ---------------------------------------------------------------- a half-provisioned device

  datatype Attempt = TryAccess(end: AccessEnd) | TryRelease(computeOk: bool, instanceOk: bool)

  function AttemptOnce(v: VGpu, a: Attempt): VGpu {
    match a
    case TryAccess(end) => AccessOnce(v, end).0
    case TryRelease(c, i) => ReleaseOnce(v, false, c, i).0
  }

  function AttemptAll(v: VGpu, attempts: seq<Attempt>): VGpu
    decreases |attempts|
  {
    if attempts == [] then v else AttemptAll(AttemptOnce(v, attempts[0]), attempts[1..])
  }

  /** Marked provisioned, with no device behind the mark. */
  predicate Stranded(v: VGpu) {
    !v.physical && v.isProvisioned && v.uuid.None?
  }

  /** On a device that is not yet provisioned, `Access` strands it exactly when it fails after the mark is
      set; direct calls on a stranded object then change nothing, whatever their order: `Access` claims
      success and `Release` destroys nothing. */
  lemma {:induction false} StrandedExactly(v: VGpu, end: AccessEnd, attempts: seq<Attempt>)
    requires !v.physical && !v.isProvisioned && v.uuid.None?
    ensures var s := AccessOnce(v, end).0;
            && (Stranded(s) <==> end == NoDevice)
            && (end == NoDevice ==>
                  && AttemptAll(s, attempts) == s
                  && (forall e :: AccessOnce(s, e) == (s, true))
                  && (forall indexed, c, i :: ReleaseOnce(s, indexed, c, i) == (s, indexed, [])))
  {
    if attempts != [] {
      StrandedExactly(v, end, attempts[1..]);
    }
  }

  // ---------------------------------------------------------------- the manager

  class VirtualGPU {
    const physical: bool
    const profile: Option<nat>  // of the MIG properties; None for a whole device
    const memoryBytes: uint64
    const smCount: int
    const smPercentage: int
    var isProvisioned: bool
    var uuid: Option<string>
    var compute: bool
    var instance: bool

    ghost function View(): VGpu
      reads this
    {
      VGpu(physical, isProvisioned, uuid, compute, instance)
    }

    constructor (r: Report)
      ensures Describes(this, r)
    {
      physical, profile := r.Whole?, if r.Whole? then None else Some(r.profile);
      memoryBytes, smCount, smPercentage := r.memoryBytes, r.smCount, if r.Whole? then 100 else r.smPercentage;
      isProvisioned, compute, instance := !r.Free?, r.Mig?, r.Mig?;
      uuid := if r.Free? then None else Some(r.uuid);
    }
  }

  /** What one refresh reads from the driver: whole devices, MIG devices, and free profiles. */
  datatype Report =
    | Whole(uuid: string, memoryBytes: uint64, smCount: int)
    | Mig(uuid: string, memoryBytes: uint64, smCount: int, smPercentage: int, profile: nat)
    | Free(memoryBytes: uint64, smCount: int, smPercentage: int, profile: nat)

  function ReportedView(r: Report): VGpu {
    VGpu(r.Whole?, !r.Free?, if r.Free? then None else Some(r.uuid), r.Mig?, r.Mig?)
  }

  /** An object made from a report has all its data: a whole device and a MIG device are provisioned, a MIG device
      with both its instances; a free profile has nothing behind it. */
  ghost predicate Describes(v: VirtualGPU, r: Report)
    reads v
  {
    && v.memoryBytes == r.memoryBytes && v.smCount == r.smCount
    && match r
       case Whole(uuid, _, _) =>
         && v.physical && v.isProvisioned && v.uuid == Some(uuid) && !v.compute && !v.instance
         && v.profile == None && v.smPercentage == 100
       case Mig(uuid, _, _, percentage, profile) =>
         && Ready(v.View()) && v.uuid == Some(uuid)
         && v.profile == Some(profile) && v.smPercentage == percentage
       case Free(_, _, percentage, profile) =>
         && !v.physical && !v.isProvisioned && v.uuid == None && !v.compute && !v.instance
         && v.profile == Some(profile) && v.smPercentage == percentage
  }

  lemma DescribedView(v: VirtualGPU, r: Report)
    requires Describes(v, r)
    ensures v.View() == ReportedView(r)
  {}

  /** The UUIDs of the devices reported. */
  ghost function Uuids(reports: seq<Report>): set<string> {
    set r | r in reports && !r.Free? :: r.uuid
  }

  lemma OneMoreUuid(reports: seq<Report>, i: nat)
    requires i < |reports|
    ensures Uuids(reports[..i + 1]) == Uuids(reports[..i]) + if reports[i].Free? then {} else {reports[i].uuid}
  {
    assert reports[..i + 1] == reports[..i] + [reports[i]];
  }

  /** The keys that a request adds to the index. */
  ghost function Gained(ok: bool, wanted: Wanted, end: AccessEnd, reports: seq<Report>): set<string> {
    if !ok then {}
    else Uuids(reports) + if wanted.ByProfile? && end.Provisioned? then {end.uuid} else {}
  }

  /** One object for each report, in order. */
  ghost predicate Listed(gpus: seq<VirtualGPU>, reports: seq<Report>)
    reads gpus
  {
    && |gpus| == |reports|
    && forall i :: 0 <= i < |gpus| ==> Describes(gpus[i], reports[i])
  }

  lemma OneMoreListed(gpus: seq<VirtualGPU>, v: VirtualGPU, reports: seq<Report>, i: nat)
    requires i < |reports| && Listed(gpus, reports[..i])
    requires Describes(v, reports[i])
    ensures Listed(gpus + [v], reports[..i + 1])
  {
    hide Describes;
  }

  /** How a caller of the server names the virtual GPU it wants. */
  datatype Wanted = ByProfile(id: nat) | ByUuid(uuid: string) | ByNothing

  /** A call of the configurator's server, with what the hardware does and what a refresh would read. */
  datatype ServerCall =
    | RequestCall(wanted: Wanted, end: AccessEnd, reports: seq<Report>)
    | ReleaseCall(uuid: string, computeOk: bool, instanceOk: bool, reports: seq<Report>)
    | ListCall(reports: seq<Report>)

  // ---------------------------------------------------------------- one device among server calls

  /** The release attempts on one UUID among the calls. */
  function Attempts(calls: seq<ServerCall>, u: string): seq<(bool, bool)> {
    if calls == [] then []
    else
      var k := |calls| - 1;
      var last := calls[k];
      Attempts(calls[..k], u) +
      if last.ReleaseCall? && last.uuid == u then [(last.computeOk, last.instanceOk)] else []
  }

  /** What the hardware answers about this MIG device: no other device is created under its UUID, and a
      refresh lists it only while its compute instance has not been destroyed. */
  ghost predicate Truthful(calls: seq<ServerCall>, u: string) {
    forall k :: 0 <= k < |calls| ==> TruthfulAt(calls, k, u)
  }

  ghost predicate TruthfulAt(calls: seq<ServerCall>, k: nat, u: string)
    requires k < |calls|
  {
    && !(calls[k].RequestCall? && calls[k].end == Provisioned(u))
    && (u in Uuids(calls[k].reports) ==> !ComputeSucceeds(Attempts(calls[..k + 1], u)))
    && forall r :: r in calls[k].reports && !r.Free? && r.uuid == u ==> r.Mig?
  }

  /** What the index says about a UUID. */
  datatype Entry = Gone | Indexed(v: VGpu)

  /** A call's release, seen from one UUID. */
  function Released(before: Entry, call: ServerCall, u: string): (Entry, seq<HwEvent>) {
    if call.ReleaseCall? && call.uuid == u && before.Indexed? then
      var (v, indexed, h) := ReleaseOnce(before.v, true, call.computeOk, call.instanceOk);
      (if indexed then Indexed(v) else Gone, h)
    else (before, [])
  }

  /** One call, seen from one UUID: a release acts on the indexed object, and a refresh may put a new object
      in its place. */
  ghost predicate Moves(before: Entry, after: Entry, h: seq<HwEvent>, call: ServerCall, u: string) {
    && h == Released(before, call, u).1
    && (after == Released(before, call, u).0
        || exists r :: r in call.reports && !r.Free? && r.uuid == u && after == Indexed(ReportedView(r)))
  }

  /** What the release attempts have left of a device that was ready. */
  ghost predicate Followed(start: VGpu, attempts: seq<(bool, bool)>, now: Entry, h: seq<HwEvent>) {
    var (v, indexed, done) := ReleaseMany(start, true, attempts);
    h == done && now == if indexed then Indexed(v) else Gone
  }

  lemma FollowAttempt(start: VGpu, attempts: seq<(bool, bool)>, a: (bool, bool), now: Entry, h: seq<HwEvent>)
    requires Ready(start) && Followed(start, attempts, now, h)
    ensures var (v, indexed, t) := if now.Indexed? then ReleaseOnce(now.v, true, a.0, a.1)
                                   else (VGpu(false, false, None, false, false), false, []);
            Followed(start, attempts + [a], if indexed then Indexed(v) else Gone, h + t)
  {
    ReleaseIsResumable(start, attempts);
    ManyAndOne(start, attempts, a);
    hide ReleaseMany, ComputeFirst, ComputeSucceeds, InstanceSucceeds, Times;
    if now.Indexed? { hide ReleaseOnce; }
  }

  lemma ManyAndOne(v: VGpu, attempts: seq<(bool, bool)>, a: (bool, bool))
    ensures var (v1, i1, h1) := ReleaseMany(v, true, attempts);
            var (v2, i2, h2) := ReleaseOnce(v1, i1, a.0, a.1);
            ReleaseMany(v, true, attempts + [a]) == (v2, i2, h1 + h2)
  {
    assert (attempts + [a])[..|attempts|] == attempts;
    hide ReleaseOnce;
  }

  /** As long as no attempt has destroyed the compute instance, the device is as it was. */
  lemma Untouched(start: VGpu, attempts: seq<(bool, bool)>)
    requires Ready(start) && !ComputeSucceeds(attempts)
    ensures ReleaseMany(start, true, attempts).0 == start && ReleaseMany(start, true, attempts).1
  {
    ReleaseIsResumable(start, attempts);
    hide ReleaseMany, ComputeFirst, Times;
    assert !InstanceSucceeds(attempts);
  }

  lemma FollowCall(
    start: VGpu, calls: seq<ServerCall>, k: nat, u: string,
    before: Entry, after: Entry, h: seq<HwEvent>, t: seq<HwEvent>)
    requires Ready(start) && start.uuid == Some(u) && k < |calls| && TruthfulAt(calls, k, u)
    requires Followed(start, Attempts(calls[..k], u), before, h) && Moves(before, after, t, calls[k], u)
    ensures Followed(start, Attempts(calls[..k + 1], u), after, h + t)
  {
    assert calls[..k + 1][..k] == calls[..k];
    var call, attempts, attempts' := calls[k], Attempts(calls[..k], u), Attempts(calls[..k + 1], u);
    var mid := Released(before, call, u).0;
    assert Followed(start, attempts', mid, h + t) by {
      if call.ReleaseCall? && call.uuid == u {
        FollowAttempt(start, attempts, (call.computeOk, call.instanceOk), before, h);
        hide ReleaseMany, ReleaseOnce;
      } else {
        assert attempts' == attempts && h + t == h;
      }
    }
    if after != mid {
      assert u in Uuids(call.reports);
      Untouched(start, attempts');
      hide ReleaseMany;
    }
  }

  lemma NothingFollowed(start: VGpu, calls: seq<ServerCall>, u: string)
    ensures Followed(start, Attempts(calls[..0], u), Indexed(start), [])
  {}

  lemma TruthfulMeans(calls: seq<ServerCall>, k: nat, u: string)
    requires k < |calls| && TruthfulAt(calls, k, u)
    ensures !(calls[k].RequestCall? && calls[k].end == Provisioned(u))
  {}

  lemma FollowedMeans(start: VGpu, attempts: seq<(bool, bool)>, now: Entry, h: seq<HwEvent>)
    requires Ready(start) && Followed(start, attempts, now, h)
    ensures ComputeFirst(h)
    ensures Times(h, DestroyCompute(true)) == if ComputeSucceeds(attempts) then 1 else 0
    ensures Times(h, DestroyInstance(true)) == if InstanceSucceeds(attempts) then 1 else 0
    ensures now.Indexed? <==> !InstanceSucceeds(attempts)
  {
    ReleaseIsResumable(start, attempts);
    if !ComputeSucceeds(attempts) { Untouched(start, attempts); }
    hide ReleaseMany, ComputeFirst, ComputeSucceeds, InstanceSucceeds, Times;
  }

  class ResourceManager {
    var virtualGPUs: seq<VirtualGPU>
    var provisioned: map<string, VirtualGPU>

    /** Every key of the index is the UUID of the device it leads to. */
    ghost predicate KeyedByUuid()
      reads this, provisioned.Values
    {
      forall u :: u in provisioned ==> provisioned[u].isProvisioned && provisioned[u].uuid == Some(u)
    }

    /** The objects within the server's reach. */
    ghost function Objects(): set<VirtualGPU>
      reads this
    {
      (set v | v in virtualGPUs) + provisioned.Values
    }

    /** The index as the controller's scheduler sees it through GetGPU. */
    ghost function Devices(): (index: map<string, Device>)
      requires KeyedByUuid()
      reads this, provisioned.Values
      ensures Keyed(index)
    {
      map u | u in provisioned ::
        Device(provisioned[u].uuid.value, provisioned[u].memoryBytes,
               provisioned[u].smCount, provisioned[u].smPercentage)
    }

    constructor ()
      ensures KeyedByUuid() && provisioned == map[] && virtualGPUs == []
    {
      provisioned, virtualGPUs := map[], [];
    }

    /** One device or free profile of a refresh. */
    method AddReported(r: Report) returns (v: VirtualGPU)
      requires KeyedByUuid()
      modifies this`provisioned
      ensures KeyedByUuid()
      ensures fresh(v) && Describes(v, r)
      ensures provisioned == if r.Free? then old(provisioned) else old(provisioned)[r.uuid := v]
    {
      v := new VirtualGPU(r);
      if !r.Free? {
        provisioned := provisioned[r.uuid := v];
      }
    }

    /** `getAvailableVirtualResources`: new objects, one for each report; the index gains those that carry a
        UUID, and nothing is dropped from it. */
    method AvailableResources(reports: seq<Report>) returns (gpus: seq<VirtualGPU>)
      requires KeyedByUuid()
      modifies this`provisioned
      ensures KeyedByUuid()
      ensures Listed(gpus, reports) && forall v :: v in gpus ==> fresh(v)
      ensures provisioned.Keys == old(provisioned.Keys) + Uuids(reports)
      ensures forall u :: u in provisioned ==>
                provisioned[u] in gpus || (u in old(provisioned) && provisioned[u] == old(provisioned)[u])
      ensures forall u :: u in Uuids(reports) ==> provisioned[u] in gpus
    {
      gpus := [];
      for i := 0 to |reports|
        invariant KeyedByUuid()
        invariant Listed(gpus, reports[..i]) && forall v :: v in gpus ==> fresh(v)
        invariant provisioned.Keys == old(provisioned.Keys) + Uuids(reports[..i])
        invariant forall u :: u in provisioned ==>
                    provisioned[u] in gpus || (u in old(provisioned) && provisioned[u] == old(provisioned)[u])
        invariant forall u :: u in Uuids(reports[..i]) ==> provisioned[u] in gpus
      {
        OneMoreUuid(reports, i);
        hide Uuids, ResourceManager.KeyedByUuid, Listed;
        var v := AddReported(reports[i]);
        OneMoreListed(gpus, v, reports, i);
        gpus := gpus + [v];
      }
      assert reports[..|reports|] == reports;
    }

    /** `getAndSetAvailableVirtualResources`: the list is replaced altogether. */
    method Refresh(reports: seq<Report>)
      requires KeyedByUuid()
      modifies this
      ensures KeyedByUuid()
      ensures Listed(virtualGPUs, reports) && forall v :: v in virtualGPUs ==> fresh(v)
      ensures provisioned.Keys == old(provisioned.Keys) + Uuids(reports)
      ensures forall u :: u in provisioned ==>
                provisioned[u] in virtualGPUs || (u in old(provisioned) && provisioned[u] == old(provisioned)[u])
      ensures forall u :: u in Uuids(reports) ==> provisioned[u] in virtualGPUs
    {
      hide Listed, Uuids;
      virtualGPUs := AvailableResources(reports);
    }

    /** What a refresh makes visible: a profile can be requested exactly if a free one of its kind was reported, and
        the index answers for a reported device with what a report said about it. */
    lemma RefreshedAnswers(reports: seq<Report>, id: nat, u: string)
      requires KeyedByUuid() && Listed(virtualGPUs, reports)
      ensures (exists i :: 0 <= i < |virtualGPUs| && Offers(virtualGPUs[i], id)) <==>
                exists r :: r in reports && r.Free? && r.profile == id
      ensures u in provisioned && provisioned[u] in virtualGPUs ==>
                exists r ::
                  && r in reports && !r.Free? && r.uuid == u
                  && Devices()[u] == Device(u, r.memoryBytes, r.smCount, if r.Whole? then 100 else r.smPercentage)
    {
      if i :| 0 <= i < |virtualGPUs| && Offers(virtualGPUs[i], id) {
        assert Describes(virtualGPUs[i], reports[i]) && reports[i] in reports;
      }
      if r :| r in reports && r.Free? && r.profile == id {
        var i :| 0 <= i < |reports| && reports[i] == r;
        assert Describes(virtualGPUs[i], reports[i]);
      }
      if u in provisioned && provisioned[u] in virtualGPUs {
        var i :| 0 <= i < |virtualGPUs| && virtualGPUs[i] == provisioned[u];
        assert Describes(virtualGPUs[i], reports[i]) && reports[i] in reports;
      }
    }

    method GetVirtualGPU(uuid: string) returns (d: Option<Device>)
      requires KeyedByUuid()
      ensures d == if uuid in Devices() then Some(Devices()[uuid]) else None
    {
      if uuid in provisioned {
        var v := provisioned[uuid];
        d := Some(Device(v.uuid.value, v.memoryBytes, v.smCount, v.smPercentage));
      } else {
        d := None;
      }
    }

    /** A free entry for this profile. */
    predicate Offers(v: VirtualGPU, id: nat)
      reads v
    {
      !v.isProvisioned && v.profile == Some(id)
    }

    /** The first free entry for a profile, if there is one. */
    method FindVirtualGPU(id: nat) returns (v: VirtualGPU?)
      ensures v == null <==> forall i :: 0 <= i < |virtualGPUs| ==> !Offers(virtualGPUs[i], id)
      ensures v != null ==>
                exists i :: 0 <= i < |virtualGPUs| && virtualGPUs[i] == v && Offers(v, id)
                            && forall j :: 0 <= j < i ==> !Offers(virtualGPUs[j], id)
    {
      for i := 0 to |virtualGPUs|
        invariant forall j :: 0 <= j < i ==> !Offers(virtualGPUs[j], id)
      {
        if virtualGPUs[i].isProvisioned {
          continue;
        }
        if virtualGPUs[i].profile == Some(id) {
          return virtualGPUs[i];
        }
      }
      v := null;
    }

    method Access(v: VirtualGPU, end: AccessEnd) returns (ok: bool)
      requires KeyedByUuid() && (v.isProvisioned || v.profile.Some?)
      modifies this`provisioned, v
      ensures KeyedByUuid()
      ensures (v.View(), ok) == AccessOnce(old(v.View()), end)
      ensures !old(v.isProvisioned) && !v.physical && end.Provisioned? ==> Ready(v.View()) && v.uuid == Some(end.uuid)
      ensures provisioned ==
                if !old(v.isProvisioned) && end.Provisioned? then old(provisioned)[end.uuid := v] else old(provisioned)
    {
      if v.isProvisioned {
        return true;
      }
      if end.NoInstance? {
        return false;
      }
      v.instance := true;
      if end.NoCompute? {
        return false;
      }
      v.compute := true;
      v.isProvisioned := true;
      if end.NoDevice? {
        return false;
      }
      v.uuid := Some(end.uuid);
      provisioned := provisioned[end.uuid := v];
      ok := true;
    }

    method Release(v: VirtualGPU, computeOk: bool, instanceOk: bool) returns (ok: bool, calls: seq<HwEvent>)
      requires KeyedByUuid()
      modifies this`provisioned, v
      ensures KeyedByUuid()
      ensures ok <==> !v.isProvisioned || v.physical || v.uuid.None?
      ensures var (v', indexed, h) := ReleaseOnce(old(v.View()), true, computeOk, instanceOk);
              && v.View() == v' && calls == h
              && provisioned == if indexed then old(provisioned) else old(provisioned) - {old(v.uuid).value}
    {
      calls := [];
      if !v.isProvisioned || v.physical {
        return true, [];
      }
      if v.uuid.None? {
        return true, [];
      }
      if v.compute {
        calls := calls + [DestroyCompute(computeOk)];
        if !computeOk {
          return false, calls;
        }
        v.compute := false;
      }
      if v.instance {
        calls := calls + [DestroyInstance(instanceOk)];
        if !instanceOk {
          return false, calls;
        }
        v.instance := false;
      }
      provisioned := provisioned - {v.uuid.value};
      v.isProvisioned, v.uuid := false, None;
      ok := true;
    }

    /** The device that a request gets, provisioned if it was a free entry. */
    method Provide(wanted: Wanted, end: AccessEnd) returns (ok: bool, served: VirtualGPU?)
      requires KeyedByUuid()
      modifies this`provisioned, Objects()
      ensures KeyedByUuid() && Objects() <= old(Objects())
      ensures wanted.ByProfile? ==>
                && (served == null <==> forall i :: 0 <= i < |virtualGPUs| ==> old(!Offers(virtualGPUs[i], wanted.id)))
                && (served != null ==>
                      && served in virtualGPUs && old(Offers(served, wanted.id))
                      && (served.View(), ok) == AccessOnce(old(served.View()), end)
                      && (ok && !served.physical ==> Ready(served.View()) && end == Provisioned(served.uuid.value)))
      ensures wanted.ByUuid? ==>
                served == if wanted.uuid in old(provisioned) then old(provisioned)[wanted.uuid] else null
      ensures wanted.ByNothing? ==> served == null
      ensures served == null ==> !ok
      ensures !wanted.ByProfile? ==> (ok <==> served != null)
      ensures provisioned ==
                if ok && wanted.ByProfile? && end.Provisioned? then old(provisioned)[end.uuid := served]
                else old(provisioned)
      ensures forall v :: v in old(Objects()) && (v != served || !wanted.ByProfile?) ==> v.View() == old(v.View())
    {
      match wanted {
        case ByProfile(id) => served := FindVirtualGPU(id);
        case ByUuid(uuid) => served := if uuid in provisioned then provisioned[uuid] else null;
        case ByNothing => served := null;
      }
      ok := served != null;
      if served != null && wanted.ByProfile? && !served.isProvisioned && served.profile.Some? {
        ok := Access(served, end);
      }
    }

    /** The server's request: only a free entry is ever provisioned, and the list is refreshed only when
        the request succeeds. */
    method RequestVirtualGPU(wanted: Wanted, end: AccessEnd, reports: seq<Report>)
      returns (ok: bool, served: VirtualGPU?)
      requires KeyedByUuid()
      modifies this, Objects()
      ensures KeyedByUuid() && fresh(Objects() - old(Objects()))
      ensures wanted.ByProfile? ==>
                && (served == null <==> forall i :: 0 <= i < |old(virtualGPUs)| ==>
                      old(!Offers(virtualGPUs[i], wanted.id)))
                && (served != null ==>
                      && served in old(virtualGPUs) && old(Offers(served, wanted.id))
                      && (served.View(), ok) == AccessOnce(old(served.View()), end)
                      && (ok && !served.physical ==> Ready(served.View()) && end == Provisioned(served.uuid.value)))
      ensures wanted.ByUuid? ==>
                served == if wanted.uuid in old(provisioned) then old(provisioned)[wanted.uuid] else null
      ensures wanted.ByNothing? ==> served == null
      ensures served == null ==> !ok
      ensures !wanted.ByProfile? ==> (ok <==> served != null)
      ensures provisioned.Keys == old(provisioned.Keys) + Gained(ok, wanted, end, reports)
      ensures forall u :: u in old(provisioned) && !(ok && wanted.ByProfile? && end == Provisioned(u)) ==>
                u in provisioned && (provisioned[u] == old(provisioned)[u] || (ok && provisioned[u] in virtualGPUs))
      ensures forall u :: u in provisioned ==>
                || u in old(provisioned) || (wanted.ByProfile? && end == Provisioned(u))
                || (ok && provisioned[u] in virtualGPUs)
      ensures forall v :: v in old(Objects()) && (v != served || !wanted.ByProfile?) ==> v.View() == old(v.View())
      ensures if ok then Listed(virtualGPUs, reports) && forall v :: v in virtualGPUs ==> fresh(v)
              else virtualGPUs == old(virtualGPUs)
    {
      hide AccessOnce, Listed, VirtualGPU.View, Uuids, ResourceManager.KeyedByUuid;
      ok, served := Provide(wanted, end);
      if ok {
        Refresh(reports);
      }
    }

    /** The server's release, of whatever device the index has under the UUID. */
    method ReleaseVirtualGPU(uuid: string, computeOk: bool, instanceOk: bool, reports: seq<Report>)
      returns (ok: bool, calls: seq<HwEvent>)
      requires KeyedByUuid()
      modifies this, Objects()
      ensures KeyedByUuid() && fresh(Objects() - old(Objects()))
      ensures uuid !in old(provisioned) ==> !ok && calls == [] && provisioned == old(provisioned)
      ensures uuid in old(provisioned) ==>
                var v := old(provisioned)[uuid];
                var (v', indexed, h) := ReleaseOnce(old(v.View()), true, computeOk, instanceOk);
                && v.View() == v' && calls == h
                && (ok <==> v'.physical || !indexed)
                && (!ok ==> provisioned == old(provisioned))
                && provisioned.Keys == old(provisioned.Keys) - (if indexed then {} else {uuid}) +
                     (if ok then Uuids(reports) else {})
                && (!indexed && uuid in provisioned ==> provisioned[uuid] in virtualGPUs)
      ensures forall u :: u in provisioned ==>
                (u in old(provisioned) && provisioned[u] == old(provisioned)[u]) ||
                    (ok && provisioned[u] in virtualGPUs)
      ensures forall u :: u in old(provisioned) && u != uuid ==> u in provisioned
      ensures forall v :: v in old(Objects()) && !(uuid in old(provisioned) && v == old(provisioned)[uuid]) ==>
                v.View() == old(v.View())
      ensures if ok then Listed(virtualGPUs, reports) && forall v :: v in virtualGPUs ==> fresh(v)
              else virtualGPUs == old(virtualGPUs)
    {
      hide Listed, Uuids;
      if uuid !in provisioned {
        return false, [];
      }
      ok, calls := Release(provisioned[uuid], computeOk, instanceOk);
      if ok {
        Refresh(reports);
      }
    }

    ghost function EntryOf(u: string): Entry
      reads this, provisioned.Values
    {
      if u in provisioned then Indexed(provisioned[u].View()) else Gone
    }

    lemma ListedEntry(reports: seq<Report>, u: string)
      requires KeyedByUuid() && Listed(virtualGPUs, reports) && u in provisioned && provisioned[u] in virtualGPUs
      ensures exists r :: r in reports && !r.Free? && r.uuid == u && provisioned[u].View() == ReportedView(r)
    {
      var i :| 0 <= i < |virtualGPUs| && virtualGPUs[i] == provisioned[u];
      assert reports[i] in reports;
      DescribedView(virtualGPUs[i], reports[i]);
    }

    /** One call of the server, and what it does to the index entry of a UUID that it does not provision. */
    method ServeCall(call: ServerCall, u: string) returns (refreshed: bool, h: seq<HwEvent>)
      requires KeyedByUuid() && !(call.RequestCall? && call.end == Provisioned(u))
      modifies this, Objects()
      ensures KeyedByUuid() && fresh(Objects() - old(Objects()))
      ensures Moves(old(EntryOf(u)), EntryOf(u), if call.ReleaseCall? && call.uuid == u then h else [], call, u)
    {
      hide ReleaseOnce, AccessOnce, Listed, Uuids, ReportedView, Ready, Gained;
      h := [];
      refreshed := true;
      match call {
        case RequestCall(wanted, end, reports) =>
          var ok, _ := RequestVirtualGPU(wanted, end, reports);
          refreshed := ok;
        case ReleaseCall(uuid, computeOk, instanceOk, reports) =>
          refreshed, h := ReleaseVirtualGPU(uuid, computeOk, instanceOk, reports);
        case ListCall(reports) =>
          Refresh(reports);
      }
      if u in provisioned && provisioned[u] in virtualGPUs && refreshed {
        ListedEntry(call.reports, u);
      }
    }

    /** Release is resumable over any server calls, whatever they refresh, provision or release in between: the
        hardware calls made for a MIG device and its index entry are those of its release attempts alone. */
    method ServeReleases(calls: seq<ServerCall>, u: string) returns (h: seq<HwEvent>)
      requires KeyedByUuid() && u in provisioned && Ready(provisioned[u].View()) && Truthful(calls, u)
      modifies this, Objects()
      ensures KeyedByUuid()
      ensures Followed(old(provisioned[u].View()), Attempts(calls, u), EntryOf(u), h)
      ensures ComputeFirst(h)
      ensures Times(h, DestroyCompute(true)) == if ComputeSucceeds(Attempts(calls, u)) then 1 else 0
      ensures Times(h, DestroyInstance(true)) == if InstanceSucceeds(Attempts(calls, u)) then 1 else 0
      ensures u in provisioned <==> !InstanceSucceeds(Attempts(calls, u))
    {
      hide Moves, Followed, Attempts, TruthfulAt;
      ghost var start := provisioned[u].View();
      h := [];
      assert Followed(start, Attempts(calls[..0], u), EntryOf(u), h) by { NothingFollowed(start, calls, u); }
      for k := 0 to |calls|
        invariant KeyedByUuid() && fresh(Objects() - old(Objects()))
        invariant Followed(start, Attempts(calls[..k], u), EntryOf(u), h)
      {
        assert TruthfulAt(calls, k, u);
        TruthfulMeans(calls, k, u);
        ghost var before := EntryOf(u);
        var _, t := ServeCall(calls[k], u);
        var mine := if calls[k].ReleaseCall? && calls[k].uuid == u then t else [];
        FollowCall(start, calls, k, u, before, EntryOf(u), h, mine);
        h := h + mine;
      }
      assert calls[..|calls|] == calls;
      FollowedMeans(start, Attempts(calls, u), EntryOf(u), h);
    }

    /** Any sequence of server calls: a stranded device is never changed, never provisioned again, never in
        the index, and not in the list either once one of the calls has refreshed it. */
    method Serve(calls: seq<ServerCall>, ghost stranded: VirtualGPU) returns (refreshed: bool)
      requires KeyedByUuid() && Stranded(stranded.View())
      modifies this, Objects()
      ensures KeyedByUuid() && stranded.View() == old(stranded.View())
      ensures stranded !in provisioned.Values
      ensures if refreshed then stranded !in virtualGPUs else virtualGPUs == old(virtualGPUs)
    {
      hide ReleaseOnce, AccessOnce, Listed, Uuids, Ready, Gained;
      refreshed := false;
      for k := 0 to |calls|
        invariant KeyedByUuid() && stranded.View() == old(stranded.View())
        invariant fresh(Objects() - old(Objects()))
        invariant if refreshed then stranded !in virtualGPUs else virtualGPUs == old(virtualGPUs)
      {
        var ok := true;
        match calls[k] {
          case RequestCall(wanted, end, reports) =>
            var done, _ := RequestVirtualGPU(wanted, end, reports);
            ok := done;
          case ReleaseCall(uuid, computeOk, instanceOk, reports) =>
            var done, _ := ReleaseVirtualGPU(uuid, computeOk, instanceOk, reports);
            ok := done;
          case ListCall(reports) =>
            Refresh(reports);
        }
        refreshed := refreshed || ok;
      }
    }
  }
}
