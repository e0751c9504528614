/** The compute budget of one record over floating-point values with NaN and infinities, rounding apart.
    `strconv.ParseFloat` accepts "NaN" and "Inf", every admission test is a comparison that NaN fails
    (new_pod.go:295-301, scheduler.go:391-397, gpu_manager.go:220-228), and re-configuration writes what it
    parses unchecked (controller.go:696-698). */
module FloatShares {
  import opened Requests
  import opened PortBitmap
  import opened Ledger
  import opened LedgerSafety

  datatype Float = NaN | NegInf | PosInf | Finite(value: real)

  function Negate(x: Float): Float {
    match x
    case NaN => NaN
    case NegInf => PosInf
    case PosInf => NegInf
    case Finite(v) => Finite(-v)
  }

  function Add(x: Float, y: Float): Float {
    if x.NaN? || y.NaN? || (x.PosInf? && y.NegInf?) || (x.NegInf? && y.PosInf?) then NaN
    else if !x.Finite? then x
    else if !y.Finite? then y
    else Finite(x.value + y.value)
  }

  function Times(x: Float, k: real): Float {
    if x.Finite? then Finite(x.value * k)
    else if k == 0.0 then NaN
    else if k > 0.0 then x
    else Negate(x)
  }

  predicate Greater(x: Float, k: real) {
    x.PosInf? || (x.Finite? && x.value > k)
  }

  predicate Less(x: Float, k: real) {
    x.NegInf? || (x.Finite? && x.value < k)
  }

  /** What a quota takes out of the budget. */
  function Part(quota: Float, sm: int): Float {
    Times(quota, sm as real / 100.0)
  }

  /** The range tests of `validatePodRequest` on a share. */
  predicate Validates(quota: Float, sm: int) {
    !(Greater(quota, 1.0) || Less(quota, 0.0)) && !(sm < 0 || sm > 100)
  }

  /** Validation lets through the quotas in [0, 1], and NaN. */
  lemma ValidatesExactly(quota: Float, sm: int)
    ensures Validates(quota, sm) <==> (quota.NaN? || (quota.Finite? && 0.0 <= quota.value <= 1.0)) && 0 <= sm <= 100
    ensures quota.Finite? ==> Part(quota, sm) == Finite(Contribution(quota.value, sm))
    ensures Validates(quota, sm) && quota.Finite? ==> 0.0 <= Contribution(quota.value, sm) <= 1.0
    ensures quota.NaN? ==> Part(quota, sm).NaN?
  {
    if Validates(quota, sm) && quota.Finite? {
      ShareInUnit(quota.value, sm as real / 100.0);
    }
  }

  // ---------------------------------------------------------------- the life of a record

  datatype Held = Held(key: string, quota: Float, sm: int, memory: int64, port: int)

  /** A record and the port slots of its node. */
  datatype Record = Record(mem: int64, usage: Float, usageMem: int64, held: seq<Held>, ports: Ports)

  /** What happens to a record: a request is checked and committed, a FastPod is removed or re-configured, or
      the node's other records change the slots.  A request's quota limit enters no sum; it is taken to be valid. */
  datatype Change =
    | Ask(key: string, quota: Float, sm: int, memory: int64)
    | Drop(key: string)
    | Reconfigure(key: string, quota: Float, sm: int)
    | Elsewhere(ports: Ports)

  function Fresh(mem: int64, ports: Ports): Record {
    Record(mem, Finite(0.0), 0, [], ports)
  }

  function Find(l: seq<Held>, key: string): (r: nat)
    ensures r <= |l|
    ensures r < |l| ==> l[r].key == key
    ensures forall j :: 0 <= j < r ==> l[j].key != key
  {
    if l == [] || l[0].key == key then 0 else 1 + Find(l[1..], key)
  }

  /** The compute test of check and commit. */
  predicate ComputeFits(usage: Float, quota: Float, sm: int) {
    !Greater(Add(usage, Part(quota, sm)), 1.0)
  }

  /** The memory tests of check and commit. */
  predicate MemoryFits(r: Record, memory: int64) {
    Wrap64(r.mem - r.usageMem) >= memory && Wrap64(r.usageMem + memory) <= r.mem
  }

  predicate Admits(r: Record, c: Change)
    requires c.Ask?
  {
    && Find(r.held, c.key) == |r.held|
    && Validates(c.quota, c.sm) && c.memory >= 0
    && ComputeFits(r.usage, c.quota, c.sm) && MemoryFits(r, c.memory) && !r.ports.Full()
  }

  /** One change.  The record goes with its last FastPod, and a later check makes a new one. */
  function Apply(r: Record, c: Change): Record {
    match c
    case Ask(key, quota, sm, memory) =>
      if !Admits(r, c) then r
      else
        var (ports, slot) := r.ports.Grant();
        Record(r.mem, Add(r.usage, Part(quota, sm)), Wrap64(r.usageMem + memory),
               r.held + [Held(key, quota, sm, memory, slot + GPU_CLIENT_PORT_START)], ports)
    case Drop(key) =>
      var i := Find(r.held, key);
      var ports := if i < |r.held| then r.ports.Drop(r.held[i].port - GPU_CLIENT_PORT_START) else r.ports;
      if RemoveAt(r.held, i) == [] then Fresh(r.mem, ports)
      else if i == |r.held| then r
      else
        Record(r.mem, Add(r.usage, Negate(Part(r.held[i].quota, r.held[i].sm))), Wrap64(r.usageMem - r.held[i].memory),
               RemoveAt(r.held, i), ports)
    case Reconfigure(key, quota, sm) =>
      var i := Find(r.held, key);
      if i == |r.held| then r else r.(held := r.held[i := r.held[i].(quota := quota, sm := sm)])
    case Elsewhere(ports) => r.(ports := ports)
  }

  function ApplyAll(r: Record, cs: seq<Change>): Record {
    if cs == [] then r
    else
      var k := |cs| - 1;
      Apply(ApplyAll(r, cs[..k]), cs[k])
  }

  lemma LastApplied(r: Record, cs: seq<Change>)
    requires cs != []
    ensures ApplyAll(r, cs) == Apply(ApplyAll(r, cs[..|cs| - 1]), cs[|cs| - 1])
  {}

  // ---------------------------------------------------------------- finite values are the ledger's

  function Lift(l: seq<FastPodReq>): (r: seq<Held>)
    ensures |r| == |l|
    ensures forall i :: 0 <= i < |l| ==>
              r[i] == Held(l[i].key, Finite(l[i].qtRequest), l[i].smPartition, l[i].memory, l[i].port)
  {
    seq(|l|, i requires 0 <= i < |l| =>
      Held(l[i].key, Finite(l[i].qtRequest), l[i].smPartition, l[i].memory, l[i].port))
  }

  function Lifted(g: Gpu, ports: Ports): Record {
    Record(g.mem, Finite(g.usage), g.usageMem, Lift(g.fastPods), ports)
  }

  lemma LiftFind(l: seq<FastPodReq>, key: string)
    ensures Find(Lift(l), key) == FindFast(l, key)
  {
    var i, j := Find(Lift(l), key), FindFast(l, key);
    assert i < |l| ==> Lift(l)[i].key == l[i].key == key;
    assert j < |l| ==> Lift(l)[j].key == l[j].key == key;
  }

  lemma LiftRemove(l: seq<FastPodReq>, i: nat)
    requires i < |l|
    ensures Lift(RemoveAt(l, i)) == RemoveAt(Lift(l), i) && (RemoveAt(Lift(l), i) == [] <==> RemoveAt(l, i) == [])
  {}

  lemma PartIsContribution(quota: real, sm: int)
    ensures Part(Finite(quota), sm) == Finite(Contribution(quota, sm))
    ensures quota * (sm as real) / 100.0 == Contribution(quota, sm)
  {
    assert quota * (sm as real) / 100.0 == quota * (sm as real / 100.0);
  }

  function AskFor(req: Request, key: string): Change
    requires req.fast.Some?
  {
    Ask(key, Finite(req.fast.value.quotaReq), req.fast.value.smPartition, req.memory)
  }

  lemma AdmitsWhatFits(g: Gpu, ports: Ports, req: Request, key: string)
    requires GpuSafe(g.uuid, g) && g.mode == FastPod && Admissible(req) && req.mode == FastPod && req.fast.Some?
    ensures Admits(Lifted(g, ports), AskFor(req, key)) <==>
              CanFit(req, g) == Fits && !InFast(g.fastPods, key) && !ports.Full()
    ensures CanFit(req, g) == Fits ==>
              && MIN_INT64 <= g.usageMem + req.memory <= g.mem
              && g.usage + Contribution(req.fast.value.quotaReq, req.fast.value.smPartition) <= 1.0
  {
    PartIsContribution(req.fast.value.quotaReq, req.fast.value.smPartition);
    LiftFind(g.fastPods, key);
    AdmissibleExactly(req);
    FitsExactly(req, g.uuid, g);
    MemNonNegative(g.fastPods, g.mpsPods);
    hide Admissible, CanFit, Part, Contribution, FindFast, Find, Lift, Slots.Full;
    hide FastListOk, MpsListOk, FastMem, MpsMem;
  }

  /** With real quotas an `Ask` is the ledger's check followed by its commit. */
  lemma AskIsCheckAndCommit(g: Gpu, ports: Ports, req: Request, key: string)
    requires GpuSafe(g.uuid, g) && g.mode == FastPod && Admissible(req) && req.mode == FastPod && req.fast.Some?
    ensures var (g', ports', r) := CommitFastPod(g, ports, req, key);
            Apply(Lifted(g, ports), AskFor(req, key)) ==
              if CanFit(req, g) == Fits then Lifted(g', ports') else Lifted(g, ports)
  {
    var share := req.fast.value;
    PartIsContribution(share.quotaReq, share.smPartition);
    AdmitsWhatFits(g, ports, req, key);
    hide GpuSafe, Admissible, CanFit, Admits, Part, Contribution, FindFast, Slots.Full;
    var (g', ports', r) := CommitFastPod(g, ports, req, key);
    if |g'.fastPods| > |g.fastPods| {
      var e := FastPodReq(key, share.quotaReq, share.quotaLimit, share.smPartition, req.memory, r.port);
      assert Lift(g.fastPods + [e])
          == Lift(g.fastPods) + [Held(key, Finite(share.quotaReq), share.smPartition, req.memory, r.port)];
    }
  }

  /** With real quotas a `Drop` is the ledger's removal, which deletes a record that has no FastPod left. */
  lemma DropIsErase(n: Node, gpu: string, key: string)
    requires gpu in n.gpus
    ensures var n' := EraseFast(n, gpu, key);
            Apply(Lifted(n.gpus[gpu], n.ports), Drop(key)) ==
              if n'.gpus[gpu].fastPods == [] then Fresh(n.gpus[gpu].mem, n'.ports) else Lifted(n'.gpus[gpu], n'.ports)
  {
    var l := n.gpus[gpu].fastPods;
    var i := FindFast(l, key);
    LiftFind(l, key);
    if i < |l| {
      PartIsContribution(l[i].qtRequest, l[i].smPartition);
      LiftRemove(l, i);
      hide Part, Contribution, FindFast, Find, RemoveAt, Slots.Drop;
    }
  }

  /** With real quotas a `Reconfigure` writes what the ledger's re-configuration writes. */
  lemma ReconfigureIsReshare(g: Gpu, ports: Ports, key: string, share: Share)
    ensures var l := g.fastPods;
            var i := FindFast(l, key);
            Apply(Lifted(g, ports), Reconfigure(key, Finite(share.quotaReq), share.smPartition)) ==
              if i == |l| then Lifted(g, ports) else Lifted(g.(fastPods := l[i := Reshare(l[i], share)]), ports)
  {
    var l := g.fastPods;
    var i := FindFast(l, key);
    LiftFind(l, key);
    hide FindFast, Find;
    if i < |l| {
      var e := Reshare(l[i], share);
      assert Lift(l[i := e]) == Lift(l)[i := Held(e.key, Finite(e.qtRequest), e.smPartition, e.memory, e.port)];
    }
  }

  // ---------------------------------------------------------------- what `Usage` is

  /** What a change adds to `Usage`. */
  function Term(r: Record, c: Change): Float {
    match c
    case Ask(_, quota, sm, _) => if Admits(r, c) then Part(quota, sm) else Finite(0.0)
    case Drop(key) =>
      var i := Find(r.held, key);
      if i < |r.held| then Negate(Part(r.held[i].quota, r.held[i].sm)) else Finite(0.0)
    case _ => Finite(0.0)
  }

  /** What has been added to `Usage` since the record was made. */
  function Terms(r: Record, cs: seq<Change>): seq<Float> {
    if cs == [] || ApplyAll(r, cs).held == [] then []
    else
      var k := |cs| - 1;
      Terms(r, cs[..k]) + [Term(ApplyAll(r, cs[..k]), cs[k])]
  }

  function Sum(ts: seq<Float>): Float {
    if ts == [] then Finite(0.0) else Add(Sum(ts[..|ts| - 1]), ts[|ts| - 1])
  }

  function RealSum(ts: seq<Float>): real {
    if ts == [] then 0.0
    else RealSum(ts[..|ts| - 1]) + if ts[|ts| - 1].Finite? then ts[|ts| - 1].value else 0.0
  }

  predicate AllFinite(ts: seq<Float>) {
    forall i :: 0 <= i < |ts| ==> ts[i].Finite?
  }

  /** The compute test is off: whatever a valid request asks for, it passes. */
  predicate Off(usage: Float) {
    usage.NaN? || usage.NegInf?
  }

  lemma {:induction false} SumExactly(ts: seq<Float>)
    ensures Sum(ts).Finite? <==> AllFinite(ts)
    ensures AllFinite(ts) ==> Sum(ts) == Finite(RealSum(ts))
    ensures Sum(ts).NaN? <==> NaN in ts || (PosInf in ts && NegInf in ts)
    ensures Off(Sum(ts)) <==> NaN in ts || NegInf in ts
  {
    if ts != [] {
      var k := |ts| - 1;
      SumExactly(ts[..k]);
      assert ts == ts[..k] + [ts[k]];
      assert forall x :: x in ts <==> x in ts[..k] || x == ts[k];
      assert AllFinite(ts) <==> AllFinite(ts[..k]) && ts[k].Finite?;
    }
  }

  lemma AddTerm(r: Record, c: Change)
    requires r.held == [] ==> r.usage == Finite(0.0)
    ensures var r' := Apply(r, c);
            r'.usage == if r'.held == [] then Finite(0.0) else Add(r.usage, Term(r, c))
  {
    match c {
      case Ask(_, _, _, _) => AddAsked(r, c);
      case Drop(key) => AddDropped(r, key);
      case Reconfigure(_, _, _) => hide Part, Find;
      case Elsewhere(_) =>
    }
  }

  lemma AddAsked(r: Record, c: Change)
    requires c.Ask? && (r.held == [] ==> r.usage == Finite(0.0))
    ensures var r' := Apply(r, c);
            r'.usage == if r'.held == [] then Finite(0.0) else Add(r.usage, Term(r, c))
  {
    hide Part, Admits, Slots.Grant;
  }

  lemma AddDropped(r: Record, key: string)
    requires r.held == [] ==> r.usage == Finite(0.0)
    ensures var r' := Apply(r, Drop(key));
            r'.usage == if r'.held == [] then Finite(0.0) else Add(r.usage, Term(r, Drop(key)))
  {
    hide Part, Find, RemoveAt, Negate, Slots.Drop;
  }

  lemma {:induction false} UsageIsSum(mem: int64, ports: Ports, cs: seq<Change>)
    ensures var r := ApplyAll(Fresh(mem, ports), cs);
            r.usage == Sum(Terms(Fresh(mem, ports), cs)) && (r.held == [] ==> r.usage == Finite(0.0))
  {
    var r0 := Fresh(mem, ports);
    if cs != [] {
      var k := |cs| - 1;
      var r := ApplyAll(r0, cs[..k]);
      UsageIsSum(mem, ports, cs[..k]);
      LastApplied(r0, cs);
      AddTerm(r, cs[k]);
      hide ApplyAll, Apply, Term;
    }
  }

  /** The exact law of `Usage`, for every sequence of changes, re-configurations to any value included.  With
      the terms added since the record was made (a share for each pod admitted, and the negated share for
      each pod removed): `Usage` is finite, and their sum, exactly if all of them are; and the compute test
      is off exactly if one of them is NaN or minus infinity. */
  lemma UsageExactly(mem: int64, ports: Ports, cs: seq<Change>)
    ensures var usage := ApplyAll(Fresh(mem, ports), cs).usage;
            var ts := Terms(Fresh(mem, ports), cs);
            && (usage.Finite? <==> AllFinite(ts))
            && (AllFinite(ts) ==> usage == Finite(RealSum(ts)))
            && (usage.NaN? <==> NaN in ts || (PosInf in ts && NegInf in ts))
            && (Off(usage) <==> NaN in ts || NegInf in ts)
  {
    UsageIsSum(mem, ports, cs);
    SumExactly(Terms(Fresh(mem, ports), cs));
    hide ApplyAll, Terms, Sum, RealSum;
  }

  /** Every valid request passes the compute test exactly if `Usage` is NaN, minus infinity, or not positive. */
  lemma EverythingFits(usage: Float)
    ensures (forall quota, sm :: Validates(quota, sm) ==> ComputeFits(usage, quota, sm)) <==>
              Off(usage) || (usage.Finite? && usage.value <= 0.0)
  {
    if Off(usage) || (usage.Finite? && usage.value <= 0.0) {
      forall quota, sm | Validates(quota, sm)
        ensures ComputeFits(usage, quota, sm)
      {
        ValidatesExactly(quota, sm);
        hide Part, Contribution;
      }
    } else {
      ValidatesExactly(Finite(1.0), 100);
      PartIsContribution(1.0, 100);
      assert Contribution(1.0, 100) == 1.0;
      hide Part;
      assert Validates(Finite(1.0), 100) && !ComputeFits(usage, Finite(1.0), 100);
    }
  }

  /** Once off, the compute test stays off for as long as the record lives. */
  lemma {:induction false} OffStays(r: Record, cs: seq<Change>)
    requires Off(r.usage)
    requires forall k :: 0 < k <= |cs| ==> ApplyAll(r, cs[..k]).held != []
    ensures Off(ApplyAll(r, cs).usage)
  {
    if cs != [] {
      var k := |cs| - 1;
      assert forall j :: 0 <= j <= k ==> cs[..k][..j] == cs[..j];
      OffStays(r, cs[..k]);
      assert cs[..k + 1] == cs;
      LastApplied(r, cs);
      hide ApplyAll;
      OffStep(ApplyAll(r, cs[..k]), cs[k]);
    }
  }

  lemma OffStep(r: Record, c: Change)
    requires Off(r.usage) && Apply(r, c).held != []
    ensures Off(Apply(r, c).usage)
  {
    hide Part, Find, RemoveAt;
    if c.Ask? && Admits(r, c) {
      ValidatesExactly(c.quota, c.sm);
    }
  }

  // ---------------------------------------------------------------- two changes switch the test off

  /** What is left of `Usage` once a share that is no number has been subtracted from a finite one. */
  function Minus(quota: Float, sm: int): Float {
    if quota.NaN? || sm == 0 then NaN
    else if (quota.PosInf? && sm > 0) || (quota.NegInf? && sm < 0) then NegInf
    else PosInf
  }

  /** Re-configuring one pod to an infinite or NaN quota, and removing it while another is left: the quota is not
      checked when it is written, and is subtracted when the pod goes. */
  lemma UncheckedQuotaSwitchesOff(r: Record, key: string, quota: Float, sm: int)
    requires r.usage.Finite? && |r.held| >= 2 && Find(r.held, key) < |r.held| && !quota.Finite?
    ensures ApplyAll(r, [Reconfigure(key, quota, sm), Drop(key)]).usage == Minus(quota, sm)
  {
    var cs := [Reconfigure(key, quota, sm), Drop(key)];
    assert cs[..1] == [cs[0]] && [cs[0]][..0] == [];
    NothingApplied(r);
    LastApplied(r, [cs[0]]);
    LastApplied(r, cs);
    Overwritten(r, key, quota, sm);
    hide ApplyAll, Apply, Find;
  }

  lemma NothingApplied(r: Record)
    ensures ApplyAll(r, []) == r
  {}

  lemma Overwritten(r: Record, key: string, quota: Float, sm: int)
    requires r.usage.Finite? && |r.held| >= 2 && Find(r.held, key) < |r.held| && !quota.Finite?
    ensures Apply(Apply(r, Reconfigure(key, quota, sm)), Drop(key)).usage == Minus(quota, sm)
  {
    var i := Find(r.held, key);
    var l := Apply(r, Reconfigure(key, quota, sm)).held;
    assert l[i].key == key && forall j :: 0 <= j < i ==> l[j] == r.held[j];
    assert Find(l, key) == i;
    assert Negate(Part(quota, sm)) == Minus(quota, sm);
    assert |RemoveAt(l, i)| >= 1;
    hide Find, Part, RemoveAt, Slots.Drop;
  }

  // ---------------------------------------------------------------- without re-configurations

  ghost function Total(l: seq<Held>): real {
    if l == [] then 0.0
    else (if l[0].quota.Finite? then Contribution(l[0].quota.value, l[0].sm) else 0.0) + Total(l[1..])
  }

  ghost predicate Sound(l: seq<Held>) {
    forall i :: 0 <= i < |l| ==> l[i].quota.Finite? && Validates(l[i].quota, l[i].sm)
  }

  lemma {:induction false} TotalAppend(l: seq<Held>, h: Held)
    requires h.quota.Finite?
    ensures Total(l + [h]) == Total(l) + Contribution(h.quota.value, h.sm)
  {
    if l != [] {
      TotalAppend(l[1..], h);
      assert (l + [h])[1..] == l[1..] + [h];
    } else {
      assert l + [h] == [h];
    }
  }

  lemma {:induction false} TotalRemove(l: seq<Held>, i: nat)
    requires i < |l| && l[i].quota.Finite?
    ensures Total(RemoveAt(l, i)) == Total(l) - Contribution(l[i].quota.value, l[i].sm)
  {
    hide RemoveAt, Contribution;
    RemoveAtTail(l, i);
    if i > 0 { TotalRemove(l[1..], i - 1); }
  }

  lemma {:induction false} TotalNonNegative(l: seq<Held>)
    requires Sound(l)
    ensures Total(l) >= 0.0
  {
    if l != [] {
      ValidatesExactly(l[0].quota, l[0].sm);
      TotalNonNegative(l[1..]);
    }
  }

  /** A request with a NaN quota is admitted. */
  predicate Poisons(r: Record, c: Change) {
    c.Ask? && c.quota.NaN? && Admits(r, c)
  }

  /** One has been since the record was made. */
  ghost predicate Poisoned(r: Record, cs: seq<Change>) {
    if cs == [] || ApplyAll(r, cs).held == [] then false
    else
      var k := |cs| - 1;
      Poisoned(r, cs[..k]) || Poisons(ApplyAll(r, cs[..k]), cs[k])
  }

  /** The budget holds: `Usage` is the sum of finite valid shares, in [0, 1]. */
  ghost predicate Sane(r: Record) {
    Sound(r.held) && r.usage == Finite(Total(r.held)) && 0.0 <= r.usage.value <= 1.0
  }

  lemma SaneAsk(r: Record, c: Change)
    requires Sane(r) && c.Ask?
    ensures if Poisons(r, c) then Apply(r, c).usage.NaN? else Sane(Apply(r, c))
  {
    ValidatesExactly(c.quota, c.sm);
    hide Part, Contribution, Find, Validates, Slots.Grant;
    if Admits(r, c) && c.quota.Finite? {
      var h := Apply(r, c).held[|r.held|];
      assert Apply(r, c).held == r.held + [h];
      TotalAppend(r.held, h);
      assert Sound(r.held + [h]);
      TotalNonNegative(r.held + [h]);
      hide Total, Sound;
    }
  }

  lemma SaneDrop(r: Record, key: string)
    requires Sane(r)
    ensures Sane(Apply(r, Drop(key)))
  {
    var i := Find(r.held, key);
    if i < |r.held| && RemoveAt(r.held, i) != [] {
      ValidatesExactly(r.held[i].quota, r.held[i].sm);
      hide Part, Contribution, Find, Validates;
      TotalRemove(r.held, i);
      assert Sound(RemoveAt(r.held, i));
      TotalNonNegative(RemoveAt(r.held, i));
      hide Total, Sound, RemoveAt;
    }
  }

  lemma NaNStep(r: Record, c: Change)
    requires r.usage.NaN? && r.held != [] && !c.Reconfigure?
    ensures if Apply(r, c).held == [] then Sane(Apply(r, c)) else Apply(r, c).usage.NaN?
  {
    hide Part, Find, Admits, Slots.Grant;
  }

  /** The budget law with NaN: without re-configurations `Usage` is NaN exactly if a request with a NaN
      quota was admitted since the record was made, and otherwise it is the sum of the shares and lies
      in [0, 1]. */
  lemma {:induction false} BudgetExactly(mem: int64, ports: Ports, cs: seq<Change>)
    requires forall i :: 0 <= i < |cs| ==> !cs[i].Reconfigure?
    ensures var r := ApplyAll(Fresh(mem, ports), cs);
            && (r.usage.NaN? <==> Poisoned(Fresh(mem, ports), cs))
            && (Sane(r) <==> !Poisoned(Fresh(mem, ports), cs))
            && (r.usage.NaN? ==> r.held != [])
  {
    var r0 := Fresh(mem, ports);
    if cs != [] {
      var k := |cs| - 1;
      BudgetExactly(mem, ports, cs[..k]);
      var r := ApplyAll(r0, cs[..k]);
      LastApplied(r0, cs);
      hide ApplyAll, Poisons, Apply, Sane;
      if r.usage.NaN? {
        NaNStep(r, cs[k]);
        SaneIsFinite(Apply(r, cs[k]));
      } else {
        SaneStep(r, cs[k]);
        SaneIsFinite(Apply(r, cs[k]));
      }
    }
  }

  lemma SaneIsFinite(r: Record)
    ensures Sane(r) ==> r.usage.Finite?
  {}

  lemma SaneStep(r: Record, c: Change)
    requires Sane(r) && !c.Reconfigure?
    ensures if Poisons(r, c) then Apply(r, c).usage.NaN? && Apply(r, c).held != [] else Sane(Apply(r, c))
  {
    match c {
      case Ask(_, _, _, _) => SaneAsk(r, c);
      case Drop(key) => SaneDrop(r, key);
      case Elsewhere(_) =>
    }
    hide Sane, Part, Find;
  }

  // ---------------------------------------------------------------- how far it goes

  /** One request for the whole GPU for each key. */
  function Whole(keys: seq<string>, memory: int64): (cs: seq<Change>)
    ensures |cs| == |keys|
  {
    if keys == [] then []
    else
      var k := |keys| - 1;
      Whole(keys[..k], memory) + [Ask(keys[k], Finite(1.0), 100, memory)]
  }

  /** Different keys that the list does not have. */
  predicate NewKeys(l: seq<Held>, keys: seq<string>) {
    && (forall i :: 0 <= i < |keys| ==> Find(l, keys[i]) == |l|)
    && (forall i, j :: 0 <= i < j < |keys| ==> keys[i] != keys[j])
  }

  /** There is a port and the memory for that many pods. */
  predicate RoomForMany(r: Record, count: nat, memory: int64) {
    |r.ports.used| + count <= r.ports.size && r.usageMem + InAll(count, memory) <= r.mem
  }

  function InAll(count: nat, memory: int64): int {
    count * memory
  }

  lemma InAllStep(count: nat, memory: int64)
    ensures InAll(count + 1, memory) == InAll(count, memory) + memory && InAll(0, memory) == 0 &&
              InAll(1, memory) == memory
  {}

  lemma {:induction false} CountBelow(a: set<int>, n: nat)
    requires forall p :: p in a ==> 0 <= p < n
    ensures |a| <= n && (|a| == n <==> forall p :: 0 <= p < n ==> p in a)
  {
    if n == 0 {
      assert forall p :: p !in a;
      assert a == {};
    } else {
      var rest := a - {n - 1};
      CountBelow(rest, n - 1);
      assert n - 1 in a ==> a == rest + {n - 1};
      assert n - 1 !in a ==> a == rest;
    }
  }

  /** The slots run out exactly when as many are taken as there are. */
  lemma FullExactly(ports: Ports)
    ensures ports.Full() <==> |ports.used| == ports.size
    ensures |ports.used| <= ports.size
  {
    CountBelow(ports.used, ports.size);
  }

  lemma OneMoreWhole(r: Record, key: string, memory: int64)
    requires Off(r.usage) && Find(r.held, key) == |r.held| && memory >= 0 && 0 <= r.usageMem <= r.mem
    ensures var r' := Apply(r, Ask(key, Finite(1.0), 100, memory));
            if RoomForMany(r, 1, memory) then
              && Off(r'.usage) && r'.usageMem == r.usageMem + memory && r'.mem == r.mem
              && |r'.ports.used| == |r.ports.used| + 1 && r'.ports.size == r.ports.size
              && |r'.held| == |r.held| + 1 && r'.held[..|r.held|] == r.held && r'.held[|r.held|].key == key
            else r' == r
  {
    FullExactly(r.ports);
    PartIsContribution(1.0, 100);
    InAllStep(1, memory);
    hide Part, Find, Contribution, InAll;
  }

  /** All the keys have been admitted, each with its memory and a port. */
  predicate Filled(r: Record, r': Record, keys: seq<string>, memory: int64) {
    && Off(r'.usage) && r'.mem == r.mem && r'.usageMem == r.usageMem + InAll(|keys|, memory)
    && |r'.ports.used| == |r.ports.used| + |keys| && r'.ports.size == r.ports.size
    && Follow(r.held, r'.held, keys)
  }

  /** The keys of `after` from `l` on are `keys`. */
  predicate Follow(l: seq<Held>, after: seq<Held>, keys: seq<string>) {
    && |after| == |l| + |keys| && after[..|l|] == l
    && forall i :: 0 <= i < |keys| ==> after[|l| + i].key == keys[i]
  }

  lemma HeldInOrder(l: seq<Held>, before: seq<Held>, after: seq<Held>, keys: seq<string>)
    requires keys != [] && Follow(l, before, keys[..|keys| - 1])
    requires |after| == |before| + 1 && after[..|before|] == before && after[|before|].key == keys[|keys| - 1]
    ensures Follow(l, after, keys)
  {
    assert after[..|l|] == after[..|before|][..|l|];
    forall i | 0 <= i < |keys|
      ensures after[|l| + i].key == keys[i]
    {
      if i < |keys| - 1 { assert after[|l| + i] == before[|l| + i] && keys[..|keys| - 1][i] == keys[i]; }
    }
  }

  lemma OneMoreFilled(r: Record, before: Record, keys: seq<string>, memory: int64)
    requires keys != [] && memory >= 0 && Off(r.usage) && 0 <= r.usageMem <= r.mem
    requires NewKeys(r.held, keys)
    requires RoomForMany(r, |keys| - 1, memory) && Filled(r, before, keys[..|keys| - 1], memory)
    ensures var r' := Apply(before, Ask(keys[|keys| - 1], Finite(1.0), 100, memory));
            if RoomForMany(r, |keys|, memory) then Filled(r, r', keys, memory) else |r'.held| < |r.held| + |keys|
  {
    var k := |keys| - 1;
    assert 0 <= InAll(k, memory);
    InAllStep(k, memory);
    InAllStep(0, memory);
    StillNew(r.held, before.held, keys);
    OneMoreWhole(before, keys[k], memory);
    var r' := Apply(before, Ask(keys[k], Finite(1.0), 100, memory));
    hide InAll, Apply, Find, Slots.Full;
    if RoomForMany(r, |keys|, memory) {
      HeldInOrder(r.held, before.held, r'.held, keys);
    }
  }

  /** With the test off, ports and memory are all that limits the pods of one GPU, each of which may want the
      whole of it: all of them are admitted if and only if there is a free port for each and memory for all. */
  lemma {:induction false} OversellsExactly(r: Record, keys: seq<string>, memory: int64)
    requires Off(r.usage) && memory >= 0 && 0 <= r.usageMem <= r.mem
    requires NewKeys(r.held, keys)
    ensures var r' := ApplyAll(r, Whole(keys, memory));
            if RoomForMany(r, |keys|, memory) then Filled(r, r', keys, memory) else |r'.held| < |r.held| + |keys|
  {
    if keys == [] {
      NothingToFill(r, memory);
    } else {
      var k := |keys| - 1;
      assert NewKeys(r.held, keys[..k]);
      OversellsExactly(r, keys[..k], memory);
      LastApplied(r, Whole(keys, memory));
      WholeSplits(keys, memory);
      var before := ApplyAll(r, Whole(keys[..k], memory));
      hide ApplyAll, Apply, Whole, RoomForMany, Filled, NewKeys, Off;
      if RoomForMany(r, k, memory) {
        OneMoreFilled(r, before, keys, memory);
      } else {
        GrowsByOne(before, Ask(keys[k], Finite(1.0), 100, memory));
        if RoomForMany(r, |keys|, memory) { RoomShrinks(r, k, memory); }
      }
    }
  }

  lemma NothingToFill(r: Record, memory: int64)
    requires Off(r.usage) && r.usageMem <= r.mem
    ensures RoomForMany(r, 0, memory) && Filled(r, ApplyAll(r, Whole([], memory)), [], memory)
  {
    InAllStep(0, memory);
    FullExactly(r.ports);
    NothingApplied(r);
  }

  lemma WholeSplits(keys: seq<string>, memory: int64)
    requires keys != []
    ensures var k := |keys| - 1;
            Whole(keys, memory)[..k] == Whole(keys[..k], memory) &&
                Whole(keys, memory)[k] == Ask(keys[k], Finite(1.0), 100, memory)
  {}

  lemma RoomShrinks(r: Record, count: nat, memory: int64)
    requires memory >= 0 && RoomForMany(r, count + 1, memory)
    ensures RoomForMany(r, count, memory)
  {
    InAllStep(count, memory);
  }

  lemma GrowsByOne(r: Record, c: Change)
    ensures |Apply(r, c).held| <= |r.held| + 1
  {
    hide Part, Find, Admits, Slots.Grant;
  }

  lemma StillNew(l: seq<Held>, held: seq<Held>, keys: seq<string>)
    requires keys != [] && NewKeys(l, keys)
    requires Follow(l, held, keys[..|keys| - 1])
    ensures Find(held, keys[|keys| - 1]) == |held|
  {
    var key := keys[|keys| - 1];
    forall j | 0 <= j < |held|
      ensures held[j].key != key
    {
      if j < |l| {
        assert held[j] == held[..|l|][j];
      } else {
        assert held[|l| + (j - |l|)].key == keys[..|keys| - 1][j - |l|];
      }
    }
  }
}
