/** Concrete runs that show where the ledger's guarantees stop. */
module Witnesses {
  import opened Requests
  import opened PortBitmap
  import opened Ledger
  import opened LedgerSafety
  import opened LedgerRuns
  import opened Budget
  import opened Mirror
  import opened History

  const INDEX := map["g" := Device("g", 100, 10, 100)]

  /** A request for a time quota on all SMs of GPU "g" of node "n", with 10 bytes of memory. */
  function Ask(quota: real): Request {
    Request(FastPod, Some("n"), Some("g"), None, Some(100), 10, Some(Share(quota, 1.0, 100)))
  }

  lemma AskIsAdmissible(quota: real)
    requires 0.0 <= quota <= 1.0
    ensures Admissible(Ask(quota)) && Keyed(INDEX)
  {
    AdmissibleExactly(Ask(quota));
  }

  function Entry(key: string, quota: real, port: int): FastPodReq {
    FastPodReq(key, quota, 1.0, 100, 10, port)
  }

  /** The one node "n" has the one record "g", with these FastPods. */
  ghost predicate Holding(
    s: State, mode: Mode, usage: real, usageMem: int64, pods: seq<FastPodReq>, used: set<int>, cursor: nat) {
    && "n" in s.ledger.nodes
    && var n := s.ledger.nodes["n"];
       && n.hostName == "n" && n.gpus.Keys == {"g"}
       && n.gpus["g"] == Gpu("g", 10, 100, 100, mode, usage, usageMem, pods, [], None)
       && n.ports.size == 1024 && n.ports.used == used && n.ports.cursor == cursor
  }

  lemma Registered() returns (s: State)
    ensures Step(ByKey, INITIAL, RegisterEvent("n")) == Some(s)
    ensures s.pending.None? && "n" in s.ledger.nodes && s.ledger.nodes["n"] == Node("n", map[], Slots(1024, {}, 0))
  {
    s := Step(ByKey, INITIAL, RegisterEvent("n")).value;
  }

  lemma FirstCheck(s: State) returns (t: State)
    requires s.pending.None? && "n" in s.ledger.nodes && s.ledger.nodes["n"] == Node("n", map[], Slots(1024, {}, 0))
    ensures Step(ByKey, s, ScheduleEvent(Ask(0.5), INDEX)) == Some(t)
    ensures Holding(t, NoMode, 0.0, 0, [], {}, 0) && t.pending == Some(Pending(Ask(0.5), Selection("n", "g")))
  {
    var g := NewGpu(INDEX["g"]);
    assert CanFit(Ask(0.5), g) == Fits;
    assert WithRecord(s.ledger.nodes["n"], "g", INDEX["g"]).gpus == map["g" := g];
    t := Step(ByKey, s, ScheduleEvent(Ask(0.5), INDEX)).value;
  }

  lemma NextCheck(
    s: State, quota: real, usage: real, usageMem: int64, pods: seq<FastPodReq>, used: set<int>, cursor: nat)
    returns (t: State)
    requires Holding(s, FastPod, usage, usageMem, pods, used, cursor) && s.pending.None?
    requires usage + quota <= 1.0 && 0 <= usageMem <= 90
    ensures Step(ByKey, s, ScheduleEvent(Ask(quota), INDEX)) == Some(t)
    ensures Holding(t, FastPod, usage, usageMem, pods, used, cursor) &&
              t.pending == Some(Pending(Ask(quota), Selection("n", "g")))
  {
    assert CanFit(Ask(quota), s.ledger.nodes["n"].gpus["g"]) == Fits;
    t := Step(ByKey, s, ScheduleEvent(Ask(quota), INDEX)).value;
  }

  lemma NextGrant(p: Ports, used: set<int>, cursor: nat)
    requires p.size == 1024 && p.used == used && p.cursor == cursor && cursor !in used && cursor < 1023
    ensures p.Grant() == (Slots(1024, used + {cursor}, cursor + 1), cursor)
  {
    p.ScanStart();
    p.ScanStep(0);
  }

  lemma NextCommit(
    s: State, key: string, quota: real,
    mode: Mode, usage: real, usageMem: int64, pods: seq<FastPodReq>, used: set<int>, cursor: nat)
    returns (t: State)
    requires Holding(s, mode, usage, usageMem, pods, used, cursor) &&
               s.pending == Some(Pending(Ask(quota), Selection("n", "g")))
    requires (mode == NoMode || mode == FastPod) && FindFast(pods, key) == |pods|
    requires usage + quota <= 1.0 && 0 <= usageMem <= 90 && cursor !in used && cursor < 1023
    ensures Step(ByKey, s, CommitEvent(key, true)) == Some(t) && t.pending.None?
    ensures Holding(t, FastPod, usage + quota, usageMem + 10, pods + [Entry(key, quota, 56001 + cursor)],
                    used + {cursor}, cursor + 1)
    ensures LastPushed(t.ledger, "n", "g") == Projection(pods + [Entry(key, quota, 56001 + cursor)])
  {
    hide Projection, FindFast;
    NextGrant(s.ledger.nodes["n"].ports, used, cursor);
    hide Slots.Grant;
    assert Contribution(quota, 100) == quota;
    t := Step(ByKey, s, CommitEvent(key, true)).value;
  }

  /** A run that admits one pod with half of a GPU. */
  lemma OnePod() returns (es: seq<Event>, ss: seq<State>)
    ensures IsRun(ByKey, es, ss) && |es| == 3
    ensures Holding(ss[3], FastPod, 0.5, 10, [Entry("a", 0.5, 56001)], {0}, 1) && ss[3].pending.None?
    ensures LastPushed(ss[3].ledger, "n", "g") == Projection([Entry("a", 0.5, 56001)])
  {
    var s1 := Registered();
    var s2 := FirstCheck(s1);
    assert FindFast([], "a") == 0;
    var s3 := NextCommit(s2, "a", 0.5, NoMode, 0.0, 0, [], {}, 0);
    AskIsAdmissible(0.5);
    assert [] + [Entry("a", 0.5, 56001)] == [Entry("a", 0.5, 56001)] && {} + {0} == {0};
    hide Step, Holding, Projection, LastPushed, Admissible;
    Extend([], [INITIAL], RegisterEvent("n"), s1);
    es, ss := [] + [RegisterEvent("n")], [INITIAL] + [s1];
    Extend(es, ss, ScheduleEvent(Ask(0.5), INDEX), s2);
    es, ss := es + [ScheduleEvent(Ask(0.5), INDEX)], ss + [s2];
    Extend(es, ss, CommitEvent("a", true), s3);
    es, ss := es + [CommitEvent("a", true)], ss + [s3];
  }

  lemma Extend(es: seq<Event>, ss: seq<State>, e: Event, t: State)
    requires IsRun(ByKey, es, ss) && Enabled(ss[|es|], e) && Step(ByKey, ss[|es|], e) == Some(t)
    ensures IsRun(ByKey, es + [e], ss + [t])
  {
    hide Step, Enabled;
  }

  const MPS_ASK := Request(Mps, Some("n"), Some("g"), None, None, 10, None)
  const MPS_POD := Pod("n", "g", "m", Mps)

  lemma MpsCheck(s: State) returns (t: State)
    requires s.pending.None? && "n" in s.ledger.nodes && s.ledger.nodes["n"] == Node("n", map[], Slots(1024, {}, 0))
    ensures Enabled(s, ScheduleEvent(MPS_ASK, INDEX)) && Step(ByKey, s, ScheduleEvent(MPS_ASK, INDEX)) == Some(t)
    ensures Holding(t, NoMode, 0.0, 0, [], {}, 0) && t.pending == Some(Pending(MPS_ASK, Selection("n", "g")))
  {
    AdmissibleExactly(MPS_ASK);
    var g := NewGpu(INDEX["g"]);
    assert CanFit(MPS_ASK, g) == Fits;
    assert WithRecord(s.ledger.nodes["n"], "g", INDEX["g"]).gpus == map["g" := g];
    t := Step(ByKey, s, ScheduleEvent(MPS_ASK, INDEX)).value;
  }

  lemma MpsCommit(s: State) returns (t: State)
    requires Holding(s, NoMode, 0.0, 0, [], {}, 0) && s.pending == Some(Pending(MPS_ASK, Selection("n", "g")))
    ensures Step(ByKey, s, CommitEvent("m", true)) == Some(t) && t.pending.None? && Reserved(t.ledger, MPS_POD)
    ensures "n" in t.ledger.nodes
    ensures var n := t.ledger.nodes["n"];
            && n.hostName == "n" && n.gpus.Keys == {"g"} && n.ports == Slots(1024, {}, 0)
            && n.gpus["g"].mpsPods == [MpsPodReq("m", 10)]
  {
    var n := s.ledger.nodes["n"];
    assert n.ports == Slots(1024, {}, 0);
    assert FindMps([], "m") == 0;
    var pods := [MpsPodReq("m", 10)];
    assert [] + pods == pods && FindMps(pods, "m") == 0;
    t := Step(ByKey, s, CommitEvent("m", true)).value;
  }

  lemma MpsRemove(s: State) returns (t: State)
    requires s.pending.None? && "n" in s.ledger.nodes
    requires var n := s.ledger.nodes["n"];
             && n.hostName == "n" && n.gpus.Keys == {"g"} && n.ports == Slots(1024, {}, 0)
             && n.gpus["g"].mpsPods == [MpsPodReq("m", 10)]
    ensures Step(ByKey, s, RemoveEvent(MPS_POD, true)) == Some(t) && t.pending.None?
    ensures "n" in t.ledger.nodes && t.ledger.nodes["n"] == Node("n", map[], Slots(1024, {}, 0))
  {
    var pods := [MpsPodReq("m", 10)];
    assert FindMps(pods, "m") == 0 && RemoveAt(pods, 0) == [];
    t := Step(ByKey, s, RemoveEvent(MPS_POD, true)).value;
    assert t.ledger.nodes["n"].gpus == map[];
  }

  /** An MPS pod is granted a GPU and removed; a FastPod takes the GPU; then the MPS pod is removed once more, as
      happens when its FaSTPod is deleted after the pod.  The FastPod's record goes, its port bit stays, with
      nothing left in the ledger that could ever clear it, and the node still lists the pod. */
  lemma MisannotatedRemovalLeaks() returns (es: seq<Event>, ss: seq<State>)
    ensures IsRun(ByKey, es, ss) && |es| == 7
    ensures Reserved(ss[3].ledger, MPS_POD) && es[3] == RemoveEvent(MPS_POD, true) && es[6] == SweepEvent(MPS_POD, true)
    ensures "n" in ss[7].ledger.nodes
    ensures ss[7].ledger.nodes["n"].gpus == map[] && ss[7].ledger.nodes["n"].ports.used == {0}
    ensures LastPushed(ss[7].ledger, "n", "g") == [PodConfig("a", 0.5, 1.0, 100, 10, 56001)]
    ensures FastPodsAt(ss[7].ledger, "n", "g") == [] && OutOfStep(ByKey, es, ss, 7, "n", "g")
  {
    hide Step, Holding, Projection, LastPushed, FastPodsAt, Admissible, Reserved, PushFor, DropsUnpushed, OutOfStep;
    es, ss := MpsComesAndGoes();
    var s5 := FirstCheck(ss[4]);
    var pods := [Entry("a", 0.5, 56001)];
    assert FindFast([], "a") == 0 && [] + pods == pods && {} + {0} == {0};
    var s6 := NextCommit(s5, "a", 0.5, NoMode, 0.0, 0, [], {}, 0);
    var s7 := SweptAway(s6);
    AskIsAdmissible(0.5);
    hide FindFast;
    es, ss := Grown(es, ss, ScheduleEvent(Ask(0.5), INDEX), s5);
    es, ss := Grown(es, ss, CommitEvent("a", true), s6);
    es, ss := Grown(es, ss, SweepEvent(MPS_POD, true), s7);
    DropIsOutOfStep(es, ss, "n", "g");
  }

  lemma DropIsOutOfStep(es: seq<Event>, ss: seq<State>, node: string, gpu: string)
    requires IsRun(ByKey, es, ss) && es != []
    requires DropsUnpushed(ss[|es| - 1], es[|es| - 1], node, gpu) &&
               PushFor(ByKey, ss[|es| - 1], es[|es| - 1], node, gpu).None?
    ensures OutOfStep(ByKey, es, ss, |es|, node, gpu)
  {
    hide IsRun, DropsUnpushed, PushFor;
  }

  lemma MpsComesAndGoes() returns (es: seq<Event>, ss: seq<State>)
    ensures IsRun(ByKey, es, ss) && |es| == 4 && es[3] == RemoveEvent(MPS_POD, true) && Reserved(ss[3].ledger, MPS_POD)
    ensures ss[4].pending.None? && "n" in ss[4].ledger.nodes &&
              ss[4].ledger.nodes["n"] == Node("n", map[], Slots(1024, {}, 0))
  {
    var s1 := Registered();
    var s2 := MpsCheck(s1);
    var s3 := MpsCommit(s2);
    var s4 := MpsRemove(s3);
    hide Step, Holding, Admissible, Reserved;
    es, ss := [], [INITIAL];
    es, ss := Grown(es, ss, RegisterEvent("n"), s1);
    es, ss := Grown(es, ss, ScheduleEvent(MPS_ASK, INDEX), s2);
    es, ss := Grown(es, ss, CommitEvent("m", true), s3);
    es, ss := Grown(es, ss, RemoveEvent(MPS_POD, true), s4);
  }

  lemma Grown(es: seq<Event>, ss: seq<State>, e: Event, t: State) returns (es': seq<Event>, ss': seq<State>)
    requires IsRun(ByKey, es, ss) && Enabled(ss[|es|], e) && Step(ByKey, ss[|es|], e) == Some(t)
    ensures es' == es + [e] && ss' == ss + [t] && IsRun(ByKey, es', ss')
  {
    Extend(es, ss, e, t);
    es', ss' := es + [e], ss + [t];
  }

  lemma SweptAway(s: State) returns (t: State)
    requires Holding(s, FastPod, 0.5, 10, [Entry("a", 0.5, 56001)], {0}, 1) && s.pending.None?
    requires LastPushed(s.ledger, "n", "g") == Projection([Entry("a", 0.5, 56001)])
    ensures Step(ByKey, s, SweepEvent(MPS_POD, true)) == Some(t) && "n" in t.ledger.nodes
    ensures t.ledger.nodes["n"].gpus == map[] && t.ledger.nodes["n"].ports.used == {0} &&
              FastPodsAt(t.ledger, "n", "g") == []
    ensures LastPushed(t.ledger, "n", "g") == [PodConfig("a", 0.5, 1.0, 100, 10, 56001)]
    ensures var e := SweepEvent(MPS_POD, true);
            DropsUnpushed(s, e, "n", "g") && PushFor(ByKey, s, e, "n", "g").None?
  {
    t := Step(ByKey, s, SweepEvent(MPS_POD, true)).value;
    assert t.ledger.nodes["n"].gpus == map[];
  }

  lemma Reshared(
    s: State, quota: real, usage: real, usageMem: int64, pods: seq<FastPodReq>, used: set<int>, cursor: nat)
    returns (t: State)
    requires Holding(s, FastPod, usage, usageMem, [Entry("a", 0.5, 56001)] + pods, used, cursor)
    ensures Step(ByKey, s, ReconfigureEvent(Pod("n", "g", "a", FastPod), Share(quota, 1.0, 100), true, true)) == Some(t)
    ensures Holding(t, FastPod, usage, usageMem, [Entry("a", quota, 56001)] + pods, used, cursor) &&
              t.pending == s.pending
  {
    hide Projection;
    var l := [Entry("a", 0.5, 56001)] + pods;
    assert FindFast(l, "a") == 0;
    assert l[0 := Entry("a", quota, 56001)] == [Entry("a", quota, 56001)] + pods;
    t := Step(ByKey, s, ReconfigureEvent(Pod("n", "g", "a", FastPod), Share(quota, 1.0, 100), true, true)).value;
  }

  /** Raising a pod's share after its admission: the next pod is still admitted against the old
      `Usage`, and the GPU ends up sold one and a half times. */
  lemma ReconfigurationOversells() returns (es: seq<Event>, ss: seq<State>)
    ensures IsRun(ByKey, es, ss) && HasGpu(ss[|es|].ledger, "n", "g")
    ensures var g := GpuAt(ss[|es|].ledger, "n", "g");
            g.usage == 1.0 && ShareSum(g.fastPods) == 1.5
  {
    es, ss := OnePod();
    var reshare := ReconfigureEvent(Pod("n", "g", "a", FastPod), Share(1.0, 1.0, 100), true, true);
    assert [Entry("a", 0.5, 56001)] + [] == [Entry("a", 0.5, 56001)];
    var s4 := Reshared(ss[3], 1.0, 0.5, 10, [], {0}, 1);
    var pods := [Entry("a", 1.0, 56001)] + [];
    var s5 := NextCheck(s4, 0.5, 0.5, 10, pods, {0}, 1);
    var s6 := NextCommit(s5, "b", 0.5, FastPod, 0.5, 10, pods, {0}, 1);
    var l := s6.ledger.nodes["n"].gpus["g"].fastPods;
    assert l[1..][1..] == [] && l[1..] == [Entry("b", 0.5, 56002)] && ShareSum(l[1..]) == 0.5;
    AskIsAdmissible(0.5);
    hide Step, Holding;
    Extend(es, ss, reshare, s4);
    Extend(es + [reshare], ss + [s4], ScheduleEvent(Ask(0.5), INDEX), s5);
    Extend(es + [reshare] + [ScheduleEvent(Ask(0.5), INDEX)], ss + [s4] + [s5], CommitEvent("b", true), s6);
    es := es + [reshare] + [ScheduleEvent(Ask(0.5), INDEX)] + [CommitEvent("b", true)];
    ss := ss + [s4] + [s5] + [s6];
  }

  /** Why `CheckToCommit` asks for shares that are not negative: one re-configuration to a negative
      share and the removal of that pod raise `Usage`, and a request that passed its check is refused
      for lack of compute although its record is still there. */
  lemma NegativeShareBreaksAdmission() returns (es: seq<Event>, ss: seq<State>)
    ensures IsRun(ByKey, es, ss) && ss[|es|].pending.Some?
    ensures var p := ss[|es|].pending.value;
            && HasGpu(ss[|es|].ledger, p.sel.node, p.sel.gpu)
            && Commit(ss[|es|].ledger, p.sel, p.req, "c", true, ByKey).1 == Failed(3)
  {
    es, ss := OnePod();
    var a, z := Entry("a", 0.5, 56001), Entry("z", 0.0, 56002);
    var s4 := NextCheck(ss[3], 0.0, 0.5, 10, [a], {0}, 1);
    var s5 := NextCommit(s4, "z", 0.0, FastPod, 0.5, 10, [a], {0}, 1);
    var s6 := NextCheck(s5, 0.5, 0.5, 20, [a] + [z], {0} + {1}, 2);
    var s7 := Reshared(s6, -1.0, 0.5, 20, [z], {0} + {1}, 2);
    var s8 := Removed(s7, z);
    AskIsAdmissible(0.5);
    AskIsAdmissible(0.0);
    var e4, e5, e6 := ScheduleEvent(Ask(0.0), INDEX), CommitEvent("z", true), ScheduleEvent(Ask(0.5), INDEX);
    var e7 := ReconfigureEvent(Pod("n", "g", "a", FastPod), Share(-1.0, 1.0, 100), true, true);
    var e8 := RemoveEvent(Pod("n", "g", "a", FastPod), true);
    hide Step, Holding;
    Extend(es, ss, e4, s4);
    Extend(es + [e4], ss + [s4], e5, s5);
    Extend(es + [e4] + [e5], ss + [s4] + [s5], e6, s6);
    Extend(es + [e4] + [e5] + [e6], ss + [s4] + [s5] + [s6], e7, s7);
    Extend(es + [e4] + [e5] + [e6] + [e7], ss + [s4] + [s5] + [s6] + [s7], e8, s8);
    es := es + [e4] + [e5] + [e6] + [e7] + [e8];
    ss := ss + [s4] + [s5] + [s6] + [s7] + [s8];
  }

  lemma Removed(s: State, z: FastPodReq) returns (t: State)
    requires z == Entry("z", 0.0, 56002) && s.pending == Some(Pending(Ask(0.5), Selection("n", "g")))
    requires Holding(s, FastPod, 0.5, 20, [Entry("a", -1.0, 56001)] + [z], {0} + {1}, 2)
    ensures Step(ByKey, s, RemoveEvent(Pod("n", "g", "a", FastPod), true)) == Some(t) && t.pending == s.pending
    ensures HasGpu(t.ledger, "n", "g") &&
              Commit(t.ledger, Selection("n", "g"), Ask(0.5), "c", true, ByKey).1 == Failed(3)
  {
    hide Projection;
    var l := [Entry("a", -1.0, 56001)] + [z];
    assert FindFast(l, "a") == 0 && RemoveAt(l, 0) == [z];
    t := Step(ByKey, s, RemoveEvent(Pod("n", "g", "a", FastPod), true)).value;
    assert GpuAt(t.ledger, "n", "g").usage == 1.5 && GpuAt(t.ledger, "n", "g").fastPods == [z];
    assert FindFast([z], "c") == 1;
  }
}
