/** The mutable controller executing events: what its fields hold is the ledger of a run, so that every
    theorem about runs is a theorem about the controller. */
module Execution {
  import opened Requests
  import opened Ledger
  import opened LedgerRuns
  import opened ControllerState
  import NodeResources

  /** One event, carried out by the controller method that it stands for. */
  method ExecuteOne(c: Controller, lookup: MpsLookup, e: Event, pending: Option<Pending>, ghost s: State)
    returns (next: Option<Pending>, panics: bool)
    requires c.Valid() && c.View() == s.ledger && pending == s.pending && Enabled(s, e)
    modifies c, c.mirror, c.Repr
    ensures c.Valid() && fresh(c.Repr - old(c.Repr))
    ensures panics <==> Step(lookup, s, e).None?
    ensures !panics ==> Step(lookup, s, e) == Some(State(c.View(), next))
  {
    hide Schedule, Commit, RegisterNode, RemovePod, RemovePanics, SweepPod, ReconfigurePod, NodeInfo.Valid,
        Controller.View;
    next, panics := pending, false;
    match e {
      case RegisterEvent(name) => c.RegisterHost(name);
      case ScheduleEvent(req, index) =>
        var r := c.ScheduleRequest(req, index);
        panics := r.CheckPanics?;
        next := if r.Selected? then Some(Pending(req, r.sel)) else None;
      case CommitEvent(key, pushOk) =>
        var r := c.RequestGPUAndUpdateConfig(pending.value.sel, pending.value.req, key, pushOk, lookup);
        panics := r.CommitPanics?;
        next := None;
      case RemoveEvent(pod, pushOk) => panics := c.RemovePodFromList(pod, pushOk);
      case SweepEvent(pod, pushOk) => c.SweepOne(pod, pushOk);
      case ReconfigureEvent(pod, share, valid, pushOk) => c.ReconcileResourceConfig(pod, share, valid, pushOk);
    }
  }

  /** The index as far as a check looks at it. */
  lemma OnlyOneEntry(l: Ledger, req: Request, index: map<string, Device>, seen: map<string, Device>)
    requires req.gpu.Some? ==> (req.gpu.value in seen <==> req.gpu.value in index)
    requires req.gpu.Some? && req.gpu.value in index ==> seen[req.gpu.value] == index[req.gpu.value]
    ensures Schedule(l, req, seen) == Schedule(l, req, index)
  {
    hide CanFit, WithRecord;
  }

  /** GetGPU, as far as a check needs it. */
  method AskConfigurator(manager: NodeResources.ResourceManager, req: Request) returns (seen: map<string, Device>)
    requires manager.KeyedByUuid()
    ensures forall l :: Schedule(l, req, seen) == Schedule(l, req, manager.Devices())
  {
    seen := map[];
    if req.gpu.Some? {
      var d := manager.GetVirtualGPU(req.gpu.value);
      if d.Some? {
        seen := map[req.gpu.value := d.value];
      }
    }
    forall l
      ensures Schedule(l, req, seen) == Schedule(l, req, manager.Devices())
    {
      OnlyOneEntry(l, req, manager.Devices(), seen);
    }
  }

  /** Every record of the ledger is that of the device whose UUID it is filed under. */
  ghost predicate RecordsKeyed(l: Ledger) {
    forall node, gpu :: node in l.nodes && gpu in l.nodes[node].gpus ==> l.nodes[node].gpus[gpu].uuid == gpu
  }

  lemma CheckStep(lookup: MpsLookup, l: Ledger, req: Request, index: map<string, Device>)
    requires Safe(State(l, None)) && Admissible(req) && Keyed(index)
    ensures var r := Step(lookup, State(l, None), ScheduleEvent(req, index));
            r.Some? ==> Safe(r.value) && RecordsKeyed(r.value.ledger)
  {
    ScheduleStepSafe(lookup, State(l, None), req, index);
    hide Step;
  }

  /** The check as the two components carry it out: the controller asks the configurator of the request's node
      for the one device (GetGPU), and that configurator keeps its index keyed by UUID.  The check is then a
      step of the state machine, enabled by the configurator's own invariant, and so every record stays
      keyed by its device's UUID. */
  method CheckOn(c: Controller, manager: NodeResources.ResourceManager, lookup: MpsLookup, req: Request)
    returns (next: Option<Pending>, panics: bool)
    requires c.Valid() && manager.KeyedByUuid() && Admissible(req) && Safe(State(c.View(), None))
    modifies c`Repr, c.Repr
    ensures c.Valid() && Keyed(old(manager.Devices()))
    ensures var r := Step(lookup, State(old(c.View()), None), ScheduleEvent(req, old(manager.Devices())));
            && (panics <==> r.None?)
            && (!panics ==> r == Some(State(c.View(), next)) && Safe(r.value) && RecordsKeyed(c.View()))
  {
    hide Schedule, Safe, Admissible, RecordsKeyed, Controller.View, Controller.Valid,
        NodeResources.ResourceManager.Devices;
    ghost var index := manager.Devices();
    CheckStep(lookup, c.View(), req, index);
    var seen := AskConfigurator(manager, req);
    var r := c.ScheduleRequest(req, seen);
    panics := r.CheckPanics?;
    next := if r.Selected? then Some(Pending(req, r.sel)) else None;
  }

  predicate InTurn(pending: Option<Pending>, e: Event) {
    (e.ScheduleEvent? ==> pending.None?) && (e.CommitEvent? ==> pending.Some?)
  }

  /** A new controller carries out events until one is out of turn or panics.  What it then holds is the
      last ledger of a run over the events done, and that ledger is safe. */
  method Execute(lookup: MpsLookup, es: seq<Event>)
    returns (c: Controller, n: nat, panicked: bool, ghost ss: seq<State>)
    requires forall i :: 0 <= i < |es| && es[i].ScheduleEvent? ==> Admissible(es[i].req) && Keyed(es[i].index)
    ensures n <= |es| && IsRun(lookup, es[..n], ss) && Safe(ss[n])
    ensures c.Valid() && (!panicked ==> c.View() == ss[n].ledger)
    ensures panicked <==> n < |es| && Enabled(ss[n], es[n]) && Step(lookup, ss[n], es[n]).None?
    ensures !panicked && n < |es| ==> !InTurn(ss[n].pending, es[n])
  {
    hide Step, Safe, Controller.Valid, Controller.View, Admissible, Keyed;
    c := new Controller();
    var pending := None;
    n, panicked, ss := 0, false, [INITIAL];
    while n < |es| && InTurn(pending, es[n])
      invariant n <= |es| && IsRun(lookup, es[..n], ss) && pending == ss[n].pending
      invariant fresh(c) && fresh(c.mirror) && fresh(c.Repr) && c.Valid() && c.View() == ss[n].ledger
      decreases |es| - n
    {
      var next;
      next, panicked := ExecuteOne(c, lookup, es[n], pending, ss[n]);
      if panicked {
        EveryRunIsSafe(lookup, es[..n], ss, n);
        return;
      }
      ExtendRun(lookup, es, n, ss, State(c.View(), next));
      ss := ss + [State(c.View(), next)];
      pending := next;
      n := n + 1;
    }
    EveryRunIsSafe(lookup, es[..n], ss, n);
  }

  lemma ExtendRun(lookup: MpsLookup, es: seq<Event>, n: nat, ss: seq<State>, t: State)
    requires n < |es| && IsRun(lookup, es[..n], ss) && Enabled(ss[n], es[n]) && Step(lookup, ss[n], es[n]) == Some(t)
    ensures IsRun(lookup, es[..n + 1], ss + [t])
  {
    hide Step, Enabled;
  }
}
