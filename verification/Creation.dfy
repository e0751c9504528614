/** The creation callback that `reconcileReplicas` hands to the slow start, as events of a ledger run, and
    what the slow start's count is worth then
    (internal/apps/fastpod-controller-manager/controller.go:479-601). */
module Creation {
  import opened Requests
  import opened PortBitmap
  import opened Ledger
  import opened LedgerSafety
  import opened LedgerRuns
  import opened Budget
  import opened Admission
  import opened History
  import opened SlowStart

  /** How the API server answers the creation of the pod. */
  datatype ApiAnswer = PodCreated | NamespaceTerminating | ApiError

  /** One call: the FaSTPod's annotations, the positions of its check and of its commit in the run, and
      the API server's answer.  Positions that it does not get to are of no account. */
  datatype Call = Call(annotations: Annotations, check: nat, commit: nat, answer: ApiAnswer)

  /** The switch over the error code, and what follows a grant. */
  function Answer(r: CommitResult, answer: ApiAnswer): CallResult {
    match r
    case Failed(code) => if code == 2 then Waiting else Errs
    case CommitPanics => Errs
    case Granted(_, _) =>
      match answer
      case PodCreated => Created
      case NamespaceTerminating => NoPod
      case ApiError => Errs
  }

  /** The request of a call, if it parses and validates. */
  function ValidRequest(a: Annotations): Option<Request> {
    var r := GetPodRequest(a);
    if r.Some? && ValidatePodRequest(r.value) then r else None
  }

  /** The call's check selected a GPU. */
  predicate Selects(ss: seq<State>, c: Call) {
    c.check + 1 < |ss| && ss[c.check + 1].pending.Some?
  }

  /** The call is part of the run: its check is, and if that selects, so is its commit, with its request
      pending all the while. */
  ghost predicate Happens(lookup: MpsLookup, es: seq<Event>, ss: seq<State>, c: Call)
    requires IsRun(lookup, es, ss)
  {
    var request := ValidRequest(c.annotations);
    request.Some? ==>
      && c.check < |es| && es[c.check].ScheduleEvent? && es[c.check].req == request.value
      && (Selects(ss, c) ==>
            && c.check < c.commit < |es| && es[c.commit].CommitEvent?
            && forall j :: c.check < j <= c.commit ==> ss[j].pending.Some?)
  }

  ghost function ResultOf(lookup: MpsLookup, es: seq<Event>, ss: seq<State>, c: Call): CallResult
    requires IsRun(lookup, es, ss) && Happens(lookup, es, ss, c)
  {
    if GetPodRequest(c.annotations).None? then Errs
    else if ValidRequest(c.annotations).None? then NoPod
    else if !Selects(ss, c) then Errs
    else Answer(CommitOutcome(lookup, ss[c.commit], es[c.commit].key, es[c.commit].pushOk), c.answer)
  }

  /** What a commit finds wrong: the record is gone, or a new FastPod's share no longer fits, or no port is left. */
  ghost predicate Refuses(s: State, key: string)
    requires s.pending.Some?
  {
    var p, l := s.pending.value, s.ledger;
    if !HasGpu(l, p.sel.node, p.sel.gpu) then true
    else
      var g := GpuAt(l, p.sel.node, p.sel.gpu);
      p.req.mode == FastPod && !InFast(g.fastPods, key) && (!ShareFits(p.req, g) || l.nodes[p.sel.node].ports.Full())
  }

  lemma OutcomeExactly(lookup: MpsLookup, es: seq<Event>, ss: seq<State>, i: nat)
    requires IsRun(lookup, es, ss) && i < |es| && es[i].CommitEvent? && ss[i].pending.Some?
    ensures var r := CommitOutcome(lookup, ss[i], es[i].key, es[i].pushOk);
            && (r.Granted? || r == Failed(3) || r == Failed(5))
            && (r.Granted? <==> !Refuses(ss[i], es[i].key))
  {
    CommitExactly(lookup, es, ss, i, es[i].key, es[i].pushOk);
    assert Step(lookup, ss[i], es[i]) == Some(ss[i + 1]);
    hide IsRun, InFast, ShareFits, Slots.Full, Commit;
  }

  /** How a call ends: never with "Waiting4Dummy", and with a pod exactly when its request is valid, its
      check selects a GPU, nothing refuses its commit, and the API server creates the pod. */
  lemma CreatedExactly(lookup: MpsLookup, es: seq<Event>, ss: seq<State>, c: Call)
    requires IsRun(lookup, es, ss) && Happens(lookup, es, ss, c)
    ensures var result := ResultOf(lookup, es, ss, c);
            && result != Waiting
            && (result == Created <==>
                  && ValidRequest(c.annotations).Some? && Selects(ss, c)
                  && !Refuses(ss[c.commit], es[c.commit].key) && c.answer == PodCreated)
            && (result == NoPod <==>
                  if ValidRequest(c.annotations).None? then GetPodRequest(c.annotations).Some?
                  else Selects(ss, c) && !Refuses(ss[c.commit], es[c.commit].key) && c.answer == NamespaceTerminating)
  {
    hide GetPodRequest, ValidatePodRequest, Refuses, CommitOutcome;
    if ValidRequest(c.annotations).Some? && Selects(ss, c) {
      OutcomeExactly(lookup, es, ss, c.commit);
    }
    hide IsRun;
  }

  /** The commit of the call is granted. */
  ghost predicate GrantedBy(lookup: MpsLookup, es: seq<Event>, ss: seq<State>, c: Call)
    requires IsRun(lookup, es, ss) && Happens(lookup, es, ss, c)
  {
    && ValidRequest(c.annotations).Some? && Selects(ss, c)
    && CommitOutcome(lookup, ss[c.commit], es[c.commit].key, es[c.commit].pushOk).Granted?
  }

  /** The pod that the call has reserved for. */
  ghost function ReservedFor(lookup: MpsLookup, es: seq<Event>, ss: seq<State>, c: Call): Pod
    requires IsRun(lookup, es, ss) && Happens(lookup, es, ss, c) && GrantedBy(lookup, es, ss, c)
  {
    PodFor(ss[c.commit].pending.value, CommitOutcome(lookup, ss[c.commit], es[c.commit].key, es[c.commit].pushOk),
           es[c.commit].key)
  }

  /** When the API server does not create the pod of a granted call, nothing takes the grant back: the call makes
      no pod, and in runs that remove only live pods its reservation is there for as long as no removal
      names a pod that does not exist. */
  lemma OrphanStays(lookup: MpsLookup, es: seq<Event>, ss: seq<State>, c: Call, i: nat)
    requires IsRun(lookup, es, ss) && Happens(lookup, es, ss, c) && GrantedBy(lookup, es, ss, c)
    requires c.answer != PodCreated && c.commit < i <= |es|
    requires forall j :: 0 <= j < i ==> RemovesLivePod(lookup, es, ss, j)
    requires forall j :: c.commit < j < i ==> !Removes(es[j], ReservedFor(lookup, es, ss, c))
    ensures ResultOf(lookup, es, ss, c) != Created
    ensures Reserved(ss[i].ledger, ReservedFor(lookup, es, ss, c))
  {
    CreatedExactly(lookup, es, ss, c);
    GrantStays(lookup, es, ss, c.commit, i);
    hide IsRun, Reserved, RemovesLivePod, CommitOutcome;
  }

  // ---------------------------------------------------------------- the whole slow start

  /** How many of the calls `lo .. hi` create a pod, or return neither a pod nor an error. */
  function Creations(fn: nat -> CallResult, lo: nat, hi: nat): nat
    requires lo <= hi
  {
    if lo == hi then 0 else Creations(fn, lo, hi - 1) + if fn(hi - 1) == Created then 1 else 0
  }

  function Blanks(fn: nat -> CallResult, lo: nat, hi: nat): nat
    requires lo <= hi
  {
    if lo == hi then 0 else Blanks(fn, lo, hi - 1) + if fn(hi - 1) == NoPod then 1 else 0
  }

  lemma {:induction false} CountsAddUp(fn: nat -> CallResult, lo: nat, hi: nat)
    requires lo <= hi
    ensures Creations(fn, lo, hi) + Blanks(fn, lo, hi) + Waits(fn, lo, hi) + Errors(fn, lo, hi) == hi - lo
  {
    if lo < hi { CountsAddUp(fn, lo, hi - 1); }
  }

  lemma {:induction false} NoneWaits(fn: nat -> CallResult, lo: nat, hi: nat)
    requires lo <= hi && forall k :: lo <= k < hi ==> fn(k) != Waiting
    ensures Waits(fn, lo, hi) == 0
  {
    if lo < hi { NoneWaits(fn, lo, hi - 1); }
  }

  lemma ReportWithoutWaits(count: int, initial: int, fn: nat -> CallResult)
    requires Waits(fn, 0, Total(BatchesFor(count, initial, fn))) == 0
    ensures var plan := BatchesFor(count, initial, fn);
            Reported(plan, 0, 0, fn) == Total(plan) - Errors(fn, 0, Total(plan))
  {
    var plan := BatchesFor(count, initial, fn);
    hide Errors, Waits, Reported, BatchesFor;
    ReportNeverExceedsSuccesses(count, initial, fn);
    if plan != [] {
      TotalFromLast(plan);
      hide Total;
      CountsSplit(fn, 0, Total(plan) - Last(plan), Total(plan));
    }
  }

  /** The calls of a slow start, one after the other, are all part of one run. */
  ghost predicate CallsHappen(
    lookup: MpsLookup, es: seq<Event>, ss: seq<State>, calls: seq<Call>, fn: nat -> CallResult)
    requires IsRun(lookup, es, ss)
  {
    forall k :: 0 <= k < |calls| ==> Happens(lookup, es, ss, calls[k]) && fn(k) == ResultOf(lookup, es, ss, calls[k])
  }

  /** With the controller's own callback the count is exact: no call waits, so the slow start reports the
      calls without an error, each of which created a pod or returned neither pod nor error. */
  lemma SlowStartCountsCreations(
    lookup: MpsLookup, es: seq<Event>, ss: seq<State>,
    calls: seq<Call>, count: int, initial: int, fn: nat -> CallResult)
    requires IsRun(lookup, es, ss) && CallsHappen(lookup, es, ss, calls, fn)
    requires |calls| == Total(BatchesFor(count, initial, fn))
    ensures Waits(fn, 0, |calls|) == 0
    ensures var reported := Reported(BatchesFor(count, initial, fn), 0, 0, fn);
            && reported == |calls| - Errors(fn, 0, |calls|) == Creations(fn, 0, |calls|) + Blanks(fn, 0, |calls|)
            && (reported == Creations(fn, 0, |calls|) <==> Blanks(fn, 0, |calls|) == 0)
  {
    forall k | 0 <= k < |calls|
      ensures fn(k) != Waiting
    {
      CreatedExactly(lookup, es, ss, calls[k]);
      hide IsRun, Happens, ResultOf, Refuses;
    }
    hide IsRun, CallsHappen, Errors, Waits, Creations, Blanks, Reported, BatchesFor, Total;
    NoneWaits(fn, 0, |calls|);
    CountsAddUp(fn, 0, |calls|);
    ReportWithoutWaits(count, initial, fn);
  }

  lemma {:induction false} AllBlank(fn: nat -> CallResult, lo: nat, hi: nat)
    requires lo <= hi && forall k :: lo <= k < hi ==> fn(k) == NoPod
    ensures Blanks(fn, lo, hi) == hi - lo
  {
    if lo < hi { AllBlank(fn, lo, hi - 1); }
  }

  /** A FaSTPod whose request parses and is invalid: every call of its slow start is counted, none creates
      a pod, and all the expected creations stay outstanding. */
  lemma InvalidCountsAsCreated(
    lookup: MpsLookup, es: seq<Event>, ss: seq<State>,
    calls: seq<Call>, count: nat, initial: int, fn: nat -> CallResult)
    requires IsRun(lookup, es, ss) && CallsHappen(lookup, es, ss, calls, fn)
    requires |calls| == Total(BatchesFor(count, initial, fn)) && initial > 0
    requires forall k :: 0 <= k < |calls| ==>
               GetPodRequest(calls[k].annotations).Some? && ValidRequest(calls[k].annotations).None?
    ensures Creations(fn, 0, |calls|) == 0 && |calls| == count
    ensures Reported(BatchesFor(count, initial, fn), 0, 0, fn) == count
  {
    assert forall k :: 0 <= k < |calls| ==> fn(k) == NoPod;
    SlowStartCountsCreations(lookup, es, ss, calls, count, initial, fn);
    hide IsRun, CallsHappen;
    AllBlank(fn, 0, |calls|);
    CountsAddUp(fn, 0, |calls|);
    CallsOfSlowStart(count, initial, fn);
    hide Errors, Waits, Reported, Last, Total;
  }
}
