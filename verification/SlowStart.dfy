/** Slow-start batching and the creation accounting of `reconcileReplicas`
    (internal/apps/fastpod-controller-manager/controller.go:473-612, 729-765). */
module SlowStart {
  import opened PowersOfTwo

  /** What one call of the creation function returns: a pod, no pod and no error, the
      "Waiting4Dummy" error, or any other error. */
  datatype CallResult = Created | NoPod | Waiting | Errs

  datatype Outcome = Ok | CallFailed | StillWaiting

  function Min(a: int, b: int): int { if a <= b then a else b }

  /** How many of the calls `lo .. hi` err, or wait. */
  function Errors(fn: nat -> CallResult, lo: nat, hi: nat): (n: nat)
    requires lo <= hi
    ensures n <= hi - lo
  {
    if lo == hi then 0 else Errors(fn, lo, hi - 1) + if fn(hi - 1) == Errs then 1 else 0
  }

  function Waits(fn: nat -> CallResult, lo: nat, hi: nat): (n: nat)
    requires lo <= hi
    ensures n + Errors(fn, lo, hi) <= hi - lo
  {
    if lo == hi then 0 else Waits(fn, lo, hi - 1) + if fn(hi - 1) == Waiting then 1 else 0
  }

  lemma {:induction false} CountsSplit(fn: nat -> CallResult, lo: nat, mid: nat, hi: nat)
    requires lo <= mid <= hi
    ensures Errors(fn, lo, hi) == Errors(fn, lo, mid) + Errors(fn, mid, hi)
    ensures Waits(fn, lo, hi) == Waits(fn, lo, mid) + Waits(fn, mid, hi)
  {
    if mid < hi { CountsSplit(fn, lo, mid, hi - 1); }
  }

  lemma NoCalls(fn: nat -> CallResult, at: nat)
    ensures Errors(fn, at, at) == 0 && Waits(fn, at, at) == 0
  {}

  lemma OneMoreCall(fn: nat -> CallResult, lo: nat, hi: nat)
    requires lo <= hi
    ensures Errors(fn, lo, hi + 1) == Errors(fn, lo, hi) + if fn(hi) == Errs then 1 else 0
    ensures Waits(fn, lo, hi + 1) == Waits(fn, lo, hi) + if fn(hi) == Waiting then 1 else 0
  {}

  // ---------------------------------------------------------------- the batches that run

  /** The sizes of the batches that run: each doubles, none exceeds what remains, and a batch with an
      error is the last. */
  function Batches(remaining: int, size: int, from: nat, fn: nat -> CallResult): (plan: seq<nat>)
    requires size <= remaining
    ensures Total(plan) <= if remaining > 0 then remaining else 0
    decreases remaining
  {
    if size <= 0 then []
    else if Errors(fn, from, from + size) > 0 then [size]
    else [size] + Batches(remaining - size, Min(2 * size, remaining - size), from + size, fn)
  }

  function Total(plan: seq<nat>): (n: nat)
  {
    if plan == [] then 0 else plan[0] + Total(plan[1..])
  }

  /** What the loop reports: for each batch its size, less its errors, less all waits so far. */
  function Reported(plan: seq<nat>, from: nat, waits: nat, fn: nat -> CallResult): int {
    if plan == [] then 0
    else
      var end := from + plan[0];
      var w := waits + Waits(fn, from, end);
      plan[0] - Errors(fn, from, end) - w + Reported(plan[1..], end, w, fn)
  }

  function BatchesFor(count: int, initial: int, fn: nat -> CallResult): seq<nat> {
    Batches(count, Min(count, initial), 0, fn)
  }

  function AfterFirst(remaining: int, size: int, from: nat, fn: nat -> CallResult): seq<nat>
    requires 0 < size <= remaining
  {
    if Errors(fn, from, from + size) > 0 then []
    else Batches(remaining - size, Min(2 * size, remaining - size), from + size, fn)
  }

  /** The first batch, and what it leaves to the rest of the plan. */
  lemma FirstBatch(remaining: int, size: int, from: nat, fn: nat -> CallResult, waits: nat)
    requires 0 < size <= remaining
    ensures var plan := Batches(remaining, size, from, fn);
            var rest := AfterFirst(remaining, size, from, fn);
            var w := waits + Waits(fn, from, from + size);
            && plan == [size] + rest && plan[1..] == rest
            && Total(plan) == size + Total(rest)
            && Reported(plan, from, waits, fn) ==
                 size - Errors(fn, from, from + size) - w + Reported(rest, from + size, w, fn)
  {
    hide Errors, Waits;
    var rest := AfterFirst(remaining, size, from, fn);
    assert Batches(remaining, size, from, fn) == [size] + rest;
    hide Batches, AfterFirst;
    Cons(size, rest, from, waits, fn);
  }

  lemma Cons(size: nat, rest: seq<nat>, from: nat, waits: nat, fn: nat -> CallResult)
    ensures var plan := [size] + rest;
            var w := waits + Waits(fn, from, from + size);
            && plan[1..] == rest && Total(plan) == size + Total(rest)
            && Reported(plan, from, waits, fn) ==
                 size - Errors(fn, from, from + size) - w + Reported(rest, from + size, w, fn)
  {
    hide Errors, Waits;
    assert ([size] + rest)[1..] == rest;
  }

  lemma NothingLeft(from: nat, waits: nat, fn: nat -> CallResult)
    ensures Total([]) == 0 && Reported([], from, waits, fn) == 0
  {}

  lemma PlanIsOver(remaining: int, size: int, from: nat, fn: nat -> CallResult)
    requires size <= 0 && size <= remaining
    ensures Batches(remaining, size, from, fn) == []
  {}

  method SlowStartBatch(count: int, initial: int, fn: nat -> CallResult) returns (successes: int, outcome: Outcome)
    ensures successes == Reported(BatchesFor(count, initial, fn), 0, 0, fn)
    ensures var calls := Total(BatchesFor(count, initial, fn));
            outcome == if Errors(fn, 0, calls) > 0 then CallFailed
                       else if Waits(fn, 0, calls) > 0 then StillWaiting else Ok
  {
    hide Errors, Waits, Batches, Reported, Total;
    var remaining, need2wait, calls := count, 0, 0;
    successes := 0;
    NoCalls(fn, 0);
    ghost var plan := BatchesFor(count, initial, fn);
    var batchSize := Min(remaining, initial);
    while batchSize > 0
      invariant batchSize <= remaining && calls >= 0
      invariant need2wait == Waits(fn, 0, calls) && Errors(fn, 0, calls) == 0
      invariant var rest := Batches(remaining, batchSize, calls, fn);
                && Total(plan) == calls + Total(rest)
                && Reported(plan, 0, 0, fn) == successes + Reported(rest, calls, need2wait, fn)
      decreases remaining
    {
      var errs := 0;
      var start := calls;
      NoCalls(fn, start);
      for i := 0 to batchSize
        invariant calls == start + i
        invariant errs == Errors(fn, start, calls)
        invariant need2wait == Waits(fn, 0, start) + Waits(fn, start, calls)
      {
        OneMoreCall(fn, start, calls);
        match fn(calls) {
          case Errs => errs := errs + 1;
          case Waiting => need2wait := need2wait + 1;
          case _ =>
        }
        calls := calls + 1;
      }
      CountsSplit(fn, 0, start, calls);
      FirstBatch(remaining, batchSize, start, fn, Waits(fn, 0, start));
      var curSuccesses := batchSize - errs - need2wait;
      successes := successes + curSuccesses;
      if errs > 0 {
        NothingLeft(calls, need2wait, fn);
        return successes, CallFailed;
      }
      remaining := remaining - batchSize;
      batchSize := Min(2 * batchSize, remaining);
    }
    NothingLeft(calls, need2wait, fn);
    PlanIsOver(remaining, batchSize, calls, fn);
    outcome := if need2wait > 0 then StillWaiting else Ok;
  }

  // ---------------------------------------------------------------- how many calls

  /** If no call errs, exactly `count` calls are made. */
  lemma {:induction false} AllCallsMade(remaining: int, size: int, from: nat, fn: nat -> CallResult)
    requires size <= remaining && (remaining > 0 ==> size > 0)
    requires Errors(fn, from, from + Total(Batches(remaining, size, from, fn))) == 0
    ensures Total(Batches(remaining, size, from, fn)) == if remaining > 0 then remaining else 0
    decreases remaining
  {
    hide Errors, Waits;
    if size > 0 {
      var plan := Batches(remaining, size, from, fn);
      CountsSplit(fn, from, from + size, from + Total(plan));
      assert plan[1..] == Batches(remaining - size, Min(2 * size, remaining - size), from + size, fn);
      AllCallsMade(remaining - size, Min(2 * size, remaining - size), from + size, fn);
    }
  }

  function Last(plan: seq<nat>): nat
    requires plan != []
  {
    plan[|plan| - 1]
  }

  lemma {:induction false} TotalFromLast(plan: seq<nat>)
    requires plan != []
    ensures Last(plan) <= Total(plan)
    ensures |plan| > 1 ==> Last(plan) == Last(plan[1..])
  {
    if |plan| > 1 { TotalFromLast(plan[1..]); }
  }

  /** The batch that stops the loop is no larger than all earlier batches and the first one together. */
  lemma {:induction false} LastBatchBounded(remaining: int, size: int, from: nat, fn: nat -> CallResult)
    requires 0 < size <= remaining
    ensures var plan := Batches(remaining, size, from, fn);
            plan != [] && Last(plan) <= Total(plan) - Last(plan) + size
    decreases remaining
  {
    hide Errors, Waits;
    var plan := Batches(remaining, size, from, fn);
    TotalFromLast(plan);
    if |plan| > 1 {
      var next := Min(2 * size, remaining - size);
      FirstBatch(remaining, size, from, fn, 0);
      hide Batches, Total, Reported;
      LastBatchBounded(remaining - size, next, from + size, fn);
    }
  }

  /** Only the last batch can hold an error. */
  lemma {:induction false} ErrorsAreLast(remaining: int, size: int, from: nat, fn: nat -> CallResult)
    requires 0 < size <= remaining
    ensures var plan := Batches(remaining, size, from, fn);
            plan != [] && Last(plan) <= Total(plan) && Errors(fn, from, from + Total(plan) - Last(plan)) == 0
    decreases remaining
  {
    hide Errors, Waits;
    var plan := Batches(remaining, size, from, fn);
    TotalFromLast(plan);
    NoCalls(fn, from);
    if |plan| > 1 {
      var next := Min(2 * size, remaining - size);
      FirstBatch(remaining, size, from, fn, 0);
      hide Batches, Total, Reported;
      ErrorsAreLast(remaining - size, next, from + size, fn);
      CountsSplit(fn, from, from + size, from + Total(plan) - Last(plan));
    }
  }

  /** The calls of a slow start: never more than asked for, all of them if none errs, errors in the
      last batch only, and that batch at most the earlier calls plus the initial batch size. */
  lemma CallsOfSlowStart(count: int, initial: int, fn: nat -> CallResult)
    ensures var plan := BatchesFor(count, initial, fn);
            var calls := Total(plan);
            && calls <= (if count > 0 then count else 0)
            && (Errors(fn, 0, calls) == 0 && count > 0 && initial > 0 ==> calls == count)
            && (plan != [] ==>
                  && Last(plan) <= calls && Last(plan) <= calls - Last(plan) + initial
                  && Errors(fn, 0, calls - Last(plan)) == 0)
  {
    hide Errors, Waits;
    var size := Min(count, initial);
    var plan := BatchesFor(count, initial, fn);
    if size > 0 {
      if Errors(fn, 0, Total(plan)) == 0 { AllCallsMade(count, size, 0, fn); }
      LastBatchBounded(count, size, 0, fn);
      ErrorsAreLast(count, size, 0, fn);
    }
  }

  /** Every batch but the last is the initial size doubled once per batch before it, and the last is
      no larger than that. */
  lemma {:induction false} BatchesDouble(remaining: int, size: int, from: nat, fn: nat -> CallResult, i: nat)
    requires 0 < size <= remaining && i < |Batches(remaining, size, from, fn)|
    ensures var plan := Batches(remaining, size, from, fn);
            plan[i] <= size * Pow2(i) && (i < |plan| - 1 ==> plan[i] == size * Pow2(i))
    decreases remaining
  {
    hide Errors, Waits, Total, Reported, Batches;
    FirstBatch(remaining, size, from, fn, 0);
    var plan := Batches(remaining, size, from, fn);
    if i > 0 {
      var next := Min(2 * size, remaining - size);
      var rest := AfterFirst(remaining, size, from, fn);
      assert plan[i] == rest[i - 1] && rest == Batches(remaining - size, next, from + size, fn);
      hide AfterFirst;
      if next <= 0 { PlanIsOver(remaining - size, next, from + size, fn); }
      BatchesDouble(remaining - size, next, from + size, fn, i - 1);
      if next < 2 * size { LastTakesAll(remaining - size, from + size, fn); }
      DoubleSize(size, i, next);
    }
  }

  /** A batch that takes all that remains is the last. */
  lemma LastTakesAll(remaining: int, from: nat, fn: nat -> CallResult)
    requires remaining > 0
    ensures |Batches(remaining, remaining, from, fn)| == 1
  {
    hide Errors;
  }

  lemma DoubleSize(size: int, i: nat, next: int)
    requires i > 0 && size > 0 && 0 <= next <= 2 * size
    ensures next * Pow2(i - 1) <= size * Pow2(i)
    ensures next == 2 * size ==> next * Pow2(i - 1) == size * Pow2(i)
  {
    var p := Pow2(i - 1);
    assert size * Pow2(i) == (2 * size) * p;
    assert (2 * size - next) * p >= 0;
  }

  // ---------------------------------------------------------------- what is reported

  /** The waits counted again in every batch that follows them. */
  function CumulativeWaits(plan: seq<nat>, from: nat, waits: nat, fn: nat -> CallResult): nat {
    if plan == [] then 0
    else
      var w := waits + Waits(fn, from, from + plan[0]);
      w + CumulativeWaits(plan[1..], from + plan[0], w, fn)
  }

  lemma {:induction false} ReportedIs(plan: seq<nat>, from: nat, waits: nat, fn: nat -> CallResult)
    ensures Reported(plan, from, waits, fn)
            == Total(plan) - Errors(fn, from, from + Total(plan)) - CumulativeWaits(plan, from, waits, fn)
  {
    hide Errors, Waits;
    NoCalls(fn, from);
    if plan != [] {
      var end := from + plan[0];
      ReportedIs(plan[1..], end, waits + Waits(fn, from, end), fn);
      CountsSplit(fn, from, end, from + Total(plan));
    }
  }

  lemma {:induction false} CumulativeAtLeast(plan: seq<nat>, from: nat, waits: nat, fn: nat -> CallResult)
    requires plan != []
    ensures Last(plan) <= Total(plan)
    ensures CumulativeWaits(plan, from, waits, fn) >= waits + Waits(fn, from, from + Total(plan))
    ensures CumulativeWaits(plan, from, waits, fn) == waits + Waits(fn, from, from + Total(plan))
            <==> |plan| == 1 || waits + Waits(fn, from, from + Total(plan) - Last(plan)) == 0
  {
    hide Errors, Waits;
    NoCalls(fn, from);
    TotalFromLast(plan);
    var end := from + plan[0];
    var w := waits + Waits(fn, from, end);
    if |plan| == 1 {
      assert plan[1..] == [];
    } else {
      CumulativeAtLeast(plan[1..], end, w, fn);
      CountsSplit(fn, from, end, from + Total(plan));
      CountsSplit(fn, from, end, from + Total(plan) - Last(plan));
    }
  }

  /** The returned count never exceeds the calls that neither erred nor waited, and equals them
      exactly when no call of an earlier batch waited. */
  lemma ReportNeverExceedsSuccesses(count: int, initial: int, fn: nat -> CallResult)
    ensures var plan := BatchesFor(count, initial, fn);
            var calls := Total(plan);
            var reported := Reported(plan, 0, 0, fn);
            var succeeded := calls - Errors(fn, 0, calls) - Waits(fn, 0, calls);
            && reported == calls - Errors(fn, 0, calls) - CumulativeWaits(plan, 0, 0, fn)
            && reported <= succeeded
            && (reported == succeeded <==> plan == [] || (Last(plan) <= calls && Waits(fn, 0, calls - Last(plan)) == 0))
  {
    hide Errors, Waits, BatchesFor;
    var plan := BatchesFor(count, initial, fn);
    ReportedIs(plan, 0, 0, fn);
    NoCalls(fn, 0);
    if plan != [] {
      CumulativeAtLeast(plan, 0, 0, fn);
      if |plan| == 1 { assert Total(plan) == Last(plan); }
    }
  }

  /** Of the loop alone: three calls that all wait are reported as minus one success. */
  lemma ReportCanBeNegative()
    ensures var fn := (i: nat) => Waiting;
            BatchesFor(3, 1, fn) == [1, 2] && Reported(BatchesFor(3, 1, fn), 0, 0, fn) == -1
  {
    var fn := (i: nat) => Waiting;
    assert Errors(fn, 0, 1) == 0 && Waits(fn, 0, 1) == 1;
    assert Errors(fn, 1, 2) == 0 && Errors(fn, 1, 3) == 0 && Waits(fn, 1, 2) == 1 && Waits(fn, 1, 3) == 2;
    assert Batches(2, 2, 1, fn) == [2] + Batches(0, 0, 3, fn);
    assert Reported([2], 1, 1, fn) == 2 - 3 + Reported([2][1..], 3, 3, fn);
    assert [1, 2][1..] == [2];
  }

  /** The creation half of `reconcileReplicas`: `ExpectCreations` sets the expectation to `diff`, whatever
      it was; then the slow start runs, and one creation is observed for each pod that was skipped.
      What stays expected is the reported count. */
  method CreateMissing(diff: nat, initial: int, fn: nat -> CallResult) returns (outstanding: int, outcome: Outcome)
    ensures outstanding == Reported(BatchesFor(diff, initial, fn), 0, 0, fn)
    ensures outstanding <= diff
    ensures var calls := Total(BatchesFor(diff, initial, fn));
            outcome == if Errors(fn, 0, calls) > 0 then CallFailed
                       else if Waits(fn, 0, calls) > 0 then StillWaiting else Ok
  {
    outstanding := diff;
    var succeeded;
    succeeded, outcome := SlowStartBatch(diff, initial, fn);
    ReportNeverExceedsSuccesses(diff, initial, fn);
    CallsOfSlowStart(diff, initial, fn);
    hide Errors, Waits, Reported, BatchesFor, Total;
    var skipped := diff - succeeded;
    if skipped > 0 {
      for i := 0 to skipped
        invariant outstanding == diff - i
      {
        outstanding := outstanding - 1;
      }
    }
  }
}
