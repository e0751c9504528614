/** Pod requests: how a FaSTPod's annotations become a request and what validation lets through
    (internal/apps/fastpod-controller-manager/new_pod.go). */
module Requests {

  datatype Option<+T> = None | Some(value: T)

  const MIN_INT64: int := -0x8000_0000_0000_0000
  const MAX_INT64: int := 0x7fff_ffff_ffff_ffff

  type int64 = x: int | MIN_INT64 <= x <= MAX_INT64
  type uint64 = x: int | 0 <= x < 0x1_0000_0000_0000_0000

  /** Two's-complement wrap-around of 64-bit signed arithmetic and conversions. */
  function Wrap64(x: int): (r: int64)
    ensures (x - r) % 0x1_0000_0000_0000_0000 == 0
    ensures MIN_INT64 <= x <= MAX_INT64 ==> r == x
  {
    (x - MIN_INT64) % 0x1_0000_0000_0000_0000 + MIN_INT64
  }

  datatype Mode = NoMode | Exclusive | Mps | FastPod

  /** The compute share of a FASTPOD request: a time quota on an SM partition in percent. */
  datatype Share = Share(quotaReq: real, quotaLimit: real, smPartition: int)

  /** The fraction of a GPU that a share takes out of the `Usage` budget of 1. */
  function Contribution(quota: real, smPartition: int): real {
    quota * (smPartition as real / 100.0)
  }

  datatype Request = Request(
    mode: Mode,
    node: Option<string>,
    gpu: Option<string>,
    smRequest: Option<int>,
    smPercentage: Option<int>,
    memory: int64,
    fast: Option<Share>)

  /** What a string-to-number conversion returns: a value, and whether it succeeded. */
  datatype Parsed<T> = Parsed(value: T, ok: bool)

  datatype Annotations = Annotations(
    mode: Mode,
    node: string,
    gpu: string,
    memory: Parsed<int64>,
    quotaReq: Parsed<real>,
    quotaLimit: Parsed<real>,
    smPartition: Parsed<int>,
    smValue: Parsed<int>)

  function NonEmpty(s: string): Option<string> {
    if |s| > 0 then Some(s) else None
  }

  function GetPodRequest(a: Annotations): Option<Request> {
    if !a.memory.ok then None
    else
      var base := Request(a.mode, NonEmpty(a.node), NonEmpty(a.gpu), None, None, a.memory.value, None);
      match a.mode
      case FastPod =>
        if !a.quotaReq.ok || !a.quotaLimit.ok || !a.smPartition.ok then None
        else Some(base.(
                  fast := Some(Share(a.quotaReq.value, a.quotaLimit.value, a.smPartition.value)),
                  smPercentage := Some(a.smPartition.value)))
      case Exclusive =>
        if !a.smValue.ok && !a.smPartition.ok then None
        else if a.smValue.value > 0 then Some(base.(smRequest := Some(a.smValue.value)))
        else Some(base.(smPercentage := Some(a.smPartition.value)))
      case _ => Some(base)
  }

  predicate ValidatePodRequest(r: Request) {
    && r.mode != NoMode
    && (r.fast.Some? ==>
          && 0.0 <= r.fast.value.quotaLimit <= 1.0
          && 0.0 <= r.fast.value.quotaReq <= 1.0
          && 0 <= r.fast.value.smPartition <= 100)
    && (r.mode == Exclusive ==>
          && (r.smRequest.Some? || r.smPercentage.Some?)
          && (r.smRequest.Some? ==> r.smRequest.value > 0)
          && (r.smPercentage.Some? ==> 0 <= r.smPercentage.value <= 100))
    && r.memory >= 0
  }

  /** The requests that reach the scheduler: built from annotations, then validated. */
  ghost predicate Admissible(r: Request) {
    && ValidatePodRequest(r)
    && exists a: Annotations :: GetPodRequest(a) == Some(r)
  }

  /** The requests that parsing can produce. */
  predicate Parsable(r: Request) {
    && (r.node.Some? ==> |r.node.value| > 0) && (r.gpu.Some? ==> |r.gpu.value| > 0)
    && match r.mode
       case FastPod => r.fast.Some? && r.smPercentage == Some(r.fast.value.smPartition) && r.smRequest.None?
       case Exclusive =>
         && r.fast.None?
         && if r.smRequest.Some? then r.smRequest.value > 0 && r.smPercentage.None? else r.smPercentage.Some?
       case _ => r.fast.None? && r.smPercentage.None? && r.smRequest.None?
  }

  /** The annotations that ask for a given request. */
  function Annotate(r: Request): Annotations {
    var share := if r.fast.Some? then r.fast.value else Share(0.0, 0.0, 0);
    Annotations(
      r.mode,
      if r.node.Some? then r.node.value else "",
      if r.gpu.Some? then r.gpu.value else "",
      Parsed(r.memory, true),
      Parsed(share.quotaReq, r.fast.Some?),
      Parsed(share.quotaLimit, r.fast.Some?),
      Parsed(if r.smPercentage.Some? then r.smPercentage.value else 0, r.smPercentage.Some?),
      Parsed(if r.smRequest.Some? then r.smRequest.value else 0, r.smRequest.Some?))
  }

  /** Parsing undoes annotating, and parses into nothing else: the requests that reach the scheduler
      are exactly the valid ones of that form. */
  lemma AdmissibleExactly(r: Request)
    ensures Parsable(r) ==> GetPodRequest(Annotate(r)) == Some(r)
    ensures Admissible(r) <==> ValidatePodRequest(r) && Parsable(r)
  {}

  predicate InUnit(x: real) { 0.0 <= x <= 1.0 }

  /** Which annotations parse: the memory must, and for FASTPOD the three share values, for EXCLUSIVE one of the two
      SM values.  What they parse into: empty names are absent, and an EXCLUSIVE pod with a positive SM count is
      asked for by that count, any other by its percentage. */
  lemma ParsesExactly(a: Annotations)
    ensures GetPodRequest(a).Some? <==>
              && a.memory.ok
              && (a.mode == FastPod ==> a.quotaReq.ok && a.quotaLimit.ok && a.smPartition.ok)
              && (a.mode == Exclusive ==> a.smValue.ok || a.smPartition.ok)
    ensures GetPodRequest(a).Some? ==>
              var r := GetPodRequest(a).value;
              var count := a.mode == Exclusive && a.smValue.value > 0;
              && r.mode == a.mode && r.memory == a.memory.value
              && (r.node == if a.node == "" then None else Some(a.node))
              && (r.gpu == if a.gpu == "" then None else Some(a.gpu))
              && (r.fast ==
                    if a.mode == FastPod then Some(Share(a.quotaReq.value, a.quotaLimit.value, a.smPartition.value))
                    else None)
              && (r.smRequest == if count then Some(a.smValue.value) else None)
              && (r.smPercentage ==
                    if a.mode == FastPod || (a.mode == Exclusive && !count) then Some(a.smPartition.value) else None)
  {}

  /** Which parsed requests are valid: those with a mode and no negative memory, whose quotas lie in [0, 1] and whose
      percentages lie in [0, 100]. */
  lemma ValidExactly(r: Request)
    requires Parsable(r)
    ensures ValidatePodRequest(r) <==>
              && r.mode != NoMode && r.memory >= 0
              && (r.mode == FastPod ==> InUnit(r.fast.value.quotaReq) && InUnit(r.fast.value.quotaLimit))
              && (r.smPercentage.Some? ==> 0 <= r.smPercentage.value <= 100)
  {}

  /** What the rest of the controller relies on: a FASTPOD request carries a share whose
      contribution lies in [0, 1], and an EXCLUSIVE request fixes exactly one SM bound. */
  lemma AdmissibleShape(r: Request)
    requires Admissible(r)
    ensures r.mode != NoMode && r.memory >= 0
    ensures r.fast.Some? <==> r.mode == FastPod
    ensures r.mode == FastPod ==> 0.0 <= Contribution(r.fast.value.quotaReq, r.fast.value.smPartition) <= 1.0
    ensures r.mode == Exclusive ==> (r.smRequest.Some? <==> r.smPercentage.None?)
  {
    AdmissibleExactly(r);
    if r.mode == FastPod {
      ShareInUnit(r.fast.value.quotaReq, r.fast.value.smPartition as real / 100.0);
    }
  }

  lemma ShareInUnit(x: real, y: real)
    requires 0.0 <= x <= 1.0 && 0.0 <= y <= 1.0
    ensures 0.0 <= x * y <= 1.0
  {
    ProductNonNegative(x, y);
    ProductNonNegative(1.0 - x, y);
    assert (1.0 - x) * y == y - x * y;
  }

  lemma ProductNonNegative(x: real, y: real)
    requires 0.0 <= x && 0.0 <= y
    ensures 0.0 <= x * y
  {
    if x != 0.0 && y != 0.0 {
      assert x * y > 0.0;
    }
  }

  /** An EXCLUSIVE FaSTPod that asks for a positive SM count always passes parsing and validation,
      and always without the SM percentage that the scheduler goes on to dereference. */
  lemma SmCountLosesPercentage(a: Annotations)
    requires a.mode == Exclusive && a.memory.ok && a.memory.value >= 0 && a.smValue.value > 0 && a.smValue.ok
    ensures GetPodRequest(a).Some? && Admissible(GetPodRequest(a).value)
    ensures GetPodRequest(a).value.smPercentage.None? && GetPodRequest(a).value.smRequest == Some(a.smValue.value)
  {
    assert GetPodRequest(a) == Some(GetPodRequest(a).value);
  }
}
