/** Lexicographic order on integer sequences: a strict total order. */
module LexOrder {

  predicate LexLess(a: seq<int>, b: seq<int>) {
    b != [] && (a == [] || a[0] < b[0] || (a[0] == b[0] && LexLess(a[1..], b[1..])))
  }

  lemma {:induction false} LexIrreflexive(a: seq<int>)
    ensures !LexLess(a, a)
  {
    if a != [] { LexIrreflexive(a[1..]); }
  }

  lemma {:induction false} LexAsymmetric(a: seq<int>, b: seq<int>)
    ensures !(LexLess(a, b) && LexLess(b, a))
  {
    if a != [] && b != [] { LexAsymmetric(a[1..], b[1..]); }
  }

  lemma {:induction false} LexTransitive(a: seq<int>, b: seq<int>, c: seq<int>)
    requires LexLess(a, b) && LexLess(b, c)
    ensures LexLess(a, c)
  {
    if a != [] && a[0] == b[0] == c[0] {
      LexTransitive(a[1..], b[1..], c[1..]);
    }
  }

  lemma {:induction false} LexTotal(a: seq<int>, b: seq<int>)
    ensures LexLess(a, b) || a == b || LexLess(b, a)
  {
    if a != [] && b != [] && a[0] == b[0] {
      LexTotal(a[1..], b[1..]);
      assert a[1..] == b[1..] ==> a == [a[0]] + a[1..] == b;
    }
  }

  /** A strict order whose incomparability is transitive too. */
  lemma LexWeak(a: seq<int>, b: seq<int>, c: seq<int>)
    requires LexLess(a, c)
    ensures LexLess(a, b) || LexLess(b, c)
  {
    LexTotal(a, b);
    if LexLess(b, a) { LexTransitive(b, a, c); }
  }

  lemma LexPrefix(p: seq<int>, a: seq<int>, b: seq<int>)
    ensures LexLess(p + a, p + b) <==> LexLess(a, b)
  {
    if p == [] {
      assert p + a == a && p + b == b;
    } else {
      LexPrefix(p[1..], a, b);
      assert (p + a)[1..] == p[1..] + a && (p + b)[1..] == p[1..] + b;
    }
  }
}

/** Which pod a scale-down prefers to delete: the eight-rule comparator
    (internal/apps/fastpod-controller-manager/controller_util.go:106-212). */
module VictimOrder {
  import opened LexOrder
  import opened PowersOfTwo

  datatype Time = Zero | At(ns: int)

  datatype Phase = Pending | Unknown | Running | Succeeded | Failed

  datatype PodInfo = PodInfo(
    nodeName: string, phase: Phase, deleting: bool, ready: bool, readyTime: Time,
    cost: int, restarts: int, created: Time, uid: string)

  /** A pod with its rank, the two parallel slices of `ActivePodsWithRanks`. */
  datatype Ranked = Ranked(pod: PodInfo, rank: int)

  /** The feature gates the comparator consults, and its reference time. */
  datatype Policy = Policy(deletionCost: bool, logScale: bool, now: Time)

  /** Phases that the ordinal map does not list read as 0. */
  function Ordinal(p: Phase): int {
    match p
    case Unknown => 1
    case Running => 2
    case _ => 0
  }

  predicate AfterOrZero(t1: Time, t2: Time) {
    if t1.Zero? || t2.Zero? then t1.Zero? else t1.ns > t2.ns
  }

  function Codes(s: string): seq<int> {
    seq(|s|, i requires 0 <= i < |s| => s[i] as int)
  }

  predicate StringLess(s: string, t: string) {
    LexLess(Codes(s), Codes(t))
  }

  const MAX_DURATION: int := 0x7fff_ffff_ffff_ffff

  /** `now.Sub(t)`, which saturates; only positive durations matter below. */
  function Age(now: int, t: int): int {
    if now - t > MAX_DURATION then MAX_DURATION else now - t
  }

  function FloorLog2(d: int): (r: int)
    requires d >= 1
    ensures r >= 0 && Pow2(r) <= d < Pow2(r + 1)
  {
    if d < 2 then 0 else 1 + FloorLog2(d / 2)
  }

  /** The logarithmic age bucket of a time. */
  function Bucket(now: int, t: int): int {
    var d := Age(now, t);
    if d > 0 then FloorLog2(d) else -1
  }

  /** A bucket holds the ages from one power of two to the next; times that are not past come before all. */
  lemma BucketExactly(now: int, t: int)
    ensures now <= t ==> Bucket(now, t) == -1
    ensures now > t ==>
              && Bucket(now, t) >= 0
              && var age := if now - t <= MAX_DURATION then now - t else MAX_DURATION;
                 Pow2(Bucket(now, t)) <= age < Pow2(Bucket(now, t) + 1)
  {}

  predicate TimeLess(p: Policy, t1: Time, t2: Time, uid1: string, uid2: string) {
    if !p.logScale || p.now.Zero? || t1.Zero? || t2.Zero? then AfterOrZero(t1, t2)
    else
      var diff := Bucket(p.now.ns, t1.ns) - Bucket(p.now.ns, t2.ns);
      if diff == 0 then StringLess(uid1, uid2) else diff < 0
  }

  predicate Less(p: Policy, x: Ranked, y: Ranked) {
    var a, b := x.pod, y.pod;
    if a.nodeName != b.nodeName && (a.nodeName == "" || b.nodeName == "") then a.nodeName == ""
    else if Ordinal(a.phase) != Ordinal(b.phase) then Ordinal(a.phase) < Ordinal(b.phase)
    else if a.ready != b.ready then !a.ready
    else if p.deletionCost && a.cost != b.cost then a.cost < b.cost
    else if x.rank != y.rank then x.rank > y.rank
    else if a.ready && b.ready && a.readyTime != b.readyTime then TimeLess(p, a.readyTime, b.readyTime, a.uid, b.uid)
    else if a.restarts != b.restarts then a.restarts > b.restarts
    else if a.created != b.created then TimeLess(p, a.created, b.created, a.uid, b.uid)
    else false
  }

  // ---------------------------------------------------------------- what a reader of the rules expects

  /** Rule 2 as it is documented: pending before unknown before running.  Finished pods count as pending. */
  predicate EarlierPhase(a: Phase, b: Phase) {
    match b
    case Running => a != Running
    case Unknown => a != Unknown && a != Running
    case _ => false
  }

  /** Rules 1 to 3: unassigned before assigned, then the earlier phase, then not ready before ready. */
  predicate GoesFirst(a: PodInfo, b: PodInfo) {
    if (a.nodeName == "") != (b.nodeName == "") then a.nodeName == ""
    else EarlierPhase(a.phase, b.phase) || (!EarlierPhase(b.phase, a.phase) && !a.ready && b.ready)
  }

  /** Whatever the gates, times and ranks, the comparator agrees with the first three rules. */
  lemma FirstRules(p: Policy, x: Ranked, y: Ranked)
    requires GoesFirst(x.pod, y.pod)
    ensures Less(p, x, y) && !Less(p, y, x)
  {}

  // ---------------------------------------------------------------- the order as a key

  function Bit(b: bool): int { if b then 1 else 0 }

  /** Running pods last, pods in an unknown phase before them, all others first. */
  function PhaseKey(phase: Phase): int { if phase == Running then 2 else if phase == Unknown then 1 else 0 }

  /** Rules 1 to 5. */
  function Head(p: Policy, x: Ranked): seq<int> {
    [Bit(x.pod.nodeName != ""), PhaseKey(x.pod.phase), Bit(x.pod.ready),
     if p.deletionCost then x.pod.cost else 0, -x.rank]
  }

  /** A zero time first, then the latest. */
  function Latest(t: Time): seq<int> {
    if t.Zero? then [0, 0] else [1, -t.ns]
  }

  /** The eight-part key of the linear scale: rules 1 to 5, ready time, restarts, creation time. */
  function LinearKey(p: Policy, x: Ranked): seq<int> {
    Head(p, x) +
    ((if x.pod.ready then Latest(x.pod.readyTime) else [0, 0]) + ([-x.pod.restarts] + Latest(x.pod.created)))
  }

  lemma HeadDecides(p: Policy, x: Ranked, y: Ranked, s: seq<int>, t: seq<int>)
    ensures LexLess(Head(p, x) + s, Head(p, y) + t) <==>
              if Head(p, x) == Head(p, y) then LexLess(s, t) else LexLess(Head(p, x), Head(p, y))
  {
    if Head(p, x) == Head(p, y) {
      LexPrefix(Head(p, x), s, t);
    } else {
      LexSuffix(Head(p, x), Head(p, y), s, t);
    }
  }

  /** Between keys of equal length that differ, what follows does not matter. */
  lemma {:induction false} LexSuffix(a: seq<int>, b: seq<int>, s: seq<int>, t: seq<int>)
    requires |a| == |b| && a != b
    ensures LexLess(a + s, b + t) <==> LexLess(a, b)
  {
    if a[0] == b[0] {
      assert a == [a[0]] + a[1..] && b == [b[0]] + b[1..];
      LexSuffix(a[1..], b[1..], s, t);
      assert (a + s)[1..] == a[1..] + s && (b + t)[1..] == b[1..] + t;
    }
  }

  /** Rules 1 to 5 are the lexicographic order of `Head`. */
  lemma HeadOrder(p: Policy, x: Ranked, y: Ranked)
    requires Head(p, x) != Head(p, y)
    ensures Less(p, x, y) <==> LexLess(Head(p, x), Head(p, y))
  {
    Lex5(Head(p, x), Head(p, y));
  }

  lemma Lex5(a: seq<int>, b: seq<int>)
    requires |a| == |b| == 5
    ensures LexLess(a, b) <==>
              || a[0] < b[0]
              || (a[0] == b[0] && a[1] < b[1])
              || (a[0] == b[0] && a[1] == b[1] && a[2] < b[2])
              || (a[0] == b[0] && a[1] == b[1] && a[2] == b[2] && a[3] < b[3])
              || (a[0] == b[0] && a[1] == b[1] && a[2] == b[2] && a[3] == b[3] && a[4] < b[4])
  {
    assert a[1..][1..][1..][1..][1..] == [] == b[1..][1..][1..][1..][1..];
    assert LexLess(a[1..][1..][1..][1..], b[1..][1..][1..][1..]) <==> a[4] < b[4];
    assert LexLess(a[1..][1..][1..], b[1..][1..][1..]) <==> a[3] < b[3] || (a[3] == b[3] && a[4] < b[4]);
    assert LexLess(a[1..][1..], b[1..][1..]) <==>
        a[2] < b[2] || (a[2] == b[2] && LexLess(a[1..][1..][1..], b[1..][1..][1..]));
    assert LexLess(a[1..], b[1..]) <==> a[1] < b[1] || (a[1] == b[1] && LexLess(a[1..][1..], b[1..][1..]));
  }

  lemma LatestOrder(t1: Time, t2: Time, s: seq<int>, t: seq<int>)
    ensures LexLess(Latest(t1) + s, Latest(t2) + t) <==> if t1 == t2 then LexLess(s, t) else AfterOrZero(t1, t2)
  {
    if t1 == t2 {
      LexPrefix(Latest(t1), s, t);
    } else {
      LexSuffix(Latest(t1), Latest(t2), s, t);
      assert Latest(t1)[1..][1..] == [] && Latest(t2)[1..][1..] == [];
      assert LexLess(Latest(t1)[1..], Latest(t2)[1..]) <==> Latest(t1)[1] < Latest(t2)[1];
    }
  }

  /** With the logarithmic scale off, the comparator is the lexicographic order of the key. */
  lemma LinearOrder(p: Policy, x: Ranked, y: Ranked)
    requires !p.logScale || p.now.Zero?
    ensures Less(p, x, y) <==> LexLess(LinearKey(p, x), LinearKey(p, y))
  {
    var a, b := x.pod, y.pod;
    var cx, cy := [-a.restarts] + Latest(a.created), [-b.restarts] + Latest(b.created);
    var rx := (if a.ready then Latest(a.readyTime) else [0, 0]) + cx;
    var ry := (if b.ready then Latest(b.readyTime) else [0, 0]) + cy;
    HeadDecides(p, x, y, rx, ry);
    if Head(p, x) != Head(p, y) {
      HeadOrder(p, x, y);
    } else {
      SameHead(p, x, y);
      if a.ready { LatestOrder(a.readyTime, b.readyTime, cx, cy); } else { LexPrefix([0, 0], cx, cy); }
      LatestOrder(a.created, b.created, [], []);
      assert Latest(a.created) + [] == Latest(a.created) && Latest(b.created) + [] == Latest(b.created);
      assert cx[1..] == Latest(a.created) && cy[1..] == Latest(b.created);
    }
  }

  lemma SameHead(p: Policy, x: Ranked, y: Ranked)
    requires Head(p, x) == Head(p, y)
    ensures (x.pod.nodeName == "") == (y.pod.nodeName == "")
    ensures PhaseKey(x.pod.phase) == PhaseKey(y.pod.phase) && Ordinal(x.pod.phase) == Ordinal(y.pod.phase)
    ensures x.pod.ready == y.pod.ready && (p.deletionCost ==> x.pod.cost == y.pod.cost) && x.rank == y.rank
  {
    var h, k := Head(p, x), Head(p, y);
    assert h[0] == k[0] && h[1] == k[1] && h[2] == k[2] && h[3] == k[3] && h[4] == k[4];
  }

  // ---------------------------------------------------------------- strict weak order

  /** Irreflexive, asymmetric and negatively transitive on the pods of a list. */
  ghost predicate StrictWeak(p: Policy, s: seq<Ranked>) {
    && (forall x :: x in s ==> !Less(p, x, x))
    && (forall x, y :: x in s && y in s && Less(p, x, y) ==> !Less(p, y, x))
    && (forall x, y, z :: x in s && y in s && z in s && Less(p, x, z) ==> Less(p, x, y) || Less(p, y, z))
  }

  /** With the logarithmic scale off, every list of pods is strictly weakly ordered. */
  lemma LinearIsStrictWeak(p: Policy, s: seq<Ranked>)
    requires !p.logScale || p.now.Zero?
    ensures StrictWeak(p, s)
  {
    hide Less, LinearKey, LexLess;
    forall x: Ranked, y: Ranked
      ensures Less(p, x, y) <==> LexLess(LinearKey(p, x), LinearKey(p, y))
    {
      LinearOrder(p, x, y);
    }
    forall x: Ranked, y: Ranked
      ensures !Less(p, x, x) && !(Less(p, x, y) && Less(p, y, x))
    {
      LexIrreflexive(LinearKey(p, x));
      LexAsymmetric(LinearKey(p, x), LinearKey(p, y));
    }
    forall x: Ranked, y: Ranked, z: Ranked | Less(p, x, z)
      ensures Less(p, x, y) || Less(p, y, z)
    {
      LexWeak(LinearKey(p, x), LinearKey(p, y), LinearKey(p, z));
    }
  }

  /** Whatever the gates and times, no pod precedes itself and no two pods precede each other. */
  lemma LessIsAsymmetric(p: Policy, x: Ranked, y: Ranked)
    ensures !Less(p, x, x)
    ensures !(Less(p, x, y) && Less(p, y, x))
  {
    LexAsymmetric(Codes(x.pod.uid), Codes(y.pod.uid));
    hide LexLess, Codes, FloorLog2;
  }

  // ---------------------------------------------------------------- the logarithmic scale

  /** Age bucket, then UID; a zero time first. */
  function Bucketed(now: int, t: Time, uid: string): seq<int> {
    if t.Zero? then [0, 0] else [1, Bucket(now, t.ns)] + Codes(uid)
  }

  function LogKey(p: Policy, x: Ranked): seq<int>
    requires p.now.At?
  {
    Head(p, x) +
    (if x.pod.ready then Bucketed(p.now.ns, x.pod.readyTime, x.pod.uid)
     else [-x.pod.restarts] + Bucketed(p.now.ns, x.pod.created, x.pod.uid))
  }

  /** Two pods that the logarithmic scale can tell apart: ready pods with different ready times,
      other pods with different creation times. */
  predicate Separated(x: Ranked, y: Ranked) {
    x != y && x.pod.ready == y.pod.ready ==>
      if x.pod.ready then x.pod.readyTime != y.pod.readyTime else x.pod.created != y.pod.created
  }

  lemma BucketedOrder(p: Policy, t1: Time, t2: Time, uid1: string, uid2: string)
    requires p.logScale && p.now.At? && t1 != t2
    ensures LexLess(Bucketed(p.now.ns, t1, uid1), Bucketed(p.now.ns, t2, uid2)) <==> TimeLess(p, t1, t2, uid1, uid2)
  {
    hide FloorLog2, Codes;
    if t1.At? && t2.At? {
      var h1, h2 := [1, Bucket(p.now.ns, t1.ns)], [1, Bucket(p.now.ns, t2.ns)];
      if h1 == h2 {
        assert h1[1] == h2[1];
        LexPrefix(h1, Codes(uid1), Codes(uid2));
      } else {
        LexSuffix(h1, h2, Codes(uid1), Codes(uid2));
        assert h1[1..][1..] == [] == h2[1..][1..];
        assert LexLess(h1[1..], h2[1..]) <==> h1[1] < h2[1];
      }
    }
  }

  /** On the logarithmic scale the comparator is lexicographic between separated pods. */
  lemma LogOrder(p: Policy, x: Ranked, y: Ranked)
    requires p.logScale && p.now.At? && Separated(x, y)
    ensures Less(p, x, y) <==> LexLess(LogKey(p, x), LogKey(p, y))
  {
    if x == y {
      LessIsAsymmetric(p, x, x);
      LexIrreflexive(LogKey(p, x));
    } else {
      var a, b := x.pod, y.pod;
      var now := p.now.ns;
      var rx := if a.ready then Bucketed(now, a.readyTime, a.uid) else [-a.restarts] + Bucketed(now, a.created, a.uid);
      var ry := if b.ready then Bucketed(now, b.readyTime, b.uid) else [-b.restarts] + Bucketed(now, b.created, b.uid);
      HeadDecides(p, x, y, rx, ry);
      if Head(p, x) != Head(p, y) {
        HeadOrder(p, x, y);
      } else {
        SameHead(p, x, y);
        hide Bucketed, TimeLess, Head;
        if a.ready {
          BucketedOrder(p, a.readyTime, b.readyTime, a.uid, b.uid);
        } else {
          BucketedOrder(p, a.created, b.created, a.uid, b.uid);
          assert rx[1..] == Bucketed(now, a.created, a.uid) && ry[1..] == Bucketed(now, b.created, b.uid);
        }
      }
    }
  }

  /** Pairwise separated pods are strictly weakly ordered on either scale. */
  lemma SeparatedIsStrictWeak(p: Policy, s: seq<Ranked>)
    requires forall x, y :: x in s && y in s ==> Separated(x, y)
    ensures StrictWeak(p, s)
  {
    if !p.logScale || p.now.Zero? {
      LinearIsStrictWeak(p, s);
    } else {
      hide Less, LogKey, LexLess, Separated;
      forall x, y | x in s && y in s
        ensures Less(p, x, y) <==> LexLess(LogKey(p, x), LogKey(p, y))
        ensures !Less(p, x, x) && !(Less(p, x, y) && Less(p, y, x))
      {
        LogOrder(p, x, y);
        LessIsAsymmetric(p, x, y);
      }
      forall x, y, z | x in s && y in s && z in s && Less(p, x, z)
        ensures Less(p, x, y) || Less(p, y, z)
      {
        LexWeak(LogKey(p, x), LogKey(p, y), LogKey(p, z));
      }
    }
  }

  function ReadyPod(ready: int, restarts: int, uid: string): Ranked {
    Ranked(PodInfo("n", Running, false, true, At(ready), 0, restarts, At(0), uid), 1)
  }

  /** Two pods ready at the same instant, and a third in the same age bucket: restarts put the first
      before the second, UIDs put the second before the third and the third before the first. */
  lemma LogScaleCanCycle()
    ensures var p := Policy(true, true, At(100));
            var x, y, z := ReadyPod(60, 1, "c"), ReadyPod(60, 0, "a"), ReadyPod(61, 0, "b");
            Less(p, x, y) && Less(p, y, z) && Less(p, z, x)
  {
    SameBucket();
    assert Codes("a")[0] < Codes("b")[0] < Codes("c")[0];
    hide Bucket;
  }

  lemma SameBucket()
    ensures Bucket(100, 60) == Bucket(100, 61) == 5
  {
    assert FloorLog2(40) == 1 + FloorLog2(20) && FloorLog2(20) == 1 + FloorLog2(10);
    assert FloorLog2(10) == 1 + FloorLog2(5);
    assert FloorLog2(39) == 1 + FloorLog2(19) && FloorLog2(19) == 1 + FloorLog2(9) && FloorLog2(9) == 1 + FloorLog2(4);
    assert FloorLog2(5) == 2 && FloorLog2(4) == 2;
  }
}
