/** Exactly when the comparator is a strict weak order on the logarithmic scale: three pods go round in
    circles only where a UID falls between two others that are compared by something else. */
module VictimCycles {
  import opened LexOrder
  import opened VictimOrder

  // ---------------------------------------------------------------- the comparator in levels

  predicate OnLogScale(p: Policy) {
    p.logScale && p.now.At?
  }

  /** The age bucket, with zero times before all others. */
  function Tier(p: Policy, t: Time): int
    requires OnLogScale(p)
  {
    if t.Zero? then -2 else Bucket(p.now.ns, t.ns)
  }

  predicate UidLess(x: Ranked, y: Ranked) {
    StringLess(x.pod.uid, y.pod.uid)
  }

  /** Different times are compared by tier, then by UID. */
  predicate TierLess(p: Policy, t1: Time, t2: Time, x: Ranked, y: Ranked)
    requires OnLogScale(p)
  {
    Tier(p, t1) < Tier(p, t2) || (Tier(p, t1) == Tier(p, t2) && UidLess(x, y))
  }

  lemma TimeLessIsTierLess(p: Policy, t1: Time, t2: Time, x: Ranked, y: Ranked)
    requires OnLogScale(p) && t1 != t2
    ensures TimeLess(p, t1, t2, x.pod.uid, y.pod.uid) <==> TierLess(p, t1, t2, x, y)
  {
    hide FloorLog2, StringLess;
  }

  /** The time that rule 6 looks at; pods that are not ready are not compared by it. */
  function ReadySince(x: Ranked): Time {
    if x.pod.ready then x.pod.readyTime else Zero
  }

  /** Rule 8. */
  predicate CreatedLess(p: Policy, x: Ranked, y: Ranked)
    requires OnLogScale(p)
  {
    x.pod.created != y.pod.created && TierLess(p, x.pod.created, y.pod.created, x, y)
  }

  /** Rules 7 and 8. */
  predicate RestLess(p: Policy, x: Ranked, y: Ranked)
    requires OnLogScale(p)
  {
    if x.pod.restarts != y.pod.restarts then x.pod.restarts > y.pod.restarts else CreatedLess(p, x, y)
  }

  /** Rules 6 to 8. */
  predicate TailLess(p: Policy, x: Ranked, y: Ranked)
    requires OnLogScale(p)
  {
    if ReadySince(x) != ReadySince(y) then TierLess(p, ReadySince(x), ReadySince(y), x, y) else RestLess(p, x, y)
  }

  lemma InLevels(p: Policy, x: Ranked, y: Ranked)
    requires OnLogScale(p)
    ensures Less(p, x, y) <==>
              if Head(p, x) == Head(p, y) then TailLess(p, x, y) else LexLess(Head(p, x), Head(p, y))
  {
    if Head(p, x) != Head(p, y) {
      HeadOrder(p, x, y);
    } else {
      SameHead(p, x, y);
      hide Head, TimeLess, TierLess;
      if ReadySince(x) != ReadySince(y) { TimeLessIsTierLess(p, ReadySince(x), ReadySince(y), x, y); }
      if x.pod.created != y.pod.created { TimeLessIsTierLess(p, x.pod.created, y.pod.created, x, y); }
    }
  }

  // ---------------------------------------------------------------- wedges

  /** The UID of `z` lies between those of `y` and `x`, or on one of them. */
  predicate Between(y: Ranked, z: Ranked, x: Ranked) {
    !UidLess(z, y) && !UidLess(x, z)
  }

  /** Same age bucket, different time. */
  predicate SharesTier(p: Policy, t: Time, t': Time)
    requires OnLogScale(p)
  {
    t != t' && Tier(p, t) == Tier(p, t')
  }

  /** `x` and `y` were created at the same time and so are equal to rule 8, which puts `z` between them. */
  predicate CreatedWedge(p: Policy, x: Ranked, y: Ranked, z: Ranked)
    requires OnLogScale(p)
  {
    && Head(p, x) == Head(p, y) == Head(p, z)
    && ReadySince(x) == ReadySince(y) == ReadySince(z)
    && x.pod.restarts == y.pod.restarts == z.pod.restarts
    && x.pod.created == y.pod.created && SharesTier(p, x.pod.created, z.pod.created)
    && Between(y, z, x) && UidLess(y, x)
  }

  /** `x` and `y` have been ready since the same time, and rules 7 and 8 do not put `y` first; rule 6 puts
      `z` after `y` and before `x`. */
  predicate ReadyWedge(p: Policy, x: Ranked, y: Ranked, z: Ranked)
    requires OnLogScale(p)
  {
    && Head(p, x) == Head(p, y) == Head(p, z)
    && ReadySince(x) == ReadySince(y) && SharesTier(p, ReadySince(x), ReadySince(z))
    && !RestLess(p, y, x) && Between(y, z, x) && (RestLess(p, x, y) || UidLess(y, x))
  }

  predicate Wedge(p: Policy, x: Ranked, y: Ranked, z: Ranked)
    requires OnLogScale(p)
  {
    CreatedWedge(p, x, y, z) || ReadyWedge(p, x, y, z)
  }

  ghost predicate NoWedge(p: Policy, s: seq<Ranked>)
    requires OnLogScale(p)
  {
    forall x, y, z :: x in s && y in s && z in s ==> !Wedge(p, x, y, z)
  }

  lemma UidWeak(x: Ranked, y: Ranked, z: Ranked)
    ensures UidLess(x, z) ==> UidLess(x, y) || UidLess(y, z)
    ensures !(UidLess(x, y) && UidLess(y, x))
  {
    hide LexLess, Codes;
    if UidLess(x, z) { LexWeak(Codes(x.pod.uid), Codes(y.pod.uid), Codes(z.pod.uid)); }
    LexAsymmetric(Codes(x.pod.uid), Codes(y.pod.uid));
  }

  // ---------------------------------------------------------------- a wedge breaks the order

  lemma WedgeBreaks(p: Policy, s: seq<Ranked>, x: Ranked, y: Ranked, z: Ranked)
    requires OnLogScale(p) && x in s && y in s && z in s && Wedge(p, x, y, z)
    ensures !StrictWeak(p, s)
  {
    hide Less, Head, LexLess, UidLess, Tier;
    InLevels(p, x, y);
    InLevels(p, y, x);
    InLevels(p, x, z);
    InLevels(p, z, x);
    InLevels(p, y, z);
    InLevels(p, z, y);
    UidWeak(y, z, x);
    if RestLess(p, x, y) && ReadyWedge(p, x, y, z) {
      assert Less(p, x, y) && !Less(p, x, z) && !Less(p, z, y);
    } else if UidLess(y, z) {
      assert Less(p, y, z) && !Less(p, y, x) && !Less(p, x, z);
    } else {
      assert Less(p, z, x) && !Less(p, z, y) && !Less(p, y, x);
    }
  }

  // ---------------------------------------------------------------- no wedge, no circle

  lemma CreatedWeak(p: Policy, x: Ranked, y: Ranked, z: Ranked)
    requires OnLogScale(p) && CreatedLess(p, x, z)
    requires Head(p, x) == Head(p, y) == Head(p, z) && ReadySince(x) == ReadySince(y) == ReadySince(z)
    requires x.pod.restarts == y.pod.restarts == z.pod.restarts
    requires !CreatedWedge(p, y, x, z) && !CreatedWedge(p, z, y, x)
    ensures CreatedLess(p, x, y) || CreatedLess(p, y, z)
  {
    hide UidLess, Tier, Head;
    UidWeak(x, y, z);
    UidWeak(x, z, y);
  }

  lemma RestWeak(p: Policy, x: Ranked, y: Ranked, z: Ranked)
    requires OnLogScale(p) && RestLess(p, x, z)
    requires Head(p, x) == Head(p, y) == Head(p, z) && ReadySince(x) == ReadySince(y) == ReadySince(z)
    requires !CreatedWedge(p, y, x, z) && !CreatedWedge(p, z, y, x)
    ensures RestLess(p, x, y) || RestLess(p, y, z)
  {
    hide CreatedLess, CreatedWedge, Head;
    if x.pod.restarts == y.pod.restarts == z.pod.restarts { CreatedWeak(p, x, y, z); }
  }

  lemma TailWeak(p: Policy, x: Ranked, y: Ranked, z: Ranked)
    requires OnLogScale(p) && TailLess(p, x, z) && Head(p, x) == Head(p, y) == Head(p, z)
    requires !CreatedWedge(p, y, x, z) && !CreatedWedge(p, z, y, x)
    requires !ReadyWedge(p, x, z, y) && !ReadyWedge(p, y, x, z) && !ReadyWedge(p, z, y, x)
    requires !(RestLess(p, x, z) && RestLess(p, z, x))
    ensures TailLess(p, x, y) || TailLess(p, y, z)
  {
    hide UidLess, Tier, Head, RestLess, CreatedWedge;
    UidWeak(x, y, z);
    UidWeak(x, z, y);
    if ReadySince(x) == ReadySince(y) == ReadySince(z) { RestWeak(p, x, y, z); }
  }

  lemma LessWeak(p: Policy, x: Ranked, y: Ranked, z: Ranked)
    requires OnLogScale(p) && Less(p, x, z)
    requires !CreatedWedge(p, y, x, z) && !CreatedWedge(p, z, y, x)
    requires !ReadyWedge(p, x, z, y) && !ReadyWedge(p, y, x, z) && !ReadyWedge(p, z, y, x)
    ensures Less(p, x, y) || Less(p, y, z)
  {
    hide Less, Head, LexLess, TailLess, CreatedWedge, ReadyWedge;
    InLevels(p, x, y);
    InLevels(p, y, z);
    InLevels(p, x, z);
    if Head(p, x) == Head(p, y) == Head(p, z) {
      RestAsymmetric(p, x, z);
      TailWeak(p, x, y, z);
    } else if Head(p, x) == Head(p, z) {
      LexTotal(Head(p, x), Head(p, y));
    } else {
      LexWeak(Head(p, x), Head(p, y), Head(p, z));
      LexIrreflexive(Head(p, y));
    }
  }

  lemma RestAsymmetric(p: Policy, x: Ranked, y: Ranked)
    requires OnLogScale(p)
    ensures !(RestLess(p, x, y) && RestLess(p, y, x))
  {
    hide UidLess, Tier;
    UidWeak(x, y, x);
  }

  /** On the logarithmic scale the pods of a list are strictly weakly ordered, so that sorting by the
      comparator means something, if and only if no three of them form a wedge. */
  lemma StrictWeakExactly(p: Policy, s: seq<Ranked>)
    requires OnLogScale(p)
    ensures StrictWeak(p, s) <==> NoWedge(p, s)
  {
    hide Less, CreatedWedge, ReadyWedge;
    if NoWedge(p, s) {
      forall x, y | x in s && y in s
        ensures !Less(p, x, x) && !(Less(p, x, y) && Less(p, y, x))
      {
        LessIsAsymmetric(p, x, y);
      }
      forall x, y, z | x in s && y in s && z in s && Less(p, x, z)
        ensures Less(p, x, y) || Less(p, y, z)
      {
        assert !Wedge(p, y, x, z) && !Wedge(p, z, y, x) && !Wedge(p, x, z, y);
        LessWeak(p, x, y, z);
      }
    } else {
      var x, y, z :| x in s && y in s && z in s && Wedge(p, x, y, z);
      WedgeBreaks(p, s, x, y, z);
    }
  }
}
