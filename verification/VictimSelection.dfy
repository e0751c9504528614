/** Scale-down victim selection: node ranks, the in-place sort of two parallel slices, and the
    prefix that is deleted (internal/apps/fastpod-controller-manager/controller_util.go:99-102,
    376-401; controller.go:613-648). */
module VictimSelection {
  import opened VictimOrder
  import opened Requests

  predicate IsPodActive(p: PodInfo) {
    p.phase != Phase.Succeeded && p.phase != Phase.Failed && !p.deleting
  }

  /** How many active pods of the list sit on this node. */
  function ActiveOn(pods: seq<PodInfo>, node: string): nat {
    if pods == [] then 0
    else
      var last := pods[|pods| - 1];
      ActiveOn(pods[..|pods| - 1], node) + if IsPodActive(last) && last.nodeName == node then 1 else 0
  }

  /** The indices of the pods on a node that are neither finished nor being deleted. */
  ghost function ActiveAt(pods: seq<PodInfo>, node: string): set<int> {
    set i | 0 <= i < |pods| && pods[i].nodeName == node && !pods[i].deleting
            && (pods[i].phase == Pending || pods[i].phase == Unknown || pods[i].phase == Running)
  }

  lemma {:induction false} CountsActivePods(pods: seq<PodInfo>, node: string)
    ensures ActiveOn(pods, node) == |ActiveAt(pods, node)|
  {
    if pods == [] {
      assert forall i :: i !in ActiveAt(pods, node);
      assert ActiveAt(pods, node) == {};
    } else {
      CountsActivePods(pods[..|pods| - 1], node);
      OneMorePod(pods, node);
      hide ActiveAt;
    }
  }

  lemma OneMorePod(pods: seq<PodInfo>, node: string)
    requires pods != []
    ensures var k := |pods| - 1;
            var before := ActiveAt(pods[..k], node);
            && k !in before
            && ActiveAt(pods, node) == before + if IsPodActive(pods[k]) && pods[k].nodeName == node then {k} else {}
  {
    var k := |pods| - 1;
    assert forall i :: 0 <= i < k ==> pods[..k][i] == pods[i];
  }

  function RankedIn(all: seq<PodInfo>, p: PodInfo): Ranked {
    Ranked(p, ActiveOn(all, p.nodeName))
  }

  function RankAll(all: seq<PodInfo>, pods: seq<PodInfo>): seq<Ranked> {
    seq(|pods|, i requires 0 <= i < |pods| => RankedIn(all, pods[i]))
  }

  /** `getPodsRankedByRelatedPodsOnSameNode`: one pass counts, one pass looks up. */
  method RankByNode(pods: array<PodInfo>) returns (ranks: array<int>)
    ensures fresh(ranks) && ranks.Length == pods.Length
    ensures forall i :: 0 <= i < pods.Length ==> ranks[i] == ActiveOn(pods[..], pods[i].nodeName)
    ensures forall i :: 0 <= i < pods.Length ==> ranks[i] == |ActiveAt(pods[..], pods[i].nodeName)|
  {
    var podsOnNode: map<string, int> := map[];
    for i := 0 to pods.Length
      invariant forall node :: (if node in podsOnNode then podsOnNode[node] else 0) == ActiveOn(pods[..i], node)
    {
      var pod := pods[i];
      assert pods[..i + 1] == pods[..i] + [pod];
      assert forall node :: ActiveOn(pods[..i + 1], node)
                         == ActiveOn(pods[..i], node) + if IsPodActive(pod) && pod.nodeName == node then 1 else 0;
      if IsPodActive(pod) {
        var count := if pod.nodeName in podsOnNode then podsOnNode[pod.nodeName] else 0;
        podsOnNode := podsOnNode[pod.nodeName := count + 1];
      }
    }
    assert pods[..pods.Length] == pods[..];
    ranks := new int[pods.Length];
    for i := 0 to pods.Length
      invariant forall j :: 0 <= j < i ==> ranks[j] == ActiveOn(pods[..], pods[j].nodeName)
    {
      ranks[i] := if pods[i].nodeName in podsOnNode then podsOnNode[pods[i].nodeName] else 0;
    }
    forall i | 0 <= i < pods.Length
      ensures ranks[i] == |ActiveAt(pods[..], pods[i].nodeName)|
    {
      CountsActivePods(pods[..], pods[i].nodeName);
    }
  }

  /** Every rank is the rank of the pod beside it, counted in the list as it was given. */
  ghost predicate Attached(all: seq<PodInfo>, pods: array<PodInfo>, ranks: array<int>)
    reads pods, ranks
  {
    pods.Length == ranks.Length && forall i :: 0 <= i < pods.Length ==> ranks[i] == ActiveOn(all, pods[i].nodeName)
  }

  method Swap(pods: array<PodInfo>, ranks: array<int>, i: nat, j: nat)
    requires i < pods.Length && j < pods.Length && pods.Length == ranks.Length
    modifies pods, ranks
    ensures pods[..] == old(pods[..])[i := old(pods[j])][j := old(pods[i])]
    ensures ranks[..] == old(ranks[..])[i := old(ranks[j])][j := old(ranks[i])]
    ensures multiset(pods[..]) == old(multiset(pods[..]))
  {
    pods[i], pods[j] := pods[j], pods[i];
    ranks[i], ranks[j] := ranks[j], ranks[i];
  }

  /** No pod in `s[lo..hi]` is less than its left neighbour. */
  ghost predicate NeighboursInOrder(p: Policy, s: seq<Ranked>, lo: int, hi: int)
    requires 0 <= lo <= hi <= |s|
  {
    forall i :: lo < i < hi ==> !Less(p, s[i], s[i - 1])
  }

  /** In a strict weak order, neighbours in order means every pair in order. */
  lemma {:induction false} NeighboursMeanAll(p: Policy, s: seq<Ranked>, i: nat, j: nat)
    requires StrictWeak(p, s) && NeighboursInOrder(p, s, 0, |s|) && i < j < |s|
    ensures !Less(p, s[j], s[i])
    decreases j - i
  {
    hide Less;
    assert !Less(p, s[j], s[j - 1]);
    if i < j - 1 {
      NeighboursMeanAll(p, s, i, j - 1);
      assert s[i] in s && s[j - 1] in s && s[j] in s;
    }
  }

  lemma SwapKeepsOrder(p: Policy, s: seq<Ranked>, t: seq<Ranked>, j: nat, i: nat)
    requires 0 < j <= i < |s| == |t| && t == s[j := s[j - 1]][j - 1 := s[j]]
    requires Less(p, s[j], s[j - 1])
    requires NeighboursInOrder(p, s, 0, j) && NeighboursInOrder(p, s, j, i + 1)
    requires j < i ==> !Less(p, s[j + 1], s[j - 1])
    ensures NeighboursInOrder(p, t, 0, j - 1) && NeighboursInOrder(p, t, j - 1, i + 1)
    ensures j - 1 > 0 ==> !Less(p, t[j], t[j - 2])
  {
    LessIsAsymmetric(p, s[j], s[j - 1]);
    hide Less;
    assert t[j - 1] == s[j] && t[j] == s[j - 1];
    assert forall k :: 0 <= k < |s| && k != j && k != j - 1 ==> t[k] == s[k];
  }

  lemma JoinOrder(p: Policy, s: seq<Ranked>, j: nat, i: nat)
    requires j <= i < |s| && NeighboursInOrder(p, s, 0, j) && NeighboursInOrder(p, s, j, i + 1)
    requires j > 0 ==> !Less(p, s[j], s[j - 1])
    ensures NeighboursInOrder(p, s, 0, i + 1)
  {}

  /** `Swap` on the slices is a swap of ranked pods: each rank stays attached to its pod. */
  method SwapRanked(ghost all: seq<PodInfo>, pods: array<PodInfo>, ranks: array<int>, i: nat, j: nat)
    requires i < pods.Length && j < pods.Length && i != j && Attached(all, pods, ranks)
    modifies pods, ranks
    ensures Attached(all, pods, ranks)
    ensures multiset(pods[..]) == old(multiset(pods[..]))
    ensures var s := old(RankAll(all, pods[..]));
            RankAll(all, pods[..]) == s[i := s[j]][j := s[i]]
  {
    hide ActiveOn;
    ghost var before := pods[..];
    Swap(pods, ranks, i, j);
    assert forall k :: 0 <= k < pods.Length && k != i && k != j ==> pods[..][k] == before[k];
    assert pods[..][i] == before[j] && pods[..][j] == before[i];
  }

  /** The inner loop of insertion sort. */
  method InsertPod(p: Policy, ghost all: seq<PodInfo>, pods: array<PodInfo>, ranks: array<int>, i: nat)
    requires Attached(all, pods, ranks) && i < pods.Length
    requires NeighboursInOrder(p, RankAll(all, pods[..]), 0, i)
    modifies pods, ranks
    ensures Attached(all, pods, ranks)
    ensures multiset(pods[..]) == old(multiset(pods[..]))
    ensures NeighboursInOrder(p, RankAll(all, pods[..]), 0, i + 1)
  {
    hide Less, ActiveOn, NeighboursInOrder;
    var j := i;
    ghost var s := RankAll(all, pods[..]);
    SingleInOrder(p, s, i);
    while j > 0 && Less(p, Ranked(pods[j], ranks[j]), Ranked(pods[j - 1], ranks[j - 1]))
      invariant 0 <= j <= i && s == RankAll(all, pods[..])
      invariant Attached(all, pods, ranks)
      invariant multiset(pods[..]) == old(multiset(pods[..]))
      invariant NeighboursInOrder(p, s, 0, j) && NeighboursInOrder(p, s, j, i + 1)
      invariant 0 < j < i ==> !Less(p, s[j + 1], s[j - 1])
    {
      assert s[j] == Ranked(pods[j], ranks[j]) && s[j - 1] == Ranked(pods[j - 1], ranks[j - 1]);
      ghost var t := s[j := s[j - 1]][j - 1 := s[j]];
      SwapKeepsOrder(p, s, t, j, i);
      SwapRanked(all, pods, ranks, j, j - 1);
      s := t;
      j := j - 1;
    }
    assert j > 0 ==> s[j] == Ranked(pods[j], ranks[j]) && s[j - 1] == Ranked(pods[j - 1], ranks[j - 1]);
    JoinOrder(p, s, j, i);
  }

  lemma SingleInOrder(p: Policy, s: seq<Ranked>, i: nat)
    requires i < |s|
    ensures NeighboursInOrder(p, s, i, i + 1) && NeighboursInOrder(p, s, 0, 0)
  {}

  /** Sort both slices in place with the comparator and `Swap` only. */
  method SortPods(p: Policy, ghost all: seq<PodInfo>, pods: array<PodInfo>, ranks: array<int>)
    requires Attached(all, pods, ranks)
    modifies pods, ranks
    ensures Attached(all, pods, ranks)
    ensures multiset(pods[..]) == old(multiset(pods[..]))
    ensures NeighboursInOrder(p, RankAll(all, pods[..]), 0, pods.Length)
  {
    hide Less, ActiveOn;
    for i := 0 to pods.Length
      invariant Attached(all, pods, ranks)
      invariant multiset(pods[..]) == old(multiset(pods[..]))
      invariant NeighboursInOrder(p, RankAll(all, pods[..]), 0, i)
    {
      InsertPod(p, all, pods, ranks, i);
    }
  }

  /** `getPodsToDelete`.  The ranked slice and `existedPods` are the same slice, so sorting the one
      reorders the other; the pods to delete are the prefix of what is left there. */
  method GetPodsToDelete(p: Policy, existedPods: array<PodInfo>, diff: nat) returns (chosen: Option<seq<PodInfo>>)
    modifies existedPods
    ensures chosen.Some? <==> diff < existedPods.Length
    ensures multiset(existedPods[..]) == old(multiset(existedPods[..]))
    ensures chosen.Some? ==> |chosen.value| == diff && chosen.value == existedPods[..diff]
    ensures chosen.Some? && StrictWeak(p, RankAll(old(existedPods[..]), old(existedPods[..]))) ==>
              forall i, j :: 0 <= i < diff <= j < existedPods.Length ==>
                !Less(p, RankedIn(old(existedPods[..]), existedPods[j]), RankedIn(old(existedPods[..]), existedPods[i]))
    ensures chosen.Some? && StrictWeak(p, RankAll(old(existedPods[..]), old(existedPods[..]))) ==>
              forall i, j :: 0 <= i < diff <= j < existedPods.Length ==> !GoesFirst(existedPods[j], existedPods[i])
  {
    if diff >= existedPods.Length {
      return None;
    }
    ghost var all := existedPods[..];
    var ranks := RankByNode(existedPods);
    SortPods(p, all, existedPods, ranks);
    chosen := Some(existedPods[..diff]);
    ghost var s := RankAll(all, existedPods[..]);
    if StrictWeak(p, RankAll(all, all)) {
      SameWeakOrder(p, all, existedPods[..]);
      hide Less, ActiveOn, StrictWeak, NeighboursInOrder;
      forall i, j | 0 <= i < diff <= j < existedPods.Length
        ensures !Less(p, RankedIn(all, existedPods[j]), RankedIn(all, existedPods[i]))
        ensures !GoesFirst(existedPods[j], existedPods[i])
      {
        NeighboursMeanAll(p, s, i, j);
        assert s[i] == RankedIn(all, existedPods[i]) && s[j] == RankedIn(all, existedPods[j]);
        if GoesFirst(existedPods[j], existedPods[i]) {
          FirstRules(p, RankedIn(all, existedPods[j]), RankedIn(all, existedPods[i]));
        }
      }
    }
  }

  /** Reordering a list does not change whether it is strictly weakly ordered. */
  lemma SameWeakOrder(p: Policy, all: seq<PodInfo>, pods: seq<PodInfo>)
    requires multiset(pods) == multiset(all) && StrictWeak(p, RankAll(all, all))
    ensures StrictWeak(p, RankAll(all, pods))
  {
    hide Less, ActiveOn;
    var s, t := RankAll(all, all), RankAll(all, pods);
    forall x | x in t
      ensures x in s
    {
      var i :| 0 <= i < |t| && t[i] == x;
      assert pods[i] in multiset(pods);
      assert pods[i] in all;
      var k :| 0 <= k < |all| && all[k] == pods[i];
      assert s[k] == x;
    }
  }

  /** The scale-down of `reconcileReplicas`: it waits for as many completions as there are pods too
      many, but starts one deletion for each chosen pod.  `unfinished` is what it still waits for once
      every deletion has completed. */
  method ScaleDown(p: Policy, existedPods: array<PodInfo>, replicas: nat)
    returns (victims: seq<PodInfo>, unfinished: int)
    requires replicas < existedPods.Length
    modifies existedPods
    ensures multiset(existedPods[..]) == old(multiset(existedPods[..]))
    ensures victims <= existedPods[..]
    ensures |victims| == if replicas >= 1 then existedPods.Length - replicas else 0
    ensures unfinished == 0 <==> replicas >= 1
    ensures StrictWeak(p, RankAll(old(existedPods[..]), old(existedPods[..]))) ==>
              forall i, j :: 0 <= i < |victims| <= j < existedPods.Length ==>
                !Less(p, RankedIn(old(existedPods[..]), existedPods[j]), RankedIn(old(existedPods[..]), existedPods[i]))
    ensures StrictWeak(p, RankAll(old(existedPods[..]), old(existedPods[..]))) ==>
              forall i, j :: 0 <= i < |victims| <= j < existedPods.Length ==> !GoesFirst(existedPods[j], existedPods[i])
  {
    hide Less, ActiveOn, StrictWeak;
    var diff := existedPods.Length - replicas;
    var chosen := GetPodsToDelete(p, existedPods, diff);
    victims := if chosen.Some? then chosen.value else [];
    unfinished := diff - |victims|;
  }
}
