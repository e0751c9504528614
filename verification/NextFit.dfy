/** Fairness of the circular next-fit cursor, over any interleaving of allocations with direct
    `Set` and `Clear` calls (pkg/libs/bitmap/bitmap.go). */
module NextFit {
  import opened PortBitmap

  datatype PortEvent = Allocate | SetSlot(pos: int) | ClearSlot(pos: int)

  function After(s: Slots, e: PortEvent): (r: Slots)
    requires s.Valid()
    ensures r.Valid() && r.size == s.size
  {
    match e
    case Allocate => s.Grant().0
    case SetSlot(pos) => if 0 <= pos < s.size then s.Take(pos) else s
    case ClearSlot(pos) => s.Drop(pos)
  }

  /** The slot this event hands out, or -1. */
  function GrantedBy(s: Slots, e: PortEvent): int
    requires s.Valid()
  {
    if e.Allocate? then s.Grant().1 else -1
  }

  /** The state just before event `i`. */
  function At(s: Slots, es: seq<PortEvent>, i: nat): (r: Slots)
    requires s.Valid() && i <= |es|
    ensures r.Valid() && r.size == s.size
    decreases i
  {
    if i == 0 then s else At(After(s, es[0]), es[1..], i - 1)
  }

  /** An allocation whose scan goes over slot `q` and grants a later one. */
  predicate PassesOver(s: Slots, e: PortEvent, q: int)
    requires s.Valid() && 0 <= q < s.size
  {
    var r := GrantedBy(s, e);
    r != -1 && s.Distance(s.cursor, q) < s.Distance(s.cursor, r)
  }

  /** Event `i` grants `q`, or passes over it while it is taken. */
  ghost predicate ServesOrSkips(s: Slots, es: seq<PortEvent>, i: int, q: int)
    requires s.Valid() && 0 <= q < s.size
  {
    && 0 <= i < |es|
    && var t := At(s, es, i);
       GrantedBy(t, es[i]) == q || (PassesOver(t, es[i], q) && q in t.used)
  }

  lemma ServesOrSkipsLater(s: Slots, es: seq<PortEvent>, i: nat, q: int)
    requires s.Valid() && 0 <= q < s.size && |es| > 0
    requires ServesOrSkips(After(s, es[0]), es[1..], i, q)
    ensures ServesOrSkips(s, es, i + 1, q)
  {
    hide After, GrantedBy;
    assert At(s, es, i + 1) == At(After(s, es[0]), es[1..], i);
  }

  /** An event that neither serves nor passes over `q` leaves the cursor short of `q`. */
  lemma StillShort(s: Slots, e: PortEvent, p: int, q: int)
    requires s.Valid() && 0 <= p < s.size && 0 <= q < s.size && q != p
    requires s.Distance(s.Around(p + 1), s.cursor) <= s.Distance(s.Around(p + 1), q)
    requires GrantedBy(s, e) != q && !(PassesOver(s, e, q) && q in s.used)
    ensures GrantedBy(s, e) != p
    ensures s.Distance(s.Around(p + 1), After(s, e).cursor) <= s.Distance(s.Around(p + 1), q)
  {
    if e.Allocate? && s.Grant().1 != -1 {
      assert q !in s.used ==> s.Free(q);
    }
  }

  lemma CursorAfterGrant(s: Slots, e: PortEvent)
    requires s.Valid() && GrantedBy(s, e) != -1
    ensures After(s, e).cursor == s.Around(GrantedBy(s, e) + 1)
  {}

  /** While the cursor has not reached `q` on its way round from just after `p`, the next grant
      of `p` cannot come before `q` is served or skipped. */
  lemma {:induction false} Chase(s: Slots, es: seq<PortEvent>, p: int, q: int) returns (i: nat)
    requires s.Valid() && 0 <= p < s.size && 0 <= q < s.size && q != p
    requires s.Distance(s.Around(p + 1), s.cursor) <= s.Distance(s.Around(p + 1), q)
    requires |es| > 0 && GrantedBy(At(s, es, |es| - 1), es[|es| - 1]) == p
    ensures ServesOrSkips(s, es, i, q)
    decreases |es|
  {
    hide After, GrantedBy, PassesOver;
    if GrantedBy(s, es[0]) == q || (PassesOver(s, es[0], q) && q in s.used) {
      i := 0;
    } else {
      StillShort(s, es[0], p, q);
      i := Chase(After(s, es[0]), es[1..], p, q);
      ServesOrSkipsLater(s, es, i, q);
      i := i + 1;
    }
  }

  /** Between two grants of the same slot, every other slot has been granted, or was taken when
      the cursor passed over it: no slot that stays free can be overtaken twice. */
  lemma NextFitFairness(s: Slots, es: seq<PortEvent>, p: int, q: int)
    requires s.Valid() && 0 <= p < s.size && 0 <= q < s.size && q != p
    requires |es| > 1 && GrantedBy(s, es[0]) == p
    requires GrantedBy(At(s, es, |es| - 1), es[|es| - 1]) == p
    ensures exists i :: 1 <= i && ServesOrSkips(s, es, i, q)
  {
    hide After, GrantedBy, PassesOver, ServesOrSkips;
    CursorAfterGrant(s, es[0]);
    assert At(s, es, |es| - 1) == At(After(s, es[0]), es[1..], |es| - 2);
    var i := Chase(After(s, es[0]), es[1..], p, q);
    ServesOrSkipsLater(s, es, i, q);
  }
}
