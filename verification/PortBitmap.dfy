/** The port allocator: a bitmap packed into 64-bit words with a circular next-fit cursor
    (pkg/libs/bitmap/bitmap.go).  `Slots` is the abstract value, a finite set and a cursor;
    `Bitmap` is the mutable word array, proved to refine it. */
module PortBitmap {

  /** `used` is the set of taken slots; `cursor` is where the next search starts. */
  datatype Slots = Slots(size: nat, used: set<int>, cursor: nat) {
    ghost predicate Valid() {
      && (forall p :: p in used ==> 0 <= p < size)
      && (if size == 0 then cursor == 0 else cursor < size)
    }

    predicate Free(p: int) {
      0 <= p < size && p !in used
    }

    predicate Full() {
      forall p :: 0 <= p < size ==> p in used
    }

    /** How many steps the circular scan needs to get from slot `c` to slot `p`. */
    function Distance(c: nat, p: nat): (d: nat)
      requires c < size && p < size
      ensures d < size
    {
      if p >= c then p - c else p - c + size
    }

    /** The slot that is `x` steps round the ring, for `x` under two turns. */
    function Around(x: nat): (p: nat)
      requires 0 < size && x < 2 * size
      ensures p < size
    {
      if x < size then x else x - size
    }

    /** `p` is the free slot that a circular scan from the cursor meets first. */
    ghost predicate FirstFree(p: int)
      requires Valid()
    {
      && Free(p)
      && forall q :: Free(q) ==> Distance(cursor, p) <= Distance(cursor, q)
    }

    /** The first `i` slots of the circular scan are all taken. */
    ghost predicate Scanned(i: nat)
      requires Valid()
    {
      forall p :: 0 <= p < size && Distance(cursor, p) < i ==> p in used
    }

    /** The slot a scan grants, after `i` slots have been found taken. */
    function ScanFrom(i: nat): (r: int)
      requires Valid() && i <= size && Scanned(i)
      ensures r == -1 <==> Full()
      ensures r != -1 ==> FirstFree(r)
      decreases size - i
    {
      if i == size then
        assert forall p :: 0 <= p < size ==> Distance(cursor, p) < i;
        -1
      else
        var pos := Around(cursor + i);
        assert forall p :: 0 <= p < size && Distance(cursor, p) == i ==> p == pos;
        if pos !in used then pos else ScanFrom(i + 1)
    }

    lemma ScanStart()
      requires Valid()
      ensures Scanned(0) && NextFree() == ScanFrom(0)
    {}

    lemma ScanEnd()
      requires Valid() && Scanned(size)
      ensures ScanFrom(size) == -1
    {}

    lemma ScanStep(i: nat)
      requires Valid() && i < size && Scanned(i)
      ensures var pos := Around(cursor + i);
              if pos in used then Scanned(i + 1) && ScanFrom(i) == ScanFrom(i + 1) else ScanFrom(i) == pos
    {
      assert forall p :: 0 <= p < size && Distance(cursor, p) == i ==> p == Around(cursor + i);
    }

    function NextFree(): (r: int)
      requires Valid()
      ensures r == -1 <==> Full()
      ensures r != -1 ==> FirstFree(r)
    {
      ScanFrom(0)
    }

    function Take(p: int): Slots {
      this.(used := used + {p})
    }

    function Drop(p: int): (r: Slots)
      ensures Valid() ==> r.Valid()
    {
      this.(used := used - {p})
    }

    function CursorPast(p: nat): Slots
      requires p < size
    {
      this.(cursor := Around(p + 1))
    }

    /** The abstract effect of one allocation: the slot granted, and the state it leaves. */
    function Grant(): (r: (Slots, int))
      requires Valid()
      ensures r.0.Valid() && r.0.size == size
      ensures r.1 == -1 <==> Full()
      ensures r.1 == -1 ==> r.0 == this
      ensures r.1 != -1 ==> FirstFree(r.1) && r.0.used == used + {r.1} && r.0.cursor == Around(r.1 + 1)
    {
      var p := NextFree();
      if p == -1 then (this, -1) else (CursorPast(p).Take(p), p)
    }
  }

  type Ports = s: Slots | s.Valid() witness Slots(0, {}, 0)

  /** Go's `%` on a position under two turns is one subtraction. */
  lemma ModOnce(x: nat, n: nat)
    requires 0 < n && x < 2 * n
    ensures x % n == if x < n then x else x - n
  {
    if x >= n {
      assert x == n * 1 + (x - n);
    }
  }

  predicate TestBit(word: bv64, k: bv6) {
    word & ((1 as bv64) << k) != 0
  }

  function OrBit(word: bv64, k: bv6): bv64 {
    word | ((1 as bv64) << k)
  }

  function AndNotBit(word: bv64, k: bv6): bv64 {
    word & !((1 as bv64) << k)
  }

  lemma OrBitRaw(w: bv64, k: bv6, j: bv6)
    requires j != k
    ensures (w | ((1 as bv64) << k)) & ((1 as bv64) << j) == w & ((1 as bv64) << j)
  {}

  lemma OrSelfRaw(w: bv64, k: bv6)
    ensures (w | ((1 as bv64) << k)) & ((1 as bv64) << k) != 0
  {}

  lemma AndNotBitRaw(w: bv64, k: bv6, j: bv6)
    requires j != k
    ensures (w & !((1 as bv64) << k)) & ((1 as bv64) << j) == w & ((1 as bv64) << j)
  {}

  lemma AndNotSelfRaw(w: bv64, k: bv6)
    ensures (w & !((1 as bv64) << k)) & ((1 as bv64) << k) == 0
  {}

  /** Or-ing a mask into a word sets that bit and no other. */
  lemma OrBitTests(w: bv64, k: bv6, j: bv6)
    ensures TestBit(OrBit(w, k), j) == (TestBit(w, j) || j == k)
  {
    if j == k { OrSelfRaw(w, k); } else { OrBitRaw(w, k, j); }
  }

  /** And-not-ing a mask clears that bit and no other. */
  lemma AndNotBitTests(w: bv64, k: bv6, j: bv6)
    ensures TestBit(AndNotBit(w, k), j) == (TestBit(w, j) && j != k)
  {
    if j == k { AndNotSelfRaw(w, k); } else { AndNotBitRaw(w, k, j); }
  }

  /** The 64-bit word layout: slot `p` lives in word `p / 64` at bit `p % 64`. */
  predicate SlotBit(words: seq<bv64>, p: int)
    requires 0 <= p / 64 < |words|
  {
    TestBit(words[p / 64], (p % 64) as bv6)
  }

  lemma OffsetRoundTrip(k: int)
    requires 0 <= k < 64
    ensures k as bv6 as int == k
  {}

  lemma OffsetInjective(k: int, j: int)
    requires 0 <= k < 64 && 0 <= j < 64 && k as bv6 == j as bv6
    ensures k == j
  {
    OffsetRoundTrip(k);
    OffsetRoundTrip(j);
  }

  lemma SlotAddress(p: int, q: int)
    requires p / 64 == q / 64 && (p % 64) as bv6 == (q % 64) as bv6
    ensures p == q
  {
    OffsetInjective(p % 64, q % 64);
  }

  /** Setting one slot leaves every other slot alone, whatever word it shares. */
  lemma SetSlot(words: seq<bv64>, pos: int, p: int)
    requires 0 <= pos / 64 < |words| && 0 <= p / 64 < |words|
    ensures SlotBit(words[pos / 64 := OrBit(words[pos / 64], (pos % 64) as bv6)], p) == (SlotBit(words, p) || p == pos)
  {
    hide TestBit, OrBit;
    if p / 64 == pos / 64 && (p % 64) as bv6 == (pos % 64) as bv6 { SlotAddress(p, pos); }
    OrBitTests(words[pos / 64], (pos % 64) as bv6, (p % 64) as bv6);
  }

  lemma ClearSlot(words: seq<bv64>, pos: int, p: int)
    requires 0 <= pos / 64 < |words| && 0 <= p / 64 < |words|
    ensures SlotBit(words[pos / 64 := AndNotBit(words[pos / 64], (pos % 64) as bv6)], p) ==
              (SlotBit(words, p) && p != pos)
  {
    hide TestBit, AndNotBit;
    if p / 64 == pos / 64 && (p % 64) as bv6 == (pos % 64) as bv6 { SlotAddress(p, pos); }
    AndNotBitTests(words[pos / 64], (pos % 64) as bv6, (p % 64) as bv6);
  }

  class Bitmap {
    const bits: array<bv64>
    var position: nat
    const size: nat

    ghost predicate Valid()
      reads this
    {
      && bits.Length == (size + 63) / 64
      && (if size == 0 then position == 0 else position < size)
    }

    ghost function View(): (s: Slots)
      requires Valid()
      reads this, bits
      ensures s.Valid()
    {
      Slots(size, (set p: int | 0 <= p < size && SlotBit(bits[..], p)), position)
    }

    constructor (n: nat)
      ensures Valid() && fresh(bits)
      ensures View() == Slots(n, {}, 0)
    {
      bits := new bv64[(n + 63) / 64](_ => 0);
      position := 0;
      size := n;
    }

    method Set(pos: int) returns (ok: bool)
      requires Valid()
      modifies bits
      ensures Valid()
      ensures ok <==> 0 <= pos < size
      ensures View() == if ok then old(View()).Take(pos) else old(View())
    {
      hide TestBit, OrBit, AndNotBit;
      if pos < 0 || pos >= size {
        return false;
      }
      var index, offset := pos / 64, pos % 64;
      ghost var before := bits[..];
      bits[index] := OrBit(bits[index], offset as bv6);
      assert bits[..] == before[index := OrBit(before[index], offset as bv6)];
      forall p | 0 <= p < size
        ensures SlotBit(bits[..], p) == (SlotBit(before, p) || p == pos)
      {
        SetSlot(before, pos, p);
      }
      ok := true;
    }

    method Clear(pos: int) returns (ok: bool)
      requires Valid()
      modifies bits
      ensures Valid()
      ensures ok <==> 0 <= pos < size
      ensures View() == old(View()).Drop(pos)
    {
      hide TestBit, OrBit, AndNotBit;
      if pos < 0 || pos >= size {
        return false;
      }
      var index, offset := pos / 64, pos % 64;
      ghost var before := bits[..];
      bits[index] := AndNotBit(bits[index], offset as bv6);
      assert bits[..] == before[index := AndNotBit(before[index], offset as bv6)];
      forall p | 0 <= p < size
        ensures SlotBit(bits[..], p) == (SlotBit(before, p) && p != pos)
      {
        ClearSlot(before, pos, p);
      }
      ok := true;
    }

    method Get(pos: int) returns (value: bool, ok: bool)
      requires Valid()
      ensures ok <==> 0 <= pos < size
      ensures value <==> pos in View().used
    {
      if pos < 0 || pos >= size {
        return false, false;
      }
      value := TestBit(bits[pos / 64], (pos % 64) as bv6);
      assert bits[..][pos / 64] == bits[pos / 64];
      ok := true;
    }

    method FindFirstUnset() returns (r: int)
      requires Valid()
      modifies this`position
      ensures Valid()
      ensures r == old(View()).NextFree()
      ensures View() == if r == -1 then old(View()) else old(View()).CursorPast(r)
    {
      hide SlotBit, Slots.Scanned, Slots.ScanFrom, Slots.FirstFree;
      var n := size;
      ghost var s := View();
      var i := 0;
      s.ScanStart();
      while i < n
        invariant 0 <= i <= n && position == old(position)
        invariant s.Scanned(i)
        invariant s.NextFree() == s.ScanFrom(i)
      {
        var pos := (position + i) % n;
        ModOnce(position + i, n);
        s.ScanStep(i);
        var value, _ := Get(pos);
        if !value {
          position := (pos + 1) % n;
          ModOnce(pos + 1, n);
          return pos;
        }
        i := i + 1;
      }
      s.ScanEnd();
      r := -1;
    }

    method FindFirstUnsetAndSet() returns (r: int)
      requires Valid()
      modifies this`position, bits
      ensures Valid()
      ensures (View(), r) == old(View()).Grant()
    {
      r := FindFirstUnset();
      if r != -1 {
        var _ := Set(r);
      }
    }
  }
}
