/** How many slots a ring gets from the memory set aside for it: the five
    nested round-down macros and the two size conversions built on them. */
module Capacity {
  import opened Index32

  function RoundDown2(x: nat): nat { if x / 2 == 0 then x else 2 }

  function RoundDown4(x: nat): nat {
    if x / 4 == 0 then RoundDown2(x) else RoundDown2(x / 4) * 4
  }

  function RoundDown8(x: nat): nat {
    if x / 0x10 == 0 then RoundDown4(x) else RoundDown4(x / 0x10) * 0x10
  }

  function RoundDown16(x: nat): nat {
    if x / 0x100 == 0 then RoundDown8(x) else RoundDown8(x / 0x100) * 0x100
  }

  function RoundDown32(x: nat): nat {
    if x / 0x1_0000 == 0 then RoundDown16(x) else RoundDown16(x / 0x1_0000) * 0x1_0000
  }

  const INDEX_MAX: nat := MODULUS - 1

  function RoundDownIndex(x: nat): nat {
    RoundDown32(if x > INDEX_MAX then INDEX_MAX else x)
  }

  /** The sizes that a ring's geometry depends on: the header of the shared
      structure and one message slot, in bytes. */
  datatype Layout = Layout(header: nat, slot: nat)

  function CapacityToSize(l: Layout, capacity: nat): nat {
    l.header + capacity * l.slot
  }

  function SizeToCapacity(l: Layout, size: nat): nat
    requires l.slot > 0
  {
    if size >= l.header then RoundDownIndex((size - l.header) / l.slot) else 0
  }

  // ----- Rounding down -----

  /** `r` is the largest power of two up to `x`, or 0 if there is none. */
  ghost predicate RoundedDown(r: nat, x: nat) {
    if x == 0 then r == 0
    else exists k: nat :: r == Pow2(k) && Pow2(k) <= x < Pow2(k + 1)
  }

  /** Rounding down commutes with dropping low-order digits. */
  lemma Shifted(r: nat, x: nat, j: nat)
    requires x / Pow2(j) > 0 && RoundedDown(r, x / Pow2(j))
    ensures RoundedDown(r * Pow2(j), x)
  {
    hide Pow2;
    var k: nat :| r == Pow2(k) && Pow2(k) <= x / Pow2(j) < Pow2(k + 1);
    var b, p, q := Pow2(j), Pow2(k), Pow2(k + 1);
    Pow2Divides(j, k + j);
    Pow2Divides(j, k + 1 + j);
    Scaled(x, b, p, q);
    assert p * b == Pow2(k + j) && q * b == Pow2(k + j + 1);
  }

  lemma Scaled(x: nat, b: nat, lo: nat, hi: nat)
    requires b > 0 && lo <= x / b < hi
    ensures lo * b <= x < hi * b
  {
    var y := x / b;
    assert y * b <= x < y * b + b;
    Nonnegative(y - lo, b);
    Nonnegative(hi - 1 - y, b);
    assert (y - lo) * b == y * b - lo * b;
    assert (hi - 1 - y) * b == hi * b - b - y * b;
  }

  lemma Nonnegative(a: nat, b: nat)
    ensures a * b >= 0
  {
  }

  lemma RoundDown2Correct(x: nat)
    requires x < 4
    ensures RoundedDown(RoundDown2(x), x)
  {
    assert Pow2(0) == 1 && Pow2(1) == 2 && Pow2(2) == 4;
  }

  lemma RoundDown4Correct(x: nat)
    requires x < 0x10
    ensures RoundedDown(RoundDown4(x), x)
  {
    assert Pow2(2) == 4;
    if x / 4 == 0 {
      RoundDown2Correct(x);
    } else {
      RoundDown2Correct(x / 4);
      Shifted(RoundDown2(x / 4), x, 2);
    }
  }

  lemma RoundDown8Correct(x: nat)
    requires x < 0x100
    ensures RoundedDown(RoundDown8(x), x)
  {
    assert Pow2(4) == 0x10;
    if x / 0x10 == 0 {
      RoundDown4Correct(x);
    } else {
      RoundDown4Correct(x / 0x10);
      Shifted(RoundDown4(x / 0x10), x, 4);
    }
  }

  lemma RoundDown16Correct(x: nat)
    requires x < 0x1_0000
    ensures RoundedDown(RoundDown16(x), x)
  {
    assert Pow2(8) == 0x100;
    if x / 0x100 == 0 {
      RoundDown8Correct(x);
    } else {
      RoundDown8Correct(x / 0x100);
      Shifted(RoundDown8(x / 0x100), x, 8);
    }
  }

  lemma RoundDown32Correct(x: nat)
    requires x < MODULUS
    ensures RoundedDown(RoundDown32(x), x)
  {
    Pow2Divides(8, 16);
    assert Pow2(8) == 0x100;
    if x / 0x1_0000 == 0 {
      RoundDown16Correct(x);
    } else {
      RoundDown16Correct(x / 0x1_0000);
      Shifted(RoundDown16(x / 0x1_0000), x, 16);
    }
  }

  lemma {:induction false} Pow2Grows(k: nat, m: nat)
    requires k <= m
    ensures Pow2(k) <= Pow2(m)
  {
    if k < m {
      Pow2Grows(k, m - 1);
    }
  }

  /** The largest capacity, i.e. power of two up to 2^31, that is at most `x`;
      0 if there is none. */
  lemma RoundDownIndexCorrect(x: nat)
    ensures x == 0 ==> RoundDownIndex(x) == 0
    ensures x > 0 ==> IsCapacity(RoundDownIndex(x)) && RoundDownIndex(x) <= x
    ensures forall c: nat :: IsCapacity(c) && c <= x ==> c <= RoundDownIndex(x)
  {
    hide Pow2, RoundDown32;
    var y := if x > INDEX_MAX then INDEX_MAX else x;
    RoundDown32Correct(y);
    if x > 0 {
      var k: nat :| RoundDown32(y) == Pow2(k) && Pow2(k) <= y < Pow2(k + 1);
      Pow2Table();
      if k >= 32 {
        Pow2Grows(32, k);
      }
      forall c: nat | IsCapacity(c) && c <= x
        ensures c <= RoundDownIndex(x)
      {
        var j: nat :| j <= 31 && c == Pow2(j);
        Pow2Below(j);
        if j > k {
          Pow2Grows(k + 1, j);
        } else {
          Pow2Grows(j, k);
        }
      }
    }
  }

  // ----- Sizes and capacities -----

  /** A ring of `c` slots fits in `size` bytes iff `c` is at most the number of
      whole slots behind the header. */
  lemma FitsIff(l: Layout, c: nat, size: nat)
    requires l.slot > 0 && size >= l.header
    ensures CapacityToSize(l, c) <= size <==> c <= (size - l.header) / l.slot
  {
    var n := size - l.header;
    var q := n / l.slot;
    assert n == q * l.slot + n % l.slot;
    if c <= q {
      Nonnegative(q - c, l.slot);
      assert (q - c) * l.slot == q * l.slot - c * l.slot;
    } else {
      MulAtLeast(c - q, l.slot);
      assert (c - q) * l.slot == c * l.slot - q * l.slot;
    }
  }

  /** The capacity computed for a size is the largest one whose ring fits in
      it, and 0 exactly when not even one slot fits. */
  lemma SizeToCapacityLargest(l: Layout, size: nat)
    requires l.slot > 0
    ensures SizeToCapacity(l, size) == 0 <==> CapacityToSize(l, 1) > size
    ensures SizeToCapacity(l, size) != 0 ==>
              && IsCapacity(SizeToCapacity(l, size))
              && CapacityToSize(l, SizeToCapacity(l, size)) <= size
    ensures forall c: nat :: IsCapacity(c) && CapacityToSize(l, c) <= size ==> c <= SizeToCapacity(l, size)
  {
    if size >= l.header {
      var slots := (size - l.header) / l.slot;
      RoundDownIndexCorrect(slots);
      FitsIff(l, 1, size);
      FitsIff(l, RoundDownIndex(slots), size);
      OneIsCapacity();
      forall c: nat | IsCapacity(c) && CapacityToSize(l, c) <= size
        ensures c <= SizeToCapacity(l, size)
      {
        FitsIff(l, c, size);
      }
    }
  }

  lemma CapacityIsIndex(l: Layout, size: nat)
    requires l.slot > 0
    ensures SizeToCapacity(l, size) <= 0x8000_0000
  {
    SizeToCapacityLargest(l, size);
    if SizeToCapacity(l, size) != 0 {
      SlotOfIndex(0, SizeToCapacity(l, size));
    }
  }

  lemma OneIsCapacity()
    ensures IsCapacity(1)
  {
    assert Pow2(0) == 1;
  }

  /** Sizing memory for a capacity and deriving the capacity from that size
      gives the capacity back. */
  lemma SizeToCapacityInverse(l: Layout, capacity: nat)
    requires l.slot > 0 && IsCapacity(capacity)
    ensures SizeToCapacity(l, CapacityToSize(l, capacity)) == capacity
  {
    var bytes := capacity * l.slot;
    Nonnegative(capacity, l.slot);
    ModOf(bytes, l.slot, capacity, 0);
    assert CapacityToSize(l, capacity) - l.header == bytes;
    RoundDownIndexCorrect(capacity);
  }
}
