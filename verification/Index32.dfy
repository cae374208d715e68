/** Ring indices: unsigned 32-bit integers whose arithmetic wraps around
    (pnr_ring_index_t), and their relation to the unbounded indices in which
    the ring's design is explained. */
module Index32 {

  const MODULUS := 0x1_0000_0000

  type Index = i: int | 0 <= i < MODULUS

  /** The 32-bit image of an unbounded index. */
  function Wrap(n: int): Index { n % MODULUS }

  /** `a - b` and `a + b` as the hardware computes them. */
  function Sub(a: Index, b: Index): Index { if a >= b then a - b else a - b + MODULUS }

  function Add(a: Index, b: Index): Index { if a + b < MODULUS then a + b else a + b - MODULUS }

  function Pow2(k: nat): (p: nat)
    ensures p >= 1
  {
    if k == 0 then 1 else 2 * Pow2(k - 1)
  }

  /** Bitwise conjunction of two unsigned integers. */
  function BitAnd(a: nat, b: nat): nat
    decreases a
  {
    if a == 0 || b == 0 then 0
    else (if a % 2 == 1 && b % 2 == 1 then 1 else 0) + 2 * BitAnd(a / 2, b / 2)
  }

  /** The lengths a ring may have: the powers of two up to 2^31. */
  ghost predicate IsCapacity(c: int) {
    exists k: nat :: k <= 31 && c == Pow2(k)
  }

  /** The slot that an index designates: `index & (capacity - 1)`. */
  function Slot(i: Index, capacity: nat): nat
    requires capacity >= 1
  {
    BitAnd(i, capacity - 1)
  }

  // ----- Wrapped and unbounded indices -----

  lemma WrapShift(n: int, k: int)
    ensures Wrap(n + k * MODULUS) == Wrap(n)
  {
  }

  lemma WrapIndex(i: Index)
    ensures Wrap(i) == i
  {
  }

  lemma SubWrap(a: int, b: int)
    ensures Sub(Wrap(a), Wrap(b)) == Wrap(a - b)
  {
    WrapShift(a - b, b / MODULUS - a / MODULUS);
    WrapShift(Wrap(a) - Wrap(b), 1);
  }

  lemma AddWrap(a: int, b: int)
    ensures Add(Wrap(a), Wrap(b)) == Wrap(a + b)
  {
    WrapShift(a + b, -(a / MODULUS) - b / MODULUS);
    WrapShift(Wrap(a) + Wrap(b), -1);
  }

  /** Two indices less than 2^32 apart keep their distance when wrapped. */
  lemma Distance(a: int, b: int)
    requires 0 <= a - b < MODULUS
    ensures Sub(Wrap(a), Wrap(b)) == a - b
    ensures Wrap(a) == Wrap(b) <==> a == b
  {
    SubWrap(a, b);
    WrapIndex(a - b);
  }

  // ----- Masking -----

  lemma {:induction false} Pow2Divides(k: nat, m: nat)
    requires k <= m
    ensures Pow2(m) == Pow2(m - k) * Pow2(k)
  {
    if k < m {
      Pow2Divides(k, m - 1);
    }
  }

  lemma Pow2Below(k: nat)
    requires k <= 31
    ensures Pow2(k) <= 0x8000_0000 && Pow2(32) == MODULUS
  {
    Pow2Divides(k, 31);
    Pow2Table();
    MulAtLeast(Pow2(31 - k), Pow2(k));
  }

  lemma Pow2Table()
    ensures Pow2(31) == 0x8000_0000 && Pow2(32) == MODULUS
  {
    assert Pow2(8) == 0x100;
    assert Pow2(16) == 0x1_0000 by { Pow2Divides(8, 16); }
    assert Pow2(32) == MODULUS by { Pow2Divides(16, 32); }
  }

  lemma MulAtLeast(a: int, d: int)
    requires a >= 1 && d >= 1
    ensures a * d >= d
  {
  }

  lemma SmallMultiple(a: int, d: int)
    requires -d < a * d < d
    ensures a == 0
  {
    if a >= 1 {
      MulAtLeast(a, d);
    } else if a <= -1 {
      MulAtLeast(-a, d);
    }
  }

  lemma EuclidUnique(d: int, q: int, r: int, q': int, r': int)
    requires 0 <= r < d && 0 <= r' < d && q * d + r == q' * d + r'
    ensures q == q' && r == r'
  {
    assert (q - q') * d == q * d - q' * d;
    SmallMultiple(q - q', d);
  }

  lemma ModOf(n: int, d: int, q: int, r: int)
    requires d > 0 && n == q * d + r && 0 <= r < d
    ensures n / d == q && n % d == r
  {
    EuclidUnique(d, n / d, n % d, q, r);
  }

  /** Masking with `2^k - 1` is reduction modulo `2^k`. */
  lemma {:induction false} MaskIsMod(x: nat, k: nat)
    ensures BitAnd(x, Pow2(k) - 1) == x % Pow2(k)
  {
    var p := Pow2(k);
    if k == 0 || x == 0 {
      ModOf(x, p, if k == 0 then x else 0, 0);
    } else {
      var half := Pow2(k - 1);
      assert p == 2 * half;
      hide BitAnd, Pow2;
      MaskIsMod(x / 2, k - 1);
      MaskStep(x, half);
    }
  }

  /** One binary digit more of the mask and of the remainder. */
  lemma MaskStep(x: nat, p: nat)
    requires p >= 1 && x > 0
    ensures BitAnd(x, 2 * p - 1) == x % 2 + 2 * BitAnd(x / 2, p - 1)
    ensures x % (2 * p) == x % 2 + 2 * (x / 2 % p)
  {
    ModOf(2 * p - 1, 2, p - 1, 1);
    var q, r := x / 2 / p, x / 2 % p;
    assert x / 2 == q * p + r;
    assert q * (2 * p) == 2 * (q * p);
    ModOf(x, 2 * p, q, 2 * r + x % 2);
  }

  /** The slot of a wrapped index is the unbounded index modulo the capacity,
      for every capacity that divides 2^32. */
  lemma SlotOfWrap(n: int, capacity: nat)
    requires IsCapacity(capacity)
    ensures 1 <= capacity <= 0x8000_0000
    ensures Slot(Wrap(n), capacity) == n % capacity
  {
    SlotOfIndex(Wrap(n), capacity);
    var k: nat :| k <= 31 && capacity == Pow2(k);
    Pow2Below(k);
    Pow2Divides(k, 32);
    ModOfMod(n, capacity, Pow2(32 - k));
  }

  lemma SlotOfIndex(i: Index, capacity: nat)
    requires IsCapacity(capacity)
    ensures 1 <= capacity <= 0x8000_0000
    ensures Slot(i, capacity) == i % capacity
  {
    var k: nat :| k <= 31 && capacity == Pow2(k);
    MaskIsMod(i, k);
    Pow2Below(k);
  }

  lemma ModOfMod(n: int, c: nat, f: nat)
    requires c > 0 && f > 0 && f * c == MODULUS
    ensures n % MODULUS % c == n % c
  {
    var m := n % MODULUS;
    var a := n / MODULUS;
    assert a * MODULUS == a * f * c by {
      assert a * f * c == a * (f * c);
    }
    assert (a * f + m / c) * c == a * f * c + m / c * c;
    ModOf(n, c, a * f + m / c, m % c);
  }

  /** Indices less than one capacity apart never share a slot. */
  lemma SlotsDiffer(a: int, b: int, capacity: int)
    requires 0 < capacity && a < b < a + capacity
    ensures a % capacity != b % capacity
  {
    if a % capacity == b % capacity {
      var q := b / capacity - a / capacity;
      assert q * capacity == b / capacity * capacity - a / capacity * capacity == b - a;
      SmallMultiple(q, capacity);
    }
  }

  /** Walking one index on is walking one slot on, around the ring. */
  lemma ModNext(n: int, capacity: nat)
    requires capacity > 0
    ensures (n + 1) % capacity == if n % capacity + 1 == capacity then 0 else n % capacity + 1
  {
    var q := n / capacity;
    assert n == q * capacity + n % capacity;
    if n % capacity + 1 == capacity {
      assert (q + 1) * capacity == q * capacity + capacity;
      ModOf(n + 1, capacity, q + 1, 0);
    } else {
      ModOf(n + 1, capacity, q, n % capacity + 1);
    }
  }

  // ----- The notification test -----

  /** What a commit computes to decide whether publishing `now` instead of
      `last` must be notified. */
  predicate CommitTest(now: Index, last: Index, limit: Index) {
    Sub(now, last) > Sub(limit, last)
  }

  /** The test holds exactly when `limit` is one of the indices that are walked
      from `last` up to but excluding `now`, modulo 2^32. */
  lemma CommitTestIffPassed(now: Index, last: Index, limit: Index)
    ensures CommitTest(now, last, limit)
       <==> exists k: Index :: k < Sub(now, last) && Add(last, k) == limit
  {
    assert Add(last, Sub(limit, last)) == limit;
    assert forall k: Index :: Sub(Add(last, k), last) == k;
  }

  /** An unbounded index with the same 32-bit image as `n`. */
  function Turn(n: int, k: int): int { n + k * MODULUS }

  /** On unbounded indices: the test holds exactly if the limit, or an index that
      looks like it in 32 bits, lies between. A limit that was not renewed for 2^32
      messages can therefore ring without need. */
  lemma CommitTestExactly(now: int, last: int, limit: int)
    requires last <= now < last + MODULUS
    ensures CommitTest(Wrap(now), Wrap(last), Wrap(limit)) <==> exists k :: last <= Turn(limit, k) < now
  {
    Distance(now, last);
    SubWrap(limit, last);
    var q := (limit - last) / MODULUS;
    var r := (limit - last) % MODULUS;
    assert Turn(limit, -q) == last + r;
    forall k | last <= Turn(limit, k) < now
      ensures Turn(limit, k) == last + r
    {
      EuclidUnique(MODULUS, q, r, -k, Turn(limit, k) - last);
    }
  }

  /** On unbounded indices: publishing `now` after `last` passes every limit in
      between, and no other limit that is less than 2^32 ahead of `last`, or
      behind it by at most half that. */
  lemma CommitTestUnbounded(now: int, last: int, limit: int)
    requires last <= now <= last + 0x8000_0000
    requires last - 0x8000_0000 <= limit < last + MODULUS
    ensures CommitTest(Wrap(now), Wrap(last), Wrap(limit)) <==> last <= limit < now
  {
    Distance(now, last);
    if last <= limit {
      Distance(limit, last);
    } else {
      Distance(limit + MODULUS, last);
      WrapShift(limit, 1);
    }
  }
}
