/** Copying runs of messages into and out of a ring whose slots are reached
    through masked indices: at most two contiguous copies, which must amount to
    visiting the slots one after the other. */
module BulkCopy {
  import opened Index32

  // ----- One slot after the other -----

  /** The ring after storing `msgs` one by one from index `begin` on. */
  function Stored<T>(ring: seq<T>, begin: Index, msgs: seq<T>): (r: seq<T>)
    requires |ring| > 0
    ensures |r| == |ring|
    decreases |msgs|
  {
    if msgs == [] then ring
    else
      SlotInBounds(begin, |ring|);
      Stored(ring[Slot(begin, |ring|) := msgs[0]], Add(begin, 1), msgs[1..])
  }

  /** The `n` messages read one by one from index `begin` on. */
  function Loaded<T>(ring: seq<T>, begin: Index, n: nat): (r: seq<T>)
    requires |ring| > 0
    ensures |r| == n
    decreases n
  {
    if n == 0 then []
    else
      SlotInBounds(begin, |ring|);
      [ring[Slot(begin, |ring|)]] + Loaded(ring, Add(begin, 1), n - 1)
  }

  lemma {:induction false} AndBounded(a: nat, b: nat)
    ensures BitAnd(a, b) <= b
    decreases a
  {
    if a > 0 && b > 0 {
      AndBounded(a / 2, b / 2);
    }
  }

  /** A masked index stays within the ring, whatever the index. */
  lemma SlotInBounds(i: Index, capacity: nat)
    requires capacity > 0
    ensures Slot(i, capacity) < capacity
  {
    AndBounded(i, capacity - 1);
  }

  // ----- The two contiguous pieces -----

  /** How many slots behind `from`, walking up and around, slot `s` lies. */
  function Offset(s: nat, from: nat, capacity: nat): (d: nat)
    requires s < capacity && from < capacity
    ensures d < capacity
  {
    if s >= from then s - from else s + capacity - from
  }

  /** The slot `d` places behind `from`, walking up and around. */
  function Around(from: nat, d: nat, capacity: nat): (s: nat)
    requires d < capacity && from < capacity
    ensures s < capacity && Offset(s, from, capacity) == d
  {
    if from + d < capacity then from + d else from + d - capacity
  }

  lemma NextSlot(i: Index, capacity: nat)
    requires IsCapacity(capacity)
    ensures 0 < capacity && Slot(i, capacity) < capacity
    ensures Slot(Add(i, 1), capacity) == if Slot(i, capacity) + 1 == capacity then 0 else Slot(i, capacity) + 1
  {
    SlotOfIndex(i, capacity);
    SlotOfWrap(i + 1, capacity);
    AddWrap(i, 1);
    WrapIndex(i);
    ModNext(i, capacity);
    SlotInBounds(i, capacity);
  }

  /** Storing at most one ringful puts message `d` into the slot `d` places
      behind the first and leaves every other slot alone. */
  lemma {:induction false} StoredAt<T>(ring: seq<T>, begin: Index, msgs: seq<T>)
    requires IsCapacity(|ring|) && |msgs| <= |ring|
    ensures |ring| > 0 && Slot(begin, |ring|) < |ring|
    ensures forall s :: 0 <= s < |ring| ==>
              var d := Offset(s, Slot(begin, |ring|), |ring|);
              Stored(ring, begin, msgs)[s] == if d < |msgs| then msgs[d] else ring[s]
    decreases |msgs|
  {
    NextSlot(begin, |ring|);
    if msgs != [] {
      var b := Slot(begin, |ring|);
      StoredAt(ring[b := msgs[0]], Add(begin, 1), msgs[1..]);
    }
  }

  lemma {:induction false} LoadedAt<T>(ring: seq<T>, begin: Index, n: nat)
    requires IsCapacity(|ring|) && n <= |ring|
    ensures |ring| > 0 && Slot(begin, |ring|) < |ring|
    ensures forall d :: 0 <= d < n ==> Loaded(ring, begin, n)[d] == ring[Around(Slot(begin, |ring|), d, |ring|)]
    decreases n
  {
    NextSlot(begin, |ring|);
    if n > 0 {
      LoadedAt(ring, Add(begin, 1), n - 1);
    }
  }

  /** Whatever was stored, up to one ringful, is loaded back in order. */
  lemma RoundTrip<T>(ring: seq<T>, begin: Index, msgs: seq<T>)
    requires IsCapacity(|ring|) && |msgs| <= |ring|
    ensures |ring| > 0
    ensures Loaded(Stored(ring, begin, msgs), begin, |msgs|) == msgs
  {
    StoredAt(ring, begin, msgs);
    LoadedAt(Stored(ring, begin, msgs), begin, |msgs|);
  }

  /** A logical range as two runs of slots, of which the second starts at 0. */
  datatype Range = Range(fstBegin: nat, fstCount: nat, sndCount: nat)
  {
    function Slots(): seq<nat> {
      seq(fstCount, i requires 0 <= i => fstBegin + i) + seq(sndCount, i requires 0 <= i => i)
    }
  }

  function Ranges(capacity: nat, begin: Index, end: Index): Range
    requires capacity > 0
  {
    var b := Slot(begin, capacity);
    SlotInBounds(begin, capacity);
    var rem := capacity - b;
    var count := Sub(end, begin);
    if count <= rem then Range(b, count, 0) else Range(b, rem, count - rem)
  }

  lemma {:induction false} SlotAround(begin: Index, d: nat, capacity: nat)
    requires IsCapacity(capacity) && d < capacity
    ensures Slot(begin, capacity) < capacity
    ensures Slot(Wrap(begin + d), capacity) == Around(Slot(begin, capacity), d, capacity)
    decreases d
  {
    SlotInBounds(begin, capacity);
    WrapIndex(begin);
    if d > 0 {
      var before := Wrap(begin + d - 1);
      SlotAround(begin, d - 1, capacity);
      NextSlot(before, capacity);
      assert Add(before, 1) == Wrap(begin + d) by { AddWrap(begin + d - 1, 1); }
    }
  }

  /** The two runs list the slots of the indices `begin`, `begin + 1`, ... in
      order, also where the indices or the slots wrap around. */
  lemma RangesInOrder(capacity: nat, begin: Index, end: Index)
    requires IsCapacity(capacity) && Sub(end, begin) <= capacity
    ensures capacity > 0
    ensures var slots := Ranges(capacity, begin, end).Slots();
            && |slots| == Sub(end, begin)
            && forall i :: 0 <= i < |slots| ==> slots[i] == Slot(Wrap(begin + i), capacity)
  {
    SlotOfIndex(begin, capacity);
    var slots := Ranges(capacity, begin, end).Slots();
    forall i | 0 <= i < |slots|
      ensures slots[i] == Slot(Wrap(begin + i), capacity)
    {
      SlotAround(begin, i, capacity);
    }
  }

  function Min(a: nat, b: nat): nat { if a < b then a else b }

  /** A ring whose slots are what storing makes them is what storing makes. */
  lemma StoredIfAt<T>(before: seq<T>, after: seq<T>, begin: Index, msgs: seq<T>)
    requires IsCapacity(|before|) && |msgs| <= |before| == |after| && |before| > 0
    requires Slot(begin, |before|) < |before|
    requires forall s :: 0 <= s < |after| ==>
               var d := Offset(s, Slot(begin, |before|), |before|);
               after[s] == if d < |msgs| then msgs[d] else before[s]
    ensures after == Stored(before, begin, msgs)
  {
    StoredAt(before, begin, msgs);
    hide IsCapacity, Slot, Stored;
  }

  lemma LoadedIfAt<T>(ring: seq<T>, begin: Index, msgs: seq<T>)
    requires IsCapacity(|ring|) && |msgs| <= |ring| && |ring| > 0 && Slot(begin, |ring|) < |ring|
    requires forall d :: 0 <= d < |msgs| ==> msgs[d] == ring[Around(Slot(begin, |ring|), d, |ring|)]
    ensures msgs == Loaded(ring, begin, |msgs|)
  {
    LoadedAt(ring, begin, |msgs|);
    hide IsCapacity, Slot, Loaded;
  }

  /** The standard block copy. */
  method Copy<T>(target: array<T>, to: nat, source: array<T>, from: nat, n: nat)
    requires target != source && to + n <= target.Length && from + n <= source.Length
    modifies target
    ensures forall i :: 0 <= i < target.Length ==>
              target[i] == if to <= i < to + n then source[from + i - to] else old(target[i])
  {
    forall i | 0 <= i < n {
      target[to + i] := source[from + i];
    }
  }

  /** Copies up to `count` messages into the window [`begin`, `end`) of the
      ring and returns how many were copied. */
  method CopyToRing<T>(ring: array<T>, begin: Index, end: Index, msgs: array<T>, count: Index)
    returns (n: Index)
    requires ring != msgs && IsCapacity(ring.Length)
    requires Sub(end, begin) <= ring.Length && count <= msgs.Length
    modifies ring
    ensures n == Min(count, Sub(end, begin))
    ensures ring.Length > 0 && ring[..] == Stored(old(ring[..]), begin, msgs[..n])
  {
    n := count;
    if n > Sub(end, begin) {
      n := Sub(end, begin);
    }
    SlotOfIndex(begin, ring.Length);
    SlotInBounds(begin, ring.Length);
    var masked := Slot(begin, ring.Length);
    var rem := ring.Length - masked;
    hide IsCapacity, Slot, Stored;
    if n <= rem {
      Copy(ring, masked, msgs, 0, n);
    } else {
      Copy(ring, masked, msgs, 0, rem);
      Copy(ring, 0, msgs, rem, n - rem);
    }
    StoredIfAt(old(ring[..]), ring[..], begin, msgs[..n]);
  }

  /** Copies up to `count` messages out of the window [`begin`, `end`) of the
      ring and returns how many were copied. */
  method CopyFromRing<T>(msgs: array<T>, count: Index, ring: array<T>, begin: Index, end: Index)
    returns (n: Index)
    requires ring != msgs && IsCapacity(ring.Length)
    requires Sub(end, begin) <= ring.Length && count <= msgs.Length
    modifies msgs
    ensures n == Min(count, Sub(end, begin))
    ensures n <= msgs.Length && ring.Length > 0
    ensures msgs[..n] == Loaded(ring[..], begin, n) && msgs[n..] == old(msgs[n..])
  {
    n := count;
    if n > Sub(end, begin) {
      n := Sub(end, begin);
    }
    SlotOfIndex(begin, ring.Length);
    SlotInBounds(begin, ring.Length);
    var masked := Slot(begin, ring.Length);
    var rem := ring.Length - masked;
    hide IsCapacity, Slot, Loaded;
    if n <= rem {
      Copy(msgs, 0, ring, masked, n);
    } else {
      Copy(msgs, 0, ring, masked, rem);
      Copy(msgs, rem, ring, 0, n - rem);
    }
    LoadedIfAt(ring[..], begin, msgs[..n]);
  }
}
