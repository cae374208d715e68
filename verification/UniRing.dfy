/** The two ends of a unidirectional ring, on 32-bit indices and a masked array.

    The peer may store to the shared structure at any time. What an atomic load
    of a peer's word returns is therefore a parameter of the functions and
    methods of this module, and nothing is assumed about it; module UniProtocol
    composes the two ends and says which values the loads then return. */
module UniRing {
  import opened Index32
  import opened Capacity
  import opened BulkCopy

  // ----- What each end keeps to itself, and how one step changes it -----

  datatype ProducerVars = ProducerVars(capacity: Index, prod: Index, lastPublished: Index, prodEnd: Index)
  {
    /** Checking out: produce up to one capacity beyond `cons`, unless `cons` is bogus. */
    function SeeCons(consLoaded: Index): ProducerVars {
      if Sub(prod, consLoaded) <= capacity then this.(prodEnd := Add(consLoaded, capacity)) else this
    }

    predicate HasRoom() { prodEnd != prod }

    function Free(): Index { Sub(prodEnd, prod) }

    /** The consumer index beyond which a full ring's producer wants to hear of progress. */
    function ConsLimit(): Index { Sub(prodEnd, capacity) }

    function Advance(n: Index): ProducerVars { this.(prod := Add(prod, n)) }

    function Publish(): ProducerVars { this.(lastPublished := prod) }

    /** The window that production is confined to is at most one capacity wide. */
    ghost predicate Confined() {
      IsCapacity(capacity) && Free() <= capacity
    }
  }

  datatype ConsumerVars = ConsumerVars(capacity: Index, cons: Index, lastPublished: Index, consEnd: Index)
  {
    /** Checking out: consume up to `prod`, unless `prod` is bogus. */
    function SeeProd(prodLoaded: Index): ConsumerVars {
      if Sub(prodLoaded, cons) <= capacity then this.(consEnd := prodLoaded) else this
    }

    predicate HasMessages() { consEnd != cons }

    function Unconsumed(): Index { Sub(consEnd, cons) }

    /** The producer index beyond which an empty ring's consumer wants to hear of progress. */
    function ProdLimit(): Index { consEnd }

    function Advance(n: Index): ConsumerVars { this.(cons := Add(cons, n)) }

    function Publish(): ConsumerVars { this.(lastPublished := cons) }

    ghost predicate Confined() {
      IsCapacity(capacity) && Unconsumed() <= capacity
    }
  }

  // ----- The ends as the driver runs them -----

  /** The shared structure. */
  class Shared<T> {
    var prod: Index
    var consLimit: Index
    var cons: Index
    var prodLimit: Index
    const slots: array<T>

    constructor (slots: array<T>)
      ensures this.slots == slots
      ensures prod == 0 && cons == 0 && prodLimit == 0
      ensures consLimit == Sub(0, 1)
    {
      this.slots := slots;
      prod, consLimit, cons, prodLimit := 0, MODULUS - 1, 0, 0;
    }
  }

  class Producer<T> {
    var capacity: Index
    var prod: Index
    var lastPublishedProd: Index
    var prodEnd: Index
    const shared: Shared<T>

    ghost function Vars(): ProducerVars
      reads this
    {
      ProducerVars(capacity, prod, lastPublishedProd, prodEnd)
    }

    ghost predicate Valid()
      reads this
    {
      Vars().Confined() && shared.slots.Length == capacity
    }

    /** Initialisation succeeds iff `capacity` ends up non-zero. */
    constructor (shared: Shared<T>, layout: Layout, size: nat)
      requires layout.slot > 0 && shared.slots.Length == SizeToCapacity(layout, size)
      ensures this.shared == shared && capacity == SizeToCapacity(layout, size)
      ensures prod == lastPublishedProd == 0 && Free() == capacity
      ensures CapacityToSize(layout, 1) <= size <==> capacity != 0
      ensures capacity != 0 ==> Valid()
    {
      SizeToCapacityLargest(layout, size);
      CapacityIsIndex(layout, size);
      var c := SizeToCapacity(layout, size);
      if c != 0 {
        SlotOfIndex(0, c);
      }
      capacity, prod, lastPublishedProd, prodEnd := c, 0, 0, c;
      this.shared := shared;
    }

    function Free(): Index
      reads this
    {
      Sub(prodEnd, prod)
    }

    method CheckoutHelper(consLoaded: Index) returns (room: bool)
      requires Valid()
      modifies this`prodEnd
      ensures Valid() && Vars() == old(Vars()).SeeCons(consLoaded)
      ensures room == Vars().HasRoom()
    {
      SeeConsConfined(Vars(), consLoaded);
      if Sub(prod, consLoaded) <= capacity {
        prodEnd := Add(consLoaded, capacity);
      }
      room := prodEnd != prod;
    }

    /** `first` and `second` are what the two loads of the consumer's index return. */
    method Checkout(first: Index, second: Index) returns (room: bool)
      requires Valid()
      modifies this`prodEnd, shared`consLimit
      ensures Valid()
      ensures var once := old(Vars()).SeeCons(first);
              if once.HasRoom() then
                room && Vars() == once && shared.consLimit == old(shared.consLimit)
              else
                && Vars() == once.SeeCons(second) && room == Vars().HasRoom()
                && shared.consLimit == once.ConsLimit()
    {
      room := CheckoutHelper(first);
      if room {
        return;
      }
      shared.consLimit := Sub(prodEnd, capacity);
      room := CheckoutHelper(second);
    }

    method Produce(msg: T) returns (ok: bool)
      requires Valid()
      modifies this`prod, shared.slots
      ensures Valid() && ok == old(Vars()).HasRoom()
      ensures Vars() == if ok then old(Vars()).Advance(1) else old(Vars())
      ensures shared.slots[..] == if ok then Stored(old(shared.slots[..]), old(prod), [msg]) else old(shared.slots[..])
    {
      if prod == prodEnd {
        return false;
      }
      AdvanceConfined(Vars(), 1);
      SlotInBounds(prod, capacity);
      shared.slots[Slot(prod, capacity)] := msg;
      prod := Add(prod, 1);
      ok := true;
    }

    /** Copies, but leaves it to AdvanceN to register the production. */
    method ProduceN(msgs: array<T>, count: Index) returns (n: Index)
      requires Valid() && msgs != shared.slots && count <= msgs.Length
      modifies shared.slots
      ensures Vars() == old(Vars()) && n == Min(count, Free())
      ensures Valid() && shared.slots.Length > 0
      ensures shared.slots[..] == Stored(old(shared.slots[..]), prod, msgs[..n])
    {
      n := CopyToRing(shared.slots, prod, prodEnd, msgs, count);
    }

    method AdvanceN(count: Index)
      requires Valid() && count <= Free()
      modifies this`prod
      ensures Valid() && Vars() == old(Vars()).Advance(count)
    {
      AdvanceConfined(Vars(), count);
      prod := Add(prod, count);
    }

    /** `limit` is what the load of the consumer's limit, after the store of
        the index, returns. */
    method Commit(limit: Index) returns (notify: bool)
      modifies this`lastPublishedProd, shared`prod
      ensures Vars() == old(Vars()).Publish()
      ensures if old(prod == lastPublishedProd) then !notify && shared.prod == old(shared.prod)
              else shared.prod == prod && notify == CommitTest(prod, old(lastPublishedProd), limit)
    {
      var last := lastPublishedProd;
      if prod == last {
        return false;
      }
      shared.prod := prod;
      lastPublishedProd := prod;
      notify := Sub(prod, last) > Sub(limit, last);
    }
  }

  class Consumer<T> {
    var capacity: Index
    var cons: Index
    var lastPublishedCons: Index
    var consEnd: Index
    const shared: Shared<T>

    ghost function Vars(): ConsumerVars
      reads this
    {
      ConsumerVars(capacity, cons, lastPublishedCons, consEnd)
    }

    ghost predicate Valid()
      reads this
    {
      Vars().Confined() && shared.slots.Length == capacity
    }

    constructor (shared: Shared<T>, layout: Layout, size: nat)
      requires layout.slot > 0 && shared.slots.Length == SizeToCapacity(layout, size)
      ensures this.shared == shared && capacity == SizeToCapacity(layout, size)
      ensures cons == lastPublishedCons == 0 && Unconsumed() == 0
      ensures CapacityToSize(layout, 1) <= size <==> capacity != 0
      ensures capacity != 0 ==> Valid()
    {
      SizeToCapacityLargest(layout, size);
      CapacityIsIndex(layout, size);
      capacity, cons, lastPublishedCons, consEnd := SizeToCapacity(layout, size), 0, 0, 0;
      this.shared := shared;
    }

    function Unconsumed(): Index
      reads this
    {
      Sub(consEnd, cons)
    }

    method CheckoutHelper(prodLoaded: Index) returns (more: bool)
      requires Valid()
      modifies this`consEnd
      ensures Valid() && Vars() == old(Vars()).SeeProd(prodLoaded)
      ensures more == Vars().HasMessages()
    {
      if Sub(prodLoaded, cons) <= capacity {
        consEnd := prodLoaded;
      }
      more := consEnd != cons;
    }

    /** `first` and `second` are what the two loads of the producer's index return. */
    method Checkout(first: Index, second: Index) returns (more: bool)
      requires Valid()
      modifies this`consEnd, shared`prodLimit
      ensures Valid()
      ensures var once := old(Vars()).SeeProd(first);
              if once.HasMessages() then
                more && Vars() == once && shared.prodLimit == old(shared.prodLimit)
              else
                && Vars() == once.SeeProd(second) && more == Vars().HasMessages()
                && shared.prodLimit == once.ProdLimit()
    {
      more := CheckoutHelper(first);
      if more {
        return;
      }
      shared.prodLimit := consEnd;
      more := CheckoutHelper(second);
    }

    method Consume(unused: T) returns (ok: bool, msg: T)
      requires Valid()
      modifies this`cons
      ensures Valid() && ok == old(Vars()).HasMessages()
      ensures Vars() == if ok then old(Vars()).Advance(1) else old(Vars())
      ensures shared.slots.Length > 0
      ensures [msg] == if ok then Loaded(shared.slots[..], old(cons), 1) else [unused]
    {
      msg := unused;
      SlotInBounds(cons, capacity) by { SlotOfIndex(cons, capacity); }
      if cons == consEnd {
        return false, msg;
      }
      TakeConfined(Vars(), 1);
      assert Loaded(shared.slots[..], Add(cons, 1), 0) == [];
      msg := shared.slots[Slot(cons, capacity)];
      cons := Add(cons, 1);
      ok := true;
    }

    /** Copies, but leaves it to AdvanceN to register the consumption. */
    method ConsumeN(msgs: array<T>, count: Index) returns (n: Index)
      requires Valid() && msgs != shared.slots && count <= msgs.Length
      modifies msgs
      ensures Vars() == old(Vars()) && n == Min(count, Unconsumed())
      ensures Valid() && shared.slots.Length > 0
      ensures msgs[..n] == Loaded(shared.slots[..], cons, n) && msgs[n..] == old(msgs[n..])
    {
      n := CopyFromRing(msgs, count, shared.slots, cons, consEnd);
    }

    method AdvanceN(count: Index)
      requires Valid() && count <= Unconsumed()
      modifies this`cons
      ensures Valid() && Vars() == old(Vars()).Advance(count)
    {
      TakeConfined(Vars(), count);
      cons := Add(cons, count);
    }

    method Commit(limit: Index) returns (notify: bool)
      modifies this`lastPublishedCons, shared`cons
      ensures Vars() == old(Vars()).Publish()
      ensures if old(cons == lastPublishedCons) then !notify && shared.cons == old(shared.cons)
              else shared.cons == cons && notify == CommitTest(cons, old(lastPublishedCons), limit)
    {
      var last := lastPublishedCons;
      if cons == last {
        return false;
      }
      shared.cons := cons;
      lastPublishedCons := cons;
      notify := Sub(cons, last) > Sub(limit, last);
    }
  }

  // ----- Confinement, whatever the peer publishes -----

  lemma SeeConsConfined(p: ProducerVars, consLoaded: Index)
    requires p.Confined()
    ensures p.SeeCons(consLoaded).Confined()
  {
  }

  lemma AdvanceConfined(p: ProducerVars, n: Index)
    requires p.Confined() && n <= p.Free()
    ensures p.Advance(n).Confined()
    ensures p.Advance(n).Free() == p.Free() - n
  {
  }

  lemma TakeConfined(c: ConsumerVars, n: Index)
    requires c.Confined() && n <= c.Unconsumed()
    ensures c.Advance(n).Confined()
    ensures c.Advance(n).Unconsumed() == c.Unconsumed() - n
  {
  }

  /** What one end may do: check out, with an arbitrary value loaded from the
      peer; try to produce (or consume) one message; publish its index. */
  datatype Action = See(loaded: Index) | Move | Publish

  /** A producer after `actions`, together with the number of messages it
      produced since it last checked out. */
  function ProducerRun(p: ProducerVars, actions: seq<Action>): (ProducerVars, nat)
    decreases |actions|
  {
    if actions == [] then (p, 0)
    else
      var n := |actions| - 1;
      var (q, made) := ProducerRun(p, actions[..n]);
      match actions[n]
      case See(loaded) => (q.SeeCons(loaded), 0)
      case Move => if q.HasRoom() then (q.Advance(1), made + 1) else (q, made)
      case Publish => (q.Publish(), made)
  }

  function ConsumerRun(c: ConsumerVars, actions: seq<Action>): (ConsumerVars, nat)
    decreases |actions|
  {
    if actions == [] then (c, 0)
    else
      var n := |actions| - 1;
      var (d, taken) := ConsumerRun(c, actions[..n]);
      match actions[n]
      case See(loaded) => (d.SeeProd(loaded), 0)
      case Move => if d.HasMessages() then (d.Advance(1), taken + 1) else (d, taken)
      case Publish => (d.Publish(), taken)
  }

  /** Whatever values the peer publishes, the producer stays confined: its
      window and what it produced since it last checked out are together at
      most one capacity. */
  lemma {:induction false} ProducerAlwaysConfined(p: ProducerVars, actions: seq<Action>)
    requires p.Confined()
    ensures var (q, made) := ProducerRun(p, actions);
            && q.Confined() && q.capacity == p.capacity
            && made + q.Free() <= q.capacity
    decreases |actions|
  {
    if actions != [] {
      var n := |actions| - 1;
      ProducerAlwaysConfined(p, actions[..n]);
      var (q, made) := ProducerRun(p, actions[..n]);
      match actions[n]
      case See(loaded) =>
        SeeConsConfined(q, loaded);
      case Move =>
        if q.HasRoom() {
          AdvanceConfined(q, 1);
        }
      case Publish =>
    }
  }

  lemma {:induction false} ConsumerAlwaysConfined(c: ConsumerVars, actions: seq<Action>)
    requires c.Confined()
    ensures var (d, taken) := ConsumerRun(c, actions);
            && d.Confined() && d.capacity == c.capacity
            && taken + d.Unconsumed() <= d.capacity
    decreases |actions|
  {
    if actions != [] {
      var n := |actions| - 1;
      ConsumerAlwaysConfined(c, actions[..n]);
      var (d, taken) := ConsumerRun(c, actions[..n]);
      match actions[n]
      case See(loaded) =>
      case Move =>
        if d.HasMessages() {
          TakeConfined(d, 1);
        }
      case Publish =>
    }
  }

  /** However confused the peer makes it, an end never leaves the array, and
      one checkout permits at most one capacity of productions. */
  lemma MaskedIndexInBounds(p: ProducerVars, c: ConsumerVars, actions: seq<Action>)
    requires p.Confined() && c.Confined()
    ensures var (q, made) := ProducerRun(p, actions);
            0 < q.capacity == p.capacity && Slot(q.prod, q.capacity) < q.capacity && made <= q.capacity
    ensures var (d, taken) := ConsumerRun(c, actions);
            0 < d.capacity == c.capacity && Slot(d.cons, d.capacity) < d.capacity && taken <= d.capacity
  {
    ProducerAlwaysConfined(p, actions);
    ConsumerAlwaysConfined(c, actions);
    SlotOfIndex(0, p.capacity);
    SlotOfIndex(0, c.capacity);
    SlotInBounds(ProducerRun(p, actions).0.prod, p.capacity);
    SlotInBounds(ConsumerRun(c, actions).0.cons, c.capacity);
  }

  // ----- Bulk production is repeated single production -----

  /** Trying to produce each of `msgs` in turn; also yields how many succeeded. */
  function ProduceEach<T>(p: ProducerVars, ring: seq<T>, msgs: seq<T>): (ProducerVars, seq<T>, nat)
    requires |ring| > 0
    decreases |msgs|
  {
    if msgs == [] || !p.HasRoom() then (p, ring, 0)
    else
      var (q, r, n) := ProduceEach(p.Advance(1), Stored(ring, p.prod, [msgs[0]]), msgs[1..]);
      (q, r, n + 1)
  }

  /** Copying in bulk and then advancing does what producing one message after
      the other does, until the messages or the free slots run out. */
  lemma {:induction false} BulkIsRepeated<T>(p: ProducerVars, ring: seq<T>, msgs: seq<T>)
    requires p.Confined() && |ring| == p.capacity
    ensures |ring| > 0
    ensures var n := Min(|msgs|, p.Free());
            ProduceEach(p, ring, msgs) == (p.Advance(n), Stored(ring, p.prod, msgs[..n]), n)
    decreases |msgs|
  {
    SlotOfIndex(0, p.capacity);
    var n := Min(|msgs|, p.Free());
    if msgs == [] || !p.HasRoom() {
      assert Add(p.prod, 0) == p.prod;
    } else {
      AdvanceConfined(p, 1);
      StoredOne(ring, p.prod, msgs[0]);
      BulkIsRepeated(p.Advance(1), Stored(ring, p.prod, [msgs[0]]), msgs[1..]);
      assert msgs[..n][1..] == msgs[1..][..n - 1];
    }
  }

  /** Trying to consume `count` messages one after the other. */
  function ConsumeEach<T>(c: ConsumerVars, ring: seq<T>, count: nat): (ConsumerVars, seq<T>)
    requires |ring| > 0
    decreases count
  {
    if count == 0 || !c.HasMessages() then (c, [])
    else
      var (d, msgs) := ConsumeEach(c.Advance(1), ring, count - 1);
      (d, Loaded(ring, c.cons, 1) + msgs)
  }

  /** Copying out in bulk and then advancing does what consuming one message after
      the other does, until enough are consumed or there are no more. */
  lemma {:induction false} BulkConsumptionIsRepeated<T>(c: ConsumerVars, ring: seq<T>, count: nat)
    requires c.Confined() && |ring| == c.capacity
    ensures |ring| > 0
    ensures var n := Min(count, c.Unconsumed());
            ConsumeEach(c, ring, count) == (c.Advance(n), Loaded(ring, c.cons, n))
    decreases count
  {
    SlotOfIndex(0, c.capacity);
    if count == 0 || !c.HasMessages() {
      assert Add(c.cons, 0) == c.cons;
    } else {
      TakeConfined(c, 1);
      BulkConsumptionIsRepeated(c.Advance(1), ring, count - 1);
      var n := Min(count, c.Unconsumed());
      LoadedFirst(ring, c.cons, n);
      assert c.Advance(1).Advance(n - 1) == c.Advance(n);
      hide Loaded, Slot;
    }
  }

  lemma LoadedFirst<T>(ring: seq<T>, i: Index, n: nat)
    requires |ring| > 0 && n > 0
    ensures Loaded(ring, i, n) == Loaded(ring, i, 1) + Loaded(ring, Add(i, 1), n - 1)
  {
    SlotInBounds(i, |ring|);
    var first := [ring[Slot(i, |ring|)]];
    assert Loaded(ring, i, 1) == first + Loaded(ring, Add(i, 1), 0) == first;
    assert Loaded(ring, i, n) == first + Loaded(ring, Add(i, 1), n - 1);
  }

  lemma StoredOne<T>(ring: seq<T>, i: Index, msg: T)
    requires |ring| > 0
    ensures Slot(i, |ring|) < |ring| && Stored(ring, i, [msg]) == ring[Slot(i, |ring|) := msg]
  {
    SlotInBounds(i, |ring|);
    assert [msg][1..] == [];
  }
}
