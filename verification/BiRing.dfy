/** The two ends of a bidirectional ring, in which the server replaces the
    client's requests with responses. As in UniRing, what an atomic load of the
    peer's word returns is a parameter. */
module BiRing {
  import opened Index32
  import opened Capacity
  import opened BulkCopy

  /** What a slot was last written as; reading it as the other kind is possible. */
  datatype Cell<Req, Rsp> = AsRequest(request: Req) | AsResponse(response: Rsp)

  /** The client's `cons` and `consEnd` are positioned one capacity ahead. */
  datatype PrivateVars = PrivateVars(capacity: Index, prod: Index, lastPublished: Index, cons: Index, consEnd: Index)
  {
    /** The client may consume up to the server's index, unless that is beyond
        what the client itself published. */
    function ClientSee(sprod: Index): PrivateVars {
      var realCons := Sub(cons, capacity);
      if Sub(sprod, realCons) <= Sub(lastPublished, realCons) then this.(consEnd := Add(sprod, capacity)) else this
    }

    /** The server may consume up to the client's index, unless that is more than
        one capacity beyond what the server itself published. */
    function ServerSee(cprod: Index): PrivateVars {
      if Sub(cprod, cons) <= Sub(Add(lastPublished, capacity), cons) then this.(consEnd := cprod) else this
    }

    predicate HasMessages() { consEnd != cons }

    predicate HasRoom() { prod != cons }

    function ClientLimit(): Index { Sub(consEnd, capacity) }

    function ServerLimit(): Index { consEnd }

    function AdvanceProd(): PrivateVars { this.(prod := Add(prod, 1)) }

    function AdvanceCons(): PrivateVars { this.(cons := Add(cons, 1)) }

    function Publish(): PrivateVars { this.(lastPublished := prod) }
  }

  class Shared<Req, Rsp> {
    var cprod: Index
    var sprodLimit: Index
    var sprod: Index
    var cprodLimit: Index
    const slots: array<Cell<Req, Rsp>>

    constructor (slots: array<Cell<Req, Rsp>>)
      ensures this.slots == slots
      ensures cprod == sprodLimit == sprod == cprodLimit == 0
    {
      this.slots := slots;
      cprod, sprodLimit, sprod, cprodLimit := 0, 0, 0, 0;
    }
  }

  class Client<Req, Rsp> {
    var capacity: Index
    var prod: Index
    var lastPublishedProd: Index
    var cons: Index
    var consEnd: Index
    const shared: Shared<Req, Rsp>

    ghost function Vars(): PrivateVars
      reads this
    {
      PrivateVars(capacity, prod, lastPublishedProd, cons, consEnd)
    }

    ghost predicate Valid()
      reads this
    {
      capacity > 0 && shared.slots.Length == capacity
    }

    constructor (shared: Shared<Req, Rsp>, layout: Layout, size: nat)
      requires layout.slot > 0 && shared.slots.Length == SizeToCapacity(layout, size)
      ensures this.shared == shared && capacity == SizeToCapacity(layout, size)
      ensures Vars() == PrivateVars(capacity, 0, 0, capacity, capacity)
      ensures CapacityToSize(layout, 1) <= size <==> capacity != 0
      ensures capacity != 0 ==> Valid()
    {
      SizeToCapacityLargest(layout, size);
      CapacityIsIndex(layout, size);
      var c := SizeToCapacity(layout, size);
      capacity, prod, lastPublishedProd, cons, consEnd := c, 0, 0, c, c;
      this.shared := shared;
    }

    method CheckoutHelper(sprodLoaded: Index) returns (more: bool)
      modifies this`consEnd
      ensures Vars() == old(Vars()).ClientSee(sprodLoaded) && more == Vars().HasMessages()
    {
      var realCons := Sub(cons, capacity);
      if Sub(sprodLoaded, realCons) <= Sub(lastPublishedProd, realCons) {
        consEnd := Add(sprodLoaded, capacity);
      }
      more := consEnd != cons;
    }

    method Checkout(first: Index, second: Index) returns (more: bool)
      modifies this`consEnd, shared`sprodLimit
      ensures var once := old(Vars()).ClientSee(first);
              if once.HasMessages() then
                more && Vars() == once && shared.sprodLimit == old(shared.sprodLimit)
              else
                && Vars() == once.ClientSee(second) && more == Vars().HasMessages()
                && shared.sprodLimit == once.ClientLimit()
    {
      more := CheckoutHelper(first);
      if more {
        return;
      }
      shared.sprodLimit := Sub(consEnd, capacity);
      more := CheckoutHelper(second);
    }

    /** The slot's content is returned as it is found there. */
    method Consume(unused: Cell<Req, Rsp>) returns (ok: bool, cell: Cell<Req, Rsp>)
      requires Valid()
      modifies this`cons
      ensures Valid() && ok == old(Vars()).HasMessages()
      ensures Vars() == if ok then old(Vars()).AdvanceCons() else old(Vars())
      ensures [cell] == if ok then Loaded(shared.slots[..], old(cons), 1) else [unused]
    {
      SlotInBounds(cons, capacity);
      if cons == consEnd {
        return false, unused;
      }
      assert Loaded(shared.slots[..], Add(cons, 1), 0) == [];
      cell := shared.slots[Slot(cons, capacity)];
      cons := Add(cons, 1);
      ok := true;
    }

    method Produce(req: Req) returns (ok: bool)
      requires Valid()
      modifies this`prod, shared.slots
      ensures Valid() && ok == old(Vars()).HasRoom()
      ensures Vars() == if ok then old(Vars()).AdvanceProd() else old(Vars())
      ensures shared.slots[..] ==
              if ok then Stored(old(shared.slots[..]), old(prod), [AsRequest(req)]) else old(shared.slots[..])
    {
      if prod == cons {
        return false;
      }
      SlotInBounds(prod, capacity);
      shared.slots[Slot(prod, capacity)] := AsRequest(req);
      prod := Add(prod, 1);
      ok := true;
    }

    method Commit(limit: Index) returns (notify: bool)
      modifies this`lastPublishedProd, shared`cprod
      ensures Vars() == old(Vars()).Publish()
      ensures if old(prod == lastPublishedProd) then !notify && shared.cprod == old(shared.cprod)
              else shared.cprod == prod && notify == CommitTest(prod, old(lastPublishedProd), limit)
    {
      var last := lastPublishedProd;
      if prod == last {
        return false;
      }
      shared.cprod := prod;
      lastPublishedProd := prod;
      notify := Sub(prod, last) > Sub(limit, last);
    }
  }

  class Server<Req, Rsp> {
    var capacity: Index
    var prod: Index
    var lastPublishedProd: Index
    var cons: Index
    var consEnd: Index
    const shared: Shared<Req, Rsp>

    ghost function Vars(): PrivateVars
      reads this
    {
      PrivateVars(capacity, prod, lastPublishedProd, cons, consEnd)
    }

    ghost predicate Valid()
      reads this
    {
      capacity > 0 && shared.slots.Length == capacity
    }

    constructor (shared: Shared<Req, Rsp>, layout: Layout, size: nat)
      requires layout.slot > 0 && shared.slots.Length == SizeToCapacity(layout, size)
      ensures this.shared == shared && capacity == SizeToCapacity(layout, size)
      ensures Vars() == PrivateVars(capacity, 0, 0, 0, 0)
      ensures CapacityToSize(layout, 1) <= size <==> capacity != 0
      ensures capacity != 0 ==> Valid()
    {
      SizeToCapacityLargest(layout, size);
      CapacityIsIndex(layout, size);
      capacity, prod, lastPublishedProd, cons, consEnd := SizeToCapacity(layout, size), 0, 0, 0, 0;
      this.shared := shared;
    }

    method CheckoutHelper(cprodLoaded: Index) returns (more: bool)
      modifies this`consEnd
      ensures Vars() == old(Vars()).ServerSee(cprodLoaded) && more == Vars().HasMessages()
    {
      if Sub(cprodLoaded, cons) <= Sub(Add(lastPublishedProd, capacity), cons) {
        consEnd := cprodLoaded;
      }
      more := consEnd != cons;
    }

    method Checkout(first: Index, second: Index) returns (more: bool)
      modifies this`consEnd, shared`cprodLimit
      ensures var once := old(Vars()).ServerSee(first);
              if once.HasMessages() then
                more && Vars() == once && shared.cprodLimit == old(shared.cprodLimit)
              else
                && Vars() == once.ServerSee(second) && more == Vars().HasMessages()
                && shared.cprodLimit == once.ServerLimit()
    {
      more := CheckoutHelper(first);
      if more {
        return;
      }
      shared.cprodLimit := consEnd;
      more := CheckoutHelper(second);
    }

    method Consume(unused: Cell<Req, Rsp>) returns (ok: bool, cell: Cell<Req, Rsp>)
      requires Valid()
      modifies this`cons
      ensures Valid() && ok == old(Vars()).HasMessages()
      ensures Vars() == if ok then old(Vars()).AdvanceCons() else old(Vars())
      ensures [cell] == if ok then Loaded(shared.slots[..], old(cons), 1) else [unused]
    {
      SlotInBounds(cons, capacity);
      if cons == consEnd {
        return false, unused;
      }
      assert Loaded(shared.slots[..], Add(cons, 1), 0) == [];
      cell := shared.slots[Slot(cons, capacity)];
      cons := Add(cons, 1);
      ok := true;
    }

    method Produce(rsp: Rsp) returns (ok: bool)
      requires Valid()
      modifies this`prod, shared.slots
      ensures Valid() && ok == old(Vars()).HasRoom()
      ensures Vars() == if ok then old(Vars()).AdvanceProd() else old(Vars())
      ensures shared.slots[..] ==
              if ok then Stored(old(shared.slots[..]), old(prod), [AsResponse(rsp)]) else old(shared.slots[..])
    {
      if prod == cons {
        return false;
      }
      SlotInBounds(prod, capacity);
      shared.slots[Slot(prod, capacity)] := AsResponse(rsp);
      prod := Add(prod, 1);
      ok := true;
    }

    method Commit(limit: Index) returns (notify: bool)
      modifies this`lastPublishedProd, shared`sprod
      ensures Vars() == old(Vars()).Publish()
      ensures if old(prod == lastPublishedProd) then !notify && shared.sprod == old(shared.sprod)
              else shared.sprod == prod && notify == CommitTest(prod, old(lastPublishedProd), limit)
    {
      var last := lastPublishedProd;
      if prod == last {
        return false;
      }
      shared.sprod := prod;
      lastPublishedProd := prod;
      notify := Sub(prod, last) > Sub(limit, last);
    }
  }

  // ----- Confinement, whatever the peer publishes -----

  /** What one side may do: check out, with an arbitrary value loaded from the peer;
      try to produce or to consume one message; publish its index. */
  datatype Action = See(loaded: Index) | Produce | Consume | Publish

  /** How many messages a side has produced, published and consumed, ever. */
  datatype Counts = Counts(made: nat, published: nat, taken: nat)

  /** A client (or a server) after one action. */
  function Act(v: PrivateVars, n: Counts, a: Action, client: bool): (PrivateVars, Counts) {
    match a
    case See(loaded) => (if client then v.ClientSee(loaded) else v.ServerSee(loaded), n)
    case Produce => if v.HasRoom() then (v.AdvanceProd(), n.(made := n.made + 1)) else (v, n)
    case Consume => if v.HasMessages() then (v.AdvanceCons(), n.(taken := n.taken + 1)) else (v, n)
    case Publish => (v.Publish(), n.(published := n.made))
  }

  function Run(v: PrivateVars, actions: seq<Action>, client: bool): (PrivateVars, Counts)
    decreases |actions|
  {
    if actions == [] then (v, Counts(0, 0, 0))
    else
      var n := |actions| - 1;
      var (w, counts) := Run(v, actions[..n], client);
      Act(w, counts, actions[n], client)
  }

  /** The client's window, from what it has consumed on: what it may consume is within
      what it has published, and what it has produced is at most one capacity. */
  predicate ClientConfined(v: PrivateVars, n: Counts) {
    var base := Sub(v.cons, v.capacity);
    && n.taken <= n.published <= n.made
    && Sub(v.ClientLimit(), base) <= Sub(v.lastPublished, base) <= Sub(v.prod, base) <= v.capacity
    && Sub(v.lastPublished, base) == n.published - n.taken && Sub(v.prod, base) == n.made - n.taken
  }

  /** The server's window, from what it has published on: what it has produced is
      within what it has consumed, and that with what it may consume is at most one
      capacity. */
  predicate ServerConfined(v: PrivateVars, n: Counts) {
    var base := v.lastPublished;
    && n.published <= n.made <= n.taken
    && Sub(v.prod, base) <= Sub(v.cons, base) <= Sub(v.ServerLimit(), base) <= v.capacity
    && Sub(v.prod, base) == n.made - n.published && Sub(v.cons, base) == n.taken - n.published
  }

  lemma ClientSees(v: PrivateVars, n: Counts, loaded: Index)
    requires ClientConfined(v, n)
    ensures ClientConfined(v.ClientSee(loaded), n)
  {
    assert Sub(Add(loaded, v.capacity), v.capacity) == loaded;
  }

  lemma ClientConsumes(v: PrivateVars, n: Counts)
    requires ClientConfined(v, n) && v.HasMessages()
    ensures ClientConfined(v.AdvanceCons(), n.(taken := n.taken + 1))
  {
    var base := Sub(v.cons, v.capacity);
    assert v.ClientLimit() != base;
    assert Sub(v.AdvanceCons().cons, v.capacity) == Add(base, 1);
    assert forall i: Index :: i != base ==> Sub(i, Add(base, 1)) == Sub(i, base) - 1;
  }

  lemma ClientProduces(v: PrivateVars, n: Counts)
    requires ClientConfined(v, n) && v.HasRoom()
    ensures ClientConfined(v.AdvanceProd(), n.(made := n.made + 1))
  {
    var base := Sub(v.cons, v.capacity);
    assert Sub(v.prod, base) < v.capacity;
    assert Sub(Add(v.prod, 1), base) == Sub(v.prod, base) + 1;
  }

  lemma ClientKeepsConfined(v: PrivateVars, n: Counts, a: Action)
    requires ClientConfined(v, n)
    ensures var (v', n') := Act(v, n, a, true); ClientConfined(v', n') && v'.capacity == v.capacity
  {
    match a
    case See(loaded) => ClientSees(v, n, loaded);
    case Produce => if v.HasRoom() { ClientProduces(v, n); }
    case Consume => if v.HasMessages() { ClientConsumes(v, n); }
    case Publish =>
  }

  lemma ServerSees(v: PrivateVars, n: Counts, loaded: Index)
    requires ServerConfined(v, n)
    ensures ServerConfined(v.ServerSee(loaded), n)
  {
    var ahead := Sub(v.cons, v.lastPublished);
    assert Sub(Add(v.lastPublished, v.capacity), v.cons) == v.capacity - ahead;
    assert Sub(loaded, v.cons) <= v.capacity - ahead ==> Sub(loaded, v.lastPublished) == Sub(loaded, v.cons) + ahead;
  }

  lemma ServerConsumes(v: PrivateVars, n: Counts)
    requires ServerConfined(v, n) && v.HasMessages()
    ensures ServerConfined(v.AdvanceCons(), n.(taken := n.taken + 1))
  {
    assert Sub(Add(v.cons, 1), v.lastPublished) == Sub(v.cons, v.lastPublished) + 1;
  }

  lemma ServerProduces(v: PrivateVars, n: Counts)
    requires ServerConfined(v, n) && v.HasRoom()
    ensures ServerConfined(v.AdvanceProd(), n.(made := n.made + 1))
  {
    assert Sub(Add(v.prod, 1), v.lastPublished) == Sub(v.prod, v.lastPublished) + 1;
  }

  lemma ServerPublishes(v: PrivateVars, n: Counts)
    requires ServerConfined(v, n)
    ensures ServerConfined(v.Publish(), n.(published := n.made))
  {
    var made := Sub(v.prod, v.lastPublished);
    assert forall i: Index :: made <= Sub(i, v.lastPublished) ==> Sub(i, v.prod) == Sub(i, v.lastPublished) - made;
  }

  lemma ServerKeepsConfined(v: PrivateVars, n: Counts, a: Action)
    requires ServerConfined(v, n)
    ensures var (v', n') := Act(v, n, a, false); ServerConfined(v', n') && v'.capacity == v.capacity
  {
    match a
    case See(loaded) => ServerSees(v, n, loaded);
    case Produce => if v.HasRoom() { ServerProduces(v, n); }
    case Consume => if v.HasMessages() { ServerConsumes(v, n); }
    case Publish => ServerPublishes(v, n);
  }

  /** Whatever values the server publishes, a client never consumes more responses
      than it has published requests, nor does a checkout permit it to, and never has
      more than one capacity of requests without a response. */
  lemma {:induction false} ClientAlwaysConfined(capacity: Index, actions: seq<Action>)
    ensures var (v, n) := Run(PrivateVars(capacity, 0, 0, capacity, capacity), actions, true);
            && ClientConfined(v, n) && v.capacity == capacity
            && n.taken + Sub(v.consEnd, v.cons) <= n.published <= n.made <= n.taken + capacity
            && (v.HasRoom() <==> n.made < n.taken + capacity)
    decreases |actions|
  {
    var start := PrivateVars(capacity, 0, 0, capacity, capacity);
    if actions != [] {
      var k := |actions| - 1;
      ClientAlwaysConfined(capacity, actions[..k]);
      var (v, n) := Run(start, actions[..k], true);
      ClientKeepsConfined(v, n, actions[k]);
      hide Act, ClientConfined;
    }
    var (v, n) := Run(start, actions, true);
    ClientCounts(v, n);
  }

  lemma ClientCounts(v: PrivateVars, n: Counts)
    requires ClientConfined(v, n)
    ensures n.taken + Sub(v.consEnd, v.cons) <= n.published <= n.made <= n.taken + v.capacity
    ensures v.HasRoom() <==> n.made < n.taken + v.capacity
  {
  }

  /** Whatever values the client publishes, a server never produces more responses than
      it has consumed requests, and has room exactly while it has produced fewer; and it
      never consumes, nor does a checkout permit it to, more than one capacity of
      requests beyond the responses that it has published. */
  lemma {:induction false} ServerAlwaysConfined(capacity: Index, actions: seq<Action>)
    ensures var (v, n) := Run(PrivateVars(capacity, 0, 0, 0, 0), actions, false);
            && ServerConfined(v, n) && v.capacity == capacity
            && n.published <= n.made <= n.taken
            && n.taken + Sub(v.consEnd, v.cons) <= n.published + capacity
            && (v.HasRoom() <==> n.made < n.taken)
    decreases |actions|
  {
    var start := PrivateVars(capacity, 0, 0, 0, 0);
    if actions != [] {
      var k := |actions| - 1;
      ServerAlwaysConfined(capacity, actions[..k]);
      var (v, n) := Run(start, actions[..k], false);
      ServerKeepsConfined(v, n, actions[k]);
      hide Act, ServerConfined;
    }
    var (v, n) := Run(start, actions, false);
    ServerCounts(v, n);
  }

  lemma ServerCounts(v: PrivateVars, n: Counts)
    requires ServerConfined(v, n)
    ensures n.published <= n.made <= n.taken && n.taken + Sub(v.consEnd, v.cons) <= n.published + v.capacity
    ensures v.HasRoom() <==> n.made < n.taken
  {
  }
}
