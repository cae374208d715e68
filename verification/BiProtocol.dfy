/** The bidirectional ring as two concurrent actors, stepwise, with its history
    of unbounded indices: see UniProtocol, whose conventions this module follows. */
module BiProtocol {
  import opened Index32
  import opened BulkCopy
  import opened BiRing

  datatype Pc = Rest | AtLimit | AtRecheck | AtBell(last: Index)

  datatype Machine<Req, Rsp> = Machine(
    cprod: Index, sprodLimit: Index, sprod: Index, cprodLimit: Index, slots: seq<Cell<Req, Rsp>>,  // shared
    k: PrivateVars, kpc: Pc,  // client
    s: PrivateVars, spc: Pc)  // server

  datatype Step<Req, Rsp> =
    | KCheck | KSetLimit | KRecheck | KConsume | KProduce(req: Req) | KStore | KBell
    | SCheck | SSetLimit | SRecheck | SConsume | SProduce(rsp: Rsp) | SStore | SBell

  ghost predicate MachineInit<Req, Rsp>(m: Machine<Req, Rsp>, capacity: nat) {
    && IsCapacity(capacity) && |m.slots| == capacity < MODULUS
    && m.cprod == m.sprodLimit == m.sprod == m.cprodLimit == 0
    && m.k == PrivateVars(capacity, 0, 0, capacity, capacity) && m.kpc == Rest
    && m.s == PrivateVars(capacity, 0, 0, 0, 0) && m.spc == Rest
  }

  predicate Enabled<Req, Rsp>(m: Machine<Req, Rsp>, step: Step<Req, Rsp>) {
    match step
    case KCheck | KConsume | KProduce(_) | KStore => m.kpc == Rest
    case KSetLimit => m.kpc == AtLimit
    case KRecheck => m.kpc == AtRecheck
    case KBell => m.kpc.AtBell?
    case SCheck | SConsume | SProduce(_) | SStore => m.spc == Rest
    case SSetLimit => m.spc == AtLimit
    case SRecheck => m.spc == AtRecheck
    case SBell => m.spc.AtBell?
  }

  predicate Rings<Req, Rsp>(m: Machine<Req, Rsp>, step: Step<Req, Rsp>)
    requires Enabled(m, step)
  {
    match step
    case KBell => CommitTest(m.k.prod, m.kpc.last, m.cprodLimit)
    case SBell => CommitTest(m.s.prod, m.spc.last, m.sprodLimit)
    case _ => false
  }

  function Next<Req, Rsp>(m: Machine<Req, Rsp>, step: Step<Req, Rsp>): Machine<Req, Rsp>
    requires |m.slots| > 0 && Enabled(m, step)
  {
    match step
    case KCheck =>
      var k := m.k.ClientSee(m.sprod);
      m.(k := k, kpc := if k.HasMessages() then Rest else AtLimit)
    case KSetLimit => m.(sprodLimit := m.k.ClientLimit(), kpc := AtRecheck)
    case KRecheck => m.(k := m.k.ClientSee(m.sprod), kpc := Rest)
    case KConsume => if m.k.HasMessages() then m.(k := m.k.AdvanceCons()) else m
    case KProduce(req) =>
      if m.k.HasRoom() then
        SlotInBounds(m.k.prod, |m.slots|);
        m.(slots := m.slots[Slot(m.k.prod, |m.slots|) := AsRequest(req)], k := m.k.AdvanceProd())
      else m
    case KStore =>
      if m.k.prod == m.k.lastPublished then m
      else m.(cprod := m.k.prod, k := m.k.Publish(), kpc := AtBell(m.k.lastPublished))
    case KBell => m.(kpc := Rest)
    case SCheck =>
      var s := m.s.ServerSee(m.cprod);
      m.(s := s, spc := if s.HasMessages() then Rest else AtLimit)
    case SSetLimit => m.(cprodLimit := m.s.ServerLimit(), spc := AtRecheck)
    case SRecheck => m.(s := m.s.ServerSee(m.cprod), spc := Rest)
    case SConsume => if m.s.HasMessages() then m.(s := m.s.AdvanceCons()) else m
    case SProduce(rsp) =>
      if m.s.HasRoom() then
        SlotInBounds(m.s.prod, |m.slots|);
        m.(slots := m.slots[Slot(m.s.prod, |m.slots|) := AsResponse(rsp)], s := m.s.AdvanceProd())
      else m
    case SStore =>
      if m.s.prod == m.s.lastPublished then m
      else m.(sprod := m.s.prod, s := m.s.Publish(), spc := AtBell(m.s.lastPublished))
    case SBell => m.(spc := Rest)
  }

  /** The slot that consumption at index `i` reads. */
  function Taken<Req, Rsp>(m: Machine<Req, Rsp>, i: Index): Cell<Req, Rsp>
    requires |m.slots| > 0
  {
    SlotInBounds(i, |m.slots|);
    m.slots[Slot(i, |m.slots|)]
  }

  // ----- The history -----

  /** All requests and responses ever produced; how many of each were consumed
      (`served` requests by the server, `got` responses by the client); the
      published indices and the bounds, unbounded; and who waits. */
  datatype History<Req, Rsp> = History(
    requests: seq<Req>, responses: seq<Rsp>, served: nat, got: nat,
    pubC: nat, pubS: nat, kEnd: nat, sEnd: nat, kLast: nat, sLast: nat,
    kAsleep: bool, kRung: bool, sAsleep: bool, sRung: bool)

  datatype State<Req, Rsp> = State(m: Machine<Req, Rsp>, h: History<Req, Rsp>)

  function Record<Req, Rsp>(m: Machine<Req, Rsp>, h: History<Req, Rsp>, step: Step<Req, Rsp>): History<Req, Rsp>
    requires Enabled(m, step)
  {
    match step
    case KCheck => h.(kEnd := h.pubS, kAsleep := false)
    case KSetLimit | SSetLimit => h
    case KRecheck => h.(kEnd := h.pubS, kAsleep := h.pubS == h.got, kRung := false)
    case KConsume => if m.k.HasMessages() then h.(got := h.got + 1) else h
    case KProduce(req) => if m.k.HasRoom() then h.(requests := h.requests + [req]) else h
    case KStore => if m.k.prod == m.k.lastPublished then h else h.(kLast := h.pubC, pubC := |h.requests|)
    case KBell => h.(sRung := h.sRung || Rings(m, step))
    case SCheck => h.(sEnd := h.pubC, sAsleep := false)
    case SRecheck => h.(sEnd := h.pubC, sAsleep := h.pubC == h.served, sRung := false)
    case SConsume => if m.s.HasMessages() then h.(served := h.served + 1) else h
    case SProduce(rsp) => if m.s.HasRoom() then h.(responses := h.responses + [rsp]) else h
    case SStore => if m.s.prod == m.s.lastPublished then h else h.(sLast := h.pubS, pubS := |h.responses|)
    case SBell => h.(kRung := h.kRung || Rings(m, step))
  }

  ghost predicate Init<Req, Rsp>(st: State<Req, Rsp>, capacity: nat) {
    && MachineInit(st.m, capacity)
    // Both initial limits are as good as a checkout that found nothing.
    && st.h == History([], [], 0, 0, 0, 0, 0, 0, 0, 0, true, false, true, false)
  }

  // ----- The invariant -----

  ghost predicate Ordered<Req, Rsp>(h: History<Req, Rsp>, capacity: nat) {
    && h.got <= h.kEnd <= h.pubS <= |h.responses| <= h.served
    && h.served <= h.sEnd <= h.pubC <= |h.requests| <= h.got + capacity
  }

  ghost predicate Image<Req, Rsp>(m: Machine<Req, Rsp>, h: History<Req, Rsp>) {
    && m.cprod == m.k.lastPublished == Wrap(h.pubC)
    && m.sprod == m.s.lastPublished == Wrap(h.pubS)
    && m.k.prod == Wrap(|h.requests|) && m.k.cons == Wrap(h.got + |m.slots|) && m.k.consEnd == Wrap(h.kEnd + |m.slots|)
    && m.s.prod == Wrap(|h.responses|) && m.s.cons == Wrap(h.served) && m.s.consEnd == Wrap(h.sEnd)
  }

  /** Unconsumed responses and unconsumed requests, each in the slots of its
      own indices and marked as what it is. */
  ghost predicate Contents<Req, Rsp>(m: Machine<Req, Rsp>, h: History<Req, Rsp>)
    requires |m.slots| > 0
  {
    && (forall i :: h.got <= i < |h.responses| ==> m.slots[i % |m.slots|] == AsResponse(h.responses[i]))
    && (forall i :: h.served <= i < |h.requests| ==> m.slots[i % |m.slots|] == AsRequest(h.requests[i]))
  }

  ghost predicate ServerWaits<Req, Rsp>(m: Machine<Req, Rsp>, h: History<Req, Rsp>) {
    && (m.spc == AtLimit || m.spc == AtRecheck ==> !h.sAsleep && h.sEnd == h.served)
    && (m.spc == AtRecheck || h.sAsleep ==> h.sEnd == h.served && m.cprodLimit == Wrap(h.sEnd))
    && (h.sAsleep && h.sEnd < h.pubC ==> h.sRung || (m.kpc.AtBell? && h.kLast <= h.sEnd))
    && (m.kpc.AtBell? ==>
          m.kpc.last == Wrap(h.kLast) && h.kLast < h.pubC == |h.requests| && h.pubC - h.kLast <= |m.slots|)
  }

  ghost predicate ClientWaits<Req, Rsp>(m: Machine<Req, Rsp>, h: History<Req, Rsp>) {
    && (m.kpc == AtLimit || m.kpc == AtRecheck ==> !h.kAsleep && h.kEnd == h.got)
    && (m.kpc == AtRecheck || h.kAsleep ==> h.kEnd == h.got && m.sprodLimit == Wrap(h.kEnd))
    && (h.kAsleep && h.kEnd < h.pubS ==> h.kRung || (m.spc.AtBell? && h.sLast <= h.kEnd))
    && (m.spc.AtBell? ==>
          m.spc.last == Wrap(h.sLast) && h.sLast < h.pubS == |h.responses| && h.pubS - h.sLast <= |m.slots|)
  }

  ghost predicate Sized<Req, Rsp>(m: Machine<Req, Rsp>) {
    && IsCapacity(|m.slots|) && 0 < |m.slots| <= 0x8000_0000
    && m.k.capacity == m.s.capacity == |m.slots|
  }

  ghost predicate Inv<Req, Rsp>(st: State<Req, Rsp>) {
    && Sized(st.m)
    && Ordered(st.h, |st.m.slots|)
    && Image(st.m, st.h)
    && Contents(st.m, st.h)
    && ServerWaits(st.m, st.h)
    && ClientWaits(st.m, st.h)
  }

  function Do<Req, Rsp>(st: State<Req, Rsp>, step: Step<Req, Rsp>): State<Req, Rsp>
    requires |st.m.slots| > 0 && Enabled(st.m, step)
  {
    State(Next(st.m, step), Record(st.m, st.h, step))
  }

  lemma InitInv<Req, Rsp>(st: State<Req, Rsp>, capacity: nat)
    requires Init(st, capacity)
    ensures Inv(st)
  {
    SlotOfWrap(0, capacity);
  }

  lemma Readings<Req, Rsp>(st: State<Req, Rsp>)
    requires Inv(st)
    ensures st.m.k.HasRoom() <==> |st.h.requests| < st.h.got + |st.m.slots|
    ensures st.m.k.HasMessages() <==> st.h.got < st.h.kEnd
    ensures st.m.k.prod == st.m.k.lastPublished <==> |st.h.requests| == st.h.pubC
    ensures st.m.s.HasRoom() <==> |st.h.responses| < st.h.served
    ensures st.m.s.HasMessages() <==> st.h.served < st.h.sEnd
    ensures st.m.s.prod == st.m.s.lastPublished <==> |st.h.responses| == st.h.pubS
  {
    hide Contents, ServerWaits, ClientWaits, Wrap, Add, Sub;
    var h, n := st.h, |st.m.slots|;
    Distance(h.got + n, |h.requests|);
    Distance(h.kEnd + n, h.got + n);
    Distance(|h.requests|, h.pubC);
    Distance(h.served, |h.responses|);
    Distance(h.sEnd, h.served);
    Distance(|h.responses|, h.pubS);
  }

  /** A checkout always finds the peer's index plausible. */
  lemma ClientCheckoutExact<Req, Rsp>(st: State<Req, Rsp>)
    requires Inv(st)
    ensures st.m.k.ClientSee(st.m.sprod) == st.m.k.(consEnd := Wrap(st.h.pubS + |st.m.slots|))
    ensures st.m.k.ClientLimit() == Wrap(st.h.kEnd)
  {
    hide Contents, ServerWaits, ClientWaits, Wrap, Add, Sub;
    var h, n := st.h, |st.m.slots|;
    WrapIndex(n);
    SubWrap(h.got + n, n);
    Distance(h.pubS, h.got);
    Distance(h.pubC, h.got);
    AddWrap(h.pubS, n);
    SubWrap(h.kEnd + n, n);
  }

  lemma ServerCheckoutExact<Req, Rsp>(st: State<Req, Rsp>)
    requires Inv(st)
    ensures st.m.s.ServerSee(st.m.cprod) == st.m.s.(consEnd := Wrap(st.h.pubC))
  {
    hide Contents, ServerWaits, ClientWaits, Wrap, Add, Sub;
    var h, n := st.h, |st.m.slots|;
    WrapIndex(n);
    AddWrap(h.pubS, n);
    Distance(h.pubC, h.served);
    Distance(h.pubS + n, h.served);
  }

  /** Messages stay where they are while nothing is written. */
  lemma SameContents<Req, Rsp>(m: Machine<Req, Rsp>, h: History<Req, Rsp>, m': Machine<Req, Rsp>, h': History<Req, Rsp>)
    requires |m.slots| > 0 && Contents(m, h) && m'.slots == m.slots
    requires h'.requests == h.requests && h'.responses == h.responses && h.got <= h'.got && h.served <= h'.served
    ensures Contents(m', h')
  {
  }

  lemma ClientChecks<Req, Rsp>(st: State<Req, Rsp>)
    requires Inv(st) && st.m.kpc == Rest
    ensures Inv(Do(st, KCheck))
  {
    hide Contents, Wrap, Add, Sub;
    ClientCheckoutExact(st);
    Distance(st.h.pubS + |st.m.slots|, st.h.got + |st.m.slots|);
    SameContents(st.m, st.h, Do(st, KCheck).m, Do(st, KCheck).h);
  }

  lemma ClientSetsLimit<Req, Rsp>(st: State<Req, Rsp>)
    requires Inv(st) && st.m.kpc == AtLimit
    ensures Inv(Do(st, KSetLimit))
  {
    hide Contents, Wrap, Add, Sub;
    ClientCheckoutExact(st);
    SameContents(st.m, st.h, Do(st, KSetLimit).m, Do(st, KSetLimit).h);
  }

  lemma ClientRechecks<Req, Rsp>(st: State<Req, Rsp>)
    requires Inv(st) && st.m.kpc == AtRecheck
    ensures Inv(Do(st, KRecheck))
  {
    hide Contents, Wrap, Add, Sub;
    ClientCheckoutExact(st);
    SameContents(st.m, st.h, Do(st, KRecheck).m, Do(st, KRecheck).h);
  }

  lemma ServerChecks<Req, Rsp>(st: State<Req, Rsp>)
    requires Inv(st) && st.m.spc == Rest
    ensures Inv(Do(st, SCheck))
  {
    hide Contents, Wrap, Add, Sub;
    ServerCheckoutExact(st);
    Distance(st.h.pubC, st.h.served);
    SameContents(st.m, st.h, Do(st, SCheck).m, Do(st, SCheck).h);
  }

  lemma ServerSetsLimit<Req, Rsp>(st: State<Req, Rsp>)
    requires Inv(st) && st.m.spc == AtLimit
    ensures Inv(Do(st, SSetLimit))
  {
    hide Contents, Wrap, Add, Sub;
    ServerCheckoutExact(st);
    SameContents(st.m, st.h, Do(st, SSetLimit).m, Do(st, SSetLimit).h);
  }

  lemma ServerRechecks<Req, Rsp>(st: State<Req, Rsp>)
    requires Inv(st) && st.m.spc == AtRecheck
    ensures Inv(Do(st, SRecheck))
  {
    hide Contents, Wrap, Add, Sub;
    ServerCheckoutExact(st);
    SameContents(st.m, st.h, Do(st, SRecheck).m, Do(st, SRecheck).h);
  }

  /** Writing the slot of index `at` leaves the contents of any run of indices
      that `at` is less than one capacity away from alone. */
  lemma Elsewhere(capacity: nat, at: nat, lo: nat, hi: nat)
    requires capacity > 0 && lo <= hi
    requires (hi <= at && at < lo + capacity) || (at < lo && hi <= at + capacity)
    ensures forall i :: lo <= i < hi ==> i % capacity != at % capacity
  {
    forall i | lo <= i < hi
      ensures i % capacity != at % capacity
    {
      if i < at {
        SlotsDiffer(i, at, capacity);
      } else {
        SlotsDiffer(at, i, capacity);
      }
    }
  }

  lemma ClientWrites<Req, Rsp>(st: State<Req, Rsp>, req: Req)
    requires Inv(st) && st.m.kpc == Rest && st.m.k.HasRoom()
    ensures var st' := Do(st, KProduce(req)); |st'.m.slots| > 0 && Contents(st'.m, st'.h)
  {
    Readings(st);
    var h, n := st.h, |st.m.slots|;
    SlotOfWrap(|h.requests|, n);
    Elsewhere(n, |h.requests|, h.got, |h.responses|);
    Elsewhere(n, |h.requests|, h.served, |h.requests|);
    hide ServerWaits, ClientWaits;
  }

  lemma ClientProduces<Req, Rsp>(st: State<Req, Rsp>, req: Req)
    requires Inv(st) && st.m.kpc == Rest
    ensures Inv(Do(st, KProduce(req)))
  {
    hide Contents, Wrap, Add, Sub;
    Readings(st);
    if st.m.k.HasRoom() {
      AddWrap(|st.h.requests|, 1);
      WrapIndex(1);
      SlotInBounds(st.m.k.prod, |st.m.slots|);
      ClientWrites(st, req);
    }
  }

  lemma ServerWrites<Req, Rsp>(st: State<Req, Rsp>, rsp: Rsp)
    requires Inv(st) && st.m.spc == Rest && st.m.s.HasRoom()
    ensures var st' := Do(st, SProduce(rsp)); |st'.m.slots| > 0 && Contents(st'.m, st'.h)
  {
    Readings(st);
    var h, n := st.h, |st.m.slots|;
    SlotOfWrap(|h.responses|, n);
    Elsewhere(n, |h.responses|, h.got, |h.responses|);
    Elsewhere(n, |h.responses|, h.served, |h.requests|);
    hide ServerWaits, ClientWaits;
  }

  lemma ServerProduces<Req, Rsp>(st: State<Req, Rsp>, rsp: Rsp)
    requires Inv(st) && st.m.spc == Rest
    ensures Inv(Do(st, SProduce(rsp)))
  {
    hide Contents, Wrap, Add, Sub;
    Readings(st);
    if st.m.s.HasRoom() {
      AddWrap(|st.h.responses|, 1);
      WrapIndex(1);
      SlotInBounds(st.m.s.prod, |st.m.slots|);
      ServerWrites(st, rsp);
    }
  }

  lemma ClientConsumes<Req, Rsp>(st: State<Req, Rsp>)
    requires Inv(st) && st.m.kpc == Rest
    ensures Inv(Do(st, KConsume))
  {
    hide Contents, Wrap, Add, Sub;
    WrapIndex(1);
    Readings(st);
    AddWrap(st.h.got + |st.m.slots|, 1);
    SameContents(st.m, st.h, Do(st, KConsume).m, Do(st, KConsume).h);
  }

  lemma ServerConsumes<Req, Rsp>(st: State<Req, Rsp>)
    requires Inv(st) && st.m.spc == Rest
    ensures Inv(Do(st, SConsume))
  {
    hide Contents, Wrap, Add, Sub;
    WrapIndex(1);
    Readings(st);
    AddWrap(st.h.served, 1);
    SameContents(st.m, st.h, Do(st, SConsume).m, Do(st, SConsume).h);
  }

  /** What either end consumes is the oldest message of its kind, and is read
      from a slot that holds that kind. */
  lemma WhatIsTaken<Req, Rsp>(st: State<Req, Rsp>)
    requires Inv(st)
    ensures st.m.k.HasMessages() ==> Taken(st.m, st.m.k.cons) == AsResponse(st.h.responses[st.h.got])
    ensures st.m.s.HasMessages() ==> Taken(st.m, st.m.s.cons) == AsRequest(st.h.requests[st.h.served])
  {
    Readings(st);
    var h, n := st.h, |st.m.slots|;
    SlotOfWrap(h.got + n, n);
    SlotOfWrap(h.served, n);
    OnceAround(h.got, n);
  }

  lemma OnceAround(i: nat, n: nat)
    requires n > 0
    ensures (i + n) % n == i % n
  {
    assert (i / n + 1) * n == i / n * n + n;
    ModOf(i + n, n, i / n + 1, i % n);
  }

  lemma ClientStores<Req, Rsp>(st: State<Req, Rsp>)
    requires Inv(st) && st.m.kpc == Rest
    ensures Inv(Do(st, KStore))
  {
    hide Contents, Wrap, Add, Sub;
    Readings(st);
    SameContents(st.m, st.h, Do(st, KStore).m, Do(st, KStore).h);
  }

  lemma ServerStores<Req, Rsp>(st: State<Req, Rsp>)
    requires Inv(st) && st.m.spc == Rest
    ensures Inv(Do(st, SStore))
  {
    hide Contents, Wrap, Add, Sub;
    Readings(st);
    SameContents(st.m, st.h, Do(st, SStore).m, Do(st, SStore).h);
  }

  /** A commit rings a waiting peer exactly if it made the awaited index pass. */
  lemma RingsIffAwaited<Req, Rsp>(st: State<Req, Rsp>, step: Step<Req, Rsp>)
    requires Inv(st) && Enabled(st.m, step)
    ensures step.KBell? && (st.h.sAsleep || st.m.spc == AtRecheck) ==>
              (Rings(st.m, step) <==> st.h.kLast <= st.h.sEnd < st.h.pubC)
    ensures step.SBell? && (st.h.kAsleep || st.m.kpc == AtRecheck) ==>
              (Rings(st.m, step) <==> st.h.sLast <= st.h.kEnd < st.h.pubS)
  {
    var h := st.h;
    if step.KBell? && (h.sAsleep || st.m.spc == AtRecheck) {
      CommitTestUnbounded(h.pubC, h.kLast, h.sEnd);
    } else if step.SBell? && (h.kAsleep || st.m.kpc == AtRecheck) {
      CommitTestUnbounded(h.pubS, h.sLast, h.kEnd);
    }
  }

  lemma Bells<Req, Rsp>(st: State<Req, Rsp>, step: Step<Req, Rsp>)
    requires Inv(st) && Enabled(st.m, step) && (step.KBell? || step.SBell?)
    ensures Inv(Do(st, step))
  {
    hide Contents, Wrap, Add, Sub;
    RingsIffAwaited(st, step);
    SameContents(st.m, st.h, Do(st, step).m, Do(st, step).h);
  }

  lemma Preserved<Req, Rsp>(st: State<Req, Rsp>, step: Step<Req, Rsp>)
    requires Inv(st) && Enabled(st.m, step)
    ensures Inv(Do(st, step))
  {
    match step
    case KCheck => ClientChecks(st);
    case KSetLimit => ClientSetsLimit(st);
    case KRecheck => ClientRechecks(st);
    case SCheck => ServerChecks(st);
    case SSetLimit => ServerSetsLimit(st);
    case SRecheck => ServerRechecks(st);
    case KProduce(req) => ClientProduces(st, req);
    case SProduce(rsp) => ServerProduces(st, rsp);
    case KConsume => ClientConsumes(st);
    case SConsume => ServerConsumes(st);
    case KStore => ClientStores(st);
    case SStore => ServerStores(st);
    case KBell | SBell => Bells(st, step);
  }

  // ----- Runs -----

  datatype Run<Req, Rsp> = Run(states: seq<State<Req, Rsp>>, steps: seq<Step<Req, Rsp>>)

  ghost predicate IsRun<Req, Rsp>(r: Run<Req, Rsp>, capacity: nat) {
    && |r.states| == |r.steps| + 1
    && Init(r.states[0], capacity)
    && forall i :: 0 <= i < |r.steps| ==> StepAt(r, i)
  }

  ghost predicate StepAt<Req, Rsp>(r: Run<Req, Rsp>, i: nat)
    requires i < |r.steps| < |r.states|
  {
    Follows(r.states[i], r.steps[i], r.states[i + 1])
  }

  ghost predicate Follows<Req, Rsp>(st: State<Req, Rsp>, step: Step<Req, Rsp>, st': State<Req, Rsp>) {
    Sized(st.m) && Enabled(st.m, step) && st' == Do(st, step)
  }

  lemma {:induction false} RunInv<Req, Rsp>(r: Run<Req, Rsp>, capacity: nat, i: nat)
    requires IsRun(r, capacity) && i <= |r.steps|
    ensures Inv(r.states[i]) && |r.states[i].m.slots| == capacity
  {
    if i == 0 {
      InitInv(r.states[0], capacity);
    } else {
      RunInv(r, capacity, i - 1);
      assert StepAt(r, i - 1);
      StepInv(r.states[i - 1], r.steps[i - 1], r.states[i]);
    }
  }

  lemma StepInv<Req, Rsp>(st: State<Req, Rsp>, step: Step<Req, Rsp>, st': State<Req, Rsp>)
    requires Inv(st) && Follows(st, step, st')
    ensures Inv(st') && |st'.m.slots| == |st.m.slots|
  {
    Preserved(st, step);
    hide Image, Ordered, Contents, ServerWaits, ClientWaits;
  }

  /** In every reachable state the four indices, private and published, keep
      their order and span at most one capacity; unconsumed responses and
      requests sit in their slots as what they are. */
  lemma IndicesOrdered<Req, Rsp>(r: Run<Req, Rsp>, capacity: nat, i: nat)
    requires IsRun(r, capacity) && i <= |r.steps|
    ensures var h := r.states[i].h;
            && h.got <= h.kEnd <= h.pubS <= |h.responses| <= h.served
            && h.served <= h.sEnd <= h.pubC <= |h.requests| <= h.got + capacity
    ensures |r.states[i].m.slots| == capacity > 0
    ensures Image(r.states[i].m, r.states[i].h) && Contents(r.states[i].m, r.states[i].h)
  {
    RunInv(r, capacity, i);
  }

  /** Each consumption of a run returns the next message of the right kind: the
      n-th response to the client, the n-th request to the server. */
  lemma RightKind<Req, Rsp>(r: Run<Req, Rsp>, capacity: nat, i: nat)
    requires IsRun(r, capacity) && i < |r.steps|
    ensures |r.states[i].m.slots| > 0
    ensures var (m, h) := (r.states[i].m, r.states[i].h);
            && (r.steps[i].KConsume? && m.k.HasMessages() ==>
                  h.got < |h.responses| && Taken(m, m.k.cons) == AsResponse(h.responses[h.got]))
            && (r.steps[i].SConsume? && m.s.HasMessages() ==>
                  h.served < |h.requests| && Taken(m, m.s.cons) == AsRequest(h.requests[h.served]))
  {
    RunInv(r, capacity, i);
    assert StepAt(r, i);
    Readings(r.states[i]);
    WhatIsTaken(r.states[i]);
  }

  /** The server finds room for a response exactly as long as it has answered
      fewer requests than it consumed; so one that answers each request once
      never fails to. The client finds room for a request exactly as long as
      fewer than one capacity of its requests lack a consumed response. */
  lemma RoomIff<Req, Rsp>(r: Run<Req, Rsp>, capacity: nat, i: nat)
    requires IsRun(r, capacity) && i <= |r.steps|
    ensures r.states[i].m.s.HasRoom() <==> |r.states[i].h.responses| < r.states[i].h.served
    ensures r.states[i].m.k.HasRoom() <==> |r.states[i].h.requests| - r.states[i].h.got < capacity
  {
    RunInv(r, capacity, i);
    Readings(r.states[i]);
  }

  /** No slot that one end may write is one that the other may read or write. */
  lemma NoClobber<Req, Rsp>(r: Run<Req, Rsp>, capacity: nat, i: nat, j: nat, k: nat)
    requires IsRun(r, capacity) && i <= |r.steps|
    requires var h := r.states[i].h;
             || (|h.requests| <= j < h.got + capacity && h.got <= k < |h.requests|)
             || (|h.responses| <= j < h.served && (h.got <= k < |h.responses| || h.served <= k < h.got + capacity))
    ensures 1 <= capacity <= 0x8000_0000
    ensures Slot(Wrap(j), capacity) != Slot(Wrap(k), capacity)
  {
    RunInv(r, capacity, i);
    SlotOfWrap(j, capacity);
    SlotOfWrap(k, capacity);
    Elsewhere(capacity, j, k, k + 1);
  }

  /** If an end sleeps although something unconsumed is published for it, then a
      commit has returned since it fell asleep that it must be notified, or the
      commit in progress is bound to. */
  lemma NoLostWakeup<Req, Rsp>(r: Run<Req, Rsp>, capacity: nat, i: nat)
    requires IsRun(r, capacity) && i <= |r.steps|
    ensures var (m, h) := (r.states[i].m, r.states[i].h);
            h.sAsleep && h.served < h.pubC ==> h.sRung || (m.kpc.AtBell? && Rings(m, KBell))
    ensures var (m, h) := (r.states[i].m, r.states[i].h);
            h.kAsleep && h.got < h.pubS ==> h.kRung || (m.spc.AtBell? && Rings(m, SBell))
  {
    RunInv(r, capacity, i);
    var st := r.states[i];
    if st.m.kpc.AtBell? {
      RingsIffAwaited(st, KBell);
    }
    if st.m.spc.AtBell? {
      RingsIffAwaited(st, SBell);
    }
  }

  // ----- The first commit wakes a sleeper -----

  predicate PublishesRequests<Req, Rsp>(m: Machine<Req, Rsp>, step: Step<Req, Rsp>) {
    step == KStore && m.k.prod != m.k.lastPublished
  }

  predicate PublishesResponses<Req, Rsp>(m: Machine<Req, Rsp>, step: Step<Req, Rsp>) {
    step == SStore && m.s.prod != m.s.lastPublished
  }

  /** What a step can do to a published index, and to a commit in progress. */
  ghost predicate CommitFacts<Req, Rsp>(st: State<Req, Rsp>, step: Step<Req, Rsp>, st': State<Req, Rsp>) {
    && (if PublishesRequests(st.m, step) then st'.m.kpc.AtBell? && st'.h.kLast == st.h.pubC < st'.h.pubC
        else st'.h.pubC == st.h.pubC && st'.h.kLast == st.h.kLast)
    && (if PublishesResponses(st.m, step) then st'.m.spc.AtBell? && st'.h.sLast == st.h.pubS < st'.h.pubS
        else st'.h.pubS == st.h.pubS && st'.h.sLast == st.h.sLast)
    && (st.m.kpc.AtBell? && step != KBell ==> st'.m.kpc.AtBell? && !PublishesRequests(st.m, step))
    && (st.m.spc.AtBell? && step != SBell ==> st'.m.spc.AtBell? && !PublishesResponses(st.m, step))
  }

  lemma RecordCommits<Req, Rsp>(m: Machine<Req, Rsp>, h: History<Req, Rsp>, step: Step<Req, Rsp>)
    requires Enabled(m, step)
    ensures var (h', k, s) := (Record(m, h, step), PublishesRequests(m, step), PublishesResponses(m, step));
            && h'.pubC == (if k then |h.requests| else h.pubC) && h'.kLast == (if k then h.pubC else h.kLast)
            && h'.pubS == (if s then |h.responses| else h.pubS) && h'.sLast == (if s then h.pubS else h.sLast)
  {
    hide Rings;
  }

  lemma NextCommits<Req, Rsp>(m: Machine<Req, Rsp>, step: Step<Req, Rsp>)
    requires |m.slots| > 0 && Enabled(m, step)
    ensures var m' := Next(m, step);
            && (PublishesRequests(m, step) ==> m'.kpc.AtBell?)
            && (PublishesResponses(m, step) ==> m'.spc.AtBell?)
            && (m.kpc.AtBell? && step != KBell ==> m'.kpc.AtBell?)
            && (m.spc.AtBell? && step != SBell ==> m'.spc.AtBell?)
  {
    hide Wrap, Add, Sub, Slot;
  }

  lemma StepCommitFacts<Req, Rsp>(st: State<Req, Rsp>, step: Step<Req, Rsp>)
    requires Inv(st) && Enabled(st.m, step)
    ensures CommitFacts(st, step, Do(st, step))
  {
    hide Contents, Image, ServerWaits, ClientWaits, Next, Record;
    Readings(st);
    RecordCommits(st.m, st.h, step);
    NextCommits(st.m, step);
  }

  lemma RunStep<Req, Rsp>(r: Run<Req, Rsp>, capacity: nat, i: nat)
    requires IsRun(r, capacity) && i < |r.steps|
    ensures Inv(r.states[i]) && |r.states[i].m.slots| == capacity
    ensures Enabled(r.states[i].m, r.steps[i]) && r.states[i + 1] == Do(r.states[i], r.steps[i])
  {
    RunInv(r, capacity, i);
    assert StepAt(r, i);
  }

  /** The server has consumed all requests up to `at`, the published index, and has asked
      to be told of more. */
  ghost predicate ServerIdles<Req, Rsp>(st: State<Req, Rsp>, at: nat) {
    st.h.pubC == st.h.served == st.h.sEnd == at && st.m.cprodLimit == Wrap(at)
  }

  /** The commit that publishes `pub` instead of `at` is in progress; the limit is
      still the one stored before, or (`renewed`) one stored by a checkout that has
      seen the new index. */
  ghost predicate ServerRaces<Req, Rsp>(st: State<Req, Rsp>, at: nat, pub: nat, renewed: bool) {
    && st.m.kpc.AtBell? && st.h.kLast == at < st.h.pubC == pub
    && (st.h.sEnd == pub || (st.h.sEnd == at && !renewed))
    && st.m.cprodLimit == Wrap(if renewed then pub else at)
  }

  lemma ServerFruitlessCheckout<Req, Rsp>(st: State<Req, Rsp>, step: Step<Req, Rsp>)
    requires Inv(st) && Enabled(st.m, step) && step == SRecheck && !Do(st, step).m.s.HasMessages()
    ensures ServerIdles(Do(st, step), st.h.pubC)
  {
    Preserved(st, step);
    Readings(Do(st, step));
  }

  /** Until something is published, looking again changes nothing. */
  lemma ServerIdlingGoesOn<Req, Rsp>(st: State<Req, Rsp>, step: Step<Req, Rsp>, at: nat)
    requires Inv(st) && Enabled(st.m, step) && ServerIdles(st, at) && !PublishesRequests(st.m, step)
    ensures ServerIdles(Do(st, step), at)
  {
    Readings(st);
  }

  lemma ServerRaceGoesOn<Req, Rsp>(st: State<Req, Rsp>, step: Step<Req, Rsp>, at: nat, pub: nat, renewed: bool)
    requires Inv(st) && Enabled(st.m, step) && ServerRaces(st, at, pub, renewed) && step != KBell
    ensures ServerRaces(Do(st, step), at, pub, renewed || (step == SSetLimit && st.h.sEnd == pub))
  {
    StepCommitFacts(st, step);
    hide Contents, CommitTest;
  }

  lemma ServerRaceEnds<Req, Rsp>(st: State<Req, Rsp>, at: nat, pub: nat, renewed: bool)
    requires Inv(st) && ServerRaces(st, at, pub, renewed)
    ensures Enabled(st.m, KBell) && (Rings(st.m, KBell) <==> !renewed)
  {
    CommitTestUnbounded(pub, at, if renewed then pub else at);
  }

  ghost predicate NoRequestsPublished<Req, Rsp>(r: Run<Req, Rsp>, t: nat, k: nat)
    requires k <= |r.steps| <= |r.states|
  {
    forall j :: t <= j < k ==> !PublishesRequests(r.states[j].m, r.steps[j])
  }

  lemma {:induction false} ServerIdlesOn<Req, Rsp>(r: Run<Req, Rsp>, capacity: nat, t: nat, k: nat, at: nat)
    requires IsRun(r, capacity) && t <= k <= |r.steps| && ServerIdles(r.states[t], at) && NoRequestsPublished(r, t, k)
    ensures ServerIdles(r.states[k], at)
  {
    assert |r.states| == |r.steps| + 1;
    hide IsRun, Inv, ServerIdles;
    if t < k {
      ServerIdlesOn(r, capacity, t, k - 1, at);
      RunStep(r, capacity, k - 1);
      ServerIdlingGoesOn(r.states[k - 1], r.steps[k - 1], at);
    }
  }

  /** Step `j` stores a limit of the server that is beyond the index that step `u`
      replaces: a checkout has seen, and the server consumed, what `u` published. */
  ghost predicate ServerRenewsAt<Req, Rsp>(r: Run<Req, Rsp>, u: nat, j: nat)
    requires u <= j < |r.steps| <= |r.states|
  {
    r.steps[j] == SSetLimit && r.states[j].h.sEnd > r.states[u].h.pubC
  }

  ghost predicate ServerRenews<Req, Rsp>(r: Run<Req, Rsp>, u: nat, k: nat)
    requires k <= |r.steps| <= |r.states|
  {
    exists j :: u < j < k && ServerRenewsAt(r, u, j)
  }

  lemma ServerRenewsNext<Req, Rsp>(r: Run<Req, Rsp>, u: nat, k: nat)
    requires u + 1 < k <= |r.steps| < |r.states|
    ensures ServerRenews(r, u, k) <==> ServerRenews(r, u, k - 1) || ServerRenewsAt(r, u, k - 1)
  {
    if ServerRenews(r, u, k) {
      var j :| u < j < k && ServerRenewsAt(r, u, j);
      assert j == k - 1 || ServerRenews(r, u, k - 1);
    }
  }

  lemma {:induction false} ServerRace<Req, Rsp>(r: Run<Req, Rsp>, capacity: nat, u: nat, k: nat, at: nat)
    requires IsRun(r, capacity) && u < k <= |r.steps|
    requires ServerIdles(r.states[u], at) && PublishesRequests(r.states[u].m, r.steps[u])
    requires forall j :: u < j < k ==> r.steps[j] != KBell
    ensures ServerRaces(r.states[k], at, r.states[u + 1].h.pubC, ServerRenews(r, u, k))
  {
    assert |r.states| == |r.steps| + 1;
    RunStep(r, capacity, u);
    if k == u + 1 {
      StepCommitFacts(r.states[u], r.steps[u]);
    } else {
      ServerRace(r, capacity, u, k - 1, at);
      RunStep(r, capacity, k - 1);
      ServerRaceGoesOn(r.states[k - 1], r.steps[k - 1], at, r.states[u + 1].h.pubC, ServerRenews(r, u, k - 1));
      ServerRenewsNext(r, u, k);
      assert r.states[u].h.pubC == at;
      hide IsRun, Inv, Do, Enabled, ServerRenews;
    }
  }

  /** A checkout of the server ends, at step `t`, having found nothing. Then the first
      commit whose store (step `u`) publishes requests after that returns true (step
      `v`), exactly unless the server has stored, between the two, the limit of a
      checkout that had seen them; and then it had consumed all that were published.
      Whatever else either end does meanwhile makes no difference. */
  lemma FirstCommitWakesServer<Req, Rsp>(r: Run<Req, Rsp>, capacity: nat, t: nat, u: nat, v: nat)
    requires IsRun(r, capacity) && t < u < v < |r.steps|
    requires r.steps[t] == SRecheck && !r.states[t + 1].m.s.HasMessages()
    requires PublishesRequests(r.states[u].m, r.steps[u]) && NoRequestsPublished(r, t + 1, u)
    requires r.steps[v] == KBell && forall j :: u < j < v ==> r.steps[j] != KBell
    ensures Enabled(r.states[v].m, KBell) && (Rings(r.states[v].m, KBell) <==> !ServerRenews(r, u, v))
    ensures forall j :: u < j < v && ServerRenewsAt(r, u, j) ==> r.states[j].h.served == r.states[v].h.pubC
  {
    RunStep(r, capacity, t);
    ServerFruitlessCheckout(r.states[t], SRecheck);
    var at := r.states[t].h.pubC;
    ServerIdlesOn(r, capacity, t + 1, u, at);
    ServerRace(r, capacity, u, v, at);
    RunInv(r, capacity, v);
    ServerRaceEnds(r.states[v], at, r.states[u + 1].h.pubC, ServerRenews(r, u, v));
    forall j | u < j < v && ServerRenewsAt(r, u, j)
      ensures r.states[j].h.served == r.states[v].h.pubC
    {
      ServerRace(r, capacity, u, j, at);
      RunStep(r, capacity, j);
    }
  }

  /** The client has consumed all responses up to `at`, the published index, and has asked
      to be told of more. */
  ghost predicate ClientIdles<Req, Rsp>(st: State<Req, Rsp>, at: nat) {
    st.h.pubS == st.h.got == st.h.kEnd == at && st.m.sprodLimit == Wrap(at)
  }

  /** The commit that publishes `pub` instead of `at` is in progress; the limit is
      still the one stored before, or (`renewed`) one stored by a checkout that has
      seen the new index. */
  ghost predicate ClientRaces<Req, Rsp>(st: State<Req, Rsp>, at: nat, pub: nat, renewed: bool) {
    && st.m.spc.AtBell? && st.h.sLast == at < st.h.pubS == pub
    && (st.h.kEnd == pub || (st.h.kEnd == at && !renewed))
    && st.m.sprodLimit == Wrap(if renewed then pub else at)
  }

  lemma ClientFruitlessCheckout<Req, Rsp>(st: State<Req, Rsp>, step: Step<Req, Rsp>)
    requires Inv(st) && Enabled(st.m, step) && step == KRecheck && !Do(st, step).m.k.HasMessages()
    ensures ClientIdles(Do(st, step), st.h.pubS)
  {
    Preserved(st, step);
    Readings(Do(st, step));
  }

  /** Until something is published, looking again changes nothing. */
  lemma ClientIdlingGoesOn<Req, Rsp>(st: State<Req, Rsp>, step: Step<Req, Rsp>, at: nat)
    requires Inv(st) && Enabled(st.m, step) && ClientIdles(st, at) && !PublishesResponses(st.m, step)
    ensures ClientIdles(Do(st, step), at)
  {
    Readings(st);
    if step == KSetLimit {
      ClientCheckoutExact(st);
    }
  }

  lemma ClientRaceGoesOn<Req, Rsp>(st: State<Req, Rsp>, step: Step<Req, Rsp>, at: nat, pub: nat, renewed: bool)
    requires Inv(st) && Enabled(st.m, step) && ClientRaces(st, at, pub, renewed) && step != SBell
    ensures ClientRaces(Do(st, step), at, pub, renewed || (step == KSetLimit && st.h.kEnd == pub))
  {
    StepCommitFacts(st, step);
    if step == KSetLimit {
      ClientCheckoutExact(st);
    }
    hide Contents, CommitTest;
  }

  lemma ClientRaceEnds<Req, Rsp>(st: State<Req, Rsp>, at: nat, pub: nat, renewed: bool)
    requires Inv(st) && ClientRaces(st, at, pub, renewed)
    ensures Enabled(st.m, SBell) && (Rings(st.m, SBell) <==> !renewed)
  {
    CommitTestUnbounded(pub, at, if renewed then pub else at);
  }

  ghost predicate NoResponsesPublished<Req, Rsp>(r: Run<Req, Rsp>, t: nat, k: nat)
    requires k <= |r.steps| <= |r.states|
  {
    forall j :: t <= j < k ==> !PublishesResponses(r.states[j].m, r.steps[j])
  }

  lemma {:induction false} ClientIdlesOn<Req, Rsp>(r: Run<Req, Rsp>, capacity: nat, t: nat, k: nat, at: nat)
    requires IsRun(r, capacity) && t <= k <= |r.steps| && ClientIdles(r.states[t], at) && NoResponsesPublished(r, t, k)
    ensures ClientIdles(r.states[k], at)
  {
    assert |r.states| == |r.steps| + 1;
    hide IsRun, Inv, ClientIdles;
    if t < k {
      ClientIdlesOn(r, capacity, t, k - 1, at);
      RunStep(r, capacity, k - 1);
      ClientIdlingGoesOn(r.states[k - 1], r.steps[k - 1], at);
    }
  }

  /** Step `j` stores a limit of the client that is beyond the index that step `u`
      replaces: a checkout has seen, and the client consumed, what `u` published. */
  ghost predicate ClientRenewsAt<Req, Rsp>(r: Run<Req, Rsp>, u: nat, j: nat)
    requires u <= j < |r.steps| <= |r.states|
  {
    r.steps[j] == KSetLimit && r.states[j].h.kEnd > r.states[u].h.pubS
  }

  ghost predicate ClientRenews<Req, Rsp>(r: Run<Req, Rsp>, u: nat, k: nat)
    requires k <= |r.steps| <= |r.states|
  {
    exists j :: u < j < k && ClientRenewsAt(r, u, j)
  }

  lemma ClientRenewsNext<Req, Rsp>(r: Run<Req, Rsp>, u: nat, k: nat)
    requires u + 1 < k <= |r.steps| < |r.states|
    ensures ClientRenews(r, u, k) <==> ClientRenews(r, u, k - 1) || ClientRenewsAt(r, u, k - 1)
  {
    if ClientRenews(r, u, k) {
      var j :| u < j < k && ClientRenewsAt(r, u, j);
      assert j == k - 1 || ClientRenews(r, u, k - 1);
    }
  }

  lemma {:induction false} ClientRace<Req, Rsp>(r: Run<Req, Rsp>, capacity: nat, u: nat, k: nat, at: nat)
    requires IsRun(r, capacity) && u < k <= |r.steps|
    requires ClientIdles(r.states[u], at) && PublishesResponses(r.states[u].m, r.steps[u])
    requires forall j :: u < j < k ==> r.steps[j] != SBell
    ensures ClientRaces(r.states[k], at, r.states[u + 1].h.pubS, ClientRenews(r, u, k))
  {
    assert |r.states| == |r.steps| + 1;
    RunStep(r, capacity, u);
    if k == u + 1 {
      StepCommitFacts(r.states[u], r.steps[u]);
    } else {
      ClientRace(r, capacity, u, k - 1, at);
      RunStep(r, capacity, k - 1);
      ClientRaceGoesOn(r.states[k - 1], r.steps[k - 1], at, r.states[u + 1].h.pubS, ClientRenews(r, u, k - 1));
      ClientRenewsNext(r, u, k);
      assert r.states[u].h.pubS == at;
      hide IsRun, Inv, Do, Enabled, ClientRenews;
    }
  }

  /** The same for a client that found no responses, and the server's commits. */
  lemma FirstCommitWakesClient<Req, Rsp>(r: Run<Req, Rsp>, capacity: nat, t: nat, u: nat, v: nat)
    requires IsRun(r, capacity) && t < u < v < |r.steps|
    requires r.steps[t] == KRecheck && !r.states[t + 1].m.k.HasMessages()
    requires PublishesResponses(r.states[u].m, r.steps[u]) && NoResponsesPublished(r, t + 1, u)
    requires r.steps[v] == SBell && forall j :: u < j < v ==> r.steps[j] != SBell
    ensures Enabled(r.states[v].m, SBell) && (Rings(r.states[v].m, SBell) <==> !ClientRenews(r, u, v))
    ensures forall j :: u < j < v && ClientRenewsAt(r, u, j) ==> r.states[j].h.got == r.states[v].h.pubS
  {
    RunStep(r, capacity, t);
    ClientFruitlessCheckout(r.states[t], KRecheck);
    var at := r.states[t].h.pubS;
    ClientIdlesOn(r, capacity, t + 1, u, at);
    ClientRace(r, capacity, u, v, at);
    RunInv(r, capacity, v);
    ClientRaceEnds(r.states[v], at, r.states[u + 1].h.pubS, ClientRenews(r, u, v));
    forall j | u < j < v && ClientRenewsAt(r, u, j)
      ensures r.states[j].h.got == r.states[v].h.pubS
    {
      ClientRace(r, capacity, u, j, at);
      RunStep(r, capacity, j);
    }
  }
}
