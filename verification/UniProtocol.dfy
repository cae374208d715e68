/** The unidirectional ring as two concurrent actors: every atomic load or store
    of a shared word is a step of its own, and the steps of the two actors
    interleave in any order. (The fences between a store and the following load
    make this sequentially consistent view the right one.)

    The machine itself works on 32-bit indices and a masked array. Beside it runs
    a history: the unbounded indices and the unbounded array of messages in which
    the ring is designed. The history never influences the machine. */
module UniProtocol {
  import opened Index32
  import opened BulkCopy
  import opened UniRing

  /** Where an actor is: between calls, inside a checkout that found nothing
      (before storing its limit, before loading again), or inside a commit
      (before loading the peer's limit; `last` is the index published before). */
  datatype Pc = Rest | AtLimit | AtRecheck | AtBell(last: Index)

  datatype Machine<T> = Machine(
    prod: Index, consLimit: Index, cons: Index, prodLimit: Index, slots: seq<T>,  // shared
    p: ProducerVars, ppc: Pc,
    c: ConsumerVars, cpc: Pc)

  datatype Step<T> =
    | PCheck | PSetLimit | PRecheck | PProduce(msg: T) | PStore | PBell
    | CCheck | CSetLimit | CRecheck | CConsume | CStore | CBell

  ghost predicate MachineInit<T>(m: Machine<T>, capacity: nat) {
    && IsCapacity(capacity) && |m.slots| == capacity < MODULUS
    && m.prod == m.cons == m.prodLimit == 0 && m.consLimit == Sub(0, 1)
    && m.p == ProducerVars(capacity, 0, 0, capacity) && m.ppc == Rest
    && m.c == ConsumerVars(capacity, 0, 0, 0) && m.cpc == Rest
  }

  predicate Enabled<T>(m: Machine<T>, s: Step<T>) {
    match s
    case PCheck | PProduce(_) | PStore => m.ppc == Rest
    case PSetLimit => m.ppc == AtLimit
    case PRecheck => m.ppc == AtRecheck
    case PBell => m.ppc.AtBell?
    case CCheck | CConsume | CStore => m.cpc == Rest
    case CSetLimit => m.cpc == AtLimit
    case CRecheck => m.cpc == AtRecheck
    case CBell => m.cpc.AtBell?
  }

  /** What the load at the end of a commit makes the commit return. */
  predicate Rings<T>(m: Machine<T>, s: Step<T>)
    requires Enabled(m, s)
  {
    match s
    case PBell => CommitTest(m.p.prod, m.ppc.last, m.prodLimit)
    case CBell => CommitTest(m.c.cons, m.cpc.last, m.consLimit)
    case _ => false
  }

  function Next<T>(m: Machine<T>, s: Step<T>): Machine<T>
    requires |m.slots| > 0 && m.p.capacity == m.c.capacity == |m.slots|
    requires Enabled(m, s)
  {
    match s
    case PCheck =>
      var p := m.p.SeeCons(m.cons);
      m.(p := p, ppc := if p.HasRoom() then Rest else AtLimit)
    case PSetLimit => m.(consLimit := m.p.ConsLimit(), ppc := AtRecheck)
    case PRecheck => m.(p := m.p.SeeCons(m.cons), ppc := Rest)
    case PProduce(msg) =>
      SlotInBounds(m.p.prod, |m.slots|);
      if m.p.HasRoom() then
        m.(slots := m.slots[Slot(m.p.prod, |m.slots|) := msg], p := m.p.Advance(1))
      else m
    case PStore =>
      if m.p.prod == m.p.lastPublished then m
      else m.(prod := m.p.prod, p := m.p.Publish(), ppc := AtBell(m.p.lastPublished))
    case PBell => m.(ppc := Rest)
    case CCheck =>
      var c := m.c.SeeProd(m.prod);
      m.(c := c, cpc := if c.HasMessages() then Rest else AtLimit)
    case CSetLimit => m.(prodLimit := m.c.ProdLimit(), cpc := AtRecheck)
    case CRecheck => m.(c := m.c.SeeProd(m.prod), cpc := Rest)
    case CConsume => if m.c.HasMessages() then m.(c := m.c.Advance(1)) else m
    case CStore =>
      if m.c.cons == m.c.lastPublished then m
      else m.(cons := m.c.cons, c := m.c.Publish(), cpc := AtBell(m.c.lastPublished))
    case CBell => m.(cpc := Rest)
  }

  /** The message that a consumption reads from the masked array. */
  function Taken<T>(m: Machine<T>): T
    requires |m.slots| > 0
  {
    SlotInBounds(m.c.cons, |m.slots|);
    m.slots[Slot(m.c.cons, |m.slots|)]
  }

  // ----- The history -----

  /** All messages ever produced and ever consumed, whose numbers are the two
      private indices; the other indices, unbounded; and who waits for a
      notification: an actor is `asleep` from a checkout that found nothing until
      its next checkout, and `rung` once a commit of the peer has since said that
      it must be notified. */
  datatype History<T> = History(
    sent: seq<T>, got: seq<T>,
    pubProd: nat, pubCons: nat, prodEnd: nat, consEnd: nat,
    pLast: nat, cLast: nat,
    pAsleep: bool, pRung: bool, cAsleep: bool, cRung: bool)

  datatype State<T> = State(m: Machine<T>, h: History<T>)

  function Record<T>(m: Machine<T>, h: History<T>, s: Step<T>): History<T>
    requires |m.slots| > 0 && Enabled(m, s)
  {
    match s
    case PCheck => h.(prodEnd := h.pubCons + |m.slots|, pAsleep := false)
    case PSetLimit => h
    case PRecheck =>
      var end := h.pubCons + |m.slots|;
      h.(prodEnd := end, pAsleep := end == |h.sent|, pRung := false)
    case PProduce(msg) => if m.p.HasRoom() then h.(sent := h.sent + [msg]) else h
    case PStore => if m.p.prod == m.p.lastPublished then h else h.(pLast := h.pubProd, pubProd := |h.sent|)
    case PBell => h.(cRung := h.cRung || Rings(m, s))
    case CCheck => h.(consEnd := h.pubProd, cAsleep := false)
    case CSetLimit => h
    case CRecheck => h.(consEnd := h.pubProd, cAsleep := h.pubProd == |h.got|, cRung := false)
    case CConsume => if m.c.HasMessages() then h.(got := h.got + [Taken(m)]) else h
    case CStore => if m.c.cons == m.c.lastPublished then h else h.(cLast := h.pubCons, pubCons := |h.got|)
    case CBell => h.(pRung := h.pRung || Rings(m, s))
  }

  ghost predicate Init<T>(st: State<T>, capacity: nat) {
    && MachineInit(st.m, capacity)
    // The initial limit of the consumer is as good as a checkout that found nothing.
    && st.h == History([], [], 0, 0, capacity, 0, 0, 0, false, false, true, false)
  }

  // ----- The invariant -----

  ghost predicate Ordered<T>(h: History<T>, capacity: nat) {
    h.pubCons <= |h.got| <= h.consEnd <= h.pubProd <= |h.sent| <= h.prodEnd <= h.pubCons + capacity
  }

  /** Every word of the machine is the 32-bit image of its unbounded index. */
  ghost predicate Image<T>(m: Machine<T>, h: History<T>) {
    && m.prod == m.p.lastPublished == Wrap(h.pubProd)
    && m.cons == m.c.lastPublished == Wrap(h.pubCons)
    && m.p.prod == Wrap(|h.sent|) && m.p.prodEnd == Wrap(h.prodEnd)
    && m.c.cons == Wrap(|h.got|) && m.c.consEnd == Wrap(h.consEnd)
  }

  /** The masked array holds the messages that are not known to be consumed. */
  ghost predicate Contents<T>(m: Machine<T>, h: History<T>)
    requires |m.slots| > 0
  {
    && |h.got| <= |h.sent| && h.got == h.sent[..|h.got|]
    && forall i :: h.pubCons <= i < |h.sent| ==> m.slots[i % |m.slots|] == h.sent[i]
  }

  /** The consumer's calls, and what the producer owes to it while it sleeps. */
  ghost predicate ConsumerWaits<T>(m: Machine<T>, h: History<T>) {
    && (m.cpc == AtLimit || m.cpc == AtRecheck ==> !h.cAsleep && h.consEnd == |h.got|)
    && (m.cpc == AtRecheck || h.cAsleep ==> h.consEnd == |h.got| && m.prodLimit == Wrap(h.consEnd))
    && (h.cAsleep && h.consEnd < h.pubProd ==> h.cRung || (m.ppc.AtBell? && h.pLast <= h.consEnd))
    && (m.ppc.AtBell? ==>
          m.ppc.last == Wrap(h.pLast) && h.pLast < h.pubProd == |h.sent| && h.pubProd - h.pLast <= |m.slots|)
  }

  ghost predicate ProducerWaits<T>(m: Machine<T>, h: History<T>) {
    && (m.ppc == AtLimit || m.ppc == AtRecheck ==> !h.pAsleep && h.prodEnd == |h.sent|)
    && (m.ppc == AtRecheck || h.pAsleep ==> h.prodEnd == |h.sent| && m.consLimit == Wrap(h.prodEnd - |m.slots|))
    && (h.pAsleep && h.prodEnd - |m.slots| < h.pubCons ==>
          h.pRung || (m.cpc.AtBell? && h.cLast <= h.prodEnd - |m.slots|))
    && (m.cpc.AtBell? ==>
          m.cpc.last == Wrap(h.cLast) && h.cLast < h.pubCons == |h.got| && h.pubCons - h.cLast <= |m.slots|)
  }

  ghost predicate Sized<T>(m: Machine<T>) {
    && IsCapacity(|m.slots|) && 0 < |m.slots| <= 0x8000_0000
    && m.p.capacity == m.c.capacity == |m.slots|
  }

  ghost predicate Inv<T>(st: State<T>) {
    && Sized(st.m)
    && Ordered(st.h, |st.m.slots|)
    && Image(st.m, st.h)
    && Contents(st.m, st.h)
    && ConsumerWaits(st.m, st.h)
    && ProducerWaits(st.m, st.h)
  }

  function Do<T>(st: State<T>, s: Step<T>): State<T>
    requires |st.m.slots| > 0 && st.m.p.capacity == st.m.c.capacity == |st.m.slots|
    requires Enabled(st.m, s)
  {
    State(Next(st.m, s), Record(st.m, st.h, s))
  }

  lemma InitInv<T>(st: State<T>, capacity: nat)
    requires Init(st, capacity)
    ensures Inv(st)
  {
    SlotOfWrap(0, capacity);
  }

  /** What the actors read off wrapped indices is true of the unbounded ones. */
  lemma Readings<T>(st: State<T>)
    requires Inv(st)
    ensures st.m.p.HasRoom() <==> |st.h.sent| < st.h.prodEnd
    ensures st.m.c.HasMessages() <==> |st.h.got| < st.h.consEnd
    ensures st.m.p.prod == st.m.p.lastPublished <==> |st.h.sent| == st.h.pubProd
    ensures st.m.c.cons == st.m.c.lastPublished <==> |st.h.got| == st.h.pubCons
  {
    hide Contents, ConsumerWaits, ProducerWaits, Wrap, Add, Sub;
    var h := st.h;
    Distance(h.prodEnd, |h.sent|);
    Distance(h.consEnd, |h.got|);
    Distance(|h.sent|, h.pubProd);
    Distance(|h.got|, h.pubCons);
  }

  /** A checkout always finds the peer's index plausible. */
  lemma CheckoutExact<T>(st: State<T>)
    requires Inv(st)
    ensures st.m.p.SeeCons(st.m.cons) == st.m.p.(prodEnd := Wrap(st.h.pubCons + |st.m.slots|))
    ensures st.m.c.SeeProd(st.m.prod) == st.m.c.(consEnd := Wrap(st.h.pubProd))
    ensures st.m.p.ConsLimit() == Wrap(st.h.prodEnd - |st.m.slots|)
  {
    hide Contents, ConsumerWaits, ProducerWaits, Wrap, Add, Sub;
    var h, n := st.h, |st.m.slots|;
    WrapIndex(n);
    Distance(|h.sent|, h.pubCons);
    Distance(h.pubProd, |h.got|);
    AddWrap(h.pubCons, n);
    SubWrap(h.prodEnd, n);
  }

  lemma ProducerChecks<T>(st: State<T>, s: Step<T>)
    requires Inv(st) && Enabled(st.m, s) && (s.PCheck? || s.PRecheck?)
    ensures Inv(Do(st, s))
  {
    hide Wrap, Add, Sub;
    CheckoutExact(st);
    Distance(st.h.pubCons + |st.m.slots|, |st.h.sent|);
  }

  lemma ProducerSetsLimit<T>(st: State<T>)
    requires Inv(st) && st.m.ppc == AtLimit
    ensures Inv(Do(st, PSetLimit))
  {
    hide Wrap, Add, Sub;
    CheckoutExact(st);
  }

  lemma ConsumerChecks<T>(st: State<T>, s: Step<T>)
    requires Inv(st) && Enabled(st.m, s) && (s.CCheck? || s.CSetLimit? || s.CRecheck?)
    ensures Inv(Do(st, s))
  {
    hide Wrap, Add, Sub;
    CheckoutExact(st);
    Distance(st.h.pubProd, |st.h.got|);
  }

  lemma Produces<T>(st: State<T>, msg: T)
    requires Inv(st) && st.m.ppc == Rest
    ensures Inv(Do(st, PProduce(msg)))
  {
    Readings(st);
    if st.m.p.HasRoom() {
      var m, h, n := st.m, st.h, |st.m.slots|;
      AddWrap(|h.sent|, 1);
      SlotOfWrap(|h.sent|, n);
      var m' := Next(m, PProduce(msg));
      forall i | h.pubCons <= i < |h.sent| + 1
        ensures m'.slots[i % n] == (h.sent + [msg])[i]
      {
        if i < |h.sent| {
          SlotsDiffer(i, |h.sent|, n);
        }
      }
    }
  }

  lemma Consumes<T>(st: State<T>)
    requires Inv(st) && st.m.cpc == Rest
    ensures Inv(Do(st, CConsume))
    ensures st.m.c.HasMessages() ==> Taken(st.m) == st.h.sent[|st.h.got|]
  {
    Readings(st);
    if st.m.c.HasMessages() {
      AddWrap(|st.h.got|, 1);
      SlotOfWrap(|st.h.got|, |st.m.slots|);
    }
  }

  lemma ProducerStores<T>(st: State<T>)
    requires Inv(st) && st.m.ppc == Rest
    ensures Inv(Do(st, PStore))
  {
    hide Wrap, Add, Sub;
    Readings(st);
  }

  lemma ConsumerStores<T>(st: State<T>)
    requires Inv(st) && st.m.cpc == Rest
    ensures Inv(Do(st, CStore))
  {
    hide Wrap, Add, Sub;
    Readings(st);
  }

  /** A commit rings a waiting peer exactly if it made the awaited index pass. */
  lemma RingsIffAwaited<T>(st: State<T>, s: Step<T>)
    requires Inv(st) && Enabled(st.m, s)
    ensures s.PBell? && (st.h.cAsleep || st.m.cpc == AtRecheck) ==>
              (Rings(st.m, s) <==> st.h.pLast <= st.h.consEnd < st.h.pubProd)
    ensures s.CBell? && (st.h.pAsleep || st.m.ppc == AtRecheck) ==>
              (Rings(st.m, s) <==> st.h.cLast <= st.h.prodEnd - |st.m.slots| < st.h.pubCons)
  {
    var h := st.h;
    if s.PBell? && (h.cAsleep || st.m.cpc == AtRecheck) {
      CommitTestUnbounded(h.pubProd, h.pLast, h.consEnd);
    } else if s.CBell? && (h.pAsleep || st.m.ppc == AtRecheck) {
      CommitTestUnbounded(h.pubCons, h.cLast, h.prodEnd - |st.m.slots|);
    }
  }

  lemma Bells<T>(st: State<T>, s: Step<T>)
    requires Inv(st) && Enabled(st.m, s) && (s.PBell? || s.CBell?)
    ensures Inv(Do(st, s))
  {
    hide Wrap, Add, Sub;
    RingsIffAwaited(st, s);
  }

  /** Every step of either actor keeps the invariant. */
  lemma Preserved<T>(st: State<T>, s: Step<T>)
    requires Inv(st) && Enabled(st.m, s)
    ensures Inv(Do(st, s))
  {
    match s
    case PCheck | PRecheck => ProducerChecks(st, s);
    case PSetLimit => ProducerSetsLimit(st);
    case CCheck | CSetLimit | CRecheck => ConsumerChecks(st, s);
    case PProduce(msg) => Produces(st, msg);
    case CConsume => Consumes(st);
    case PStore => ProducerStores(st);
    case CStore => ConsumerStores(st);
    case PBell | CBell => Bells(st, s);
  }

  // ----- Runs -----

  datatype Run<T> = Run(states: seq<State<T>>, steps: seq<Step<T>>)

  ghost predicate IsRun<T>(r: Run<T>, capacity: nat) {
    && |r.states| == |r.steps| + 1
    && Init(r.states[0], capacity)
    && forall i :: 0 <= i < |r.steps| ==> StepAt(r, i)
  }

  ghost predicate StepAt<T>(r: Run<T>, i: nat)
    requires i < |r.steps| < |r.states|
  {
    Follows(r.states[i], r.steps[i], r.states[i + 1])
  }

  ghost predicate Follows<T>(st: State<T>, s: Step<T>, st': State<T>) {
    Sized(st.m) && Enabled(st.m, s) && st' == Do(st, s)
  }

  lemma {:induction false} RunInv<T>(r: Run<T>, capacity: nat, i: nat)
    requires IsRun(r, capacity) && i <= |r.steps|
    ensures Inv(r.states[i]) && |r.states[i].m.slots| == capacity
  {
    if i == 0 {
      InitInv(r.states[0], capacity);
    } else {
      RunInv(r, capacity, i - 1);
      assert StepAt(r, i - 1);
      StepInv(r.states[i - 1], r.steps[i - 1], r.states[i]);
    }
  }

  lemma StepInv<T>(st: State<T>, s: Step<T>, st': State<T>)
    requires Inv(st) && Follows(st, s, st')
    ensures Inv(st') && |st'.m.slots| == |st.m.slots|
  {
    Preserved(st, s);
  }

  /** In every reachable state: what was consumed is a prefix of what was
      produced, and the unbounded indices behind the 32-bit words are ordered and
      span at most one capacity. */
  lemma ConsumedIsPrefix<T>(r: Run<T>, capacity: nat, i: nat)
    requires IsRun(r, capacity) && i <= |r.steps|
    ensures var h := r.states[i].h;
            && h.got <= h.sent
            && h.pubCons <= |h.got| <= h.consEnd <= h.pubProd <= |h.sent| <= h.prodEnd <= h.pubCons + capacity
    ensures Image(r.states[i].m, r.states[i].h)
  {
    RunInv(r, capacity, i);
  }

  // ----- The ring is a first-in first-out queue -----

  datatype Queue<T> = Queue(waiting: seq<T>, delivered: seq<T>)

  function Abstract<T>(h: History<T>): Queue<T>
    requires |h.got| <= |h.sent|
  {
    Queue(h.sent[|h.got|..], h.got)
  }

  /** What step `s` of machine `m` does to the queue. */
  ghost predicate QueueStep<T>(m: Machine<T>, s: Step<T>, q: Queue<T>, q': Queue<T>)
    requires |m.slots| > 0
  {
    if s.PProduce? && m.p.HasRoom() then
      q' == q.(waiting := q.waiting + [s.msg])
    else if s == CConsume && m.c.HasMessages() then
      && q.waiting != [] && Taken(m) == q.waiting[0]
      && q' == Queue(q.waiting[1..], q.delivered + [q.waiting[0]])
    else q' == q
  }

  lemma RecordMessages<T>(m: Machine<T>, h: History<T>, s: Step<T>)
    requires |m.slots| > 0 && Enabled(m, s)
    ensures var h' := Record(m, h, s);
            && h'.sent == (if s.PProduce? && m.p.HasRoom() then h.sent + [s.msg] else h.sent)
            && h'.got == (if s == CConsume && m.c.HasMessages() then h.got + [Taken(m)] else h.got)
  {
    hide Rings, Taken;
  }

  lemma StepRefinesQueue<T>(st: State<T>, s: Step<T>)
    requires Inv(st) && Enabled(st.m, s) && Inv(Do(st, s))
    ensures QueueStep(st.m, s, Abstract(st.h), Abstract(Do(st, s).h))
  {
    hide Image, ConsumerWaits, ProducerWaits, Record, Next, Taken;
    RecordMessages(st.m, st.h, s);
    if s == CConsume {
      Readings(st);
      Consumes(st);
    }
  }

  /** A production that finds room enqueues its message, a consumption that finds
      a message dequeues the oldest one, reading it from the masked array, and
      every other step, whatever words it reads or stores, leaves the queue alone. */
  lemma RefinesQueue<T>(r: Run<T>, capacity: nat, i: nat)
    requires IsRun(r, capacity) && i < |r.steps|
    ensures Inv(r.states[i]) && Inv(r.states[i + 1])
    ensures QueueStep(r.states[i].m, r.steps[i], Abstract(r.states[i].h), Abstract(r.states[i + 1].h))
  {
    RunInv(r, capacity, i);
    assert StepAt(r, i);
    Preserved(r.states[i], r.steps[i]);
    StepRefinesQueue(r.states[i], r.steps[i]);
  }

  /** The slot that a production overwrites belongs to no message that is still
      unconsumed, nor to any that the producer has not been told is consumed; and
      the slots that the producer may write are never those the consumer may read. */
  lemma NoClobber<T>(r: Run<T>, capacity: nat, i: nat, j: nat, k: nat)
    requires IsRun(r, capacity) && i <= |r.steps|
    requires var h := r.states[i].h; |h.sent| <= j < h.prodEnd && h.pubCons <= k < |h.sent|
    ensures 1 <= capacity <= 0x8000_0000
    ensures Slot(Wrap(j), capacity) != Slot(Wrap(k), capacity)
  {
    RunInv(r, capacity, i);
    SlotOfWrap(j, capacity);
    SlotOfWrap(k, capacity);
    SlotsDiffer(k, j, capacity);
  }

  /** After a checkout, production finds room exactly when less than one capacity
      has been produced since the consumption last published; and consumption
      finds a message exactly when a published one is unconsumed. */
  lemma CheckoutTells<T>(r: Run<T>, capacity: nat, i: nat)
    requires IsRun(r, capacity) && i < |r.steps|
    ensures r.steps[i].PCheck? || r.steps[i].PRecheck? ==>
              var st := r.states[i + 1];
              st.m.p.HasRoom() <==> |st.h.sent| - st.h.pubCons < capacity
    ensures r.steps[i].CCheck? || r.steps[i].CRecheck? ==>
              var st := r.states[i + 1];
              st.m.c.HasMessages() <==> |st.h.got| < st.h.pubProd
  {
    RunInv(r, capacity, i);
    RunInv(r, capacity, i + 1);
    assert StepAt(r, i);
    Readings(r.states[i + 1]);
  }

  // ----- No wake-up is lost -----

  /** In every reachable state, if the consumer sleeps although something
      unconsumed is published, then a commit has returned since it fell asleep
      that it must be notified, or the commit in progress is bound to. */
  lemma NoLostWakeup<T>(r: Run<T>, capacity: nat, i: nat)
    requires IsRun(r, capacity) && i <= |r.steps|
    ensures var (m, h) := (r.states[i].m, r.states[i].h);
            h.cAsleep && |h.got| < h.pubProd ==> h.cRung || (m.ppc.AtBell? && Rings(m, PBell))
    ensures var (m, h) := (r.states[i].m, r.states[i].h);
            h.pAsleep && |h.sent| < h.pubCons + capacity ==> h.pRung || (m.cpc.AtBell? && Rings(m, CBell))
  {
    RunInv(r, capacity, i);
    var st := r.states[i];
    if st.m.ppc.AtBell? {
      RingsIffAwaited(st, PBell);
    }
    if st.m.cpc.AtBell? {
      RingsIffAwaited(st, CBell);
    }
  }

  /** Step `s` publishes a new producer index, or a new consumer index. */
  predicate Publishes<T>(m: Machine<T>, s: Step<T>) { s == PStore && m.p.prod != m.p.lastPublished }

  predicate Releases<T>(m: Machine<T>, s: Step<T>) { s == CStore && m.c.cons != m.c.lastPublished }

  /** What a step can do to a published index, and to a commit in progress. */
  ghost predicate CommitFacts<T>(st: State<T>, s: Step<T>, st': State<T>) {
    && (if Publishes(st.m, s) then st'.m.ppc.AtBell? && st'.h.pLast == st.h.pubProd < st'.h.pubProd
        else st'.h.pubProd == st.h.pubProd && st'.h.pLast == st.h.pLast)
    && (if Releases(st.m, s) then st'.m.cpc.AtBell? && st'.h.cLast == st.h.pubCons < st'.h.pubCons
        else st'.h.pubCons == st.h.pubCons && st'.h.cLast == st.h.cLast)
    && (st.m.ppc.AtBell? && s != PBell ==> st'.m.ppc.AtBell? && !Publishes(st.m, s))
    && (st.m.cpc.AtBell? && s != CBell ==> st'.m.cpc.AtBell? && !Releases(st.m, s))
  }

  lemma RecordCommits<T>(m: Machine<T>, h: History<T>, s: Step<T>)
    requires |m.slots| > 0 && Enabled(m, s)
    ensures var (h', p, c) := (Record(m, h, s), Publishes(m, s), Releases(m, s));
            && h'.pubProd == (if p then |h.sent| else h.pubProd) && h'.pLast == (if p then h.pubProd else h.pLast)
            && h'.pubCons == (if c then |h.got| else h.pubCons) && h'.cLast == (if c then h.pubCons else h.cLast)
  {
    hide Rings, Taken;
  }

  lemma NextCommits<T>(m: Machine<T>, s: Step<T>)
    requires |m.slots| > 0 && m.p.capacity == m.c.capacity == |m.slots| && Enabled(m, s)
    ensures var m' := Next(m, s);
            && (Publishes(m, s) ==> m'.ppc.AtBell?) && (Releases(m, s) ==> m'.cpc.AtBell?)
            && (m.ppc.AtBell? && s != PBell ==> m'.ppc.AtBell?)
            && (m.cpc.AtBell? && s != CBell ==> m'.cpc.AtBell?)
  {
    hide Wrap, Add, Sub, Slot;
  }

  lemma StepCommitFacts<T>(st: State<T>, s: Step<T>)
    requires Inv(st) && Enabled(st.m, s)
    ensures CommitFacts(st, s, Do(st, s))
  {
    hide Contents, Image, ConsumerWaits, ProducerWaits, Next, Record;
    Readings(st);
    RecordCommits(st.m, st.h, s);
    NextCommits(st.m, s);
  }

  /** The consumer has consumed everything up to `at`, the published index, and
      has asked to be told of more. */
  ghost predicate ConsumerIdles<T>(st: State<T>, at: nat) {
    st.h.pubProd == |st.h.got| == st.h.consEnd == at && st.m.prodLimit == Wrap(at)
  }

  /** The ring is full up to the consumption `at` that is published, and the
      producer has asked to be told of more. */
  ghost predicate ProducerIdles<T>(st: State<T>, at: nat) {
    && st.h.pubCons == at && |st.h.sent| == st.h.prodEnd == at + |st.m.slots|
    && st.m.consLimit == Wrap(at)
  }

  lemma FruitlessCheckout<T>(st: State<T>, s: Step<T>)
    requires Inv(st) && Enabled(st.m, s)
    ensures s == CRecheck && !Do(st, s).m.c.HasMessages() ==> ConsumerIdles(Do(st, s), st.h.pubProd)
    ensures s == PRecheck && !Do(st, s).m.p.HasRoom() ==> ProducerIdles(Do(st, s), st.h.pubCons)
  {
    if s == CRecheck || s == PRecheck {
      Preserved(st, s);
      Readings(Do(st, s));
    }
  }

  /** Until something is published, looking again changes nothing. */
  lemma ConsumerIdlingGoesOn<T>(st: State<T>, s: Step<T>, at: nat)
    requires Inv(st) && Enabled(st.m, s) && ConsumerIdles(st, at) && !Publishes(st.m, s)
    ensures ConsumerIdles(Do(st, s), at)
  {
    hide Wrap, Add, Sub;
    Readings(st);
    CheckoutExact(st);
    hide Contents, ConsumerWaits, ProducerWaits, CommitTest;
  }

  /** What a step can do to the producer's window and to its limit. */
  lemma ProducerWindow<T>(st: State<T>, s: Step<T>)
    requires Inv(st) && Enabled(st.m, s)
    ensures var (st', n) := (Do(st, s), |st.m.slots|);
            && st'.h.prodEnd == (if s.PCheck? || s.PRecheck? then st.h.pubCons + n else st.h.prodEnd)
            && st'.m.consLimit == (if s.PSetLimit? then Wrap(st.h.prodEnd - n) else st.m.consLimit)
  {
    if s.PSetLimit? {
      CheckoutExact(st);
    }
    hide Contents, Image, ConsumerWaits, ProducerWaits, CommitTest, Wrap, Add, Sub, Slot;
  }

  lemma ProducerIdlingGoesOn<T>(st: State<T>, s: Step<T>, at: nat)
    requires Inv(st) && Enabled(st.m, s) && ProducerIdles(st, at) && !Releases(st.m, s)
    ensures ProducerIdles(Do(st, s), at)
  {
    Readings(st);
    StepInv(st, s, Do(st, s));
    StepCommitFacts(st, s);
    RecordMessages(st.m, st.h, s);
    ProducerWindow(st, s);
    hide Inv, Next, Record, Releases;
  }

  /** The commit that publishes `pub` instead of `at` is in progress; the limit is
      still the one stored before, or (`renewed`) one stored by a checkout that has
      seen the new index. */
  ghost predicate ConsumerRaces<T>(st: State<T>, at: nat, pub: nat, renewed: bool) {
    && st.m.ppc.AtBell? && st.h.pLast == at < st.h.pubProd == pub
    && (st.h.consEnd == pub || (st.h.consEnd == at && !renewed))
    && st.m.prodLimit == Wrap(if renewed then pub else at)
  }

  ghost predicate ProducerRaces<T>(st: State<T>, at: nat, pub: nat, renewed: bool) {
    && st.m.cpc.AtBell? && st.h.cLast == at < st.h.pubCons == pub
    && (st.h.prodEnd == pub + |st.m.slots| || (st.h.prodEnd == at + |st.m.slots| && !renewed))
    && st.m.consLimit == Wrap(if renewed then pub else at)
  }

  lemma RaceBegins<T>(st: State<T>, s: Step<T>, at: nat)
    requires Inv(st) && Enabled(st.m, s)
    ensures ConsumerIdles(st, at) && Publishes(st.m, s) ==> ConsumerRaces(Do(st, s), at, Do(st, s).h.pubProd, false)
    ensures ProducerIdles(st, at) && Releases(st.m, s) ==> ProducerRaces(Do(st, s), at, Do(st, s).h.pubCons, false)
  {
    StepCommitFacts(st, s);
  }

  lemma ConsumerRaceGoesOn<T>(st: State<T>, s: Step<T>, at: nat, pub: nat, renewed: bool)
    requires Inv(st) && Enabled(st.m, s) && ConsumerRaces(st, at, pub, renewed) && s != PBell
    ensures ConsumerRaces(Do(st, s), at, pub, renewed || (s == CSetLimit && st.h.consEnd == pub))
  {
    StepCommitFacts(st, s);
  }

  lemma ProducerRaceGoesOn<T>(st: State<T>, s: Step<T>, at: nat, pub: nat, renewed: bool)
    requires Inv(st) && Enabled(st.m, s) && ProducerRaces(st, at, pub, renewed) && s != CBell
    ensures ProducerRaces(Do(st, s), at, pub, renewed || (s == PSetLimit && st.h.prodEnd == pub + |st.m.slots|))
  {
    StepCommitFacts(st, s);
    StepInv(st, s, Do(st, s));
    ProducerWindow(st, s);
    hide Inv, Do, Enabled, Publishes;
  }

  lemma RunStep<T>(r: Run<T>, capacity: nat, i: nat)
    requires IsRun(r, capacity) && i < |r.steps|
    ensures Inv(r.states[i]) && |r.states[i].m.slots| == capacity
    ensures Enabled(r.states[i].m, r.steps[i]) && r.states[i + 1] == Do(r.states[i], r.steps[i])
  {
    RunInv(r, capacity, i);
    assert StepAt(r, i);
  }

  /** No step from `t` up to `k` publishes (releases) an index. */
  ghost predicate Quiet<T>(r: Run<T>, t: nat, k: nat)
    requires k <= |r.steps| <= |r.states|
  {
    forall j :: t <= j < k ==> !Publishes(r.states[j].m, r.steps[j])
  }

  ghost predicate Held<T>(r: Run<T>, t: nat, k: nat)
    requires k <= |r.steps| <= |r.states|
  {
    forall j :: t <= j < k ==> !Releases(r.states[j].m, r.steps[j])
  }

  lemma {:induction false} ConsumerIdlesOn<T>(r: Run<T>, capacity: nat, t: nat, k: nat, at: nat)
    requires IsRun(r, capacity) && t <= k <= |r.steps| && ConsumerIdles(r.states[t], at) && Quiet(r, t, k)
    ensures ConsumerIdles(r.states[k], at)
  {
    assert |r.states| == |r.steps| + 1;
    hide IsRun, Inv, ConsumerIdles;
    if t < k {
      ConsumerIdlesOn(r, capacity, t, k - 1, at);
      RunStep(r, capacity, k - 1);
      ConsumerIdlingGoesOn(r.states[k - 1], r.steps[k - 1], at);
    }
  }

  lemma {:induction false} ProducerIdlesOn<T>(r: Run<T>, capacity: nat, t: nat, k: nat, at: nat)
    requires IsRun(r, capacity) && t <= k <= |r.steps| && ProducerIdles(r.states[t], at) && Held(r, t, k)
    ensures ProducerIdles(r.states[k], at)
  {
    assert |r.states| == |r.steps| + 1;
    hide IsRun, Inv, ProducerIdles;
    if t < k {
      ProducerIdlesOn(r, capacity, t, k - 1, at);
      RunStep(r, capacity, k - 1);
      ProducerIdlingGoesOn(r.states[k - 1], r.steps[k - 1], at);
    }
  }

  /** Step `j` stores a limit of the consumer that is beyond the index that step `u`
      replaces: a checkout has seen, and the consumer consumed, what `u` published. */
  ghost predicate ConsumerRenewsAt<T>(r: Run<T>, u: nat, j: nat)
    requires u <= j < |r.steps| <= |r.states|
  {
    r.steps[j] == CSetLimit && r.states[j].h.consEnd > r.states[u].h.pubProd
  }

  ghost predicate ConsumerRenews<T>(r: Run<T>, u: nat, k: nat)
    requires k <= |r.steps| <= |r.states|
  {
    exists j :: u < j < k && ConsumerRenewsAt(r, u, j)
  }

  ghost predicate ProducerRenewsAt<T>(r: Run<T>, u: nat, j: nat)
    requires u <= j < |r.steps| <= |r.states|
  {
    r.steps[j] == PSetLimit && r.states[j].h.prodEnd > r.states[u].h.pubCons + |r.states[u].m.slots|
  }

  ghost predicate ProducerRenews<T>(r: Run<T>, u: nat, k: nat)
    requires k <= |r.steps| <= |r.states|
  {
    exists j :: u < j < k && ProducerRenewsAt(r, u, j)
  }

  lemma ConsumerRenewsNext<T>(r: Run<T>, u: nat, k: nat)
    requires u + 1 < k <= |r.steps| < |r.states|
    ensures ConsumerRenews(r, u, k) <==> ConsumerRenews(r, u, k - 1) || ConsumerRenewsAt(r, u, k - 1)
  {
    if ConsumerRenews(r, u, k) {
      var j :| u < j < k && ConsumerRenewsAt(r, u, j);
      assert j == k - 1 || ConsumerRenews(r, u, k - 1);
    }
  }

  lemma {:induction false} ConsumerRace<T>(r: Run<T>, capacity: nat, u: nat, k: nat, at: nat)
    requires IsRun(r, capacity) && u < k <= |r.steps|
    requires ConsumerIdles(r.states[u], at) && Publishes(r.states[u].m, r.steps[u])
    requires forall j :: u < j < k ==> r.steps[j] != PBell
    ensures ConsumerRaces(r.states[k], at, r.states[u + 1].h.pubProd, ConsumerRenews(r, u, k))
  {
    assert |r.states| == |r.steps| + 1;
    RunStep(r, capacity, u);
    if k == u + 1 {
      RaceBegins(r.states[u], r.steps[u], at);
    } else {
      ConsumerRace(r, capacity, u, k - 1, at);
      RunStep(r, capacity, k - 1);
      ConsumerRaceGoesOn(r.states[k - 1], r.steps[k - 1], at, r.states[u + 1].h.pubProd, ConsumerRenews(r, u, k - 1));
      ConsumerRenewsNext(r, u, k);
      assert r.states[u].h.pubProd == at;
      hide IsRun, Inv, Do, Enabled, ConsumerRenews;
    }
  }

  lemma ProducerRenewsNext<T>(r: Run<T>, u: nat, k: nat)
    requires u + 1 < k <= |r.steps| < |r.states|
    ensures ProducerRenews(r, u, k) <==> ProducerRenews(r, u, k - 1) || ProducerRenewsAt(r, u, k - 1)
  {
    if ProducerRenews(r, u, k) {
      var j :| u < j < k && ProducerRenewsAt(r, u, j);
      assert j == k - 1 || ProducerRenews(r, u, k - 1);
    }
  }

  lemma {:induction false} ProducerRace<T>(r: Run<T>, capacity: nat, u: nat, k: nat, at: nat)
    requires IsRun(r, capacity) && u < k <= |r.steps|
    requires ProducerIdles(r.states[u], at) && Releases(r.states[u].m, r.steps[u])
    requires forall j :: u < j < k ==> r.steps[j] != CBell
    ensures ProducerRaces(r.states[k], at, r.states[u + 1].h.pubCons, ProducerRenews(r, u, k))
  {
    assert |r.states| == |r.steps| + 1;
    RunStep(r, capacity, u);
    if k == u + 1 {
      RaceBegins(r.states[u], r.steps[u], at);
    } else {
      ProducerRace(r, capacity, u, k - 1, at);
      RunStep(r, capacity, k - 1);
      ProducerRaceGoesOn(r.states[k - 1], r.steps[k - 1], at, r.states[u + 1].h.pubCons, ProducerRenews(r, u, k - 1));
      ProducerRenewsNext(r, u, k);
      assert r.states[u].h.pubCons == at;
      hide IsRun, Inv, Do, Enabled, ProducerRenews;
    }
  }

  lemma ConsumerRaceEnds<T>(st: State<T>, at: nat, pub: nat, renewed: bool)
    requires Inv(st) && ConsumerRaces(st, at, pub, renewed)
    ensures Enabled(st.m, PBell) && (Rings(st.m, PBell) <==> !renewed)
  {
    CommitTestUnbounded(pub, at, if renewed then pub else at);
  }

  lemma ProducerRaceEnds<T>(st: State<T>, at: nat, pub: nat, renewed: bool)
    requires Inv(st) && ProducerRaces(st, at, pub, renewed)
    ensures Enabled(st.m, CBell) && (Rings(st.m, CBell) <==> !renewed)
  {
    CommitTestUnbounded(pub, at, if renewed then pub else at);
  }

  /** A checkout of the consumer ends, at step `t`, having found nothing. Then the
      first commit whose store (step `u`) moves the producer's index after that
      returns true (when its last load, step `v`, is done), exactly unless the
      consumer has stored, between the two, the limit of a checkout that had seen
      the new index; and then it had consumed all that this commit published.
      Whatever else either actor does meanwhile, including checking out again, and
      whatever limits were stored before, makes no difference. */
  lemma FirstCommitWakesConsumer<T>(r: Run<T>, capacity: nat, t: nat, u: nat, v: nat)
    requires IsRun(r, capacity) && t < u < v < |r.steps|
    requires r.steps[t] == CRecheck && !r.states[t + 1].m.c.HasMessages()
    requires Publishes(r.states[u].m, r.steps[u]) && Quiet(r, t + 1, u)
    requires r.steps[v] == PBell && forall j :: u < j < v ==> r.steps[j] != PBell
    ensures Enabled(r.states[v].m, PBell) && (Rings(r.states[v].m, PBell) <==> !ConsumerRenews(r, u, v))
    ensures forall j :: u < j < v && ConsumerRenewsAt(r, u, j) ==> |r.states[j].h.got| == r.states[v].h.pubProd
  {
    RunStep(r, capacity, t);
    FruitlessCheckout(r.states[t], CRecheck);
    var at := r.states[t].h.pubProd;
    ConsumerIdlesOn(r, capacity, t + 1, u, at);
    ConsumerRace(r, capacity, u, v, at);
    RunInv(r, capacity, v);
    ConsumerRaceEnds(r.states[v], at, r.states[u + 1].h.pubProd, ConsumerRenews(r, u, v));
    forall j | u < j < v && ConsumerRenewsAt(r, u, j)
      ensures |r.states[j].h.got| == r.states[v].h.pubProd
    {
      ConsumerRace(r, capacity, u, j, at);
      RunStep(r, capacity, j);
    }
  }

  /** The same for a producer that found the ring full, and the consumer's commits. */
  lemma FirstCommitWakesProducer<T>(r: Run<T>, capacity: nat, t: nat, u: nat, v: nat)
    requires IsRun(r, capacity) && t < u < v < |r.steps|
    requires r.steps[t] == PRecheck && !r.states[t + 1].m.p.HasRoom()
    requires Releases(r.states[u].m, r.steps[u]) && Held(r, t + 1, u)
    requires r.steps[v] == CBell && forall j :: u < j < v ==> r.steps[j] != CBell
    ensures Enabled(r.states[v].m, CBell) && (Rings(r.states[v].m, CBell) <==> !ProducerRenews(r, u, v))
    ensures forall j :: u < j < v && ProducerRenewsAt(r, u, j) ==>
              |r.states[j].h.sent| == r.states[v].h.pubCons + capacity
  {
    RunStep(r, capacity, t);
    FruitlessCheckout(r.states[t], PRecheck);
    var at := r.states[t].h.pubCons;
    ProducerIdlesOn(r, capacity, t + 1, u, at);
    ProducerRace(r, capacity, u, v, at);
    RunInv(r, capacity, v);
    ProducerRaceEnds(r.states[v], at, r.states[u + 1].h.pubCons, ProducerRenews(r, u, v));
    forall j | u < j < v && ProducerRenewsAt(r, u, j)
      ensures |r.states[j].h.sent| == r.states[v].h.pubCons + capacity
    {
      ProducerRace(r, capacity, u, j, at);
      RunStep(r, capacity, j);
      RunInv(r, capacity, u);
    }
  }
}
