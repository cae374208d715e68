/** How a message or a signal reaches the other world: the ring, the notification
    register, the interrupt and the work item that one interrupt (re)queues,
    together with the signal registers of the sessions. Every atomic access and
    every section under a lock is one step; senders, the interrupt, the work item
    and the receiving applications interleave in any order.

    Both worlds notify each other in the same way, so the sender here is the
    driver's own sending code and the receiver is the driver's own handler. */
module Notification {
  import opened Platform
  import U = UniProtocol

  /** A bit of the notification register. */
  datatype Bit = Message | Signal(session: nat)

  /** Where the work item is. */
  datatype Work = Idle | Starting | Dispatching(todo: set<nat>, message: bool) | Draining | Committing | Belling

  /** One session: its signal register and the SIGNAL bit of its pending events;
      and, as a history, all the bits ever sent and all ever received. */
  datatype Channel = Channel(register: set<nat>, event: bool, sent: set<nat>, received: set<nat>)

  /** `notifiers`: how many senders have committed a message, learnt that they
      must notify, and not yet set the register's bit; `senders`: the sessions for
      which somebody has set the first signal bits and not yet the register's bit;
      `raisers`: how many have found the register clear and not yet raised the
      interrupt; `takers`: the sessions for which somebody has taken the SIGNAL
      event and not yet collected the bits. */
  datatype State<T> = State(
    ring: U.State<T>, channels: seq<Channel>,
    register: set<Bit>, notifiers: nat, senders: multiset<nat>, raisers: nat,
    interrupt: bool, queued: bool, work: Work, takers: multiset<nat>)

  datatype Step<T> =
    | Produce(p: U.Step<T>)
    | NotifyMessage
    | SendSignal(i: nat, bits: set<nat>)
    | NotifySignal(i: nat)
    | Raise
    | Interrupt
    | Start
    | Exchange
    | DispatchOne(i: nat)
    | EndDispatch
    | Drain(c: U.Step<T>)
    | TakeEvent(i: nat)
    | Collect(i: nat)

  predicate OfProducer<T>(s: U.Step<T>) {
    s.PCheck? || s.PSetLimit? || s.PRecheck? || s.PProduce? || s.PStore? || s.PBell?
  }

  /** The step of the ring that the work item takes next: checkouts and, while
      there are messages, consumptions; then one commit. */
  function DrainStep<T>(st: State<T>): (s: U.Step<T>)
    requires st.work.Draining? || st.work.Committing? || st.work.Belling?
  {
    if st.work.Committing? then U.CStore
    else if st.work.Belling? then U.CBell
    else LoopStep(st.ring)
  }

  function LoopStep<T>(ring: U.State<T>): U.Step<T> {
    match ring.m.cpc
    case AtLimit => U.CSetLimit
    case AtRecheck => U.CRecheck
    case _ => if ring.m.c.HasMessages() then U.CConsume else U.CCheck
  }

  ghost predicate Init<T>(st: State<T>, capacity: nat) {
    && U.Init(st.ring, capacity)
    && |st.channels| == SESSIONS
    && (forall i :: 0 <= i < SESSIONS ==> st.channels[i] == Channel({}, false, {}, {}))
    && st.register == {} && st.notifiers == st.raisers == 0 && st.senders == st.takers == multiset{}
    && !st.interrupt && !st.queued && st.work == Idle
  }

  ghost predicate Enabled<T>(st: State<T>, s: Step<T>) {
    match s
    case Produce(p) => OfProducer(p) && U.Enabled(st.ring.m, p)
    case NotifyMessage => st.notifiers > 0
    case SendSignal(i, bits) => i < |st.channels|
    case NotifySignal(i) => i in st.senders
    case Raise => st.raisers > 0
    case Interrupt => true  // possibly spurious
    case Start => st.queued && st.work == Idle
    case Exchange => st.work == Starting
    case DispatchOne(i) => st.work.Dispatching? && i in st.work.todo && i < |st.channels|
    case EndDispatch => st.work.Dispatching? && st.work.todo == {}
    case Drain(c) =>
      && (st.work.Draining? || st.work.Committing? || st.work.Belling?)
      && c == DrainStep(st) && U.Enabled(st.ring.m, c)
    case TakeEvent(i) => i < |st.channels|
    case Collect(i) => i in st.takers && i < |st.channels|
  }

  /** The fetch-or on the notification register; who finds it clear must raise
      the interrupt. */
  function Notify<T>(st: State<T>, bit: Bit): State<T> {
    st.(register := st.register + {bit}, raisers := if st.register == {} then st.raisers + 1 else st.raisers)
  }

  predicate Sized<T>(st: State<T>) {
    && |st.ring.m.slots| > 0 && st.ring.m.p.capacity == st.ring.m.c.capacity == |st.ring.m.slots|
  }

  function Signals(register: set<Bit>): set<nat> {
    set i | 0 <= i < SESSIONS && Signal(i) in register
  }

  ghost function Next<T>(st: State<T>, s: Step<T>): State<T>
    requires Sized(st) && Enabled(st, s)
  {
    match s
    case Produce(p) =>
      st.(ring := U.Do(st.ring, p), notifiers := if U.Rings(st.ring.m, p) then st.notifiers + 1 else st.notifiers)
    case NotifyMessage =>
      Notify(st, Message).(notifiers := st.notifiers - 1)
    case SendSignal(i, bits) =>
      var ch := st.channels[i];
      st.(channels := st.channels[i := ch.(register := ch.register + bits, sent := ch.sent + bits)],
          senders := if ch.register == {} then st.senders + multiset{i} else st.senders)
    case NotifySignal(i) =>
      Notify(st, Signal(i)).(senders := st.senders - multiset{i})
    case Raise => st.(raisers := st.raisers - 1, interrupt := true)
    case Interrupt => st.(interrupt := false, queued := true)
    case Start => st.(queued := false, work := Starting)
    case Exchange =>
      st.(register := {}, work := Dispatching(Signals(st.register), Message in st.register))
    case DispatchOne(i) =>
      st.(channels := st.channels[i := st.channels[i].(event := true)],
          work := st.work.(todo := st.work.todo - {i}))
    case EndDispatch => st.(work := if st.work.message then Draining else Idle)
    case Drain(c) =>
      var ring := U.Do(st.ring, c);
      st.(ring := ring, work := AfterDrain(st.work, c, ring))
    case TakeEvent(i) =>
      st.(channels := st.channels[i := st.channels[i].(event := false)], takers := st.takers + multiset{i})
    case Collect(i) =>
      var ch := st.channels[i];
      st.(channels := st.channels[i := ch.(register := {}, received := ch.received + ch.register)],
          takers := st.takers - multiset{i})
  }

  function AfterDrain<T>(work: Work, c: U.Step<T>, ring: U.State<T>): Work {
    if c == U.CRecheck && !ring.m.c.HasMessages() then Committing
    else if c == U.CStore then if ring.m.cpc.AtBell? then Belling else Idle
    else if c == U.CBell then Idle
    else work
  }

  // ----- The invariant -----

  /** The work item will read the notification register again. */
  predicate WakeOwed<T>(st: State<T>) {
    st.raisers > 0 || st.interrupt || st.queued || st.work == Starting
  }

  /** The work item has seen the MESSAGE bit and will see every message that is
      published before it finds the ring empty. */
  predicate Serving<T>(st: State<T>) {
    st.work.Draining? || (st.work.Dispatching? && st.work.message)
  }

  ghost predicate WorkInv<T>(ring: U.State<T>, work: Work) {
    match work
    case Draining => !ring.m.cpc.AtBell?
    case Committing => ring.m.cpc == U.Rest && ring.h.cAsleep
    case Belling => ring.m.cpc.AtBell? && ring.h.cAsleep
    case _ => ring.m.cpc == U.Rest && ring.h.cAsleep && |ring.h.got| == ring.h.pubCons
  }

  predicate MessageInv<T>(st: State<T>) {
    st.ring.h.cAsleep && st.ring.h.cRung ==> st.notifiers > 0 || Message in st.register || Serving(st)
  }

  /** Somebody will still pass on, or has passed on, that session `i` has signals. */
  predicate SignalUnderWay<T>(st: State<T>, i: nat)
    requires i < |st.channels|
  {
    || i in st.senders
    || Signal(i) in st.register
    || (st.work.Dispatching? && i in st.work.todo)
    || st.channels[i].event
    || i in st.takers
  }

  ghost predicate ChannelInv<T>(st: State<T>, i: nat)
    requires i < |st.channels|
  {
    var ch := st.channels[i];
    && ch.sent == ch.received + ch.register
    && (ch.register != {} ==> SignalUnderWay(st, i))
  }

  ghost predicate Inv<T>(st: State<T>) {
    && U.Inv(st.ring)
    && WorkInv(st.ring, st.work)
    && (st.register != {} ==> WakeOwed(st))
    && MessageInv(st)
    && |st.channels| == SESSIONS
    && Bounded(st)
    && forall i :: 0 <= i < SESSIONS ==> ChannelInv(st, i)
  }

  ghost predicate Bounded<T>(st: State<T>) {
    && (forall i: nat :: Signal(i) in st.register ==> i < SESSIONS)
    && (forall i :: i in st.senders ==> i < SESSIONS)
    && (st.work.Dispatching? ==> forall i :: i in st.work.todo ==> i < SESSIONS)
  }

  lemma InitInv<T>(st: State<T>, capacity: nat)
    requires Init(st, capacity)
    ensures Inv(st)
  {
    U.InitInv(st.ring, capacity);
  }

  // ----- What the steps of the ring do to the receiver -----

  lemma ProducerLeaves<T>(ring: U.State<T>, p: U.Step<T>)
    requires U.Inv(ring) && OfProducer(p) && U.Enabled(ring.m, p)
    ensures U.Inv(U.Do(ring, p))
    ensures var ring' := U.Do(ring, p);
            && ring'.m.c == ring.m.c && ring'.m.cpc == ring.m.cpc
            && ring'.h.got == ring.h.got && ring'.h.pubCons == ring.h.pubCons && ring'.h.cAsleep == ring.h.cAsleep
            && ring'.h.cRung == (ring.h.cRung || U.Rings(ring.m, p))
  {
    U.Preserved(ring, p);
  }

  ghost predicate DrainFacts<T>(ring: U.State<T>, c: U.Step<T>, ring': U.State<T>) {
    && ring'.h.pubProd == ring.h.pubProd && ring'.m.ppc == ring.m.ppc
    && match c
       case CCheck =>
         && !ring'.h.cAsleep && ring'.m.cpc == (if ring'.m.c.HasMessages() then U.Rest else U.AtLimit)
         && ring'.h.got == ring.h.got && ring'.h.pubCons == ring.h.pubCons
       case CSetLimit =>
         && ring'.h.cAsleep == ring.h.cAsleep && ring'.m.cpc == U.AtRecheck
         && ring'.h.got == ring.h.got && ring'.h.pubCons == ring.h.pubCons
       case CRecheck =>
         && ring'.h.cAsleep == !ring'.m.c.HasMessages() && !ring'.h.cRung && ring'.m.cpc == U.Rest
         && ring'.h.got == ring.h.got && ring'.h.pubCons == ring.h.pubCons
         && (ring'.h.cAsleep <==> |ring'.h.got| == ring'.h.pubProd)
       case CConsume =>
         && ring'.h.cAsleep == ring.h.cAsleep && ring'.m.cpc == U.Rest
         && |ring'.h.got| == |ring.h.got| + (if ring.m.c.HasMessages() then 1 else 0)
         && ring'.h.pubCons == ring.h.pubCons
       case CStore =>
         && ring'.h.cAsleep == ring.h.cAsleep && ring'.h.cRung == ring.h.cRung && ring'.h.got == ring.h.got
         && (ring'.m.cpc.AtBell? || ring'.m.cpc == U.Rest) && |ring'.h.got| == ring'.h.pubCons
       case CBell =>
         && ring'.h.cAsleep == ring.h.cAsleep && ring'.h.cRung == ring.h.cRung && ring'.h.got == ring.h.got
         && ring'.m.cpc == U.Rest && |ring'.h.got| == ring'.h.pubCons
       case _ => true
  }

  lemma DrainDoes<T>(ring: U.State<T>, c: U.Step<T>)
    requires U.Inv(ring) && !OfProducer(c) && U.Enabled(ring.m, c)
    ensures U.Inv(U.Do(ring, c))
    ensures DrainFacts(ring, c, U.Do(ring, c))
  {
    U.Preserved(ring, c);
    U.Readings(ring);
    U.Readings(U.Do(ring, c));
  }

  // ----- Every step keeps the invariant -----

  /** Nothing that the signals depend on has changed. */
  predicate SameSignals<T>(st: State<T>, st': State<T>) {
    && st'.channels == st.channels && st'.senders == st.senders && st'.takers == st.takers
    && st'.register == st.register
    && (if st.work.Dispatching? then st'.work == st.work else !st'.work.Dispatching?)
  }

  ghost predicate ChannelsInv<T>(st: State<T>) {
    && |st.channels| == SESSIONS && Bounded(st)
    && forall i :: 0 <= i < SESSIONS ==> ChannelInv(st, i)
  }

  lemma ChannelsStay<T>(st: State<T>, st': State<T>)
    requires ChannelsInv(st) && SameSignals(st, st')
    ensures ChannelsInv(st')
  {
    forall i | 0 <= i < SESSIONS
      ensures ChannelInv(st', i)
    {
      assert ChannelInv(st, i);
    }
  }

  lemma ProduceSteps<T>(st: State<T>, s: Step<T>)
    requires Inv(st) && Enabled(st, s) && s.Produce?
    ensures Inv(Next(st, s))
  {
    ProducerLeaves(st.ring, s.p);
    hide U.Do, U.Inv, U.Enabled, U.Rings, ChannelInv, Bounded;
    ChannelsStay(st, Next(st, s));
  }

  lemma DrainRing<T>(st: State<T>, c: U.Step<T>)
    requires U.Inv(st.ring) && WorkInv(st.ring, st.work) && Enabled(st, Drain(c))
    ensures var ring := U.Do(st.ring, c); WorkInv(ring, AfterDrain(st.work, c, ring))
    ensures !AfterDrain(st.work, c, U.Do(st.ring, c)).Dispatching?
  {
    DrainDoes(st.ring, c);
    hide U.Do, U.Inv, U.Enabled;
  }

  lemma DrainWork<T>(st: State<T>, s: Step<T>)
    requires Inv(st) && Enabled(st, s) && s.Drain?
    ensures var st' := Next(st, s); U.Inv(st'.ring) && WorkInv(st'.ring, st'.work) && !st'.work.Dispatching?
  {
    DrainDoes(st.ring, s.c);
    DrainRing(st, s.c);
    hide U.Do, U.Inv, U.Enabled, U.Rings, ChannelInv, Bounded, MessageInv, WorkInv, AfterDrain, DrainFacts;
  }

  lemma DrainMessage<T>(st: State<T>, s: Step<T>)
    requires Inv(st) && Enabled(st, s) && s.Drain?
    ensures MessageInv(Next(st, s))
  {
    DrainDoes(st.ring, s.c);
    hide U.Do, U.Inv, U.Enabled, U.Rings, ChannelInv, Bounded;
  }

  lemma DrainWakes<T>(st: State<T>, s: Step<T>)
    requires Enabled(st, s) && s.Drain? && Sized(st)
    ensures Next(st, s).work != Starting && Next(st, s).register == st.register
    ensures WakeOwed(Next(st, s)) <==> WakeOwed(st)
  {
    hide U.Do, U.Enabled;
  }

  lemma DrainSteps<T>(st: State<T>, s: Step<T>)
    requires Inv(st) && Enabled(st, s) && s.Drain?
    ensures Inv(Next(st, s))
  {
    DrainWork(st, s);
    DrainMessage(st, s);
    DrainWakes(st, s);
    hide U.Do, U.Inv, U.Enabled, WorkInv, MessageInv, ChannelInv, Bounded, WakeOwed, DrainStep, AfterDrain;
    ChannelsStay(st, Next(st, s));
  }

  lemma RegisterSteps<T>(st: State<T>, s: Step<T>)
    requires Inv(st) && Enabled(st, s) && (s.NotifyMessage? || s.NotifySignal? || s.Exchange?)
    ensures Inv(Next(st, s))
  {
    var st' := Next(st, s);
    forall i | 0 <= i < SESSIONS
      ensures ChannelInv(st', i)
    {
      assert ChannelInv(st, i);
    }
  }

  lemma WakeSteps<T>(st: State<T>, s: Step<T>)
    requires Inv(st) && Enabled(st, s) && (s.Raise? || s.Interrupt? || s.Start? || s.EndDispatch?)
    ensures Inv(Next(st, s))
  {
    var st' := Next(st, s);
    forall i | 0 <= i < SESSIONS
      ensures ChannelInv(st', i)
    {
      assert ChannelInv(st, i);
    }
  }

  lemma SendSteps<T>(st: State<T>, s: Step<T>)
    requires Inv(st) && Enabled(st, s) && s.SendSignal?
    ensures Inv(Next(st, s))
  {
    var st' := Next(st, s);
    forall i | 0 <= i < SESSIONS
      ensures ChannelInv(st', i)
    {
      assert ChannelInv(st, i);
    }
    hide U.Inv;
  }

  lemma CollectSteps<T>(st: State<T>, s: Step<T>)
    requires Inv(st) && Enabled(st, s) && s.Collect?
    ensures Inv(Next(st, s))
  {
    var st' := Next(st, s);
    forall i | 0 <= i < SESSIONS
      ensures ChannelInv(st', i)
    {
      assert ChannelInv(st, i);
    }
    hide U.Inv;
  }

  lemma EventSteps<T>(st: State<T>, s: Step<T>)
    requires Inv(st) && Enabled(st, s) && (s.DispatchOne? || s.TakeEvent?)
    ensures Inv(Next(st, s))
  {
    var st' := Next(st, s);
    forall i | 0 <= i < SESSIONS
      ensures ChannelInv(st', i)
    {
      assert ChannelInv(st, i);
    }
    hide U.Inv;
  }

  lemma Preserved<T>(st: State<T>, s: Step<T>)
    requires Inv(st) && Enabled(st, s)
    ensures Inv(Next(st, s))
  {
    match s
    case Produce(_) => ProduceSteps(st, s);
    case Drain(_) => DrainSteps(st, s);
    case NotifyMessage | NotifySignal(_) | Exchange => RegisterSteps(st, s);
    case Raise | Interrupt | Start | EndDispatch => WakeSteps(st, s);
    case SendSignal(_, _) => SendSteps(st, s);
    case Collect(_) => CollectSteps(st, s);
    case _ => EventSteps(st, s);
  }

  // ----- Runs -----

  datatype Run<T> = Run(states: seq<State<T>>, steps: seq<Step<T>>)

  ghost predicate Follows<T>(st: State<T>, s: Step<T>, st': State<T>) {
    Sized(st) && Enabled(st, s) && st' == Next(st, s)
  }

  ghost predicate IsRun<T>(r: Run<T>, capacity: nat) {
    && |r.states| == |r.steps| + 1
    && Init(r.states[0], capacity)
    && forall i :: 0 <= i < |r.steps| ==> StepAt(r, i)
  }

  ghost predicate StepAt<T>(r: Run<T>, i: nat)
    requires i < |r.steps| < |r.states|
  {
    Follows(r.states[i], r.steps[i], r.states[i + 1])
  }

  lemma StepInv<T>(st: State<T>, s: Step<T>, st': State<T>)
    requires Inv(st) && Follows(st, s, st')
    ensures Inv(st')
  {
    Preserved(st, s);
  }

  lemma {:induction false} RunInv<T>(r: Run<T>, capacity: nat, i: nat)
    requires IsRun(r, capacity) && i <= |r.steps|
    ensures Inv(r.states[i])
  {
    if i == 0 {
      InitInv(r.states[0], capacity);
    } else {
      RunInv(r, capacity, i - 1);
      assert StepAt(r, i - 1);
      StepInv(r.states[i - 1], r.steps[i - 1], r.states[i]);
    }
  }

  /** In every reachable state, if a published message is unconsumed, then the
      drain is running or about to run, or the MESSAGE bit is set and the work
      item will look at it, or a sender has yet to set the bit, or a commit in
      progress is bound to return that its caller must. */
  lemma NoStrandedMessage<T>(r: Run<T>, capacity: nat, i: nat)
    requires IsRun(r, capacity) && i <= |r.steps|
    ensures var st := r.states[i];
            |st.ring.h.got| < st.ring.h.pubProd ==>
              || Serving(st)
              || (Message in st.register && WakeOwed(st))
              || st.notifiers > 0
              || (st.ring.m.ppc.AtBell? && U.Rings(st.ring.m, U.PBell))
  {
    RunInv(r, capacity, i);
    if |r.states[i].ring.h.got| < r.states[i].ring.h.pubProd {
      Unconsumed(r.states[i]);
    }
  }

  lemma Unconsumed<T>(st: State<T>)
    requires Inv(st) && |st.ring.h.got| < st.ring.h.pubProd
    ensures || Serving(st)
            || (Message in st.register && WakeOwed(st))
            || st.notifiers > 0
            || (st.ring.m.ppc.AtBell? && U.Rings(st.ring.m, U.PBell))
  {
    if st.ring.m.ppc.AtBell? {
      U.RingsIffAwaited(st.ring, U.PBell);
    }
  }

  /** The drain ends only in a state in which every published message is consumed;
      and the work item leaves it with its consumption published. */
  lemma DrainEndsEmpty<T>(r: Run<T>, capacity: nat, i: nat)
    requires IsRun(r, capacity) && i < |r.steps|
    ensures var (st, st') := (r.states[i], r.states[i + 1]);
            && (st.work.Draining? && !st'.work.Draining? ==>
                  st'.work.Committing? && |st'.ring.h.got| == st'.ring.h.pubProd)
            && (!st.work.Idle? && st'.work.Idle? ==> |st'.ring.h.got| == st'.ring.h.pubCons)
  {
    RunInv(r, capacity, i);
    assert StepAt(r, i);
    StepEndsEmpty(r.states[i], r.steps[i]);
  }

  /** What the end of the drain, and that of the work item, means. */
  predicate EndsEmpty<T>(st: State<T>, st': State<T>) {
    && (st.work.Draining? && !st'.work.Draining? ==>
          st'.work.Committing? && |st'.ring.h.got| == st'.ring.h.pubProd)
    && (!st.work.Idle? && st'.work.Idle? ==> |st'.ring.h.got| == st'.ring.h.pubCons)
  }

  lemma StepEndsEmpty<T>(st: State<T>, s: Step<T>)
    requires Inv(st) && Enabled(st, s)
    ensures EndsEmpty(st, Next(st, s))
  {
    if s.Drain? {
      DrainStepEndsEmpty(st, s);
    } else {
      OthersEndEmpty(st, s);
    }
    hide Inv, Enabled, Next, EndsEmpty;
  }

  lemma DrainStepEndsEmpty<T>(st: State<T>, s: Step<T>)
    requires Inv(st) && Enabled(st, s) && s.Drain?
    ensures EndsEmpty(st, Next(st, s))
  {
    DrainDoes(st.ring, s.c);
    hide U.Do, U.Enabled, U.Inv, MessageInv, ChannelInv, Bounded;
  }

  lemma OthersEndEmpty<T>(st: State<T>, s: Step<T>)
    requires Inv(st) && Enabled(st, s) && !s.Drain?
    ensures EndsEmpty(st, Next(st, s))
  {
    hide U.Do, U.Enabled, U.Inv, MessageInv, ChannelInv, Bounded, Signals;
  }

  /** In every reachable state, a signal register that is not clear means that a
      sender is about to set the session's bit, or the bit is set and the work
      item will look at it, or the work item has yet to visit the session, or the
      session's event is pending, or somebody has taken it and not yet collected. */
  lemma NoStrandedSignal<T>(r: Run<T>, capacity: nat, i: nat, session: nat)
    requires IsRun(r, capacity) && i <= |r.steps| && session < SESSIONS
    ensures var st := r.states[i];
            && |st.channels| == SESSIONS
            && (st.channels[session].register != {} ==>
                  || session in st.senders
                  || (Signal(session) in st.register && WakeOwed(st))
                  || (st.work.Dispatching? && session in st.work.todo)
                  || st.channels[session].event
                  || session in st.takers)
  {
    RunInv(r, capacity, i);
    assert ChannelInv(r.states[i], session);
  }

  /** No signal is lost and none appears from nowhere: what was sent on a session
      is what was received together with what is still in its register. */
  lemma SignalsConserved<T>(r: Run<T>, capacity: nat, i: nat, session: nat)
    requires IsRun(r, capacity) && i <= |r.steps| && session < SESSIONS
    ensures var st := r.states[i];
            && |st.channels| == SESSIONS
            && st.channels[session].sent == st.channels[session].received + st.channels[session].register
  {
    RunInv(r, capacity, i);
    assert ChannelInv(r.states[i], session);
  }

  // ----- Once nothing new is sent, everything is delivered -----

  /** Nobody is in the middle of anything but collecting. */
  ghost predicate Quiescent<T>(st: State<T>) {
    && st.work == Idle && !st.queued && !st.interrupt && st.raisers == st.notifiers == 0
    && st.senders == multiset{} && !st.ring.m.ppc.AtBell?
  }

  /** Then every published message has been consumed, the notification register
      is clear, and every session with signals has its event pending, unless
      somebody has just taken it. */
  lemma QuiescentMeansDelivered<T>(st: State<T>)
    requires Inv(st) && Quiescent(st)
    ensures st.ring.h.got == st.ring.h.sent[..st.ring.h.pubProd]
    ensures st.register == {}
    ensures forall i :: 0 <= i < SESSIONS && st.channels[i].register != {} ==> st.channels[i].event || i in st.takers
  {
    if |st.ring.h.got| < st.ring.h.pubProd {
      Unconsumed(st);
    }
    forall i | 0 <= i < SESSIONS && st.channels[i].register != {}
      ensures st.channels[i].event || i in st.takers
    {
      assert ChannelInv(st, i);
    }
  }

  /** A step that brings new work: a new index is published, a signal is sent, or
      an interrupt arrives that nobody raised. */
  predicate BringsWork<T>(st: State<T>, s: Step<T>) {
    match s
    case Produce(p) => U.Publishes(st.ring.m, p)
    case SendSignal(_, _) => true
    case Interrupt => !st.interrupt
    case _ => false
  }

  /** A step that carries on delivering: everything else but the producer's
      checkouts and productions and the receiving applications' steps. */
  predicate Delivers<T>(st: State<T>, s: Step<T>) {
    match s
    case Produce(p) => p.PBell?
    case SendSignal(_, _) | TakeEvent(_) | Collect(_) => false
    case Interrupt => st.interrupt
    case _ => true
  }

  /** While something is under way, a delivering step can be taken. */
  ghost function Due<T>(st: State<T>): Step<T>
    requires !Quiescent(st)
  {
    if st.ring.m.ppc.AtBell? then Produce(U.PBell)
    else if st.notifiers > 0 then NotifyMessage
    else if st.senders != multiset{} then var i :| i in st.senders; NotifySignal(i)
    else if st.raisers > 0 then Raise
    else if st.interrupt then Interrupt
    else match st.work
      case Idle => Start
      case Starting => Exchange
      case Dispatching(todo, _) => if todo != {} then var i :| i in todo; DispatchOne(i) else EndDispatch
      case _ => Drain(DrainStep(st))
  }

  lemma NeverStuck<T>(st: State<T>)
    requires Inv(st) && !Quiescent(st)
    ensures Enabled(st, Due(st)) && Delivers(st, Due(st))
  {
  }

  /** How far the work item is. */
  function WorkCost<T>(work: Work, ring: U.State<T>): nat {
    match work
    case Idle => 0
    case Starting => 8
    case Dispatching(todo, _) => |todo| + 7
    case Draining => DrainPhase(ring)
    case Committing => 2
    case Belling => 1
  }

  function DrainPhase<T>(ring: U.State<T>): nat {
    match ring.m.cpc
    case AtLimit => 5
    case AtRecheck => 4
    case _ => if ring.m.c.HasMessages() then 3 else 6
  }

  /** What is under way, and how much it may still cause. */
  ghost function Backlog<T>(st: State<T>): int {
    4 * (st.ring.h.pubProd - |st.ring.h.got|) + WorkCost(st.work, st.ring) + |Signals(st.register)|
    + (if st.queued then 9 else 0) + (if st.interrupt then 10 else 0)
    + 11 * st.raisers + 12 * st.notifiers + 13 * |st.senders| + (if st.ring.m.ppc.AtBell? then 13 else 0)
  }

  lemma SignalsGrow(register: set<Bit>, bit: Bit)
    ensures |Signals(register + {bit})| <= |Signals(register)| + if bit.Signal? then 1 else 0
  {
    var extra := if bit.Signal? && bit.session < SESSIONS then {bit.session} - Signals(register) else {};
    assert Signals(register + {bit}) == Signals(register) + extra;
    assert |extra| <= 1 by {
      if bit.Signal? {
        assert extra <= {bit.session};
        Subset(extra, {bit.session});
      }
    }
  }

  lemma {:induction false} Subset(a: set<nat>, b: set<nat>)
    requires a <= b
    ensures |a| <= |b|
  {
    assert b == a + (b - a);
  }

  lemma ProducerBells<T>(ring: U.State<T>, p: U.Step<T>)
    requires U.Inv(ring) && OfProducer(p) && U.Enabled(ring.m, p) && !U.Publishes(ring.m, p)
    ensures p.PBell? ==> ring.m.ppc.AtBell? && U.Do(ring, p).m.ppc == U.Rest
    ensures U.Do(ring, p).m.ppc.AtBell? ==> ring.m.ppc.AtBell?
    ensures U.Rings(ring.m, p) ==> p.PBell?
    ensures U.Do(ring, p).h.pubProd == ring.h.pubProd
  {
    U.StepCommitFacts(ring, p);
  }

  lemma ProduceBacklog<T>(st: State<T>, s: Step<T>)
    requires Inv(st) && Enabled(st, s) && s.Produce? && !BringsWork(st, s)
    ensures Backlog(Next(st, s)) <= Backlog(st) - if Delivers(st, s) then 1 else 0
  {
    ProducerLeaves(st.ring, s.p);
    ProducerBells(st.ring, s.p);
    hide U.Do, U.Enabled, U.Inv, U.Rings, U.Publishes, MessageInv, ChannelInv, Bounded, WorkInv, Signals;
  }

  /** Every step of the drain loop brings it closer to its end, which it reaches
      by finding nothing. */
  lemma LoopAdvances<T>(ring: U.State<T>, ring': U.State<T>)
    requires U.Inv(ring) && !ring.m.cpc.AtBell? && ring' == U.Do(ring, LoopStep(ring))
    ensures (LoopStep(ring) == U.CRecheck && !ring'.m.c.HasMessages()) ||
            4 * |ring'.h.got| - DrainPhase(ring') > 4 * |ring.h.got| - DrainPhase(ring)
    ensures |ring'.h.got| >= |ring.h.got| && DrainPhase(ring) >= 3
    ensures ring'.h.pubCons == ring.h.pubCons && ring'.h.pubProd == ring.h.pubProd && ring'.m.ppc == ring.m.ppc
    ensures |ring'.m.slots| == |ring.m.slots|
    ensures LoopStep(ring) != U.CStore && LoopStep(ring) != U.CBell
  {
    DrainDoes(ring, LoopStep(ring));
  }

  lemma LoopBacklog<T>(st: State<T>, s: Step<T>)
    requires Inv(st) && Enabled(st, s) && s.Drain? && st.work.Draining?
    ensures Backlog(Next(st, s)) < Backlog(st)
  {
    LoopAdvances(st.ring, U.Do(st.ring, s.c));
    hide U.Do, U.Enabled, U.Inv, LoopStep, DrainFacts, MessageInv, ChannelInv, Bounded;
  }

  lemma CommitBacklog<T>(st: State<T>, s: Step<T>)
    requires Inv(st) && Enabled(st, s) && s.Drain? && !st.work.Draining?
    ensures Backlog(Next(st, s)) < Backlog(st)
  {
    DrainDoes(st.ring, s.c);
    hide U.Do, U.Enabled, U.Inv, LoopStep, MessageInv, ChannelInv, Bounded;
  }

  lemma RegisterBacklog<T>(st: State<T>, s: Step<T>)
    requires Inv(st) && Enabled(st, s) && (s.NotifyMessage? || s.NotifySignal? || s.Exchange?)
    ensures Backlog(Next(st, s)) < Backlog(st)
  {
    match s
    case NotifyMessage => SignalsGrow(st.register, Message);
    case NotifySignal(i) => SignalsGrow(st.register, Signal(i));
    case Exchange => assert Signals({}) == {};
  }

  lemma WakeBacklog<T>(st: State<T>, s: Step<T>)
    requires Inv(st) && Enabled(st, s) && !BringsWork(st, s)
    requires s.Raise? || s.Interrupt? || s.Start? || s.EndDispatch? || s.DispatchOne?
    ensures Backlog(Next(st, s)) < Backlog(st)
  {
    if s.EndDispatch? {
      U.Readings(st.ring);
    }
    hide U.Inv, MessageInv, ChannelInv, Bounded;
  }

  lemma BacklogFalls<T>(st: State<T>, s: Step<T>)
    requires Inv(st) && Enabled(st, s) && !BringsWork(st, s)
    ensures Backlog(Next(st, s)) <= Backlog(st) - if Delivers(st, s) then 1 else 0
  {
    match s
    case Produce(_) => ProduceBacklog(st, s);
    case Drain(_) => if st.work.Draining? { LoopBacklog(st, s); } else { CommitBacklog(st, s); }
    case NotifyMessage | NotifySignal(_) | Exchange => RegisterBacklog(st, s);
    case Raise | Interrupt | Start | EndDispatch | DispatchOne(_) => WakeBacklog(st, s);
    case TakeEvent(_) | Collect(_) =>
  }

  /** A run from any state that keeps the invariant, in which nothing new is sent. */
  ghost predicate WindsDown<T>(r: Run<T>) {
    && |r.states| == |r.steps| + 1
    && Inv(r.states[0])
    && forall i :: 0 <= i < |r.steps| ==> StepAt(r, i) && !BringsWork(r.states[i], r.steps[i])
  }

  /** How many of the first `n` steps deliver. */
  ghost function Deliveries<T>(r: Run<T>, n: nat): nat
    requires n <= |r.steps| < |r.states|
  {
    if n == 0 then 0 else Deliveries(r, n - 1) + if Delivers(r.states[n - 1], r.steps[n - 1]) then 1 else 0
  }

  /** However the steps interleave, once nothing new is sent only so many more
      steps deliver as the backlog says (and as long as anything is under way one
      of them can be taken, by `NeverStuck`). */
  lemma {:induction false} BoundedDelivery<T>(r: Run<T>, n: nat)
    requires WindsDown(r) && n <= |r.steps|
    ensures Inv(r.states[n])
    ensures Deliveries(r, n) + Backlog(r.states[n]) <= Backlog(r.states[0])
    ensures Backlog(r.states[n]) >= 0
  {
    hide Inv, Follows, Backlog, Delivers, BringsWork;
    if n > 0 {
      BoundedDelivery(r, n - 1);
      assert StepAt(r, n - 1);
      WindsDownBy(r.states[n - 1], r.steps[n - 1], r.states[n]);
    }
    BacklogNatural(r.states[n]);
  }

  lemma WindsDownBy<T>(st: State<T>, s: Step<T>, st': State<T>)
    requires Inv(st) && Follows(st, s, st') && !BringsWork(st, s)
    ensures Inv(st') && Backlog(st') <= Backlog(st) - if Delivers(st, s) then 1 else 0
  {
    StepInv(st, s, st');
    BacklogFalls(st, s);
  }

  lemma BacklogNatural<T>(st: State<T>)
    requires Inv(st)
    ensures Backlog(st) >= 0
  {
  }

  // ----- The drain is bounded even if sending goes on -----

  /** From state `i` up to state `j` the drain goes on. */
  ghost predicate KeepsDraining<T>(r: Run<T>, i: nat, j: nat)
    requires i <= j < |r.states|
  {
    forall k :: i <= k <= j ==> r.states[k].work.Draining?
  }

  ghost function StepsDrained<T>(r: Run<T>, i: nat, j: nat): nat
    requires i <= j <= |r.steps|
  {
    if i == j then 0 else StepsDrained(r, i, j - 1) + if r.steps[j - 1].Drain? then 1 else 0
  }

  ghost function DrainLeft<T>(st: State<T>): int {
    4 * (st.ring.h.pubCons + |st.ring.m.slots| - |st.ring.h.got|) + DrainPhase(st.ring)
  }

  lemma DrainLeftFalls<T>(st: State<T>, s: Step<T>, st': State<T>)
    requires Inv(st) && Follows(st, s, st') && st.work.Draining? && st'.work.Draining?
    ensures LeftFalls(st, s, st')
  {
    if s.Drain? {
      LoopAdvances(st.ring, st'.ring);
    } else if s.Produce? {
      ProducerLeaves(st.ring, s.p);
      assert |st'.ring.m.slots| == |st.ring.m.slots|;
    }
    hide U.Do, U.Enabled, U.Inv, LoopStep;
  }

  ghost predicate LeftFalls<T>(st: State<T>, s: Step<T>, st': State<T>) {
    && DrainLeft(st') <= DrainLeft(st) - (if s.Drain? then 1 else 0)
    && st'.ring.h.pubCons == st.ring.h.pubCons
  }

  lemma RunStep<T>(r: Run<T>, capacity: nat, i: nat)
    requires IsRun(r, capacity) && i < |r.steps|
    ensures Inv(r.states[i]) && Follows(r.states[i], r.steps[i], r.states[i + 1])
  {
    RunInv(r, capacity, i);
    assert StepAt(r, i);
  }

  lemma DrainLeftFallsAt<T>(r: Run<T>, capacity: nat, j: nat)
    requires IsRun(r, capacity) && j < |r.steps| && r.states[j].work.Draining? && r.states[j + 1].work.Draining?
    ensures LeftFalls(r.states[j], r.steps[j], r.states[j + 1])
  {
    RunStep(r, capacity, j);
    hide IsRun, Inv, Follows, LeftFalls;
    DrainLeftFalls(r.states[j], r.steps[j], r.states[j + 1]);
  }

  lemma {:induction false} DrainLeftBounds<T>(r: Run<T>, capacity: nat, i: nat, j: nat)
    requires IsRun(r, capacity) && i <= j <= |r.steps| && KeepsDraining(r, i, j)
    ensures StepsDrained(r, i, j) + DrainLeft(r.states[j]) <= DrainLeft(r.states[i])
    ensures r.states[j].ring.h.pubCons == r.states[i].ring.h.pubCons
    decreases j
  {
    assert |r.states| == |r.steps| + 1;
    hide IsRun, DrainLeft;
    if i < j {
      DrainLeftBounds(r, capacity, i, j - 1);
      DrainLeftFallsAt(r, capacity, j - 1);
    }
  }

  /** Because the drain publishes its consumption only at its end, it consumes at
      most one capacity of messages and takes a bounded number of steps, whatever
      the senders do meanwhile. */
  lemma DrainBounded<T>(r: Run<T>, capacity: nat, i: nat, j: nat)
    requires IsRun(r, capacity) && i <= j <= |r.steps| && KeepsDraining(r, i, j)
    ensures |r.states[j].ring.h.got| - |r.states[i].ring.h.got| <= capacity
    ensures StepsDrained(r, i, j) <= 4 * capacity + 6
  {
    DrainLeftBounds(r, capacity, i, j);
    RunInv(r, capacity, i);
    RunInv(r, capacity, j);
    RunCapacity(r, capacity, i);
    RunCapacity(r, capacity, j);
  }

  lemma StepCapacity<T>(st: State<T>, s: Step<T>, st': State<T>)
    requires Inv(st) && Follows(st, s, st')
    ensures |st'.ring.m.slots| == |st.ring.m.slots|
  {
    match s
    case Produce(p) => U.StepInv(st.ring, p, st'.ring);
    case Drain(c) => U.StepInv(st.ring, c, st'.ring);
    case _ =>
  }

  lemma {:induction false} RunCapacity<T>(r: Run<T>, capacity: nat, i: nat)
    requires IsRun(r, capacity) && i <= |r.steps|
    ensures |r.states[i].ring.m.slots| == capacity
  {
    if i > 0 {
      hide Inv, Follows;
      RunCapacity(r, capacity, i - 1);
      RunStep(r, capacity, i - 1);
      StepCapacity(r.states[i - 1], r.steps[i - 1], r.states[i]);
    }
  }
}
