/** When events are pending: what sets each of them, what takes it away, which
    received messages do nothing, and what those under way carry. */
module Events {
  import opened Exchange
  import opened Lifetimes
  import opened SessionProtocol

  // ----- What takes an event away -----

  /** A call that takes the event `e`, or fetches what it announced. */
  predicate Clears(h: Half, s: Step, e: Event) {
    || (s.Take? && e in s.mask)
    || (e == RequestEvent && s == FetchRequest && h.v.server == Notified)
    || (e == ResponseEvent && (s == FetchResponse || s == StartCancel) && h.v.client == Notified)
  }

  /** Move `j` is such a call of the side, or a new lifetime begins for the side. */
  predicate ClearsAt(l: Life, side: Side, e: Event, j: nat)
    requires j < |l.moves| < |l.states|
  {
    match l.moves[j]
    case Move(mover, s) => mover == side && Clears(HalfOf(l.states[j], side), s, e)
    case Open(_, _, _) => true
    case AnswerConfig(accept) => side == Secure && accept
  }

  lemma CallEvents(h: Half, index: nat, s: Step)
    ensures Call(h, index, s).0.v.events ==
            match s
            case Take(mask) => h.v.events - mask
            case FetchRequest => if h.v.server == Notified then h.v.events - {RequestEvent} else h.v.events
            case FetchResponse | StartCancel =>
              if h.v.client == Notified then h.v.events - {ResponseEvent} else h.v.events
            case FinishClosing => ALL_EVENTS
            case _ => h.v.events
  {
  }

  lemma CallClears(h: Half, index: nat, s: Step, e: Event)
    requires e in h.v.events
    ensures e in Call(h, index, s).0.v.events <==> !Clears(h, s, e)
  {
    hide Call;
    CallEvents(h, index, s);
  }

  lemma HandleClears(h: Half, index: nat, w: Wire, e: Event)
    requires e in h.v.events
    ensures e in Handle(h, index, w).0.v.events
  {
  }

  lemma MoverPending(p: Pair, index: nat, side: Side, s: Step, e: Event)
    requires CanMove(p, Move(side, s)) && e in HalfOf(p, side).v.events
    ensures e in HalfOf(Moved(p, index, Move(side, s)), side).v.events <==> !Clears(HalfOf(p, side), s, e)
  {
    var q := From(p, side);
    hide Call, Handle;
    if s == Receive {
      HandleClears(q.a, index, q.ba[0], e);
    } else {
      CallClears(q.a, index, s, e);
    }
  }

  lemma OthersPending(p: Pair, index: nat, mv: Move, side: Side, e: Event)
    requires CanMove(p, mv) && !(mv.Move? && mv.side == side) && e in HalfOf(p, side).v.events
    ensures e in HalfOf(Moved(p, index, mv), side).v.events <==>
            !(mv.Open? || (side == Secure && mv == AnswerConfig(true)))
  {
    hide Call, Handle;
  }

  lemma PendingNext(l: Life, index: nat, j: nat, side: Side, e: Event)
    requires IsLife(l, index) && j < |l.moves| && e in HalfOf(l.states[j], side).v.events
    ensures e in HalfOf(l.states[j + 1], side).v.events <==> !ClearsAt(l, side, e, j)
  {
    LifeMove(l, index, j);
    hide IsLife, Inv, CanMove, Moved, Clears, HalfOf;
    var mv := l.moves[j];
    if mv.Move? && mv.side == side {
      MoverPending(l.states[j], index, side, mv.s, e);
    } else {
      OthersPending(l.states[j], index, mv, side, e);
    }
  }

  // ----- What sets an event -----

  /** A message with which the event `e` comes, to a side in global state `g`. */
  predicate Brings(g: Global, a: Action, e: Event) {
    match a
    case Request => g == Configured && e == RequestEvent
    case Response | CancelAck => g == Configured && e == ResponseEvent
    case ConfigAck => g == ConfigWaiting && e == ResponseEvent
    case TermAck => g == TermWaiting && e == ResponseEvent
    case Term => g == Configured
    case Config | Cancel => false
  }

  predicate Sets(h: Half, inbox: seq<Wire>, s: Step, e: Event) {
    || s == FinishClosing
    || (s == Receive && inbox != [] && !h.v.free && Brings(h.v.global, inbox[0].m.action, e))
  }

  predicate SetsAt(l: Life, side: Side, e: Event, j: nat)
    requires j < |l.moves| < |l.states|
  {
    && l.moves[j].Move? && l.moves[j].side == side
    && Sets(HalfOf(l.states[j], side), Inbox(l.states[j], side), l.moves[j].s, e)
  }

  lemma HandleSets(h: Half, index: nat, w: Wire, e: Event)
    requires e !in h.v.events && (h.v.global == Configured ==> Expected(h, w.m))
    ensures e in Handle(h, index, w).0.v.events <==> !h.v.free && Brings(h.v.global, w.m.action, e)
  {
  }

  lemma CallSets(h: Half, index: nat, s: Step, e: Event)
    requires e !in h.v.events
    ensures e in Call(h, index, s).0.v.events <==> s == FinishClosing
  {
    hide Call;
    CallEvents(h, index, s);
  }

  lemma MoverSets(p: Pair, index: nat, side: Side, s: Step, e: Event)
    requires CanMove(p, Move(side, s)) && e !in HalfOf(p, side).v.events
    requires s == Receive && HalfOf(p, side).v.global == Configured ==> Expected(HalfOf(p, side), Inbox(p, side)[0].m)
    ensures e in HalfOf(Moved(p, index, Move(side, s)), side).v.events
       <==> Sets(HalfOf(p, side), Inbox(p, side), s, e)
  {
    var q := From(p, side);
    hide Call, Handle, Expected;
    if s == Receive {
      HandleSets(q.a, index, q.ba[0], e);
    } else {
      CallSets(q.a, index, s, e);
    }
  }

  lemma OthersSet(p: Pair, index: nat, mv: Move, side: Side, e: Event)
    requires CanMove(p, mv) && !(mv.Move? && mv.side == side) && e !in HalfOf(p, side).v.events
    ensures e !in HalfOf(Moved(p, index, mv), side).v.events
  {
    hide Call, Handle;
  }

  lemma ExpectedAt(l: Life, index: nat, j: nat, side: Side)
    requires IsLife(l, index) && j < |l.moves| && l.moves[j] == Move(side, Receive)
    ensures var (h, inbox) := (HalfOf(l.states[j], side), Inbox(l.states[j], side));
            inbox != [] && (h.v.global == Configured ==> Expected(h, inbox[0].m))
  {
    LifeMove(l, index, j);
    NoBreakOfProtocol(l, index, j);
    hide IsLife, Inv, Expected;
  }

  lemma AbsentNext(l: Life, index: nat, j: nat, side: Side, e: Event)
    requires IsLife(l, index) && j < |l.moves| && e !in HalfOf(l.states[j], side).v.events
    ensures e in HalfOf(l.states[j + 1], side).v.events <==> SetsAt(l, side, e, j)
  {
    LifeMove(l, index, j);
    hide IsLife, Inv, CanMove, Moved, Sets, Expected, HalfOf, Inbox;
    var mv := l.moves[j];
    if mv.Move? && mv.side == side {
      if mv.s == Receive {
        ExpectedAt(l, index, j, side);
      }
      MoverSets(l.states[j], index, side, mv.s, e);
    } else {
      OthersSet(l.states[j], index, mv, side, e);
    }
  }

  // ----- Exactly when an event is pending -----

  lemma SetsClearNothing(l: Life, side: Side, e: Event, j: nat)
    requires j < |l.moves| < |l.states|
    ensures SetsAt(l, side, e, j) ==> !ClearsAt(l, side, e, j)
  {
  }

  /** An event is pending after a move exactly if the move set it, or it was pending
      before and the move has not taken it away. What sets one are the end of closing,
      and received messages: a request or an answer to a configured side, whatever the
      state of its roles, the answer that the side waits for while it is being configured
      or is terminating, and the peer's termination of a configured side. */
  lemma EventNext(l: Life, index: nat, j: nat, side: Side, e: Event)
    requires IsLife(l, index) && j < |l.moves|
    ensures e in HalfOf(l.states[j + 1], side).v.events
       <==> SetsAt(l, side, e, j) || (e in HalfOf(l.states[j], side).v.events && !ClearsAt(l, side, e, j))
  {
    assert |l.states| == |l.moves| + 1;
    hide IsLife, SetsAt, ClearsAt;
    SetsClearNothing(l, side, e, j);
    if e in HalfOf(l.states[j], side).v.events {
      PendingNext(l, index, j, side, e);
    } else {
      AbsentNext(l, index, j, side, e);
    }
  }

  /** So once it is pending it stays so until somebody takes or fetches it. */
  lemma {:induction false} StaysPending(l: Life, index: nat, i: nat, k: nat, side: Side, e: Event)
    requires IsLife(l, index) && i <= k <= |l.moves| && e in HalfOf(l.states[i], side).v.events
    requires forall j :: i <= j < k ==> !ClearsAt(l, side, e, j)
    ensures e in HalfOf(l.states[k], side).v.events
    decreases k
  {
    assert |l.states| == |l.moves| + 1;
    hide IsLife, ClearsAt, HalfOf;
    if i < k {
      StaysPending(l, index, i, k - 1, side, e);
      EventNext(l, index, k - 1, side, e);
    }
  }

  // ----- Messages that do nothing -----

  /** A message that does not suit side `h`: one for a closed session, or one that its
      global state or its roles do not wait for. A termination suits any open one. */
  predicate Unsuited(h: Half, a: Action) {
    h.v.free ||
    match a
    case Request => h.v.global != Configured || h.v.server != Idle
    case Response => h.v.global != Configured || (h.v.client != Waiting && h.v.client != CancelWaiting)
    case Cancel => h.v.global != Configured || h.v.server != Notified
    case CancelAck => h.v.global != Configured || h.v.client != CancelWaiting
    case ConfigAck => h.v.global != ConfigWaiting
    case TermAck => h.v.global != TermWaiting
    case Config => true
    case Term => false
  }

  /** Whatever a misbehaving peer sends, in any state, reachable or not, a message that does
      not suit changes nothing and is not answered. */
  lemma UnsuitedIgnored(h: Half, index: nat, w: Wire)
    requires Unsuited(h, w.m.action)
    ensures Handle(h, index, w) == (h, [])
  {
  }

  /** In a lifetime, what does not suit a side are only messages that come too late: after
      the session has ended or been closed, or a cancellation after its request was fetched. */
  lemma TooLate(l: Life, index: nat, k: nat, side: Side)
    requires IsLife(l, index) && k < |l.moves| && l.moves[k] == Move(side, Receive) && Inbox(l.states[k], side) != []
    requires Unsuited(HalfOf(l.states[k], side), Inbox(l.states[k], side)[0].m.action)
    ensures var (p, h) := (l.states[k], HalfOf(l.states[k], side));
            && (h.v.free || h.v.global != Configured || Inbox(p, side)[0].m.action in {Cancel, TermAck})
            && l.states[k + 1] == if side == NonSecure then p.(ba := p.ba[1..]) else p.(ab := p.ab[1..])
  {
    LifeMove(l, index, k);
    NoBreakOfProtocol(l, index, k);
    var q := From(l.states[k], side);
    UnsuitedIgnored(q.a, index, q.ba[0]);
    assert q.ab + [] == q.ab;
    hide IsLife, Inv, Handle;
  }

  // ----- What messages carry -----

  /** A cancellation, a termination or an acknowledgement of one carries nothing, a request,
      a response or the answer to a configuration only the first 32-bit parameter. */
  predicate Formatted(m: Message, index: nat) {
    && m.index == index
    && (m.action != Config ==> m.p0 == 0 && m.p2 == 0)
    && (m.action in {Cancel, CancelAck, Term, TermAck} ==> m.p1 == 0)
  }

  predicate AllFormatted(p: Pair, index: nat) {
    (forall x :: x in p.ab ==> Formatted(x.m, index)) && (forall x :: x in p.ba ==> Formatted(x.m, index))
  }

  lemma CallFormats(h: Half, index: nat, s: Step)
    ensures forall x :: x in Call(h, index, s).1 ==> Formatted(x.m, index)
  {
  }

  lemma HandleFormats(h: Half, index: nat, w: Wire)
    ensures forall x :: x in Handle(h, index, w).1 ==> Formatted(x.m, index)
  {
  }

  lemma NextFormats(p: Pair, index: nat, s: Step)
    requires Enabled(p, s) && AllFormatted(p, index)
    ensures AllFormatted(Next(p, index, s), index)
  {
    hide Call, Handle, Formatted;
    if s == Receive {
      HandleFormats(p.a, index, p.ba[0]);
    } else {
      CallFormats(p.a, index, s);
    }
  }

  lemma MoveFormats(p: Pair, index: nat, mv: Move)
    requires CanMove(p, mv) && AllFormatted(p, index)
    ensures AllFormatted(Moved(p, index, mv), index)
  {
    hide Next;
    match mv
    case Move(NonSecure, s) => NextFormats(p, index, s);
    case Move(Secure, s) => NextFormats(Flip(p), index, s);
    case _ =>
  }

  /** In every state, the messages under way name their session and carry what those of
      their kind do, and nothing else. */
  lemma {:induction false} AlwaysFormatted(l: Life, index: nat, i: nat)
    requires IsLife(l, index) && i <= |l.moves|
    ensures AllFormatted(l.states[i], index)
  {
    if i > 0 {
      AlwaysFormatted(l, index, i - 1);
      LifeMove(l, index, i - 1);
      hide IsLife, Inv, AllFormatted, CanMove, Moved;
      MoveFormats(l.states[i - 1], index, l.moves[i - 1]);
    }
  }
}
