/** How a session ends: what becomes of the side that terminates it and waits for the
    acknowledgement, in particular when both sides do so at once. */
module Endings {
  import opened Exchange
  import opened Lifetimes
  import opened Platform
  import opened SessionProtocol

  /** No side waits for the end of a session in vain, but for a crossing: while a
      side that has sent its termination waits, that or its acknowledgement is
      under way, or an acknowledgement has woken it, or the peer's own termination
      is under way or has been received. */
  lemma NoStrandedTermination(l: Life, index: nat, i: nat)
    requires IsLife(l, index) && i <= |l.moves|
    ensures var p := l.states[i];
            && (p.a.v.global == TermWaiting && !p.a.v.free ==> Awaited(p.a, p.ab, p.ba))
            && (p.b.v.global == TermWaiting && !p.b.v.free ==> Awaited(p.b, p.ba, p.ab))
  {
    LifeInv(l, index, i);
  }

  // ----- When the acknowledgement of a termination wakes -----

  /** The side has sent its termination in this lifetime. */
  predicate Lingers(h: Half) {
    h.closing && (h.v.global == TermWaiting || h.v.global == Null)
  }

  /** An acknowledgement would set the event that the closing thread waits for. */
  predicate Attends(h: Half) { h.v.global == TermWaiting && !h.v.free }

  /** With the move, the side receives a message that asks for `action`. */
  predicate Gets(p: Pair, mv: Move, side: Side, action: Action) {
    mv == Move(side, Receive) && Inbox(p, side) != [] && Inbox(p, side)[0].m.action == action
  }

  /** With the move, the side stops to heed the acknowledgement of its termination: it
      receives the peer's own, or any of its threads comes to the end of a wait, or
      the closing thread has given up. */
  predicate Spoils(p: Pair, mv: Move, side: Side) {
    Gets(p, mv, side, Term) || mv == Move(side, NoticeTermination) || mv == Move(side, FinishClosing)
  }

  /** What a move does to a side that has sent its termination. */
  ghost predicate WaitingFacts(p: Pair, mv: Move, h: Half, h': Half, side: Side) {
    && Lingers(h')
    && (Attends(h') <==> Attends(h) && !Spoils(p, mv, side))
    && h'.alerts.woken == (h.alerts.woken || (Gets(p, mv, side, TermAck) && Attends(h)))
    && (Gets(p, mv, side, TermAck) ==> h'.v.events == h.v.events + (if Attends(h) then {ResponseEvent} else {}))
  }

  lemma HandleTermAcks(h: Half, index: nat, w: Wire)
    requires w.m.action == TermAck
    ensures Handle(h, index, w).0.v.events == h.v.events + (if Attends(h) then {ResponseEvent} else {})
  {
  }

  lemma AnswererIsNew(p: Pair)
    requires Inv(p) && p.ab != [] && p.ab[0].m.action == Config
    ensures !p.b.closing && !Met(p.b)
  {
    OnlyHead(p.ab, Configuring);
  }

  lemma WaiterReceives(p: Pair, index: nat)
    requires Enabled(p, Receive) && Lingers(p.a)
    ensures WaitingFacts(p, Move(NonSecure, Receive), p.a, Next(p, index, Receive).a, NonSecure)
  {
    HandleGlobal(p.a, index, p.ba[0]);
    HandleAlerted(p.a, index, p.ba[0]);
    if p.ba[0].m.action == TermAck {
      HandleTermAcks(p.a, index, p.ba[0]);
    }
    hide Handle;
  }

  lemma WaiterCalls(p: Pair, index: nat, s: Step)
    requires Enabled(p, s) && s != Receive && Lingers(p.a)
    ensures WaitingFacts(p, Move(NonSecure, s), p.a, Next(p, index, s).a, NonSecure)
  {
    CallGlobal(p.a, index, s);
    CallFrees(p.a, index, s);
    CallFlags(p.a, index, s);
    hide Call;
  }

  /** The same facts, for either side. */
  lemma SeenFrom(p: Pair, side: Side, s: Step, h: Half, h': Half)
    requires WaitingFacts(From(p, side), Move(NonSecure, s), h, h', NonSecure)
    ensures WaitingFacts(p, Move(side, s), h, h', side)
  {
  }

  lemma WaiterMoves(p: Pair, index: nat, side: Side, s: Step)
    requires CanMove(p, Move(side, s)) && Lingers(HalfOf(p, side))
    ensures WaitingFacts(p, Move(side, s), HalfOf(p, side), HalfOf(Moved(p, index, Move(side, s)), side), side)
  {
    var q := From(p, side);
    if s == Receive {
      WaiterReceives(q, index);
    } else {
      WaiterCalls(q, index, s);
    }
    hide WaitingFacts, Lingers;
    assert HalfOf(p, side) == q.a && HalfOf(Moved(p, index, Move(side, s)), side) == Next(q, index, s).a;
    SeenFrom(p, side, s, q.a, Next(q, index, s).a);
  }

  lemma OthersWaitOn(p: Pair, index: nat, mv: Move, side: Side)
    requires Inv(p) && CanMove(p, mv) && !mv.Open? && !(mv.Move? && mv.side == side) && Lingers(HalfOf(p, side))
    ensures HalfOf(Moved(p, index, mv), side) == HalfOf(p, side)
  {
    if mv.AnswerConfig? {
      AnswererIsNew(p);
    }
    hide Inv, Call, Handle;
  }

  lemma WaiterMoved(p: Pair, index: nat, mv: Move, side: Side)
    requires Inv(p) && CanMove(p, mv) && !mv.Open? && Lingers(HalfOf(p, side))
    ensures WaitingFacts(p, mv, HalfOf(p, side), HalfOf(Moved(p, index, mv), side), side)
  {
    hide Inv, CanMove, Moved;
    if mv.Move? && mv.side == side {
      WaiterMoves(p, index, side, mv.s);
    } else {
      OthersWaitOn(p, index, mv, side);
    }
  }

  lemma WaiterAt(l: Life, index: nat, k: nat, side: Side)
    requires IsLife(l, index) && k < |l.moves| && !l.moves[k].Open? && Lingers(HalfOf(l.states[k], side))
    ensures WaitingFacts(l.states[k], l.moves[k], HalfOf(l.states[k], side), HalfOf(l.states[k + 1], side), side)
  {
    LifeMove(l, index, k);
    hide IsLife, Inv, Moved, CanMove, Lingers, WaitingFacts, HalfOf;
    WaiterMoved(l.states[k], index, l.moves[k], side);
  }

  predicate SpoilsAt(l: Life, side: Side, j: nat)
    requires j < |l.moves| < |l.states|
  {
    Spoils(l.states[j], l.moves[j], side)
  }

  /** Something since step `u` has kept the side from heeding the acknowledgement. */
  ghost predicate SpoiltSince(l: Life, side: Side, u: nat, k: nat)
    requires k <= |l.moves| < |l.states|
  {
    exists j :: u < j < k && SpoilsAt(l, side, j)
  }

  lemma SpoiltNext(l: Life, side: Side, u: nat, k: nat)
    requires u + 1 < k <= |l.moves| < |l.states|
    ensures SpoiltSince(l, side, u, k) <==> SpoiltSince(l, side, u, k - 1) || SpoilsAt(l, side, k - 1)
  {
    if SpoiltSince(l, side, u, k) {
      var j :| u < j < k && SpoilsAt(l, side, j);
      assert j == k - 1 || SpoiltSince(l, side, u, k - 1);
    }
  }

  /** The side terminates with move `u`, and up to state `v` the lifetime lasts. */
  ghost predicate TerminatesAt(l: Life, side: Side, u: nat, v: nat)
    requires u < v <= |l.moves| < |l.states|
  {
    l.moves[u] == Move(side, Terminate) && forall j :: u < j < v ==> !l.moves[j].Open?
  }

  lemma Terminates(p: Pair, index: nat, side: Side)
    requires CanMove(p, Move(side, Terminate))
    ensures var h' := HalfOf(Moved(p, index, Move(side, Terminate)), side);
            Lingers(h') && (Attends(h') <==> !HalfOf(p, side).v.free)
  {
    var q := From(p, side);
    CallGlobal(q.a, index, Terminate);
    CallFrees(q.a, index, Terminate);
    CallFlags(q.a, index, Terminate);
    hide Call;
  }

  /** In state `k` the side, which terminated with move `u`, attends unless spoilt. */
  ghost predicate WaitsAt(l: Life, side: Side, u: nat, k: nat)
    requires u < k <= |l.moves| < |l.states|
  {
    && Lingers(HalfOf(l.states[k], side))
    && (Attends(HalfOf(l.states[k], side)) <==> !HalfOf(l.states[u], side).v.free && !SpoiltSince(l, side, u, k))
  }

  lemma WaitsFirst(l: Life, index: nat, side: Side, u: nat)
    requires IsLife(l, index) && u < |l.moves| && l.moves[u] == Move(side, Terminate)
    ensures WaitsAt(l, side, u, u + 1)
  {
    LifeMove(l, index, u);
    Terminates(l.states[u], index, side);
    hide IsLife, Inv, Moved, CanMove, Lingers, Attends, Spoils;
  }

  lemma WaitsNext(l: Life, index: nat, side: Side, u: nat, k: nat)
    requires IsLife(l, index) && u + 1 < k <= |l.moves| && WaitsAt(l, side, u, k - 1) && !l.moves[k - 1].Open?
    ensures WaitsAt(l, side, u, k)
  {
    WaiterAt(l, index, k - 1, side);
    SpoiltNext(l, side, u, k);
    hide IsLife, Lingers, Attends, Spoils, Gets, HalfOf, SpoiltSince;
  }

  lemma {:induction false} WaitsOn(l: Life, index: nat, side: Side, u: nat, k: nat)
    requires IsLife(l, index) && u < k <= |l.moves| && TerminatesAt(l, side, u, k)
    ensures WaitsAt(l, side, u, k)
    decreases k
  {
    if k == u + 1 {
      WaitsFirst(l, index, side, u);
    } else {
      WaitsOn(l, index, side, u, k - 1);
      WaitsNext(l, index, side, u, k);
    }
    hide IsLife, WaitsAt;
  }

  lemma NotYetWoken(p: Pair, side: Side)
    requires Inv(p) && Inbox(p, side) != [] && Inbox(p, side)[0].m.action == TermAck
    ensures !HalfOf(p, side).alerts.woken
  {
    hide Flows, Phase, Announced;
    var q := From(p, side);
    OnlyHead(q.ba, Closed);
    assert Farewell(q.a, q.b, q.ab, q.ba);
  }

  /** The acknowledgement of a side's termination sets the event that the closing
      thread waits for, exactly if the session was not free when the termination was
      sent, and since then the side has neither received the peer's own nor come to
      the end of a wait, in whichever of its threads, nor finished closing; otherwise
      the acknowledgement changes nothing. */
  lemma AckWakesIff(l: Life, index: nat, side: Side, u: nat, v: nat)
    requires IsLife(l, index) && u < v < |l.moves| && TerminatesAt(l, side, u, v)
    requires Gets(l.states[v], l.moves[v], side, TermAck)
    ensures var (h, h') := (HalfOf(l.states[v], side), HalfOf(l.states[v + 1], side));
            var wakes := !HalfOf(l.states[u], side).v.free && !SpoiltSince(l, side, u, v);
            && !h.alerts.woken && (h'.alerts.woken <==> wakes)
            && h'.v.events == h.v.events + (if wakes then {ResponseEvent} else {})
  {
    WaitsOn(l, index, side, u, v);
    LifeInv(l, index, v);
    NotYetWoken(l.states[v], side);
    WaiterAt(l, index, v, side);
    hide IsLife, Inv, Attends;
  }

  /** The side has terminated and was not woken, and an acknowledgement would no
      longer wake it. */
  predicate Unwoken(h: Half) {
    Lingers(h) && !Attends(h) && !h.alerts.woken
  }

  /** Such a side never is woken, for the rest of the lifetime. */
  lemma {:induction false} NeverWoken(l: Life, index: nat, side: Side, i: nat, k: nat)
    requires IsLife(l, index) && i <= k <= |l.moves| && Unwoken(HalfOf(l.states[i], side))
    requires forall j :: i <= j < k ==> !l.moves[j].Open?
    ensures Unwoken(HalfOf(l.states[k], side))
    decreases k
  {
    assert |l.states| == |l.moves| + 1;
    hide IsLife, Lingers, Attends;
    if i < k {
      NeverWoken(l, index, side, i, k - 1);
      WaiterAt(l, index, k - 1, side);
    }
  }

  /** The side has terminated, and another of its threads has noticed; the peer has
      not terminated, nothing is announced to the closing thread, and `m` and `n` are
      the messages under way. */
  predicate Overtaken(p: Pair, m: seq<Action>, n: seq<Action>) {
    && Unwoken(p.a) && !p.a.v.free && ResponseEvent !in p.a.v.events && !p.a.alerts.heard
    && !p.b.closing && !p.b.v.free && |p.ab| == |m| <= 1 && |p.ba| == |n| <= 1
    && (m != [] ==> p.ab[0].m.action == m[0]) && (n != [] ==> p.ba[0].m.action == n[0])
  }

  lemma NobodyTold(p: Pair, index: nat)
    requires Reachable(p, index) && !p.a.closing && !p.b.closing
    ensures !p.a.alerts.heard && !p.a.alerts.woken
  {
    var l :| LeadsTo(l, index, p);
    LifeInv(l, index, |l.moves|);
    assert Farewell(p.a, p.b, p.ab, p.ba);
  }

  lemma ReachOvertaken(index: nat) returns (p: Pair)
    ensures Reachable(p, index) && Overtaken(p, [Term], [])
  {
    p := ReachConfigured(index);
    NobodyTold(p, index);
    hide Reachable;
    p := Reach(p, index, Move(NonSecure, Take({ResponseEvent})));
    p := Reach(p, index, Move(NonSecure, Terminate));
    p := Reach(p, index, Move(NonSecure, NoticeTermination));
  }

  /** No crossing is needed: one thread closes, another's wait ends before the
      acknowledgement has come, and then that has come, nothing is under way any more,
      and the closing thread has not been told. */
  lemma OtherWaitEndsFirst(index: nat)
    ensures exists p :: Reachable(p, index) && Overtaken(p, [], [])
  {
    var p := ReachOvertaken(index);
    hide Reachable;
    p := Reach(p, index, Move(Secure, Receive));
    assert Overtaken(p, [], [TermAck]);
    p := Reach(p, index, Move(NonSecure, Receive));
  }

  // ----- What the end announces -----

  lemma EndsWakeAll(h: Half, index: nat, w: Wire)
    requires w.m.action == Term && h.v.global == Configured && !h.v.free
    ensures Handle(h, index, w).0.v.events == {SignalEvent, RequestEvent, ResponseEvent}
    ensures Call(h, index, FinishClosing).0.v.events == {SignalEvent, RequestEvent, ResponseEvent}
  {
  }

  /** The peer's termination wakes every thread that waits on a configured session, for
      whatever event. */
  lemma TermWakesAll(l: Life, index: nat, k: nat, side: Side)
    requires IsLife(l, index) && k < |l.moves| && Gets(l.states[k], l.moves[k], side, Term)
    requires HalfOf(l.states[k], side).v.global == Configured
    ensures var h' := HalfOf(l.states[k + 1], side);
            h'.v.global == Null && h'.v.events == {SignalEvent, RequestEvent, ResponseEvent}
  {
    LifeMove(l, index, k);
    var q := From(l.states[k], side);
    EndsWakeAll(q.a, index, q.ba[0]);
    HandleGlobal(q.a, index, q.ba[0]);
    hide Handle, Phase, Farewells, Announced, Directions;
  }

  /** And so does the end of closing. */
  lemma CloseWakesAll(l: Life, index: nat, k: nat, side: Side)
    requires IsLife(l, index) && k < |l.moves| && l.moves[k] == Move(side, FinishClosing)
    ensures var h' := HalfOf(l.states[k + 1], side);
            h'.v.global == Null && h'.v.free && h'.v.events == {SignalEvent, RequestEvent, ResponseEvent}
  {
    LifeMove(l, index, k);
    hide Inv;
  }

  /** The session has been configured and is over for the side, or about to be. */
  predicate Over(h: Half) {
    Met(h) && (h.v.global == Null || (h.v.global == TermWaiting && h.closing))
  }

  lemma OverMoves(p: Pair, index: nat, mv: Move, side: Side)
    requires Inv(p) && CanMove(p, mv) && !mv.Open? && Over(HalfOf(p, side))
    ensures Over(HalfOf(Moved(p, index, mv), side))
  {
    hide Flows, Phase, Farewells, Announced;
    if mv.Move? && mv.side == side {
      var q := From(p, side);
      if mv.s == Receive {
        HandleGlobal(q.a, index, q.ba[0]);
      } else {
        CallGlobal(q.a, index, mv.s);
        CallFlags(q.a, index, mv.s);
        CallMet(q.a, index, mv.s);
      }
      hide Call, Handle;
    } else if mv.AnswerConfig? {
      AnswererIsNew(p);
    }
  }

  lemma OverNext(l: Life, index: nat, i: nat, side: Side)
    requires IsLife(l, index) && i < |l.moves| && !l.moves[i].Open? && Over(HalfOf(l.states[i], side))
    ensures Over(HalfOf(l.states[i + 1], side))
  {
    LifeMove(l, index, i);
    hide IsLife, Inv, CanMove, Moved, Over, HalfOf;
    OverMoves(l.states[i], index, l.moves[i], side);
  }

  lemma OverFirst(l: Life, index: nat, k: nat, side: Side)
    requires IsLife(l, index) && k < |l.moves| && Gets(l.states[k], l.moves[k], side, Term)
    requires HalfOf(l.states[k], side).v.global == Configured
    ensures Over(HalfOf(l.states[k + 1], side))
  {
    LifeMove(l, index, k);
    TermWakesAll(l, index, k, side);
    hide IsLife, Inv, CanMove, Moved, Met, HalfOf, Inbox;
    StaysMet(l.states[k], index, side);
  }

  lemma {:induction false} StaysOver(l: Life, index: nat, k: nat, i: nat, side: Side)
    requires IsLife(l, index) && k < i <= |l.moves| && Gets(l.states[k], l.moves[k], side, Term)
    requires HalfOf(l.states[k], side).v.global == Configured && forall j :: k < j < i ==> !l.moves[j].Open?
    ensures Over(HalfOf(l.states[i], side))
    decreases i
  {
    assert |l.states| == |l.moves| + 1;
    hide IsLife, Gets, Over, HalfOf;
    if i == k + 1 {
      OverFirst(l, index, k, side);
    } else {
      StaysOver(l, index, k, i - 1, side);
      OverNext(l, index, i - 1, side);
    }
  }

  /** From when a configured side has received the peer's termination, every wait that
      ends finds that out, and reports a closed session, unless the side itself is
      terminating; and no call can be begun. */
  lemma TermIsReported(l: Life, index: nat, k: nat, i: nat, side: Side)
    requires IsLife(l, index) && k < i <= |l.moves| && Gets(l.states[k], l.moves[k], side, Term)
    requires HalfOf(l.states[k], side).v.global == Configured && forall j :: k < j < i ==> !l.moves[j].Open?
    ensures var h := HalfOf(l.states[i], side);
            && h.v.global != Configured
            && HandleTerminated(h.v).ret == (if h.v.global == TermWaiting then 0 else -EPIPE)
            && (!h.closing ==> HandleTerminated(h.v).ret == -EPIPE && HandleTerminated(h.v).v.free)
  {
    StaysOver(l, index, k, i, side);
    hide IsLife, Gets, Met;
  }

  lemma StaysMet(p: Pair, index: nat, side: Side)
    requires Inv(p) && CanMove(p, Move(side, Receive)) && HalfOf(p, side).v.global == Configured
    ensures Met(HalfOf(Moved(p, index, Move(side, Receive)), side))
  {
    var q := From(p, side);
    HandleGlobal(q.a, index, q.ba[0]);
    hide Handle, Phase, Farewells, Announced, Directions;
  }

  lemma HandleConfigAcks(h: Half, index: nat, w: Wire)
    requires w.m.action == ConfigAck && h.v.global == ConfigWaiting && !h.v.free
    ensures var v := Handle(h, index, w).0.v;
            && ResponseEvent in v.events
            && (if w.m.p1 == 0 then v.global == Configured && v.server == v.client == Idle
                else v.global == Null && v.clientMessage.p1 == w.m.p1)
  {
  }

  /** The answer to a configuration wakes the thread that waits for it; a refusal ends
      its wait as that of a closed session, with the reason kept for it. */
  lemma ConfigAckWakes(l: Life, index: nat, k: nat, side: Side)
    requires IsLife(l, index) && k < |l.moves| && Gets(l.states[k], l.moves[k], side, ConfigAck)
    requires HalfOf(l.states[k], side).v.global == ConfigWaiting
    ensures var (m, v) := (Inbox(l.states[k], side)[0].m, HalfOf(l.states[k + 1], side).v);
            && ResponseEvent in v.events
            && (m.p1 == 0 ==> v.global == Configured && HandleTerminated(v).ret == 0)
            && (m.p1 != 0 ==> HandleTerminated(v).ret == -EPIPE && v.clientMessage.p1 == m.p1)
  {
    LifeMove(l, index, k);
    var q := From(l.states[k], side);
    assert !q.a.v.free;
    HandleConfigAcks(q.a, index, q.ba[0]);
    hide Handle, Flows, Farewells, Announced;
  }

  // ----- A crossing -----

  /** Both sides have closed, are in state `g`, have one message `m` under way to
      them, or none, and nothing that would wake a closing thread. */
  predicate Crossing(p: Pair, g: Global, m: seq<Action>) {
    && p.a.closing && p.b.closing && !p.a.v.free && !p.b.v.free
    && p.a.v.global == p.b.v.global == g
    && ResponseEvent !in p.a.v.events && ResponseEvent !in p.b.v.events
    && |p.ab| == |p.ba| == |m| <= 1 && (m != [] ==> p.ab[0].m.action == p.ba[0].m.action == m[0])
  }

  lemma ReachCrossing(index: nat) returns (p: Pair)
    ensures Reachable(p, index) && Crossing(p, TermWaiting, [Term])
  {
    p := ReachConfigured(index);
    hide Reachable;
    p := Reach(p, index, Move(NonSecure, Take({ResponseEvent})));
    p := Reach(p, index, Move(Secure, Take({ResponseEvent})));
    p := Reach(p, index, Move(NonSecure, Terminate));
    p := Reach(p, index, Move(Secure, Terminate));
  }

  lemma ReachAcknowledged(index: nat) returns (p: Pair)
    ensures Reachable(p, index) && Crossing(p, Null, [TermAck])
  {
    p := ReachCrossing(index);
    hide Reachable;
    p := Reach(p, index, Move(NonSecure, Receive));
    assert |p.ab| == 2 && p.ab[0].m.action == Term && p.ab[1].m.action == TermAck && p.ba == [];
    p := Reach(p, index, Move(Secure, Receive));
  }

  /** If both sides terminate a session at once, each answers the other's
      termination, but neither acknowledgement wakes the side that waits for it:
      both wait until their time is out. */
  lemma CrossedTerminationsWakeNobody(index: nat)
    ensures exists p :: Reachable(p, index) && Crossing(p, Null, [])
  {
    var p := ReachAcknowledged(index);
    hide Reachable;
    p := Reach(p, index, Move(NonSecure, Receive));
    assert Crossing(Pair(p.a, p.a, p.ba, p.ba), Null, []) && p.ab[0].m.action == TermAck;
    p := Reach(p, index, Move(Secure, Receive));
  }
}
