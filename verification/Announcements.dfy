/** What the events of a session announce: nothing there is to fetch waits unannounced,
    and when a request or a response is announced although there is none. */
module Announcements {
  import opened Exchange
  import opened Lifetimes
  import opened Platform
  import opened SessionProtocol

  /** No request and no answer waits unannounced: in every state, what there is to
      fetch has its event pending, or a thread has taken the event and not yet
      fetched. */
  lemma NothingUnannounced(l: Life, index: nat, i: nat)
    requires IsLife(l, index) && i <= |l.moves|
    ensures Alerted(l.states[i].a) && Alerted(l.states[i].b)
  {
    LifeInv(l, index, i);
  }

  /** While a side is configured, the event of a request is pending or taken exactly
      if the request that it received last has not been fetched. */
  lemma AnnouncedIff(l: Life, index: nat, i: nat, side: Side)
    requires IsLife(l, index) && i <= |l.moves|
    ensures var h := HalfOf(l.states[i], side);
            h.v.global == Configured ==> (RequestEvent in Known(h) <==> h.serving > 0 && h.serving !in h.fetched)
  {
    LifeInv(l, index, i);
  }

  /** The event of a request is known to a configured side, but fetching fails. */
  predicate Missing(h: Half) {
    h.v.global == Configured && RequestEvent in Known(h) && GetRequest(h.v).ret == -EAGAIN
  }

  /** The next message of side `h` is a cancellation that takes a request back. */
  predicate TakesBack(h: Half, inbox: seq<Wire>, s: Step) {
    && s == Receive && inbox != [] && inbox[0].m.action == Cancel
    && h.v.global == Configured && h.v.server == Notified
  }

  lemma CallMissing(h: Half, index: nat, s: Step)
    requires s != Receive && Roles(h) && Announced(h)
    requires s == NoticeTermination || s == FinishClosing ==> h.v.global != ConfigWaiting
    ensures Missing(Call(h, index, s).0) ==> Missing(h)
    ensures Missing(h) && Call(h, index, s).0.v.global == Configured ==> Missing(Call(h, index, s).0)
  {
    CallAnnounced(h, index, s);
    CallGlobal(h, index, s);
    CallServing(h, index, s);
    hide Call;
  }

  lemma CallServing(h: Half, index: nat, s: Step)
    requires s != Receive
    ensures var h' := Call(h, index, s).0;
            && h'.serving == h.serving
            && (h.v.server != Notified ==> h'.fetched == h.fetched || s.Respond?)
            && (h.v.server != Notified ==>
                  h'.v.server != Notified && (h'.serving in h'.fetched <==> h.serving in h.fetched))
            && (h.v.server == Notified ==> h'.v.server == Notified || h.serving in h'.fetched)
  {
  }

  lemma HandleMissing(h: Half, index: nat, w: Wire)
    requires Roles(h) && Announced(h) && Alerted(h) && Announced(Handle(h, index, w).0)
    ensures var h' := Handle(h, index, w).0;
            && (Missing(h') ==> Missing(h) || TakesBack(h, [w], Receive))
            && (TakesBack(h, [w], Receive) ==> Missing(h'))
            && (Missing(h) && h'.v.global == Configured && h'.v.server != Notified ==> Missing(h'))
  {
  }

  /** How a move changes whether a request is missing to a side. */
  predicate MissingFacts(h: Half, takesBack: bool, h': Half) {
    && (Missing(h') ==> Missing(h) || takesBack)
    && (takesBack ==> Missing(h'))
    && (Missing(h) && h'.v.global == Configured && h'.v.server != Notified ==> Missing(h'))
  }

  lemma MoverMissing(p: Pair, index: nat, s: Step)
    requires Flows(p) && Enabled(p, s) && Announced(p.a)
    ensures MissingFacts(p.a, TakesBack(p.a, p.ba, s), Next(p, index, s).a)
  {
    NextAnnounced(p, index, s);
    if s == Receive {
      HandleMissing(p.a, index, p.ba[0]);
    } else {
      CallMissing(p.a, index, s);
    }
    hide Announced, Missing, Directions, Terminations, Handle, Call;
  }

  lemma MissingIsIdle(p: Pair)
    requires Flows(p) && Announced(p.a)
    ensures Missing(p.a) ==> p.a.v.server == Idle
  {
    assert Direction(p.b, p.a, Only(p.ba, Asking), Only(p.ab, Answering));
  }

  predicate TakesBackBy(p: Pair, mv: Move, side: Side) {
    mv.Move? && mv.side == side && TakesBack(HalfOf(p, side), Inbox(p, side), mv.s)
  }

  lemma MoveMissing(p: Pair, index: nat, mv: Move, side: Side)
    requires Inv(p) && CanMove(p, mv)
    ensures MissingFacts(HalfOf(p, side), TakesBackBy(p, mv, side), HalfOf(Moved(p, index, mv), side))
  {
    FlipFlows(p);
    if !mv.Move? {
      OthersMissNothing(p, index, mv, side);
    } else if mv.side == side {
      MoverMissing(From(p, side), index, mv.s);
    }
    hide Inv, Missing, Flows, Next, TakesBack;
  }

  lemma OthersMissNothing(p: Pair, index: nat, mv: Move, side: Side)
    requires Inv(p) && CanMove(p, mv) && !mv.Move?
    ensures var (h, h') := (HalfOf(p, side), HalfOf(Moved(p, index, mv), side));
            h' == h || (!Missing(h) && !Missing(h'))
  {
  }

  /** From move `k` on up to state `i` the side stays configured and idle. */
  ghost predicate RestsSince(l: Life, side: Side, k: nat, i: nat)
    requires k < i < |l.states|
  {
    forall j :: k < j <= i ==> IdleAt(l, side, j)
  }

  predicate IdleAt(l: Life, side: Side, j: nat)
    requires j < |l.states|
  {
    HalfOf(l.states[j], side).v.global == Configured && HalfOf(l.states[j], side).v.server == Idle
  }

  ghost predicate TakesBackAt(l: Life, side: Side, k: nat)
    requires k < |l.moves| < |l.states|
  {
    TakesBackBy(l.states[k], l.moves[k], side)
  }

  lemma LifeStep(l: Life, index: nat, i: nat, side: Side)
    requires IsLife(l, index) && i < |l.moves|
    ensures MissingFacts(HalfOf(l.states[i], side), TakesBackAt(l, side, i), HalfOf(l.states[i + 1], side))
  {
    LifeInv(l, index, i);
    assert MoveAt(l, index, i);
    MoveMissing(l.states[i], index, l.moves[i], side);
  }

  lemma MissingAt(l: Life, index: nat, i: nat, side: Side)
    requires IsLife(l, index) && i <= |l.moves| && Missing(HalfOf(l.states[i], side))
    ensures i > 0 && IdleAt(l, side, i)
  {
    LifeInv(l, index, i);
    FlipFlows(l.states[i]);
    MissingIsIdle(From(l.states[i], side));
  }

  lemma {:induction false} MissingSince(l: Life, index: nat, i: nat, side: Side) returns (k: nat)
    requires IsLife(l, index) && i <= |l.moves| && Missing(HalfOf(l.states[i], side))
    ensures k < i && TakesBackAt(l, side, k) && RestsSince(l, side, k, i)
  {
    assert |l.states| == |l.moves| + 1;
    MissingAt(l, index, i, side);
    LifeStep(l, index, i - 1, side);
    hide IsLife, Missing, IdleAt;
    if Missing(HalfOf(l.states[i - 1], side)) {
      k := MissingSince(l, index, i - 1, side);
    } else {
      k := i - 1;
    }
  }

  lemma {:induction false} RestingMisses(l: Life, index: nat, k: nat, i: nat, side: Side)
    requires IsLife(l, index) && k < i <= |l.moves| && TakesBackAt(l, side, k) && RestsSince(l, side, k, i)
    ensures Missing(HalfOf(l.states[i], side))
  {
    LifeStep(l, index, i - 1, side);
    assert IdleAt(l, side, i);
    if i > k + 1 {
      RestingMisses(l, index, k, i - 1, side);
    }
  }

  /** The event of a request is pending, or was taken by a wait after which nothing
      has been fetched, although there is no request, exactly if a cancellation has
      taken the last one back before it was fetched and none has been received since. */
  lemma KnownWithoutRequestIff(l: Life, index: nat, i: nat, side: Side)
    requires IsLife(l, index) && i <= |l.moves|
    ensures Missing(HalfOf(l.states[i], side))
       <==> exists k :: 0 <= k < i && TakesBackAt(l, side, k) && RestsSince(l, side, k, i)
  {
    if Missing(HalfOf(l.states[i], side)) {
      var k := MissingSince(l, index, i, side);
    }
    forall k | 0 <= k < i && TakesBackAt(l, side, k) && RestsSince(l, side, k, i)
      ensures Missing(HalfOf(l.states[i], side))
    {
      RestingMisses(l, index, k, i, side);
    }
  }

  // ----- Events that announce nothing -----

  /** The state of the role that fetches what `e`, which is no signal, announces. */
  function RoleFor(v: Values, e: Event): Role { if e == RequestEvent then v.server else v.client }

  function Fetch(v: Values, e: Event): Reply { if e == RequestEvent then GetRequest(v) else GetResponse(v) }

  /** The event is pending for a configured side, but fetching fails. */
  predicate Hollow(h: Half, e: Event) {
    h.v.global == Configured && e in h.v.events && Fetch(h.v, e).ret == -EAGAIN
  }

  /** The next message of side `h` is an acknowledgement of its configuration. */
  predicate Accepts(h: Half, inbox: seq<Wire>, s: Step) {
    && s == Receive && inbox != [] && inbox[0].m.action == ConfigAck && inbox[0].m.p1 == 0
    && h.v.global == ConfigWaiting && !h.v.free
  }

  /** A cancellation comes to its end, and the event of the answer is still there. */
  predicate LeavesAnswered(h: Half, s: Step) {
    s == FinishCancel && h.v.global == Configured && h.v.client == Notified && ResponseEvent in h.v.events
  }

  /** With step `s`, the event `e` stays, or comes, with nothing to fetch. */
  predicate Hollows(h: Half, inbox: seq<Wire>, s: Step, e: Event) {
    if e == RequestEvent then TakesBack(h, inbox, s) && RequestEvent in h.v.events
    else Accepts(h, inbox, s) || LeavesAnswered(h, s)
  }

  predicate Takes(s: Step, e: Event) { s.Take? && e in s.mask }

  /** Nothing to fetch has come for side `h`, which is still configured. */
  predicate Empty(h: Half, e: Event) { h.v.global == Configured && RoleFor(h.v, e) != Notified }

  lemma CallHollowRequest(h: Half, index: nat, s: Step)
    requires s != Receive
    requires s == NoticeTermination || s == FinishClosing ==> h.v.global != ConfigWaiting
    ensures var (h', e) := (Call(h, index, s).0, RequestEvent);
            Hollow(h', e) <==> Hollow(h, e) && Empty(h', e) && !Takes(s, e)
  {
  }

  lemma CallHollowResponse(h: Half, index: nat, s: Step)
    requires s != Receive
    requires s == NoticeTermination || s == FinishClosing ==> h.v.global != ConfigWaiting
    ensures var (h', e) := (Call(h, index, s).0, ResponseEvent);
            Hollow(h', e) <==> LeavesAnswered(h, s) || (Hollow(h, e) && Empty(h', e) && !Takes(s, e))
  {
  }

  lemma HandleHollow(h: Half, index: nat, w: Wire, e: Event)
    requires e != SignalEvent && Roles(h) && Announced(h)
    ensures var h' := Handle(h, index, w).0;
            Hollow(h', e) <==> Hollows(h, [w], Receive, e) || (Hollow(h, e) && Empty(h', e))
  {
  }

  lemma MoverHollow(p: Pair, index: nat, s: Step, e: Event)
    requires Enabled(p, s) && e != SignalEvent && Roles(p.a) && Announced(p.a)
    ensures var h' := Next(p, index, s).a;
            Hollow(h', e) <==> Hollows(p.a, p.ba, s, e) || (Hollow(p.a, e) && Empty(h', e) && !Takes(s, e))
  {
    if s == Receive {
      HandleHollow(p.a, index, p.ba[0], e);
    } else {
      CallHollowRequest(p.a, index, s);
      CallHollowResponse(p.a, index, s);
    }
    hide Announced, Hollow, Empty, Handle, Call;
  }

  lemma OthersHollowNothing(p: Pair, index: nat, mv: Move, side: Side, e: Event)
    requires Inv(p) && CanMove(p, mv) && !(mv.Move? && mv.side == side)
    ensures var (h, h') := (HalfOf(p, side), HalfOf(Moved(p, index, mv), side));
            Hollow(h', e) <==> Hollow(h, e) && Empty(h', e)
  {
    hide Flows, Farewells, Announced, Call, Handle;
  }

  /** With its move `j`, the side's event `e` stays, or comes, with nothing to fetch. */
  predicate HollowsAt(l: Life, side: Side, e: Event, j: nat)
    requires j < |l.moves| < |l.states|
  {
    var mv := l.moves[j];
    mv.Move? && mv.side == side && Hollows(HalfOf(l.states[j], side), Inbox(l.states[j], side), mv.s, e)
  }

  /** Move `j` brings nothing to fetch, and is no wait of the side's that takes the event. */
  predicate LeavesAt(l: Life, side: Side, e: Event, j: nat)
    requires j < |l.moves| < |l.states|
  {
    var mv := l.moves[j];
    Empty(HalfOf(l.states[j + 1], side), e) && !(mv.Move? && mv.side == side && Takes(mv.s, e))
  }

  lemma HollowNext(l: Life, index: nat, j: nat, side: Side, e: Event)
    requires IsLife(l, index) && j < |l.moves| && e != SignalEvent
    ensures Hollow(HalfOf(l.states[j + 1], side), e)
       <==> HollowsAt(l, side, e, j) || (Hollow(HalfOf(l.states[j], side), e) && LeavesAt(l, side, e, j))
  {
    LifeMove(l, index, j);
    var (p, mv) := (l.states[j], l.moves[j]);
    if mv.Move? && mv.side == side {
      MoverHollow(From(p, side), index, mv.s, e);
    } else {
      OthersHollowNothing(p, index, mv, side, e);
    }
    hide IsLife, Flows, Farewells, Phase, Announced, Hollow, Hollows, Empty, Next;
  }

  /** Since move `k` nothing to fetch has come and the event has not been taken. */
  ghost predicate LeftSince(l: Life, side: Side, e: Event, k: nat, i: nat)
    requires i <= |l.moves| < |l.states|
  {
    forall j :: k < j < i ==> LeavesAt(l, side, e, j)
  }

  ghost predicate HollowSince(l: Life, side: Side, e: Event, i: nat)
    requires i <= |l.moves| < |l.states|
  {
    exists k :: 0 <= k < i && HollowsAt(l, side, e, k) && LeftSince(l, side, e, k, i)
  }

  lemma HollowSinceNext(l: Life, side: Side, e: Event, i: nat)
    requires 0 < i <= |l.moves| < |l.states|
    ensures HollowSince(l, side, e, i)
       <==> HollowsAt(l, side, e, i - 1) || (HollowSince(l, side, e, i - 1) && LeavesAt(l, side, e, i - 1))
  {
    if HollowSince(l, side, e, i) {
      var k :| 0 <= k < i && HollowsAt(l, side, e, k) && LeftSince(l, side, e, k, i);
      assert k == i - 1 || LeftSince(l, side, e, k, i - 1);
    }
    if HollowsAt(l, side, e, i - 1) {
      assert LeftSince(l, side, e, i - 1, i);
    } else if HollowSince(l, side, e, i - 1) && LeavesAt(l, side, e, i - 1) {
      var k :| 0 <= k < i - 1 && HollowsAt(l, side, e, k) && LeftSince(l, side, e, k, i - 1);
      assert LeftSince(l, side, e, k, i);
    }
  }

  lemma {:induction false} HollowIff(l: Life, index: nat, i: nat, side: Side, e: Event)
    requires IsLife(l, index) && i <= |l.moves| && e != SignalEvent
    ensures Hollow(HalfOf(l.states[i], side), e) <==> HollowSince(l, side, e, i)
  {
    if i > 0 {
      HollowIff(l, index, i - 1, side, e);
      HollowNext(l, index, i - 1, side, e);
      HollowSinceNext(l, side, e, i);
    }
  }

  /** The event of a request is pending although there is none to fetch, exactly if a
      cancellation has taken the last one back while its event was pending, and since
      then no request has been received and no wait has taken the event. */
  lemma EventWithoutRequestIff(l: Life, index: nat, i: nat, side: Side)
    requires IsLife(l, index) && i <= |l.moves|
    ensures var v := HalfOf(l.states[i], side).v;
            v.global == Configured && RequestEvent in v.events && GetRequest(v).ret == -EAGAIN
            <==> exists k :: && 0 <= k < i && TakesBackAt(l, side, k)
                             && RequestEvent in HalfOf(l.states[k], side).v.events
                             && LeftSince(l, side, RequestEvent, k, i)
  {
    HollowIff(l, index, i, side, RequestEvent);
  }

  /** The event of a response is pending although there is none to fetch, exactly if
      the acknowledgement of the configuration has set it, or a cancellation has come
      to its end and left it, and since then no answer has been received and no wait
      has taken the event. */
  lemma EventWithoutResponseIff(l: Life, index: nat, i: nat, side: Side)
    requires IsLife(l, index) && i <= |l.moves|
    ensures var v := HalfOf(l.states[i], side).v;
            v.global == Configured && ResponseEvent in v.events && GetResponse(v).ret == -EAGAIN
            <==> exists k :: && 0 <= k < i && l.moves[k].Move? && l.moves[k].side == side
                             && LeftSince(l, side, ResponseEvent, k, i)
                             && var (h, s) := (HalfOf(l.states[k], side), l.moves[k].s);
                                Accepts(h, Inbox(l.states[k], side), s) || LeavesAnswered(h, s)
  {
    HollowIff(l, index, i, side, ResponseEvent);
  }

  lemma ReachAnnounced(index: nat) returns (p: Pair)
    ensures Reachable(p, index) && Stands(p, Idle, Notified, Waiting, Idle, 0) && RequestEvent in p.a.v.events
  {
    p := ReachConfigured(index);
    hide Reachable;
    p := Reach(p, index, Move(Secure, AskFor(0)));
    p := Reach(p, index, Move(NonSecure, Receive));
  }

  /** It happens: the event of a request that was cancelled stays pending, so that a
      wait for a request ends at once and there is none to fetch. */
  lemma EventWithoutRequest(index: nat)
    ensures exists p :: && Reachable(p, index) && p.a.v.global == Configured
                        && RequestEvent in p.a.v.events && GetRequest(p.a.v).ret == -EAGAIN
  {
    var p := ReachAnnounced(index);
    hide Reachable;
    p := Reach(p, index, Move(Secure, StartCancel));
    p := Reach(p, index, Move(NonSecure, Receive));
  }

  /** So does that of a response: a request that is sent while the acknowledgement of the
      configuration is still announced finds its wait over at once, and no response. */
  lemma EventWithoutResponse(index: nat)
    ensures exists p :: && Reachable(p, index) && p.a.v.global == Configured && p.a.v.client == Waiting
                        && ResponseEvent in p.a.v.events && GetResponse(p.a.v).ret == -EAGAIN
  {
    var p := ReachConfigured(index);
    hide Reachable;
    p := Reach(p, index, Move(NonSecure, AskFor(0)));
  }
}
