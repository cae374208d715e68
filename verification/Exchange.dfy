/** A session as both worlds run it: the driver's own state machines on both
    sides (the protocol is symmetric, except that only the non-secure side asks
    for the session to be configured), joined by two first-in first-out channels.

    Steps of the two sides interleave in any order, and so do the calls of any
    number of threads on one side: a call is allowed to go on as soon as some
    earlier check has found the session configured. Each side closes once. Writes
    find room here; module Writes says when they do. */
module Exchange {
  import opened SessionProtocol

  /** A message under way. The serial numbers the client's request that the
      message belongs to; it is history and influences nothing. */
  datatype Wire = Wire(m: Message, serial: nat)

  /** What a client learns about a request. */
  datatype Answer = Answer(serial: nat, cancelled: bool, response: nat)

  /** What the threads of a side have been told: which events they have taken, by a
      successful wait, without having fetched what they announced; whether the peer
      has terminated the session; and whether an acknowledgement has woken a thread
      that waits for one. */
  datatype Alerts = Alerts(taken: set<Event>, heard: bool, woken: bool)

  /** One side. Besides its state: whether a check has succeeded, whether it has
      sent its termination; and as history its alerts, the payloads of all its
      requests, the serial of the peer's request that it serves, which of the
      peer's requests its application has fetched and replied to, with what
      payloads, and the answers its client got. */
  datatype Half = Half(
    v: Values, checked: bool, closing: bool, alerts: Alerts,
    requests: seq<nat>, serving: nat, fetched: map<nat, nat>, replies: map<nat, nat>, answers: seq<Answer>)

  /** `a` is the side that takes the next step, `b` its peer. */
  datatype Pair = Pair(a: Half, b: Half, ab: seq<Wire>, ba: seq<Wire>)

  function Flip(p: Pair): Pair { Pair(p.b, p.a, p.ba, p.ab) }

  datatype Step =
    | Check
    | AskFor(request: nat)
    | FetchResponse
    | FetchRequest
    | Respond(response: nat)
    | StartCancel
    | FinishCancel
    | Terminate
    | Take(mask: set<Event>)
    | NoticeTermination
    | FinishClosing
    | Receive

  // ----- Steps -----

  function Tagged(sent: seq<Message>, serial: nat): seq<Wire> {
    if sent == [] then [] else [Wire(sent[0], serial)]
  }

  predicate Enabled(p: Pair, s: Step) {
    match s
    case Check => p.a.v.global == Configured && !p.a.v.free
    case Receive => p.ba != [] && p.ba[0].m.action != Config
    case Terminate => p.a.checked && !p.a.closing
    case Take(_) => true
    // Waiting for the session to be configured does not time out.
    case NoticeTermination => p.a.v.global != ConfigWaiting
    case FinishClosing => p.a.v.global != ConfigWaiting && p.a.v.global != Configured
    case _ => p.a.checked
  }

  /** A call that, if it does not fail, fetches what the event `e` announced. */
  function Fetched(h: Half, r: Reply, e: Event): Half {
    h.(v := r.v, alerts := if r.ret >= 0 then h.alerts.(taken := h.alerts.taken - {e}) else h.alerts)
  }

  /** A call of side `h`: its new state and what it sends. */
  function Call(h: Half, index: nat, s: Step): (Half, seq<Wire>) {
    match s
    case Check => (h.(checked := true), [])
    case AskFor(request) =>
      var r := SendRequest(h.v, index, request);
      if r.ret != 0 then (h, [])
      else (h.(v := r.v, requests := h.requests + [request]), Tagged(r.sent, |h.requests| + 1))
    case FetchResponse => (Fetched(h, GetResponse(h.v), ResponseEvent), [])
    case FetchRequest =>
      var r := GetRequest(h.v);
      if r.ret != 0 then (h, []) else (Fetched(h, r, RequestEvent).(fetched := h.fetched[h.serving := r.out]), [])
    case Respond(response) =>
      var r := SendResponse(h.v, index, response);
      if r.ret != 0 then (h, [])
      else (h.(v := r.v, replies := h.replies[h.serving := response]), Tagged(r.sent, h.serving))
    case StartCancel =>
      var r := CancelStart(h.v, index);
      (if r.ret > 0 then Fetched(h, r, ResponseEvent) else h.(v := r.v), Tagged(r.sent, |h.requests|))
    case FinishCancel => (Fetched(h, CancelFinish(h.v), ResponseEvent), [])
    case Terminate =>
      var r := SendTerm(h.v, index);
      (h.(v := r.v, closing := true), Tagged(r.sent, 0))
    case Take(mask) =>
      (h.(v := TakeEvents(h.v, mask, 0), alerts := h.alerts.(taken := h.alerts.taken + h.v.events * mask)), [])
    case NoticeTermination => (h.(v := HandleTerminated(h.v).v), [])
    case FinishClosing => (h.(v := Close(h.v)), [])
    case Receive => (h, [])
  }

  /** Side `h` handles the message `w`. */
  function Handle(h: Half, index: nat, w: Wire): (Half, seq<Wire>) {
    var r := OnMessage(h.v, index, w.m);
    var serving := if h.v.server == Idle && r.v.server == Notified then w.serial else h.serving;
    var answers :=
      if h.v.client != Notified && r.v.client == Notified
      then h.answers + [Answer(w.serial, w.m.action == CancelAck, w.m.p1)] else h.answers;
    var alerts := h.alerts.(
      heard := h.alerts.heard || (!h.v.free && w.m.action == Term),
      woken := h.alerts.woken || (!h.v.free && w.m.action == TermAck && h.v.global == TermWaiting));
    (h.(v := r.v, serving := serving, answers := answers, alerts := alerts), Tagged(r.sent, h.serving))
  }

  function Next(p: Pair, index: nat, s: Step): Pair
    requires Enabled(p, s)
  {
    if s == Receive then
      var (a, sent) := Handle(p.a, index, p.ba[0]);
      Pair(a, p.b, p.ab + sent, p.ba[1..])
    else
      var (a, sent) := Call(p.a, index, s);
      p.(a := a, ab := p.ab + sent)
  }

  /** The secure side, which comes first in `p`, receives the request to configure
      the session. What it does then is not part of the driver's code; it accepts
      by configuring the session on its side, with no event pending, or refuses. */
  function Configure(p: Pair, index: nat, accept: bool): Pair
    requires p.ba != []
  {
    var v := p.a.v.(free := false, global := Configured, server := Idle, client := Idle, events := {});
    var a := if accept then p.a.(v := v, alerts := p.a.alerts.(taken := {})) else p.a;
    Pair(a, p.b, p.ab + [Wire(Plain(ConfigAck, index, if accept then 0 else 1), 0)], p.ba[1..])
  }

  // ----- The messages of one kind in a channel -----

  datatype Kind = Asking | Answering | Configuring | Closing | Closed

  function KindOf(m: Message): Kind {
    match m.action
    case Request | Cancel => Asking
    case Response | CancelAck => Answering
    case Config | ConfigAck => Configuring
    case Term => Closing
    case TermAck => Closed
  }

  function Only(q: seq<Wire>, k: Kind): (r: seq<Wire>) {
    if q == [] then [] else (if KindOf(q[0].m) == k then [q[0]] else []) + Only(q[1..], k)
  }

  lemma {:induction false} OnlyAppend(q: seq<Wire>, r: seq<Wire>, k: Kind)
    ensures Only(q + r, k) == Only(q, k) + Only(r, k)
  {
    if q == [] {
      assert q + r == r;
    } else {
      assert (q + r)[1..] == q[1..] + r;
      OnlyAppend(q[1..], r, k);
      hide KindOf;
      var first := if KindOf(q[0].m) == k then [q[0]] else [];
      assert Only(q + r, k) == first + (Only(q[1..], k) + Only(r, k)) == first + Only(q[1..], k) + Only(r, k);
    }
  }

  lemma {:induction false} KindsAddUp(q: seq<Wire>)
    ensures |q| == |Only(q, Asking)| + |Only(q, Answering)|
                   + |Only(q, Configuring)| + |Only(q, Closing)| + |Only(q, Closed)|
  {
    if q != [] {
      KindsAddUp(q[1..]);
    }
  }

  // ----- One direction: the client on one side, the server on the other -----

  predicate Ended(h: Half) { h.v.free || h.v.global == TermWaiting || h.v.global == Null }

  predicate HasRequest(s: Half) { s.v.server == Notified || s.v.server == Busy }

  /** The request of the client's latest serial; a cancellation. */
  predicate IsAsk(c: Half, w: Wire) {
    w.m.action == Request && c.requests != [] && w.serial == |c.requests| && w.m.p1 == c.requests[|c.requests| - 1]
  }

  predicate IsCancel(w: Wire) { w.m.action == Cancel }

  /** A cancellation that crossed the answer may be left over; nothing else. */
  predicate Stale(req: seq<Wire>) {
    req == [] || (|req| == 1 && IsCancel(req[0]))
  }

  predicate Asked(c: Half, req: seq<Wire>) {
    || (|req| == 1 && IsAsk(c, req[0]))
    || (|req| == 2 && IsCancel(req[0]) && IsAsk(c, req[1]))
  }

  predicate AskedAndCancelled(c: Half, req: seq<Wire>) {
    || (|req| == 2 && IsAsk(c, req[0]) && IsCancel(req[1]))
    || (|req| == 3 && IsCancel(req[0]) && IsAsk(c, req[1]) && IsCancel(req[2]))
  }

  /** The server has the latest request: its application has yet to fetch it, or
      has fetched it and yet to reply. */
  predicate Serves(c: Half, s: Half) {
    && HasRequest(s) && s.serving == |c.requests| && c.requests != []
    && (s.v.server == Notified ==> s.serving !in s.fetched && s.v.serverMessage.p1 == c.requests[s.serving - 1])
    && (s.v.server == Busy ==> s.serving in s.fetched && s.serving !in s.replies)
  }

  /** A true answer to the client's request `serial`: the reply of the server's
      application, or, if the application never saw the request, a cancellation. */
  predicate TrueAnswer(s: Half, serial: nat, cancelled: bool, response: nat) {
    if cancelled then serial !in s.fetched else serial in s.replies && s.replies[serial] == response
  }

  predicate IsAnswer(c: Half, s: Half, w: Wire) {
    && KindOf(w.m) == Answering && w.serial == |c.requests|
    && TrueAnswer(s, w.serial, w.m.action == CancelAck, w.m.p1)
  }

  /** Where the latest request is while the client waits: on its way, at the
      server, or answered on the way back (or dropped by a side that ended). */
  ghost predicate Outstanding(c: Half, s: Half, req: seq<Wire>, ans: seq<Wire>) {
    && c.requests != []
    && if req != [] && !Stale(req) then
         && (if c.v.client == Waiting then Asked(c, req) else AskedAndCancelled(c, req))
         && ans == [] && !HasRequest(s) && |c.requests| !in s.fetched
       else
         && (c.v.client == Waiting ==> req == [])
         && if ans != [] then
              && |ans| == 1 && IsAnswer(c, s, ans[0]) && !HasRequest(s)
              && (ans[0].m.action == CancelAck ==> c.v.client == CancelWaiting && req == [])
            else if HasRequest(s) then Serves(c, s)
            else Ended(c) || Ended(s)
  }

  predicate Waits(c: Half) { c.v.client == Waiting || c.v.client == CancelWaiting }

  /** The invariant of a direction; `req`, `ans`: the requests and cancellations,
      and the answers, under way. */
  ghost predicate Direction(c: Half, s: Half, req: seq<Wire>, ans: seq<Wire>) {
    && c.v.client != Busy && s.v.server != Waiting && s.v.server != CancelWaiting
    && (if Waits(c) then Outstanding(c, s, req, ans) else Stale(req) && ans == [] && !HasRequest(s))
    && Answered(c, s)
    && Served(c, s)
  }

  /** Every request but an outstanding one has exactly one answer, in order, and a
      true one; the last is what a notified client holds. */
  ghost predicate Answered(c: Half, s: Half) {
    && |c.answers| == (if Waits(c) then |c.requests| - 1 else |c.requests|)
    && (forall i :: 0 <= i < |c.answers| ==> TrueAt(c, s, i))
    && (c.v.client == Notified ==> Holds(c))
  }

  ghost predicate TrueAt(c: Half, s: Half, i: nat)
    requires i < |c.answers|
  {
    c.answers[i].serial == i + 1 && TrueAnswer(s, i + 1, c.answers[i].cancelled, c.answers[i].response)
  }

  predicate Holds(c: Half) {
    && c.answers != []
    && var last := c.answers[|c.answers| - 1];
       last.cancelled == (c.v.clientMessage.action == CancelAck) && last.response == c.v.clientMessage.p1
  }

  /** The server's application fetches what was asked, and replies to what it fetched. */
  ghost predicate Served(c: Half, s: Half) {
    && (forall k :: k in s.fetched ==> 1 <= k <= |c.requests| && s.fetched[k] == c.requests[k - 1])
    && (forall k :: k in s.replies ==> k in s.fetched)
  }

  // ----- Every step keeps both directions -----

  /** `h'` is, as a client, what `h` was, or has ended. */
  predicate SameClient(h: Half, h': Half) {
    && h'.v.client == h.v.client && h'.requests == h.requests && h'.answers == h.answers
    && h'.v.clientMessage == h.v.clientMessage && (Ended(h) ==> Ended(h'))
  }

  predicate SameServer(h: Half, h': Half) {
    && h'.v.server == h.v.server && h'.serving == h.serving && h'.fetched == h.fetched && h'.replies == h.replies
    && h'.v.serverMessage == h.v.serverMessage && (Ended(h) ==> Ended(h'))
  }

  lemma KeepsClient(c: Half, c': Half, s: Half, req: seq<Wire>, ans: seq<Wire>)
    requires Direction(c, s, req, ans) && SameClient(c, c')
    ensures Direction(c', s, req, ans)
  {
    forall i | 0 <= i < |c'.answers| ensures TrueAt(c', s, i) { assert TrueAt(c, s, i); }
  }

  lemma KeepsServer(c: Half, s: Half, s': Half, req: seq<Wire>, ans: seq<Wire>)
    requires Direction(c, s, req, ans) && SameServer(s, s')
    ensures Direction(c, s', req, ans)
  {
    forall i | 0 <= i < |c.answers| ensures TrueAt(c, s', i) { assert TrueAt(c, s, i); }
  }

  /** What a call adds to the channel, by kind. */
  lemma CallSends(h: Half, index: nat, s: Step, k: Kind)
    requires s != Receive
    ensures var sent := Call(h, index, s).1;
            && Only(sent, k) == (if sent != [] && KindOf(sent[0].m) == k then sent else [])
            && |sent| <= 1
            && (k == Asking && !s.AskFor? && s != StartCancel ==> Only(sent, k) == [])
            && (k == Answering && !s.Respond? ==> Only(sent, k) == [])
            && (k == Closing && s != Terminate ==> Only(sent, k) == [])
            && (k == Closed || k == Configuring ==> Only(sent, k) == [])
  {
    var sent := Call(h, index, s).1;
    if sent != [] {
      assert sent[1..] == [];
    }
  }

  lemma Asks(c: Half, s: Half, req: seq<Wire>, ans: seq<Wire>, index: nat, request: nat)
    requires Direction(c, s, req, ans) && c.v.client == Idle
    ensures var (c', sent) := Call(c, index, AskFor(request));
            |sent| == 1 && Direction(c', s, req + sent, ans)
  {
    var (c', sent) := Call(c, index, AskFor(request));
    assert IsAsk(c', sent[0]);
    assert Asked(c', req + sent);
    forall i | 0 <= i < |c'.answers| ensures TrueAt(c', s, i) { assert TrueAt(c, s, i); }
  }

  lemma Cancels(c: Half, s: Half, req: seq<Wire>, ans: seq<Wire>, index: nat)
    requires Direction(c, s, req, ans) && c.v.client == Waiting
    ensures var (c', sent) := Call(c, index, StartCancel);
            |sent| == 1 && Direction(c', s, req + sent, ans)
  {
    var (c', sent) := Call(c, index, StartCancel);
    assert IsCancel(sent[0]);
    if req != [] {
      assert Asked(c, req) && AskedAndCancelled(c', req + sent);
    } else {
      assert req + sent == sent && Stale(sent);
    }
    forall i | 0 <= i < |c'.answers| ensures TrueAt(c', s, i) { assert TrueAt(c, s, i); }
  }

  lemma Rests(c: Half, c': Half, s: Half, req: seq<Wire>, ans: seq<Wire>)
    requires Direction(c, s, req, ans) && !Waits(c)
    requires c'.v.client == Idle && c'.requests == c.requests && c'.answers == c.answers
    ensures Direction(c', s, req, ans)
  {
    forall i | 0 <= i < |c'.answers| ensures TrueAt(c', s, i) { assert TrueAt(c, s, i); }
  }

  lemma OtherCalls(c: Half, index: nat, step: Step)
    requires !(step.AskFor? && c.v.client == Idle) && !(step == StartCancel && c.v.client == Waiting)
    ensures var c' := Call(c, index, step).0;
            SameClient(c, c') ||
            (!Waits(c) && c'.v.client == Idle && c'.requests == c.requests && c'.answers == c.answers)
  {
  }

  /** The mover calls, as the client of a direction. */
  lemma CallAsClient(c: Half, s: Half, req: seq<Wire>, ans: seq<Wire>, index: nat, step: Step)
    requires Direction(c, s, req, ans) && step != Receive
    ensures var (c', sent) := Call(c, index, step);
            Direction(c', s, req + Only(sent, Asking), ans)
  {
    CallSends(c, index, step, Asking);
    var (c', sent) := Call(c, index, step);
    assert req + [] == req;
    if step.AskFor? && c.v.client == Idle {
      Asks(c, s, req, ans, index, step.request);
    } else if step == StartCancel && c.v.client == Waiting {
      Cancels(c, s, req, ans, index);
    } else {
      assert sent == [] || !(step.AskFor? || step == StartCancel);
      OtherCalls(c, index, step);
      hide Direction, Call;
      if SameClient(c, c') {
        KeepsClient(c, c', s, req, ans);
      } else {
        Rests(c, c', s, req, ans);
      }
    }
  }

  lemma Fetches(c: Half, s: Half, req: seq<Wire>, ans: seq<Wire>, index: nat)
    requires Direction(c, s, req, ans) && s.v.server == Notified
    ensures Direction(c, Call(s, index, FetchRequest).0, req, ans)
  {
    var s' := Call(s, index, FetchRequest).0;
    assert Waits(c) && Serves(c, s);
    forall i | 0 <= i < |c.answers| ensures TrueAt(c, s', i) { assert TrueAt(c, s, i); }
  }

  lemma Responds(c: Half, s: Half, req: seq<Wire>, ans: seq<Wire>, index: nat, response: nat)
    requires Direction(c, s, req, ans) && s.v.server == Busy
    ensures var (s', sent) := Call(s, index, Respond(response));
            |sent| == 1 && Direction(c, s', req, ans + sent)
  {
    var (s', sent) := Call(s, index, Respond(response));
    assert Waits(c) && Serves(c, s);
    assert IsAnswer(c, s', sent[0]);
    assert ans + sent == sent;
    forall i | 0 <= i < |c.answers| ensures TrueAt(c, s', i) { assert TrueAt(c, s, i); }
  }

  lemma OtherCallsKeepServer(s: Half, index: nat, step: Step)
    requires !(step == FetchRequest && s.v.server == Notified) && !(step.Respond? && s.v.server == Busy)
    ensures SameServer(s, Call(s, index, step).0)
  {
  }

  /** The mover calls, as the server of a direction. */
  lemma CallAsServer(c: Half, s: Half, req: seq<Wire>, ans: seq<Wire>, index: nat, step: Step)
    requires Direction(c, s, req, ans) && step != Receive
    ensures var (s', sent) := Call(s, index, step);
            Direction(c, s', req, ans + Only(sent, Answering))
  {
    CallSends(s, index, step, Answering);
    var (s', sent) := Call(s, index, step);
    assert ans + [] == ans;
    if step == FetchRequest && s.v.server == Notified {
      Fetches(c, s, req, ans, index);
    } else if step.Respond? && s.v.server == Busy {
      Responds(c, s, req, ans, index, step.response);
    } else {
      assert sent == [] || !step.Respond?;
      OtherCallsKeepServer(s, index, step);
      hide Direction, Call;
      KeepsServer(c, s, s', req, ans);
    }
  }

  /** A side has roles once it is configured, and not while it waits to be. */
  predicate Roles(h: Half) {
    && (h.v.global == ConfigWaiting ==> h.v.server == Unset && h.v.client == Unset && !h.checked)
    && (h.v.global == Configured ==> h.v.server != Unset && h.v.client != Unset)
    && (h.checked || h.closing ==> Met(h))
    && (h.v.free ==> h.v.global != Configured)
  }

  /** The side has been configured in this lifetime. */
  predicate Met(h: Half) { h.v.server != Unset }

  /** What there is to fetch is announced by an event, pending or taken. */
  predicate Alerted(h: Half) {
    && (h.v.server == Notified ==> RequestEvent in Known(h))
    && (h.v.client == Notified ==> ResponseEvent in Known(h))
  }

  /** The events that are pending or taken. */
  function Known(h: Half): set<Event> { h.v.events + h.alerts.taken }

  /** The event of a request is known exactly while the request that was last
      received has not been fetched. */
  predicate Announced(h: Half) {
    && (h.v.global == Configured ==> (RequestEvent in Known(h) <==> h.serving > 0 && h.serving !in h.fetched))
    && (h.v.global == ConfigWaiting ==> RequestEvent !in Known(h))
    && (!Met(h) ==> h.serving == 0)
  }

  /** The message that the client's side receives next is, if it is an answer, the
      only one under way. */
  lemma GetsAnswer(c: Half, s: Half, req: seq<Wire>, ans: seq<Wire>, index: nat)
    requires Direction(c, s, req, ans) && Roles(c) && ans != []
    ensures Direction(Handle(c, index, ans[0]).0, s, req, ans[1..])
  {
    var c' := Handle(c, index, ans[0]).0;
    assert Waits(c) && Outstanding(c, s, req, ans) && ans[1..] == [];
    forall i | 0 <= i < |c'.answers|
      ensures TrueAt(c', s, i)
    {
      if i < |c.answers| {
        assert TrueAt(c, s, i);
      }
    }
  }

  lemma ReceiveAsClient(c: Half, s: Half, req: seq<Wire>, ans: seq<Wire>, index: nat, w: Wire)
    requires Direction(c, s, req, ans) && Roles(c)
    requires KindOf(w.m) == Answering ==> ans != [] && ans[0] == w
    ensures Direction(Handle(c, index, w).0, s, req, if KindOf(w.m) == Answering then ans[1..] else ans)
  {
    var c' := Handle(c, index, w).0;
    if KindOf(w.m) == Answering {
      GetsAnswer(c, s, req, ans, index);
    } else if c'.v.client != c.v.client {
      Rests(c, c', s, req, ans);
    } else if c'.v.clientMessage != c.v.clientMessage {
      assert w.m.action == ConfigAck && c.v.client == Unset;
      forall i | 0 <= i < |c'.answers| ensures TrueAt(c', s, i) { assert TrueAt(c, s, i); }
    } else {
      KeepsClient(c, c', s, req, ans);
    }
  }

  lemma GetsRequest(c: Half, s: Half, req: seq<Wire>, ans: seq<Wire>, index: nat)
    requires Direction(c, s, req, ans) && Roles(s) && s.v.global != ConfigWaiting
    requires req != [] && req[0].m.action == Request
    ensures Direction(c, Handle(s, index, req[0]).0, req[1..], ans)
  {
    var s' := Handle(s, index, req[0]).0;
    assert Waits(c) && !Stale(req) && IsAsk(c, req[0]);
    assert Stale(req[1..]);
    forall i | 0 <= i < |c.answers| ensures TrueAt(c, s', i) { assert TrueAt(c, s, i); }
  }

  lemma GetsCancel(c: Half, s: Half, req: seq<Wire>, ans: seq<Wire>, index: nat)
    requires Direction(c, s, req, ans) && req != [] && req[0].m.action == Cancel
    ensures var (s', sent) := Handle(s, index, req[0]);
            Direction(c, s', req[1..], ans + sent)
  {
    var (s', sent) := Handle(s, index, req[0]);
    if s'.v.server != s.v.server {
      assert Waits(c) && Serves(c, s) && |req| == 1;
      assert IsAnswer(c, s', sent[0]);
      assert ans + sent == sent;
    } else {
      assert ans + sent == ans;
      if Stale(req) {
        assert req[1..] == [];
      } else {
        assert !Stale(req[1..]);
      }
    }
    forall i | 0 <= i < |c.answers| ensures TrueAt(c, s', i) { assert TrueAt(c, s, i); }
  }

  lemma ReceiveAsServer(c: Half, s: Half, req: seq<Wire>, ans: seq<Wire>, index: nat, w: Wire)
    requires Direction(c, s, req, ans) && Roles(s)
    requires KindOf(w.m) == Asking ==> req != [] && req[0] == w && s.v.global != ConfigWaiting
    ensures var (s', sent) := Handle(s, index, w);
            Direction(c, s', if KindOf(w.m) == Asking then req[1..] else req, ans + Only(sent, Answering))
  {
    var (s', sent) := Handle(s, index, w);
    HandleSends(s, index, w, Answering);
    assert ans + [] == ans;
    if w.m.action == Request {
      GetsRequest(c, s, req, ans, index);
    } else if w.m.action == Cancel {
      GetsCancel(c, s, req, ans, index);
    } else {
      OtherMessages(s, index, w);
      hide Direction, Handle;
      if SameServer(s, s') {
        KeepsServer(c, s, s', req, ans);
      } else {
        BecomesIdle(c, s, s', req, ans);
      }
    }
  }

  lemma OtherMessages(s: Half, index: nat, w: Wire)
    requires Roles(s) && w.m.action != Request && w.m.action != Cancel
    ensures var s' := Handle(s, index, w).0;
            SameServer(s, s') ||
            (s.v.server == Unset && s'.v.server == Idle && !Ended(s) &&
             s'.fetched == s.fetched && s'.replies == s.replies)
  {
  }

  lemma BecomesIdle(c: Half, s: Half, s': Half, req: seq<Wire>, ans: seq<Wire>)
    requires Direction(c, s, req, ans) && !Ended(s)
    requires s.v.server == Unset && s'.v.server == Idle && s'.fetched == s.fetched && s'.replies == s.replies
    ensures Direction(c, s', req, ans)
  {
    forall i | 0 <= i < |c.answers| ensures TrueAt(c, s', i) { assert TrueAt(c, s, i); }
  }

  lemma HandleSends(h: Half, index: nat, w: Wire, k: Kind)
    ensures var sent := Handle(h, index, w).1;
            && Only(sent, k) == (if sent != [] && KindOf(sent[0].m) == k then sent else [])
            && |sent| <= 1
            && (k == Asking || k == Configuring || k == Closing ==> Only(sent, k) == [])
            && (k == Answering && w.m.action != Cancel ==> Only(sent, k) == [])
            && (k == Closed && w.m.action != Term ==> Only(sent, k) == [])
  {
    var sent := Handle(h, index, w).1;
    if sent != [] {
      assert sent[1..] == [];
    }
  }

  // ----- Both directions, terminations and configuration -----

  function AtMostOne(b: bool): nat { if b then 1 else 0 }

  /** What is left of the terminations: each side sends one, which is acknowledged
      at most once. */
  predicate Terminations(p: Pair) {
    && |Only(p.ab, Closing)| + |Only(p.ba, Closed)| <= AtMostOne(p.a.closing)
    && |Only(p.ba, Closing)| + |Only(p.ab, Closed)| <= AtMostOne(p.b.closing)
  }

  ghost predicate Directions(p: Pair) {
    && Direction(p.a, p.b, Only(p.ab, Asking), Only(p.ba, Answering))
    && Direction(p.b, p.a, Only(p.ba, Asking), Only(p.ab, Answering))
  }

  ghost predicate Flows(p: Pair) {
    Directions(p) && Terminations(p) && Roles(p.a) && Roles(p.b) && Alerted(p.a) && Alerted(p.b)
  }

  lemma OnlyHead(q: seq<Wire>, k: Kind)
    requires q != []
    ensures KindOf(q[0].m) == k ==> Only(q, k) != [] && Only(q, k)[0] == q[0] && Only(q[1..], k) == Only(q, k)[1..]
    ensures KindOf(q[0].m) != k ==> Only(q[1..], k) == Only(q, k)
  {
  }

  lemma CallDirections(p: Pair, index: nat, s: Step)
    requires Directions(p) && s != Receive && Enabled(p, s)
    ensures Directions(Next(p, index, s))
  {
    var sent := Call(p.a, index, s).1;
    OnlyAppend(p.ab, sent, Asking);
    OnlyAppend(p.ab, sent, Answering);
    CallAsClient(p.a, p.b, Only(p.ab, Asking), Only(p.ba, Answering), index, s);
    CallAsServer(p.b, p.a, Only(p.ba, Asking), Only(p.ab, Answering), index, s);
    hide Call, Direction, Only;
  }

  lemma CallTerminations(p: Pair, index: nat, s: Step)
    requires Terminations(p) && s != Receive && Enabled(p, s)
    ensures Terminations(Next(p, index, s))
  {
    var sent := Call(p.a, index, s).1;
    OnlyAppend(p.ab, sent, Closing);
    OnlyAppend(p.ab, sent, Closed);
    CallSends(p.a, index, s, Closing);
    CallSends(p.a, index, s, Closed);
    CallCloses(p.a, index, s);
    hide Call, Only;
  }

  lemma CallCloses(h: Half, index: nat, s: Step)
    ensures Call(h, index, s).0.closing == (h.closing || s == Terminate)
  {
  }

  lemma CallFlows(p: Pair, index: nat, s: Step)
    requires Flows(p) && Enabled(p, s) && s != Receive
    ensures Flows(Next(p, index, s))
  {
    CallDirections(p, index, s);
    CallTerminations(p, index, s);
    CallRoles(p.a, index, s);
    CallAlerts(p.a, index, s);
    hide Directions, Terminations, Call;
  }

  lemma CallRoles(h: Half, index: nat, s: Step)
    requires Roles(h) && s != Receive
    requires s != Check && !s.Take? && s != NoticeTermination && s != FinishClosing ==> h.checked
    requires s == Check ==> h.v.global == Configured
    ensures Roles(Call(h, index, s).0)
  {
  }

  lemma CallAlerts(h: Half, index: nat, s: Step)
    requires Alerted(h) && s != Receive
    ensures Alerted(Call(h, index, s).0)
  {
  }

  lemma HandleAlerts(h: Half, index: nat, w: Wire)
    requires Alerted(h)
    ensures Alerted(Handle(h, index, w).0)
  {
  }

  lemma HandleRoles(h: Half, index: nat, w: Wire)
    requires Roles(h)
    ensures Roles(Handle(h, index, w).0) && Handle(h, index, w).0.closing == h.closing
  {
  }

  /** What a receive does to the messages of one kind, both ways. */
  lemma ReceiveKind(p: Pair, index: nat, k: Kind)
    requires p.ba != []
    ensures var (w, (a, sent)) := (p.ba[0], Handle(p.a, index, p.ba[0]));
            && Only(p.ab + sent, k) == Only(p.ab, k) + Only(sent, k)
            && (if KindOf(w.m) == k then
                  Only(p.ba, k) != [] && Only(p.ba, k)[0] == w && Only(p.ba[1..], k) == Only(p.ba, k)[1..]
                else Only(p.ba[1..], k) == Only(p.ba, k))
  {
    OnlyHead(p.ba, k);
    OnlyAppend(p.ab, Handle(p.a, index, p.ba[0]).1, k);
  }

  lemma ReceiveTerminations(p: Pair, index: nat)
    requires Terminations(p) && Enabled(p, Receive)
    ensures Terminations(Next(p, index, Receive))
  {
    ReceiveKind(p, index, Closing);
    ReceiveKind(p, index, Closed);
    HandleSends(p.a, index, p.ba[0], Closing);
    HandleSends(p.a, index, p.ba[0], Closed);
    hide Only, OnMessage;
  }

  lemma ReceiveDirections(p: Pair, index: nat)
    requires Directions(p) && Roles(p.a) && Enabled(p, Receive)
    requires p.a.v.global == ConfigWaiting ==> p.ba[0].m.action == ConfigAck
    ensures Directions(Next(p, index, Receive))
  {
    var w := p.ba[0];
    ReceiveKind(p, index, Asking);
    ReceiveKind(p, index, Answering);
    ReceiveAsClient(p.a, p.b, Only(p.ab, Asking), Only(p.ba, Answering), index, w);
    ReceiveAsServer(p.b, p.a, Only(p.ba, Asking), Only(p.ab, Answering), index, w);
    HandleSends(p.a, index, w, Asking);
    assert Only(p.ab, Asking) + [] == Only(p.ab, Asking);
    hide Handle, Direction, Only;
  }

  lemma ReceiveFlows(p: Pair, index: nat)
    requires Flows(p) && Enabled(p, Receive)
    requires p.a.v.global == ConfigWaiting ==> p.ba[0].m.action == ConfigAck
    ensures Flows(Next(p, index, Receive))
  {
    ReceiveDirections(p, index);
    ReceiveTerminations(p, index);
    HandleRoles(p.a, index, p.ba[0]);
    HandleAlerts(p.a, index, p.ba[0]);
    hide Directions, Terminations, Handle;
  }

  lemma CallAnnounced(h: Half, index: nat, s: Step)
    requires Announced(h) && Roles(h) && s != Receive
    requires s == NoticeTermination || s == FinishClosing ==> h.v.global != ConfigWaiting
    ensures Announced(Call(h, index, s).0)
  {
    CallGlobal(h, index, s);
    CallMet(h, index, s);
  }

  lemma HandleAnnounced(h: Half, index: nat, w: Wire)
    requires Announced(h) && Roles(h)
    requires w.m.action == Request && h.v.server == Idle ==> w.serial > 0 && w.serial !in h.fetched
    ensures Announced(Handle(h, index, w).0)
  {
  }

  /** A request that an idle server receives is a new one. */
  lemma NextIsNew(p: Pair)
    requires Directions(p) && p.ba != []
    ensures p.ba[0].m.action == Request && p.a.v.server == Idle ==> p.ba[0].serial > 0 && p.ba[0].serial !in p.a.fetched
  {
    OnlyHead(p.ba, Asking);
  }

  lemma NextAnnounced(p: Pair, index: nat, s: Step)
    requires Flows(p) && Enabled(p, s) && Announced(p.a)
    ensures Announced(Next(p, index, s).a)
  {
    if s == Receive {
      NextIsNew(p);
      HandleAnnounced(p.a, index, p.ba[0]);
    } else {
      CallAnnounced(p.a, index, s);
    }
    hide Announced, Flows, Handle, Call;
  }

  // ----- Saying farewell -----

  /** The side has been configured and is no longer. */
  predicate Gone(h: Half) { Met(h) && h.v.global != Configured }

  /** What becomes of the termination of side `h`, whose peer is `k`. While it waits
      for the acknowledgement, that or the termination itself is under way, or it
      has been woken, or else the peer's own termination crosses. */
  predicate Farewell(h: Half, k: Half, out: seq<Wire>, back: seq<Wire>) {
    && (h.v.global == TermWaiting && !h.v.free ==> Awaited(h, out, back))
    && (Gone(h) && !h.alerts.heard ==> Only(out, Closing) != [] || k.alerts.heard || k.v.free)
    && (h.alerts.heard ==> k.closing && Only(back, Closing) == [])
    && (h.alerts.woken ==> h.closing && Only(out, Closing) == [] && Only(back, Closed) == [])
  }

  predicate Awaited(h: Half, out: seq<Wire>, back: seq<Wire>) {
    || Only(out, Closing) != [] || Only(back, Closed) != [] || h.alerts.woken
    || Only(back, Closing) != [] || h.alerts.heard
  }

  predicate Farewells(p: Pair) {
    Farewell(p.a, p.b, p.ab, p.ba) && Farewell(p.b, p.a, p.ba, p.ab)
  }

  /** What calls do to the global state. */
  lemma CallGlobal(h: Half, index: nat, s: Step)
    requires s != Receive
    ensures var h' := Call(h, index, s).0;
            && h'.v.global == (match s
                               case Terminate => TermWaiting
                               case FinishClosing => Null
                               case NoticeTermination => if h.v.global == Configured then Configured else Null
                               case _ => h.v.global)
  {
  }

  lemma CallFrees(h: Half, index: nat, s: Step)
    requires s != Receive
    ensures var h' := Call(h, index, s).0;
            && (h.v.free ==> h'.v.free) && (h'.v.free ==> h.v.free || s == FinishClosing || s == NoticeTermination)
            && h'.alerts.heard == h.alerts.heard && h'.alerts.woken == h.alerts.woken
  {
  }

  lemma CallFlags(h: Half, index: nat, s: Step)
    requires s != Receive
    ensures var h' := Call(h, index, s).0;
            h'.closing == (h.closing || s == Terminate) && h'.checked == (h.checked || s == Check)
  {
  }

  lemma CallMet(h: Half, index: nat, s: Step)
    requires s != Receive
    ensures Met(Call(h, index, s).0) <==> Met(h)
    ensures s == Terminate ==> |Call(h, index, s).1| == 1 && KindOf(Call(h, index, s).1[0].m) == Closing
    ensures Call(h, index, s).1 != [] ==> s.AskFor? || s == StartCancel || s.Respond? || s == Terminate
  {
  }

  lemma CallFarewells(p: Pair, index: nat, s: Step)
    requires Farewells(p) && Roles(p.a) && Enabled(p, s) && s != Receive && Terminations(p)
    ensures Farewells(Next(p, index, s))
  {
    var sent := Call(p.a, index, s).1;
    OnlyAppend(p.ab, sent, Closing);
    OnlyAppend(p.ab, sent, Closed);
    CallSends(p.a, index, s, Closing);
    CallSends(p.a, index, s, Closed);
    CallGlobal(p.a, index, s);
    CallFrees(p.a, index, s);
    CallFlags(p.a, index, s);
    CallMet(p.a, index, s);
    hide Call, Only;
  }

  /** What messages do to the global state. */
  lemma HandleGlobal(h: Half, index: nat, w: Wire)
    ensures var h' := Handle(h, index, w).0;
            && h'.v.free == h.v.free && h'.closing == h.closing
            && h'.v.global == (if h.v.free then h.v.global
                               else if w.m.action == Term then Null
                               else if w.m.action == ConfigAck && h.v.global == ConfigWaiting then
                                 if w.m.p1 == 0 then Configured else Null
                               else h.v.global)
            && (Met(h') ==> Met(h) || h'.v.global == Configured)
            && (Met(h) ==> Met(h'))
  {
  }

  lemma HandleAlerted(h: Half, index: nat, w: Wire)
    ensures var (h', sent) := Handle(h, index, w);
            && h'.alerts.heard == (h.alerts.heard || (!h.v.free && w.m.action == Term))
            && h'.alerts.woken == (h.alerts.woken || (!h.v.free && w.m.action == TermAck && h.v.global == TermWaiting))
            && (!h.v.free && w.m.action == Term ==> |sent| == 1 && KindOf(sent[0].m) == Closed)
  {
  }

  lemma ReceiverFarewell(p: Pair, index: nat)
    requires Farewells(p) && Terminations(p) && Enabled(p, Receive)
    ensures var p' := Next(p, index, Receive); Farewell(p'.a, p'.b, p'.ab, p'.ba)
  {
    hide Handle, Only;
    var w := p.ba[0];
    ReceiveKind(p, index, Closing);
    ReceiveKind(p, index, Closed);
    HandleSends(p.a, index, w, Closing);
    HandleSends(p.a, index, w, Closed);
    HandleGlobal(p.a, index, w);
    HandleAlerted(p.a, index, w);
  }

  lemma PeerFarewell(p: Pair, index: nat)
    requires Farewells(p) && Terminations(p) && Roles(p.a) && Enabled(p, Receive)
    requires p.ba[0].m.action == Term && p.a.v.free ==> Met(p.a)
    ensures var p' := Next(p, index, Receive); Farewell(p'.b, p'.a, p'.ba, p'.ab)
  {
    hide Handle, Only;
    var w := p.ba[0];
    ReceiveKind(p, index, Closing);
    ReceiveKind(p, index, Closed);
    HandleSends(p.a, index, w, Closing);
    HandleSends(p.a, index, w, Closed);
    HandleGlobal(p.a, index, w);
    HandleAlerted(p.a, index, w);
    if w.m.action == Term {
      assert KindOf(w.m) == Closing;
    }
  }

  lemma ReceiveFarewells(p: Pair, index: nat)
    requires Farewells(p) && Terminations(p) && Roles(p.a) && Enabled(p, Receive)
    requires p.ba[0].m.action == Term && p.a.v.free ==> Met(p.a)
    ensures Farewells(Next(p, index, Receive))
  {
    ReceiverFarewell(p, index);
    PeerFarewell(p, index);
    hide Farewell;
  }

  lemma NextFarewells(p: Pair, index: nat, s: Step)
    requires Farewells(p) && Flows(p) && Enabled(p, s)
    requires s == Receive && p.ba[0].m.action == Term && p.a.v.free ==> Met(p.a)
    ensures Farewells(Next(p, index, s))
  {
    if s == Receive {
      ReceiveFarewells(p, index);
    } else {
      CallFarewells(p, index, s);
    }
  }
}
