/** What the calls of a session report: whether and what a client is told of its
    request, and when a call is refused, in terms of what the peer's application did. */
module Answers {
  import opened Exchange
  import opened Lifetimes
  import opened Platform
  import opened SessionProtocol

  /** A notified client `c` is told the truth about its latest request `k` by whichever
      call it makes, of server `s`: the reply, or that the request was taken back. Only
      the end of a cancellation tells these two apart. */
  ghost predicate ToldRight(c: Half, s: Half, index: nat) {
    var (k, got, cut, done) := (|c.requests|, GetResponse(c.v), CancelStart(c.v, index), CancelFinish(c.v));
    && got.ret == 0 && cut.ret == REQUEST_CANCEL_RESPONSE
    && (k in s.replies <==> k in s.fetched)
    && (k in s.replies ==> got.out == cut.out == done.out == s.replies[k])
    && (done.ret == REQUEST_CANCEL_OK <==> k !in s.fetched)
    && (done.ret == REQUEST_CANCEL_RESPONSE <==> k in s.replies)
    && got.v.client == cut.v.client == done.v.client == Idle
  }

  lemma DirectionTells(c: Half, s: Half, req: seq<Wire>, ans: seq<Wire>, index: nat)
    requires Direction(c, s, req, ans) && c.v.client == Notified
    ensures ToldRight(c, s, index)
  {
    assert TrueAt(c, s, |c.answers| - 1);
  }

  /** In every state, what a client would be handed out is the reply that the peer's
      application made to its latest request, and a cancellation is reported as done
      exactly if the application never saw that request. */
  lemma ToldTheTruth(l: Life, index: nat, i: nat)
    requires IsLife(l, index) && i <= |l.moves|
    ensures var p := l.states[i];
            && (p.a.v.client == Notified ==> ToldRight(p.a, p.b, index))
            && (p.b.v.client == Notified ==> ToldRight(p.b, p.a, index))
  {
    LifeInv(l, index, i);
    var p := l.states[i];
    hide Direction, ToldRight;
    if p.a.v.client == Notified {
      DirectionTells(p.a, p.b, Only(p.ab, Asking), Only(p.ba, Answering), index);
    }
    if p.b.v.client == Notified {
      DirectionTells(p.b, p.a, Only(p.ba, Asking), Only(p.ab, Answering), index);
    }
  }

  /** The calls of a configured client are refused exactly as they should be: asking
      unless every request has been answered and handed out, fetching unless an answer
      waits to be, cancelling if there is nothing to cancel. */
  ghost predicate ClientRefused(c: Half, index: nat, request: nat) {
    var (answered, idle) := (|c.answers| == |c.requests|, SendRequest(c.v, index, request).ret == 0);
    && (idle ==> answered)
    && SendRequest(c.v, index, request).ret == (if idle then 0 else -EPROTO)
    && GetResponse(c.v).ret == (if answered && !idle then 0 else -EAGAIN)
    && CancelStart(c.v, index).ret == (if idle then -EPROTO else if answered then REQUEST_CANCEL_RESPONSE else 0)
    && (CancelFinish(c.v).ret == -EFAULT <==> idle || !answered)
  }

  /** Those of its application as a server of client `c`: what can be fetched is the latest
      request, as it was asked and not fetched before; replying works exactly while one
      has been fetched and not replied to. */
  ghost predicate ServerRefused(c: Half, s: Half, index: nat, response: nat) {
    var (k, fetch, reply) := (s.serving, GetRequest(s.v), SendResponse(s.v, index, response));
    && fetch.ret == (if s.v.server == Notified then 0 else -EAGAIN)
    && (fetch.ret == 0 ==> 1 <= k == |c.requests| && k !in s.fetched && fetch.out == c.requests[k - 1])
    && reply.ret == (if k in s.fetched && k !in s.replies then 0 else -EPROTO)
  }

  lemma ClientIsRefused(c: Half, s: Half, req: seq<Wire>, ans: seq<Wire>, index: nat, request: nat)
    requires Direction(c, s, req, ans) && c.v.client != Unset
    ensures ClientRefused(c, index, request)
  {
    hide Outstanding, Served;
  }

  lemma ServerIsRefused(c: Half, s: Half, req: seq<Wire>, ans: seq<Wire>, index: nat, response: nat)
    requires Direction(c, s, req, ans) && !Ended(c) && !Ended(s)
    ensures ServerRefused(c, s, index, response)
  {
    var k := s.serving;
    if k in s.fetched && k <= |c.answers| {
      assert TrueAt(c, s, k - 1);
    }
  }

  lemma RefusedRightly(l: Life, index: nat, i: nat, word: nat)
    requires IsLife(l, index) && i <= |l.moves|
    ensures var p := l.states[i];
            && (p.a.v.global == Configured ==> ClientRefused(p.a, index, word))
            && (p.b.v.global == Configured ==> ClientRefused(p.b, index, word))
            && (!Ended(p.a) && !Ended(p.b) ==>
                  ServerRefused(p.b, p.a, index, word) && ServerRefused(p.a, p.b, index, word))
  {
    LifeInv(l, index, i);
    var p := l.states[i];
    hide Direction, ClientRefused, ServerRefused;
    if p.a.v.global == Configured {
      ClientIsRefused(p.a, p.b, Only(p.ab, Asking), Only(p.ba, Answering), index, word);
    }
    if p.b.v.global == Configured {
      ClientIsRefused(p.b, p.a, Only(p.ba, Asking), Only(p.ab, Answering), index, word);
    }
    if !Ended(p.a) && !Ended(p.b) {
      ServerIsRefused(p.a, p.b, Only(p.ab, Asking), Only(p.ba, Answering), index, word);
      ServerIsRefused(p.b, p.a, Only(p.ba, Asking), Only(p.ab, Answering), index, word);
    }
  }

  lemma ReachAsked(index: nat) returns (p: Pair)
    ensures Reachable(p, index) && Stands(p, Waiting, Idle, Idle, Idle, 1)
    ensures p.ab[0].m.action == Request && p.ab[0].serial == |p.a.requests| == 1 && p.b.fetched == map[]
  {
    p := ReachConfigured(index);
    NothingFetched(p, index);
    hide Reachable;
    p := Reach(p, index, Move(NonSecure, AskFor(0)));
  }

  lemma ReachCancelled(index: nat) returns (p: Pair)
    ensures Reachable(p, index) && Stands(p, CancelWaiting, Idle, Idle, Notified, 1)
    ensures p.ab[0].m.action == Cancel && |p.a.requests| == p.b.serving == 1 && p.b.fetched == map[]
  {
    p := ReachAsked(index);
    hide Reachable;
    p := Reach(p, index, Move(Secure, Receive));
    p := Reach(p, index, Move(NonSecure, StartCancel));
  }

  lemma NothingFetched(p: Pair, index: nat)
    requires Reachable(p, index) && p.a.requests == []
    ensures p.b.fetched == map[]
  {
    var l :| LeadsTo(l, index, p);
    LifeInv(l, index, |l.moves|);
    assert Served(p.a, p.b);
  }

  /** Only the thread whose wait for a cancellation ends is told of it. Another one that
      fetches, or cancels again, is handed out a response, 0, to a request that the peer's
      application never saw. */
  lemma CancelledIsHandedOut(index: nat)
    ensures exists p :: && Reachable(p, index) && p.a.v.global == Configured && |p.a.requests| !in p.b.fetched
                        && GetResponse(p.a.v).ret == 0
                        && CancelStart(p.a.v, index).ret == REQUEST_CANCEL_RESPONSE
  {
    var p := ReachCancelled(index);
    hide Reachable;
    p := Reach(p, index, Move(Secure, Receive));
    p := Reach(p, index, Move(NonSecure, Receive));
  }

  // ----- What is handed out is not kept -----

  /** The configuration was refused; the reason is kept. */
  predicate Refused(h: Half) {
    !Met(h) && h.v.global != ConfigWaiting && h.v.clientMessage.action == ConfigAck
  }

  /** Each role's message buffer is clear unless it holds a message to be fetched, or the
      reason of a refusal. */
  predicate Clean(h: Half) {
    && (h.v.server != Notified ==> h.v.serverMessage == ZERO)
    && (h.v.client != Notified ==> h.v.clientMessage == ZERO || Refused(h))
  }

  predicate BothClean(p: Pair) {
    Clean(p.a) && Clean(p.b) && !Refused(p.b)
  }

  lemma CallServerClean(h: Half, index: nat, s: Step)
    requires h.v.server != Notified ==> h.v.serverMessage == ZERO
    ensures var v := Call(h, index, s).0.v; v.server != Notified ==> v.serverMessage == ZERO
  {
  }

  lemma CallClientClean(h: Half, index: nat, s: Step)
    requires (h.v.client != Notified ==> h.v.clientMessage == ZERO || Refused(h)) && Roles(h)
    requires s.AskFor? || s == StartCancel ==> h.checked
    ensures var v := Call(h, index, s).0.v;
            v.client != Notified ==> v.clientMessage == ZERO || (Refused(h) && v.clientMessage == h.v.clientMessage)
  {
  }

  lemma CallClean(h: Half, index: nat, s: Step)
    requires Clean(h) && Roles(h) && s != Receive
    requires s.AskFor? || s == StartCancel ==> h.checked
    requires s == NoticeTermination || s == FinishClosing ==> h.v.global != ConfigWaiting
    ensures Clean(Call(h, index, s).0) && (Refused(Call(h, index, s).0) ==> Refused(h) || h.v.global == ConfigWaiting)
  {
    hide Call;
    CallServerClean(h, index, s);
    CallClientClean(h, index, s);
    CallGlobal(h, index, s);
    CallMet(h, index, s);
    CallMessages(h, index, s);
  }

  lemma CallMessages(h: Half, index: nat, s: Step)
    ensures var v := Call(h, index, s).0.v; v.clientMessage == h.v.clientMessage || v.clientMessage == ZERO
  {
  }

  lemma HandleClean(h: Half, index: nat, w: Wire)
    requires Clean(h) && Roles(h)
    ensures Clean(Handle(h, index, w).0)
    ensures Refused(Handle(h, index, w).0) ==> Refused(h) || h.v.global == ConfigWaiting
  {
  }

  lemma NextClean(p: Pair, index: nat, s: Step)
    requires Enabled(p, s) && Clean(p.a) && Roles(p.a)
    ensures var p' := Next(p, index, s);
            Clean(p'.a) && p'.b == p.b && (Refused(p'.a) ==> Refused(p.a) || p.a.v.global == ConfigWaiting)
  {
    if s == Receive {
      HandleClean(p.a, index, p.ba[0]);
    } else {
      CallClean(p.a, index, s);
    }
    hide Clean, Refused, Handle, Call;
  }

  lemma MoveClean(p: Pair, index: nat, mv: Move)
    requires Inv(p) && CanMove(p, mv) && BothClean(p)
    ensures BothClean(Moved(p, index, mv))
  {
    hide Directions, Terminations, Farewells, Announced, Next, Only;
    match mv
    case Move(NonSecure, s) => NextClean(p, index, s);
    case Move(Secure, s) => NextClean(Flip(p), index, s);
    case Open(_, _, _) =>
    case AnswerConfig(_) => OnlyHead(p.ab, Configuring);
  }

  /** In every state, nothing that was handed out or taken back is left in a buffer. */
  lemma {:induction false} NothingKept(l: Life, index: nat, i: nat)
    requires IsLife(l, index) && i <= |l.moves|
    ensures BothClean(l.states[i])
  {
    if i > 0 {
      NothingKept(l, index, i - 1);
      LifeMove(l, index, i - 1);
      hide IsLife, Inv, BothClean, CanMove, Moved;
      MoveClean(l.states[i - 1], index, l.moves[i - 1]);
    }
  }
}
