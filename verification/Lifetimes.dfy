/** The lifetimes of a session, from the request to configure it to its being
    closed on both sides, over and over; and what holds in every state of them. */
module Lifetimes {
  import opened Exchange
  import opened SessionProtocol

  datatype Side = NonSecure | Secure

  datatype Move = Move(side: Side, s: Step) | Open(sid: nat, offset: nat, pages: nat) | AnswerConfig(accept: bool)

  /** `p.a` is the non-secure side. */
  predicate CanMove(p: Pair, mv: Move) {
    match mv
    case Move(side, s) => Enabled(if side == NonSecure then p else Flip(p), s)
    // The session is closed on both sides and none of its messages is left over.
    case Open(_, _, _) => p.a.v.free && p.b.v.free && p.ab == [] && p.ba == []
    case AnswerConfig(_) => p.ab != [] && p.ab[0].m.action == Config
  }

  function Moved(p: Pair, index: nat, mv: Move): Pair
    requires CanMove(p, mv)
  {
    match mv
    case Move(side, s) => if side == NonSecure then Next(p, index, s) else Flip(Next(Flip(p), index, s))
    case Open(sid, offset, pages) =>
      var r := SendConfig(CLOSED.(free := false), index, sid, offset, pages);
      Pair(NewHalf(r.v), NewHalf(CLOSED), Tagged(r.sent, 0), [])
    case AnswerConfig(accept) => Flip(Configure(Flip(p), index, accept))
  }

  /** A closed session. (What the driver leaves in the roles and messages of one
      is reset before anything looks at it.) */
  const CLOSED := Values(true, Null, Unset, Unset, ZERO, ZERO, {})

  function NewHalf(v: Values): Half { Half(v, false, false, Alerts({}, false, false), [], 0, map[], map[], []) }

  const DORMANT := Pair(NewHalf(CLOSED), NewHalf(CLOSED), [], [])

  /** The configuration is asked for, or answered, or over. */
  ghost predicate Phase(p: Pair) {
    && p.b.v.global != ConfigWaiting
    && if p.a.v.global == ConfigWaiting then
         !p.a.v.free &&
         if p.ab != [] then
           && |p.ab| == 1 && p.ab[0].m.action == Config && p.ba == []
           && Untouched(p.b)
         else
           && p.ba != [] && p.ba[0].m.action == ConfigAck && Only(p.ba[1..], Configuring) == []
           && (p.ba[0].m.p1 == 0 <==> Met(p.b))
       else
         && Only(p.ab, Configuring) == [] && Only(p.ba, Configuring) == []
         && (Met(p.a) <==> Met(p.b))
  }

  ghost predicate Inv(p: Pair) {
    Flows(p) && Phase(p) && Farewells(p) && Announced(p.a) && Announced(p.b)
  }

  lemma DormantInv()
    ensures Inv(DORMANT)
  {
  }

  lemma OpenInv(p: Pair, index: nat, mv: Move)
    requires mv.Open? && CanMove(p, mv)
    ensures Inv(Moved(p, index, mv))
  {
    var p' := Moved(p, index, mv);
    assert |p'.ab| == 1 && p'.ab[1..] == [];
    assert forall k: Kind :: k != Configuring ==> Only(p'.ab, k) == [];
  }

  lemma FlipFlows(p: Pair)
    ensures Flows(Flip(p)) <==> Flows(p)
  {
  }

  predicate Untouched(h: Half) {
    h.v.free && h.v.global == Null && h.v.server == h.v.client == Unset && !h.checked
  }

  lemma CallKeepsUnset(h: Half, index: nat, s: Step)
    requires s != Receive
    ensures h.v.client == Unset ==> Call(h, index, s).0.v.client == Unset
  {
  }

  lemma CallUntouched(p: Pair, index: nat, s: Step)
    requires Enabled(p, s) && s != Receive && Roles(p.a)
    ensures var (a, sent) := Call(p.a, index, s);
            && (a.v.global == ConfigWaiting <==> p.a.v.global == ConfigWaiting)
            && (p.a.v.global == ConfigWaiting ==> sent == [] && a.v.free == p.a.v.free)
            && (Untouched(p.a) ==> Untouched(a) && sent == [])
            && (Met(a) <==> Met(p.a))
  {
    CallGlobal(p.a, index, s);
    CallFrees(p.a, index, s);
    CallFlags(p.a, index, s);
    CallMet(p.a, index, s);
    CallKeepsUnset(p.a, index, s);
    hide Call;
  }

  lemma CallPhase(p: Pair, index: nat, s: Step)
    requires Enabled(p, s) && s != Receive && Roles(p.a)
    ensures var p' := Next(p, index, s);
            && (p'.a.v.global == ConfigWaiting <==> p.a.v.global == ConfigWaiting)
            && (p.a.v.global == ConfigWaiting ==> p'.ab == p.ab && p'.a.v.free == p.a.v.free)
            && Only(p'.ab, Configuring) == Only(p.ab, Configuring)
            && p'.ba == p.ba && p'.b == p.b
            && (Untouched(p.a) ==> Untouched(p'.a) && p'.ab == p.ab)
            && (Met(p'.a) <==> Met(p.a))
  {
    var sent := Call(p.a, index, s).1;
    CallUntouched(p, index, s);
    CallSends(p.a, index, s, Configuring);
    OnlyAppend(p.ab, sent, Configuring);
    assert p.ab + [] == p.ab;
    hide Call, Only;
  }

  lemma NextFlows(p: Pair, index: nat, s: Step)
    requires Flows(p) && Enabled(p, s)
    requires s == Receive && p.a.v.global == ConfigWaiting ==> p.ba[0].m.action == ConfigAck
    ensures Flows(Next(p, index, s))
  {
    if s == Receive {
      ReceiveFlows(p, index);
    } else {
      CallFlows(p, index, s);
    }
  }

  /** The non-secure side receives. */
  lemma ReceivePhase(p: Pair, index: nat)
    requires Inv(p) && Enabled(p, Receive)
    ensures Phase(Next(p, index, Receive))
  {
    ReceiveKind(p, index, Configuring);
    HandleSends(p.a, index, p.ba[0], Configuring);
    HandleConfigAck(p.a, index, p.ba[0]);
    hide Handle, Flows, Farewells, Announced, Only;
  }

  lemma HandleConfigAck(h: Half, index: nat, w: Wire)
    ensures Handle(h, index, w).0.v.global == ConfigWaiting ==> h.v.global == ConfigWaiting
    ensures h.v.global == ConfigWaiting && !h.v.free && w.m.action == ConfigAck ==>
              Handle(h, index, w).0.v.global != ConfigWaiting
    ensures Roles(h) ==>
              (Met(Handle(h, index, w).0) <==>
                 Met(h) || (h.v.global == ConfigWaiting && !h.v.free && w.m.action == ConfigAck && w.m.p1 == 0))
  {
  }

  /** The secure side receives, or calls. */
  lemma PeerReceivePhase(p: Pair, index: nat)
    requires Inv(p) && Enabled(Flip(p), Receive)
    ensures Phase(Flip(Next(Flip(p), index, Receive)))
  {
    hide Handle, Flows, Farewells, Announced, Only;
    assert p.a.v.global != ConfigWaiting;
    ReceiveKind(Flip(p), index, Configuring);
    HandleSends(p.b, index, p.ab[0], Configuring);
    PeerConfigAck(p, index);
    hide Inv, Met, Flip;
  }

  /** Only the non-secure side waits for its configuration. */
  lemma PeerConfigAck(p: Pair, index: nat)
    requires Inv(p) && p.ab != []
    ensures var b := Handle(p.b, index, p.ab[0]).0; b.v.global != ConfigWaiting && (Met(b) <==> Met(p.b))
  {
    HandleConfigAck(p.b, index, p.ab[0]);
    hide Handle, Farewells, Announced, Directions, Terminations, Only;
  }

  lemma PeerCallPhase(p: Pair, index: nat, s: Step)
    requires Inv(p) && Enabled(Flip(p), s) && s != Receive
    ensures Phase(Flip(Next(Flip(p), index, s)))
  {
    CallPhase(Flip(p), index, s);
    var p' := Flip(Next(Flip(p), index, s));
    if p.ba != [] {
      OnlyHead(p.ba, Configuring);
      OnlyHead(p'.ba, Configuring);
      assert p'.ba[0] == p.ba[0];
    }
    hide Call, Flows, Farewells, Announced, Only;
  }

  lemma AnswerPhase(p: Pair, index: nat, accept: bool)
    requires Inv(p) && CanMove(p, AnswerConfig(accept))
    ensures Phase(Moved(p, index, AnswerConfig(accept)))
  {
    OnlyHead(p.ab, Configuring);
    var p' := Moved(p, index, AnswerConfig(accept));
    assert p'.ab == [] && |p'.ba| == 1 && p'.ba[1..] == [];
  }

  lemma MovePhase(p: Pair, index: nat, mv: Move)
    requires Inv(p) && CanMove(p, mv)
    ensures Phase(Moved(p, index, mv))
  {
    match mv
    case Move(NonSecure, s) => if s == Receive { ReceivePhase(p, index); } else { CallPhase(p, index, s); }
    case Move(Secure, s) => if s == Receive { PeerReceivePhase(p, index); } else { PeerCallPhase(p, index, s); }
    case Open(_, _, _) => OpenInv(p, index, mv);
    case AnswerConfig(accept) => AnswerPhase(p, index, accept);
  }

  lemma ServerAppears(c: Half, s: Half, s': Half, req: seq<Wire>, ans: seq<Wire>)
    requires Direction(c, s, req, ans) && !Waits(c)
    requires s'.v.server == Idle && s'.fetched == s.fetched && s'.replies == s.replies
    ensures Direction(c, s', req, ans)
  {
    forall i | 0 <= i < |c.answers| ensures TrueAt(c, s', i) { assert TrueAt(c, s, i); }
  }

  /** The request to configure is the only message under way, and its answer is then. */
  lemma AnswerMoves(p: Pair, index: nat, accept: bool)
    requires Phase(p) && CanMove(p, AnswerConfig(accept))
    ensures p.ab == [p.ab[0]] && p.ba == [] && KindOf(p.ab[0].m) == Configuring
    ensures var p' := Moved(p, index, AnswerConfig(accept));
            && p'.ab == [] && p'.ba == [p'.ba[0]] && KindOf(p'.ba[0].m) == Configuring
  {
    OnlyHead(p.ab, Configuring);
    hide Only;
  }

  /** The answer to a configuration changes no messages but those of configuring. */
  lemma AnswerKinds(p: Pair, index: nat, accept: bool, k: Kind)
    requires Inv(p) && CanMove(p, AnswerConfig(accept)) && k != Configuring
    ensures var p' := Moved(p, index, AnswerConfig(accept));
            Only(p'.ab, k) == Only(p.ab, k) == [] && Only(p'.ba, k) == Only(p.ba, k) == []
  {
    hide Phase, Flows, Farewells, Announced, Moved, CanMove, KindOf;
    AnswerMoves(p, index, accept);
    OnlyOne(p.ab[0], k);
    OnlyOne(Moved(p, index, AnswerConfig(accept)).ba[0], k);
  }

  lemma OnlyOne(w: Wire, k: Kind)
    ensures Only([w], k) == if KindOf(w.m) == k then [w] else []
  {
    assert [w][1..] == [];
  }

  lemma AnswerFlows(p: Pair, index: nat, accept: bool)
    requires Inv(p) && CanMove(p, AnswerConfig(accept))
    ensures Flows(Moved(p, index, AnswerConfig(accept)))
  {
    var p' := Moved(p, index, AnswerConfig(accept));
    AnswerKinds(p, index, accept, Asking);
    AnswerKinds(p, index, accept, Answering);
    AnswerKinds(p, index, accept, Closing);
    AnswerKinds(p, index, accept, Closed);
    if accept {
      OnlyHead(p.ab, Configuring);
      assert Untouched(p.b) && !Waits(p.a) && !Waits(p.b);
      ServerAppears(p.a, p.b, p'.b, Only(p.ab, Asking), Only(p.ba, Answering));
      Rests(p.b, p'.b, p.a, Only(p.ba, Asking), Only(p.ab, Answering));
    }
    hide Direction, Farewells, Announced, Only;
  }

  /** A side that gets a termination has been configured, even if it has closed. */
  lemma TerminatedIsMet(p: Pair)
    requires Inv(p)
    ensures p.ba != [] && p.ba[0].m.action == Term && p.a.v.free ==> Met(p.a)
    ensures p.ab != [] && p.ab[0].m.action == Term && p.b.v.free ==> Met(p.b)
  {
    if p.ba != [] {
      OnlyHead(p.ba, Closing);
      OnlyHead(p.ba, Configuring);
    }
    if p.ab != [] {
      OnlyHead(p.ab, Closing);
      OnlyHead(p.ab, Configuring);
    }
  }

  lemma AnswerFarewells(p: Pair, index: nat, accept: bool)
    requires Inv(p) && CanMove(p, AnswerConfig(accept))
    ensures Farewells(Moved(p, index, AnswerConfig(accept)))
  {
    var p' := Moved(p, index, AnswerConfig(accept));
    assert p'.ab == [] && |p'.ba| == 1 && p'.ba[1..] == [] && p.ab[1..] == [] && p.ba == [];
    assert Only(p'.ba, Closing) == [] && Only(p.ab, Closing) == [];
  }

  lemma MoveFarewells(p: Pair, index: nat, mv: Move)
    requires Inv(p) && CanMove(p, mv)
    ensures Farewells(Moved(p, index, mv))
  {
    TerminatedIsMet(p);
    FlipFlows(p);
    match mv
    case Move(NonSecure, s) => NextFarewells(p, index, s);
    case Move(Secure, s) => NextFarewells(Flip(p), index, s);
    case Open(_, _, _) => OpenInv(p, index, mv);
    case AnswerConfig(accept) => AnswerFarewells(p, index, accept);
  }

  lemma MoveFlows(p: Pair, index: nat, mv: Move)
    requires Inv(p) && CanMove(p, mv)
    ensures Flows(Moved(p, index, mv))
  {
    FlipFlows(p);
    assert mv == Move(NonSecure, Receive) && p.a.v.global == ConfigWaiting ==> p.ba[0].m.action == ConfigAck;
    assert p.b.v.global != ConfigWaiting;
    hide Flows, Phase;
    match mv
    case Move(NonSecure, s) => NextFlows(p, index, s);
    case Move(Secure, s) =>
      NextFlows(Flip(p), index, s);
      FlipFlows(Next(Flip(p), index, s));
    case Open(_, _, _) => OpenInv(p, index, mv);
    case AnswerConfig(accept) => AnswerFlows(p, index, accept);
  }

  lemma AnswerAnnounced(p: Pair, index: nat, accept: bool)
    requires Inv(p) && CanMove(p, AnswerConfig(accept))
    ensures var p' := Moved(p, index, AnswerConfig(accept)); Announced(p'.a) && Announced(p'.b)
  {
    OnlyHead(p.ab, Configuring);
    hide Flows, Farewells;
  }

  lemma MoveAnnounced(p: Pair, index: nat, mv: Move)
    requires Inv(p) && CanMove(p, mv)
    ensures Announced(Moved(p, index, mv).a) && Announced(Moved(p, index, mv).b)
  {
    FlipFlows(p);
    match mv
    case Move(NonSecure, s) => NextAnnounced(p, index, s);
    case Move(Secure, s) => NextAnnounced(Flip(p), index, s);
    case Open(_, _, _) => OpenInv(p, index, mv);
    case AnswerConfig(accept) => AnswerAnnounced(p, index, accept);
    hide Flows, Phase, Farewells, Announced, Next;
  }

  /** Every move of either side keeps the invariant. */
  lemma MoveKeeps(p: Pair, index: nat, mv: Move)
    requires Inv(p) && CanMove(p, mv)
    ensures Inv(Moved(p, index, mv))
  {
    MovePhase(p, index, mv);
    MoveFlows(p, index, mv);
    MoveFarewells(p, index, mv);
    MoveAnnounced(p, index, mv);
    hide Flows, Phase, Farewells, Announced;
  }

  // ----- Runs -----

  datatype Life = Life(states: seq<Pair>, moves: seq<Move>)

  ghost predicate IsLife(l: Life, index: nat) {
    && |l.states| == |l.moves| + 1
    && l.states[0] == DORMANT
    && forall i :: 0 <= i < |l.moves| ==> MoveAt(l, index, i)
  }

  ghost predicate MoveAt(l: Life, index: nat, i: nat)
    requires i < |l.moves| < |l.states|
  {
    CanMove(l.states[i], l.moves[i]) && l.states[i + 1] == Moved(l.states[i], index, l.moves[i])
  }

  lemma {:induction false} LifeInv(l: Life, index: nat, i: nat)
    requires IsLife(l, index) && i <= |l.moves|
    ensures Inv(l.states[i])
  {
    hide Inv;
    if i == 0 {
      DormantInv();
    } else {
      LifeInv(l, index, i - 1);
      assert MoveAt(l, index, i - 1);
      MoveKeeps(l.states[i - 1], index, l.moves[i - 1]);
    }
  }

  lemma LifeMove(l: Life, index: nat, i: nat)
    requires IsLife(l, index) && i < |l.moves|
    ensures Inv(l.states[i]) && CanMove(l.states[i], l.moves[i])
    ensures l.states[i + 1] == Moved(l.states[i], index, l.moves[i])
  {
    LifeInv(l, index, i);
    assert MoveAt(l, index, i);
  }

  // ----- The two sides -----

  function HalfOf(p: Pair, side: Side): Half { if side == NonSecure then p.a else p.b }

  function Inbox(p: Pair, side: Side): seq<Wire> { if side == NonSecure then p.ba else p.ab }

  /** Seen from side `side`. */
  function From(p: Pair, side: Side): Pair { if side == NonSecure then p else Flip(p) }

  // ----- What holds in every state of a lifetime -----

  /** How many requests of serial `k`, or answers to it, are under way in `q`. */
  function CountAsks(q: seq<Wire>, k: nat): nat {
    if q == [] then 0 else (if q[0].m.action == Request && q[0].serial == k then 1 else 0) + CountAsks(q[1..], k)
  }

  function CountAnswers(q: seq<Wire>, k: nat): nat {
    if q == [] then 0 else (if KindOf(q[0].m) == Answering && q[0].serial == k then 1 else 0) + CountAnswers(q[1..], k)
  }

  /** How often the client has learnt of an answer to `k`. */
  function CountLearnt(answers: seq<Answer>, k: nat): nat
    decreases |answers|
  {
    if answers == [] then 0
    else (if answers[|answers| - 1].serial == k then 1 else 0) + CountLearnt(answers[..|answers| - 1], k)
  }

  /** All there is of the client's request `k`. */
  function Tokens(c: Half, s: Half, toServer: seq<Wire>, toClient: seq<Wire>, k: nat): nat {
    CountAsks(toServer, k) + (if HasRequest(s) && s.serving == k then 1 else 0)
    + CountAnswers(toClient, k) + CountLearnt(c.answers, k)
  }

  lemma {:induction false} CountOnly(q: seq<Wire>, k: nat)
    ensures CountAsks(q, k) == CountAsks(Only(q, Asking), k)
    ensures CountAnswers(q, k) == CountAnswers(Only(q, Answering), k)
  {
    if q != [] {
      CountOnly(q[1..], k);
      OnlyHead(q, Asking);
      OnlyHead(q, Answering);
      hide Only;
      assert KindOf(q[0].m) == Asking ==> Only(q, Asking)[0] == q[0];
      assert KindOf(q[0].m) == Answering ==> Only(q, Answering)[0] == q[0];
    }
  }

  lemma {:induction false} CountLearntOnce(c: Half, s: Half, n: nat, k: nat)
    requires n <= |c.answers| && k > 0 && forall i :: 0 <= i < |c.answers| ==> TrueAt(c, s, i)
    ensures CountLearnt(c.answers[..n], k) == if k <= n then 1 else 0
  {
    if n > 0 {
      CountLearntOnce(c, s, n - 1, k);
      assert c.answers[..n][..n - 1] == c.answers[..n - 1];
      assert TrueAt(c, s, n - 1);
    }
  }

  lemma DirectionHasOneToken(c: Half, s: Half, req: seq<Wire>, ans: seq<Wire>, k: nat)
    requires Direction(c, s, req, ans) && !Ended(c) && !Ended(s) && 1 <= k <= |c.requests|
    ensures Tokens(c, s, req, ans, k) == 1
  {
    CountLearntOnce(c, s, |c.answers|, k);
    assert c.answers[..|c.answers|] == c.answers;
    ShortCounts(req, k);
    ShortCounts(ans, k);
  }

  lemma ShortCounts(q: seq<Wire>, k: nat)
    ensures q == [] ==> CountAsks(q, k) == CountAnswers(q, k) == 0
    ensures |q| == 1 ==> CountAsks(q, k) == if q[0].m.action == Request && q[0].serial == k then 1 else 0
    ensures |q| == 1 ==> CountAnswers(q, k) == if KindOf(q[0].m) == Answering && q[0].serial == k then 1 else 0
    ensures |q| == 2 && q[0].m.action == Cancel ==> CountAsks(q, k) == CountAsks(q[1..], k)
    ensures |q| == 2 && q[1].m.action == Cancel ==>
              CountAsks(q, k) == if q[0].m.action == Request && q[0].serial == k then 1 else 0
    ensures |q| == 2 ==> CountAsks(q[1..], k) == if q[1].m.action == Request && q[1].serial == k then 1 else 0
    ensures |q| == 3 && q[0].m.action == q[2].m.action == Cancel ==>
              CountAsks(q, k) == if q[1].m.action == Request && q[1].serial == k then 1 else 0
  {
    if |q| == 3 {
      ShortCounts(q[1..], k);
    } else if |q| == 2 {
      ShortCounts(q[1..], k);
    } else if |q| == 1 {
      assert q[1..] == [];
    }
  }

  /** While neither side has ended the session, every request ever sent, in either
      direction, is in exactly one place: under way, at the server (notified, or
      being handled), under way back as one response or one acknowledgement of its
      cancellation, or answered. */
  lemma OneToken(l: Life, index: nat, i: nat, k: nat)
    requires IsLife(l, index) && i <= |l.moves|
    ensures var p := l.states[i];
            !Ended(p.a) && !Ended(p.b) ==>
              && (1 <= k <= |p.a.requests| ==> Tokens(p.a, p.b, p.ab, p.ba, k) == 1)
              && (1 <= k <= |p.b.requests| ==> Tokens(p.b, p.a, p.ba, p.ab, k) == 1)
  {
    LifeInv(l, index, i);
    var p := l.states[i];
    CountOnly(p.ab, k);
    CountOnly(p.ba, k);
    if !Ended(p.a) && !Ended(p.b) {
      if 1 <= k <= |p.a.requests| {
        DirectionHasOneToken(p.a, p.b, Only(p.ab, Asking), Only(p.ba, Answering), k);
      }
      if 1 <= k <= |p.b.requests| {
        DirectionHasOneToken(p.b, p.a, Only(p.ba, Asking), Only(p.ab, Answering), k);
      }
    }
  }

  /** Client `c` is right about its requests: it has learnt of one answer to each
      but an outstanding one, in order; each answer is the reply that the server's
      application made to what it fetched as that very request, or a cancellation
      of a request that the application never saw; and a notified client holds the
      answer to its latest request. */
  ghost predicate ClientIsRight(c: Half, s: Half) {
    && |c.answers| == (if Waits(c) then |c.requests| - 1 else |c.requests|)
    && (c.v.client == Notified ==> Holds(c))
    && forall j :: 0 <= j < |c.answers| ==>
         var k := j + 1;
         && c.answers[j].serial == k
         && if c.answers[j].cancelled then k !in s.fetched
            else k in s.fetched && s.fetched[k] == c.requests[j]
                 && k in s.replies && s.replies[k] == c.answers[j].response
  }

  lemma DirectionIsRight(c: Half, s: Half, req: seq<Wire>, ans: seq<Wire>)
    requires Direction(c, s, req, ans)
    ensures ClientIsRight(c, s)
  {
    forall j | 0 <= j < |c.answers|
      ensures var k := j + 1;
              && c.answers[j].serial == k
              && if c.answers[j].cancelled then k !in s.fetched
                 else k in s.fetched && s.fetched[k] == c.requests[j]
                      && k in s.replies && s.replies[k] == c.answers[j].response
    {
      assert TrueAt(c, s, j);
    }
  }

  /** In every state, even after the session has ended, the clients of both sides
      are right about all their requests. */
  lemma AnswersAreTrue(l: Life, index: nat, i: nat)
    requires IsLife(l, index) && i <= |l.moves|
    ensures ClientIsRight(l.states[i].a, l.states[i].b) && ClientIsRight(l.states[i].b, l.states[i].a)
  {
    LifeInv(l, index, i);
    var p := l.states[i];
    DirectionIsRight(p.a, p.b, Only(p.ab, Asking), Only(p.ba, Answering));
    DirectionIsRight(p.b, p.a, Only(p.ba, Asking), Only(p.ab, Answering));
  }

  /** What a configured side may receive in its states. */
  predicate Expected(h: Half, m: Message) {
    match m.action
    case Request => h.v.server == Idle
    case Response => h.v.client == Waiting || h.v.client == CancelWaiting
    case CancelAck => h.v.client == CancelWaiting
    case Config | ConfigAck => false
    case Cancel | Term | TermAck => true
  }

  lemma NextIsExpected(p: Pair)
    requires Flows(p) && p.ba != [] && p.a.v.global == Configured && KindOf(p.ba[0].m) != Configuring
    ensures Expected(p.a, p.ba[0].m)
  {
    OnlyHead(p.ba, KindOf(p.ba[0].m));
    var w := p.ba[0];
    if KindOf(w.m) == Asking {
      assert Direction(p.b, p.a, Only(p.ba, Asking), Only(p.ab, Answering));
      assert !IsCancel(w) ==> !Stale(Only(p.ba, Asking));
    } else if KindOf(w.m) == Answering {
      assert Direction(p.a, p.b, Only(p.ab, Asking), Only(p.ba, Answering));
    }
  }

  /** The branches for a break of protocol are never taken: while a side is
      configured, the next message that it receives suits its state. */
  lemma NoBreakOfProtocol(l: Life, index: nat, i: nat)
    requires IsLife(l, index) && i <= |l.moves|
    ensures var p := l.states[i];
            && (p.a.v.global == Configured && p.ba != [] ==> Expected(p.a, p.ba[0].m))
            && (p.b.v.global == Configured && p.ab != [] ==> Expected(p.b, p.ab[0].m))
  {
    LifeInv(l, index, i);
    var p := l.states[i];
    FlipFlows(p);
    if p.a.v.global == Configured && p.ba != [] {
      OnlyHead(p.ba, Configuring);
      NextIsExpected(p);
    }
    if p.b.v.global == Configured && p.ab != [] {
      OnlyHead(p.ab, Configuring);
      NextIsExpected(Flip(p));
    }
  }

  // ----- How many messages of one session can be unconsumed -----

  const MOST_UNCONSUMED := 6

  /** How many messages of each kind to the secure side can be unconsumed. */
  lemma MostOfKinds(p: Pair)
    requires Inv(p)
    ensures |Only(p.ab, Asking)| <= 3 && |Only(p.ab, Answering)| <= 1
    ensures |Only(p.ab, Closing)| <= AtMostOne(p.a.closing) && |Only(p.ab, Closed)| <= AtMostOne(p.b.closing)
    ensures Only(p.ab, Configuring) == [] || |p.ab| == 1
  {
    MostOfDirection(p.a, p.b, Only(p.ab, Asking), Only(p.ba, Answering));
    MostOfDirection(p.b, p.a, Only(p.ba, Asking), Only(p.ab, Answering));
    hide Direction, Only, Farewells, Announced;
  }

  lemma MostOfDirection(c: Half, s: Half, req: seq<Wire>, ans: seq<Wire>)
    requires Direction(c, s, req, ans)
    ensures |req| <= 3 && |ans| <= 1
  {
    hide Answered, Served;
  }

  lemma MostUnconsumed(p: Pair)
    requires Inv(p)
    ensures |p.ab| <= MOST_UNCONSUMED
  {
    KindsAddUp(p.ab);
    MostOfKinds(p);
    hide Inv, Only;
  }

  /** At most six messages of a session to the secure side are unconsumed at any
      time. */
  lemma AtMostSixUnconsumed(l: Life, index: nat, i: nat)
    requires IsLife(l, index) && i <= |l.moves|
    ensures |l.states[i].ab| <= MOST_UNCONSUMED
  {
    LifeInv(l, index, i);
    MostUnconsumed(l.states[i]);
  }

  /** Six take three of a client (two cancellations around a request), an answer, and
      both terminations; so five are enough as long as only one side has closed. */
  lemma SixExactlyIf(l: Life, index: nat, i: nat)
    requires IsLife(l, index) && i <= |l.moves|
    ensures var p := l.states[i];
            && (|p.ab| == MOST_UNCONSUMED <==>
                  && |Only(p.ab, Asking)| == 3 && |Only(p.ab, Answering)| == 1
                  && |Only(p.ab, Closing)| == 1 && |Only(p.ab, Closed)| == 1)
            && (!(p.a.closing && p.b.closing) ==> |p.ab| <= 5)
  {
    LifeInv(l, index, i);
    KindsAddUp(l.states[i].ab);
    MostOfKinds(l.states[i]);
    hide Inv, Only, IsLife;
  }

  /** Some lifetime leads to `p`. */
  ghost predicate Reachable(p: Pair, index: nat) {
    exists l :: LeadsTo(l, index, p)
  }

  ghost predicate LeadsTo(l: Life, index: nat, p: Pair) {
    IsLife(l, index) && l.states[|l.moves|] == p
  }

  lemma Reach(p: Pair, index: nat, mv: Move) returns (p': Pair)
    requires Reachable(p, index) && CanMove(p, mv)
    ensures p' == Moved(p, index, mv) && Reachable(p', index)
  {
    var l :| LeadsTo(l, index, p);
    p' := Moved(p, index, mv);
    var l' := Life(l.states + [p'], l.moves + [mv]);
    forall i | 0 <= i < |l'.moves|
      ensures MoveAt(l', index, i)
    {
      if i < |l.moves| {
        assert MoveAt(l, index, i);
      }
    }
    assert LeadsTo(l', index, p');
  }

  /** Both sides are configured and have been checked, in these roles, and only
      the non-secure side's messages are under way. */
  predicate Stands(p: Pair, client: Role, server: Role, peerClient: Role, peerServer: Role, n: nat) {
    && p.a.v.global == Configured && p.b.v.global == Configured && !p.a.v.free && !p.b.v.free
    && p.a.checked && p.b.checked && !p.a.closing && !p.b.closing
    && p.a.v.client == client && p.a.v.server == server && p.b.v.client == peerClient && p.b.v.server == peerServer
    && |p.ab| == n && p.ba == []
  }

  lemma ReachAccepted(index: nat) returns (p: Pair)
    ensures Reachable(p, index) && p.a.v.global == ConfigWaiting && p.b.v.global == Configured
    ensures !p.a.v.free && !p.b.v.free && !p.a.closing && !p.b.closing && p.a.requests == []
    ensures p.ab == [] && p.ba == [Wire(Plain(ConfigAck, index, 0), 0)]
    ensures p.b.v.server == p.b.v.client == Idle
  {
    p := DORMANT;
    assert LeadsTo(Life([p], []), index, p);
    hide Reachable;
    p := Reach(p, index, Open(0, 0, 0));
    p := Reach(p, index, AnswerConfig(true));
  }

  lemma ReachConfigured(index: nat) returns (p: Pair)
    ensures Reachable(p, index) && Stands(p, Idle, Idle, Idle, Idle, 0)
    ensures p.a.requests == [] && ResponseEvent in p.a.v.events
  {
    p := ReachAccepted(index);
    hide Reachable;
    p := Reach(p, index, Move(NonSecure, Receive));
    p := Reach(p, index, Move(NonSecure, Check));
    p := Reach(p, index, Move(Secure, Check));
  }

  /** The peer's request is being handled, and one of ours by the peer. */
  lemma ReachServing(index: nat) returns (p: Pair)
    ensures Reachable(p, index) && Stands(p, Waiting, Busy, Waiting, Busy, 0)
  {
    p := ReachConfigured(index);
    hide Reachable;
    p := Reach(p, index, Move(Secure, AskFor(0)));
    p := Reach(p, index, Move(NonSecure, Receive));
    p := Reach(p, index, Move(NonSecure, FetchRequest));
    p := Reach(p, index, Move(NonSecure, AskFor(0)));
    p := Reach(p, index, Move(Secure, Receive));
    p := Reach(p, index, Move(Secure, FetchRequest));
  }

  /** A cancellation of our request crosses the response to it. */
  lemma ReachCrossed(index: nat) returns (p: Pair)
    ensures Reachable(p, index) && Stands(p, Idle, Busy, Waiting, Idle, 1)
  {
    p := ReachServing(index);
    hide Reachable;
    p := Reach(p, index, Move(NonSecure, StartCancel));
    p := Reach(p, index, Move(Secure, Respond(0)));
    p := Reach(p, index, Move(NonSecure, Receive));
    p := Reach(p, index, Move(NonSecure, FetchResponse));
  }

  /** Our next request and its cancellation, and the response to the peer's. */
  lemma ReachLoaded(index: nat) returns (p: Pair)
    ensures Reachable(p, index) && Stands(p, CancelWaiting, Idle, Waiting, Idle, 4)
  {
    p := ReachCrossed(index);
    hide Reachable;
    p := Reach(p, index, Move(NonSecure, AskFor(0)));
    p := Reach(p, index, Move(NonSecure, StartCancel));
    p := Reach(p, index, Move(NonSecure, Respond(0)));
  }

  /** And six can be: a cancellation that crossed the response, the next request
      and its cancellation, a response, a termination, and the acknowledgement of
      the peer's. */
  lemma SixCanBeUnconsumed(index: nat)
    ensures exists p :: Reachable(p, index) && |p.ab| == MOST_UNCONSUMED
  {
    var p := ReachLoaded(index);
    hide Reachable;
    p := Reach(p, index, Move(Secure, Terminate));
    assert |p.ab| == 4 && p.ba != [] && p.ba[0].m.action == Term && p.a.checked && !p.a.closing && !p.a.v.free;
    p := Reach(p, index, Move(NonSecure, Terminate));
    p := Reach(p, index, Move(NonSecure, Receive));
  }
}
