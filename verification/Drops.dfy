/** A session's own write that is lost: one session goes round and round, request by
    request, while the secure side's drain goes on and publishes nothing of what it
    consumes, until the ring is full of consumed messages. */
module Drops {
  import opened Exchange
  import opened Index32
  import opened Lifetimes
  import opened Platform
  import opened SessionProtocol
  import opened SharedRings
  import opened Writes
  import R = UniRing
  import U = UniProtocol

  // ----- Runs that lead somewhere -----

  ghost predicate LeadsJoint(r: JointRun, j: Joint) {
    IsJointRun(r) && r.states[|r.steps|] == j
  }

  ghost predicate JointReached(j: Joint) {
    exists r :: LeadsJoint(r, j)
  }

  lemma Extend(j: Joint, s: JointStep) returns (j': Joint)
    requires JointReached(j) && Ready(j.ring) && MayStep(j, s)
    ensures j' == JointNext(j, s) && JointReached(j')
  {
    var r :| LeadsJoint(r, j);
    j' := JointNext(j, s);
    var r' := JointRun(r.states + [j'], r.steps + [s]);
    forall k | 0 <= k < |r'.steps|
      ensures JointStepAt(r', k)
    {
      if k < |r.steps| {
        assert JointStepAt(r, k);
      }
    }
    assert LeadsJoint(r', j');
  }

  // ----- One session alone -----

  predicate AllOfFirst(q: seq<Wire>) { forall x :: x in q ==> x.m.index == 0 }

  /** Only session 0 has anything under way, and it is `p`. */
  predicate Solo(w: World, p: Pair) {
    && Sized(w) && w.ns[0] == p.a && w.s[0] == p.b && w.toS == p.ab && w.toNS == p.ba
    && AllOfFirst(w.toS) && AllOfFirst(w.toNS)
  }

  lemma {:induction false} OfFirst(q: seq<Wire>)
    requires AllOfFirst(q)
    ensures Of(q, 0) == q
  {
    if q != [] {
      assert forall x :: x in q[1..] ==> x in q;
      OfFirst(q[1..]);
    }
  }

  lemma SoloProjects(w: World, p: Pair)
    requires Solo(w, p)
    ensures Project(w, 0) == p
  {
    OfFirst(w.toS);
    OfFirst(w.toNS);
  }

  lemma SoloMay(w: World, p: Pair, mv: Move)
    requires Solo(w, p) && CanMove(p, mv)
    ensures MayMove(w, 0, mv)
  {
    SoloProjects(w, p);
  }

  /** What session 0 alone writes, and what becomes of it. */
  lemma SoloMoves(w: World, p: Pair, mv: Move)
    requires Solo(w, p) && CanMove(p, mv) && (mv.AnswerConfig? ==> p.ba == [])
    ensures MayMove(w, 0, mv) && Solo(Advance(w, 0, mv), Moved(p, 0, mv))
    ensures !Takes(mv) ==> Moved(p, 0, mv).ab == p.ab + Sent(w, 0, mv)
    ensures Takes(mv) ==> Sent(w, 0, mv) == []
  {
    SoloMay(w, p, mv);
    SoloProjects(w, p);
    AdvanceRing(w, 0, mv);
    match mv
    case Move(side, s) =>
      var h, inbox := if side == NonSecure then w.ns[0] else w.s[0], if side == NonSecure then w.toNS else w.toS;
      SentHasIndex(h, 0, s, if s == Receive then inbox[0] else Wire(ZERO, 0));
      hide Call, Handle;
    case Open(_, _, _) =>
      assert [] + Moved(p, 0, mv).ab == Moved(p, 0, mv).ab;
    case AnswerConfig(_) =>
      assert [] + Moved(p, 0, mv).ba == Moved(p, 0, mv).ba;
  }

  // ----- Session and ring together -----

  /** The joint machine is where session 0 alone is `p`. */
  ghost predicate At(j: Joint, p: Pair) {
    JointReached(j) && Solo(j.w, p) && U.Inv(j.ring) && |j.ring.m.slots| == CAPACITY
  }

  /** One more message than consumed is published, and the reader has seen it. */
  predicate Loaded(ring: U.State<Message>, n: nat) {
    && ring.m.ppc == ring.m.cpc == U.Rest
    && |ring.h.sent| == ring.h.pubProd == ring.h.consEnd == n && |ring.h.got| == n - 1
    && ring.h.pubCons == 0 && ring.h.prodEnd == CAPACITY
  }

  lemma RingGo(j: Joint, p: Pair, s: U.Step<Message>) returns (j': Joint)
    requires At(j, p) && MayStep(j, OfRing(s))
    ensures At(j', p) && j' == j.(ring := U.Do(j.ring, s))
  {
    j' := Extend(j, OfRing(s));
    U.StepInv(j.ring, s, j'.ring);
  }

  /** The session moves without touching the ring. */
  lemma QuietGo(j: Joint, p: Pair, mv: Move) returns (j': Joint)
    requires At(j, p) && CanMove(p, mv) && !Takes(mv) && Moved(p, 0, mv).ab == p.ab
    ensures At(j', Moved(p, 0, mv)) && j'.ring == j.ring
  {
    SoloMoves(j.w, p, mv);
    assert |Sent(j.w, 0, mv)| == 0;
    j' := Extend(j, OfSession(0, mv));
  }

  /** The session takes the message that the ring holds. */
  lemma TakeGo(j: Joint, p: Pair, mv: Move, n: nat) returns (j': Joint)
    requires At(j, p) && CanMove(p, mv) && Takes(mv) && p.ba == [] && Loaded(j.ring, n)
    ensures At(j', Moved(p, 0, mv)) && Settled(j'.ring, CAPACITY, n)
  {
    SoloMoves(j.w, p, mv);
    U.Readings(j.ring);
    j' := Extend(j, OfSession(0, mv));
    U.StepInv(j.ring, U.CConsume, j'.ring);
  }

  /** The session writes a message, which is committed and seen. */
  lemma SendGo(j: Joint, p: Pair, mv: Move, n: nat) returns (j': Joint)
    requires At(j, p) && CanMove(p, mv) && !Takes(mv) && |Moved(p, 0, mv).ab| == |p.ab| + 1
    requires Settled(j.ring, CAPACITY, n) && n < CAPACITY
    ensures At(j', Moved(p, 0, mv)) && Loaded(j'.ring, n + 1)
  {
    SoloMoves(j.w, p, mv);
    var sent := Sent(j.w, 0, mv);
    assert |sent| == 1;
    Wrote(j.ring, sent[0].m, n);
    j' := Extend(j, OfSession(0, mv));
    j' := Publishes(j', Moved(p, 0, mv), n);
  }

  /** The writer has written one message, and not yet published it. */
  predicate Written(ring: U.State<Message>, n: nat) {
    && ring.m.ppc == ring.m.cpc == U.Rest
    && |ring.h.sent| == n + 1 && |ring.h.got| == ring.h.pubProd == n
    && ring.h.pubCons == 0 && ring.h.prodEnd == CAPACITY
  }

  lemma Wrote(ring: U.State<Message>, m: Message, n: nat)
    requires U.Inv(ring) && |ring.m.slots| == CAPACITY && Settled(ring, CAPACITY, n) && n < CAPACITY
    ensures var ring' := Write(ring, m); U.Inv(ring') && |ring'.m.slots| == CAPACITY && Written(ring', n)
  {
    WriteDropsIff(ring);
    var checked := U.Do(ring, U.PCheck);
    U.StepInv(ring, U.PCheck, checked);
    U.StepInv(checked, U.PProduce(m), Write(ring, m));
  }

  lemma Publishes(j: Joint, p: Pair, n: nat) returns (j': Joint)
    requires At(j, p) && Written(j.ring, n)
    ensures At(j', p) && Loaded(j'.ring, n + 1)
  {
    hide At;
    Keeps(j, p);
    U.Readings(j.ring);
    j' := RingGo(j, p, U.PStore);
    j' := RingGo(j', p, U.PBell);
    j' := Sees(j', p, n + 1);
  }

  /** The reader finds what has been published. */
  lemma Sees(j: Joint, p: Pair, n: nat) returns (j': Joint)
    requires At(j, p) && j.ring.m.ppc == j.ring.m.cpc == U.Rest && j.ring.h.pubCons == 0 && n > 0
    requires |j.ring.h.sent| == j.ring.h.pubProd == n && |j.ring.h.got| == n - 1 && j.ring.h.prodEnd == CAPACITY
    ensures At(j', p) && Loaded(j'.ring, n)
  {
    hide At;
    j' := RingGo(j, p, U.CCheck);
    Keeps(j', p);
    U.Readings(j'.ring);
  }

  lemma Keeps(j: Joint, p: Pair)
    requires At(j, p)
    ensures U.Inv(j.ring) && |j.ring.m.slots| == CAPACITY
  {
  }

  // ----- Going round and round -----

  /** A request goes through the ring and its response comes back. */
  lemma RoundGo(j: Joint, p: Pair, n: nat) returns (j': Joint, p': Pair)
    requires At(j, p) && Stands(p, Idle, Idle, Idle, Idle, 0) && Settled(j.ring, CAPACITY, n) && n < CAPACITY
    ensures At(j', p') && Stands(p', Idle, Idle, Idle, Idle, 0) && Settled(j'.ring, CAPACITY, n + 1)
  {
    hide At, Loaded, Settled;
    j', p' := AskGo(j, p, n);
    j' := TakeGo(j', p', Move(Secure, Receive), n + 1);
    p' := Moved(p', 0, Move(Secure, Receive));
    j' := QuietGo(j', p', Move(Secure, FetchRequest));
    p' := Moved(p', 0, Move(Secure, FetchRequest));
    assert Stands(p', Waiting, Idle, Idle, Busy, 0);
    j', p' := ReturnGo(j', p');
  }

  lemma AskGo(j: Joint, p: Pair, n: nat) returns (j': Joint, p': Pair)
    requires At(j, p) && Stands(p, Idle, Idle, Idle, Idle, 0) && Settled(j.ring, CAPACITY, n) && n < CAPACITY
    ensures At(j', p') && Stands(p', Waiting, Idle, Idle, Idle, 1) && Loaded(j'.ring, n + 1)
    ensures p'.ab[0].m.action == Request
  {
    hide At, Loaded, Settled;
    j' := SendGo(j, p, Move(NonSecure, AskFor(0)), n);
    p' := Moved(p, 0, Move(NonSecure, AskFor(0)));
  }

  lemma ReturnGo(j: Joint, p: Pair) returns (j': Joint, p': Pair)
    requires At(j, p) && Stands(p, Waiting, Idle, Idle, Busy, 0)
    ensures At(j', p') && Stands(p', Idle, Idle, Idle, Idle, 0) && j'.ring == j.ring
  {
    hide At;
    j', p' := j, p;
    j' := QuietGo(j', p', Move(Secure, Respond(0)));
    p' := Moved(p', 0, Move(Secure, Respond(0)));
    j' := QuietGo(j', p', Move(NonSecure, Receive));
    p' := Moved(p', 0, Move(NonSecure, Receive));
    j' := QuietGo(j', p', Move(NonSecure, FetchResponse));
    p' := Moved(p', 0, Move(NonSecure, FetchResponse));
  }

  /** The session is configured, for which one message goes through the ring. */
  lemma ConfigureGo(j: Joint) returns (j': Joint, p: Pair)
    requires At(j, DORMANT) && Settled(j.ring, CAPACITY, 0)
    ensures At(j', p) && Stands(p, Idle, Idle, Idle, Idle, 0) && Settled(j'.ring, CAPACITY, 1)
  {
    hide At, Settled, Loaded;
    j' := SendGo(j, DORMANT, Open(0, 0, 0), 0);
    p := Moved(DORMANT, 0, Open(0, 0, 0));
    j' := TakeGo(j', p, AnswerConfig(true), 1);
    p := Moved(p, 0, AnswerConfig(true));
    j', p := AcceptedGo(j', p);
  }

  lemma AcceptedGo(j: Joint, q: Pair) returns (j': Joint, p: Pair)
    requires At(j, q) && q.a.v.global == ConfigWaiting && q.b.v.global == Configured
    requires !q.a.v.free && !q.b.v.free && !q.a.closing && !q.b.closing
    requires q.ab == [] && q.ba == [Wire(Plain(ConfigAck, 0, 0), 0)] && q.b.v.server == q.b.v.client == Idle
    ensures At(j', p) && Stands(p, Idle, Idle, Idle, Idle, 0) && j'.ring == j.ring
  {
    hide At;
    j', p := j, q;
    j' := QuietGo(j', p, Move(NonSecure, Receive));
    p := Moved(p, 0, Move(NonSecure, Receive));
    j' := QuietGo(j', p, Move(NonSecure, Check));
    p := Moved(p, 0, Move(NonSecure, Check));
    j' := QuietGo(j', p, Move(Secure, Check));
    p := Moved(p, 0, Move(Secure, Check));
  }

  lemma {:induction false} RoundsGo(j: Joint, n: nat) returns (j': Joint, p: Pair)
    requires At(j, DORMANT) && Settled(j.ring, CAPACITY, 0) && 1 <= n <= CAPACITY
    ensures At(j', p) && Stands(p, Idle, Idle, Idle, Idle, 0) && Settled(j'.ring, CAPACITY, n)
  {
    if n == 1 {
      j', p := ConfigureGo(j);
    } else {
      j', p := RoundsGo(j, n - 1);
      j', p := RoundGo(j', p, n - 1);
    }
  }

  // ----- A start -----

  function Cleared(n: nat): (slots: seq<Message>)
    ensures |slots| == n
  {
    if n == 0 then [] else [ZERO] + Cleared(n - 1)
  }

  function ClosedHalves(n: nat): (halves: seq<Half>)
    ensures |halves| == n && forall i :: 0 <= i < n ==> halves[i] == NewHalf(CLOSED)
  {
    if n == 0 then [] else [NewHalf(CLOSED)] + ClosedHalves(n - 1)
  }

  lemma StartRing() returns (ring: U.State<Message>)
    ensures U.Init(ring, CAPACITY) && Settled(ring, CAPACITY, 0)
  {
    assert Pow2(8) == CAPACITY;
    var m := U.Machine(0, MODULUS - 1, 0, 0, Cleared(CAPACITY),
                       R.ProducerVars(CAPACITY, 0, 0, CAPACITY), U.Rest, R.ConsumerVars(CAPACITY, 0, 0, 0), U.Rest);
    ring := U.State(m, U.History([], [], 0, 0, CAPACITY, 0, 0, 0, false, false, true, false));
  }

  lemma Start() returns (j: Joint)
    ensures At(j, DORMANT) && Settled(j.ring, CAPACITY, 0)
  {
    var ring := StartRing();
    hide U.Inv;
    U.InitInv(ring, CAPACITY);
    j := Joint(World(ClosedHalves(SESSIONS), ClosedHalves(SESSIONS), [], []), ring);
    assert LeadsJoint(JointRun([j], []), j);
  }

  /** There is a run of the sessions and the ring together in which a session's
      request is lost though every message before it is consumed: the session can
      send it, the write finds no room, and the ring stays as it is. */
  lemma SessionWriteDropped() returns (r: JointRun, mv: Move)
    ensures IsJointRun(r)
    ensures var j := r.states[|r.steps|];
            && Ready(j.ring) && MayStep(j, OfSession(0, mv)) && Sent(j.w, 0, mv) != []
            && j.ring.h.got == j.ring.h.sent && !U.Do(j.ring, U.PCheck).m.p.HasRoom()
            && var j' := JointNext(j, OfSession(0, mv)); j'.ring.h.sent == j.ring.h.sent && !Carries(j'.ring, j'.w)
  {
    var j := Start();
    var p;
    j, p := RoundsGo(j, CAPACITY);
    mv := Move(NonSecure, AskFor(0));
    SoloMoves(j.w, p, mv);
    assert |Sent(j.w, 0, mv)| == 1;
    Full(j.ring);
    assert |Advance(j.w, 0, mv).toS| == 1;
    r :| LeadsJoint(r, j);
  }

  lemma Full(ring: U.State<Message>)
    requires U.Inv(ring) && |ring.m.slots| == CAPACITY && Settled(ring, CAPACITY, CAPACITY)
    ensures ring.h.got == ring.h.sent && !U.Do(ring, U.PCheck).m.p.HasRoom()
    ensures forall m: Message :: Write(ring, m).h.sent == ring.h.sent && Write(ring, m).h.got == ring.h.got
  {
    WriteDropsIff(ring);
    assert ring.h.got == ring.h.sent[..|ring.h.got|];
  }
}
