/** Writing to the ring that all sessions share: the sessions' moves and the ring's
    steps as one machine, in which a message that finds no room is lost; and when
    none is. */
module Writes {
  import opened Exchange
  import opened Lifetimes
  import opened Platform
  import opened SessionProtocol
  import opened SharedRings
  import U = UniProtocol

  function Bare(q: seq<Wire>): (r: seq<Message>)
    ensures |r| == |q|
  {
    if q == [] then [] else [q[0].m] + Bare(q[1..])
  }

  /** What is unconsumed in the ring are the messages `w.toS`. */
  ghost predicate Carries(ring: U.State<Message>, w: World) {
    && U.Inv(ring) && |ring.m.slots| == CAPACITY
    && ring.h.sent[|ring.h.got|..] == Bare(w.toS)
  }

  /** How much is consumed and not published as such. */
  function Held<T>(ring: U.State<T>): int { |ring.h.got| - ring.h.pubCons }

  /** A write finds the ring full, and drops its message, exactly if what is
      unconsumed and what is consumed but not published fill it together. */
  lemma WriteDropsIff<T>(ring: U.State<T>)
    requires U.Inv(ring) && ring.m.ppc == U.Rest
    ensures var checked := U.Do(ring, U.PCheck);
            !checked.m.p.HasRoom() <==> |ring.h.sent| - |ring.h.got| + Held(ring) == |ring.m.slots|
  {
    U.Preserved(ring, U.PCheck);
    U.Readings(U.Do(ring, U.PCheck));
  }

  // ----- Sessions and ring as one machine -----

  /** The sessions as they are if nothing is lost, and the ring to the secure side. */
  datatype Joint = Joint(w: World, ring: U.State<Message>)

  datatype JointStep = OfRing(s: U.Step<Message>) | OfSession(i: nat, mv: Move)

  /** The move takes the next message of the ring. */
  predicate Takes(mv: Move) { mv == Move(Secure, Receive) || mv.AnswerConfig? }

  /** What the move writes to the ring. */
  function Sent(w: World, i: nat, mv: Move): (r: seq<Wire>)
    requires Sized(w) && MayMove(w, i, mv)
    ensures |r| <= 1
  {
    match mv
    case Move(NonSecure, Receive) => Handle(w.ns[i], i, w.toNS[0]).1
    case Move(NonSecure, s) => Call(w.ns[i], i, s).1
    case Open(_, _, _) => Moved(Project(w, i), i, mv).ab
    case _ => []
  }

  lemma AdvanceRing(w: World, i: nat, mv: Move)
    requires Sized(w) && MayMove(w, i, mv)
    ensures Takes(mv) ==> w.toS != [] && Advance(w, i, mv).toS == w.toS[1..] && Sent(w, i, mv) == []
    ensures !Takes(mv) ==> Advance(w, i, mv).toS == w.toS + Sent(w, i, mv)
  {
    assert w.toS + [] == w.toS;
  }

  predicate MayStep(j: Joint, s: JointStep) {
    match s
    case OfRing(r) => U.Enabled(j.ring.m, r) && !r.PProduce? && !r.CConsume?
    case OfSession(i, mv) =>
      && Sized(j.w) && MayMove(j.w, i, mv)
      && (Takes(mv) ==> j.ring.m.cpc == U.Rest && j.ring.m.c.HasMessages())
      && (Sent(j.w, i, mv) != [] ==> j.ring.m.ppc == U.Rest)
  }

  predicate Ready(ring: U.State<Message>) {
    |ring.m.slots| > 0 && ring.m.p.capacity == ring.m.c.capacity == |ring.m.slots|
  }

  /** A write, under the lock: check out, and produce if there is room. */
  function Write(ring: U.State<Message>, m: Message): U.State<Message>
    requires Ready(ring) && ring.m.ppc == U.Rest
  {
    var checked := U.Do(ring, U.PCheck);
    if checked.m.p.HasRoom() then U.Do(checked, U.PProduce(m))
    else U.Do(U.Do(checked, U.PSetLimit), U.PRecheck)
  }

  ghost function JointNext(j: Joint, s: JointStep): Joint
    requires Ready(j.ring) && MayStep(j, s)
  {
    match s
    case OfRing(r) => j.(ring := U.Do(j.ring, r))
    case OfSession(i, mv) =>
      var ring := if Takes(mv) then U.Do(j.ring, U.CConsume) else j.ring;
      var sent := Sent(j.w, i, mv);
      Joint(Advance(j.w, i, mv), if sent == [] then ring else Write(ring, sent[0].m))
  }

  ghost predicate JointInv(j: Joint) { WorldInv(j.w) && Carries(j.ring, j.w) }

  lemma RingMoves(j: Joint, r: U.Step<Message>)
    requires JointInv(j) && MayStep(j, OfRing(r))
    ensures Carries(U.Do(j.ring, r), j.w)
  {
    U.StepInv(j.ring, r, U.Do(j.ring, r));
  }

  /** Consuming takes the oldest of the messages in the ring. */
  lemma RingTakes(ring: U.State<Message>)
    requires U.Inv(ring) && ring.m.cpc == U.Rest && ring.m.c.HasMessages()
    ensures var ring' := U.Do(ring, U.CConsume);
            && U.Inv(ring') && |ring'.m.slots| == |ring.m.slots| && |ring.h.got| < |ring.h.sent|
            && U.Taken(ring.m) == ring.h.sent[|ring.h.got|]
            && ring'.h.sent[|ring'.h.got|..] == ring.h.sent[|ring.h.got|..][1..]
  {
    hide U.Image, U.Contents, U.ConsumerWaits, U.ProducerWaits, U.Record, U.Next, U.Taken;
    U.StepInv(ring, U.CConsume, U.Do(ring, U.CConsume));
    U.Consumes(ring);
    U.Readings(ring);
    U.RecordMessages(ring.m, ring.h, U.CConsume);
    assert |ring.h.got| < |ring.h.sent|;
    DropOne(ring.h.sent, |ring.h.got|);
  }

  lemma DropOne<T>(s: seq<T>, n: nat)
    requires n < |s|
    ensures s[n..][1..] == s[n + 1..]
  {
  }

  lemma Takings(j: Joint)
    requires JointInv(j) && j.ring.m.cpc == U.Rest && j.ring.m.c.HasMessages() && j.w.toS != []
    ensures U.Taken(j.ring.m) == j.w.toS[0].m
    ensures Carries(U.Do(j.ring, U.CConsume), j.w.(toS := j.w.toS[1..]))
  {
    RingTakes(j.ring);
    hide U.Inv, U.Do, U.Taken;
    assert Bare(j.w.toS) == [j.w.toS[0].m] + Bare(j.w.toS[1..]);
  }

  lemma {:induction false} BareAppend(q: seq<Wire>, x: Wire)
    ensures Bare(q + [x]) == Bare(q) + [x.m]
  {
    if q == [] {
      assert [x][1..] == [];
      assert q + [x] == [x];
    } else {
      assert (q + [x])[1..] == q[1..] + [x];
      BareAppend(q[1..], x);
    }
  }

  lemma Writing(ring: U.State<Message>, w: World, x: Wire)
    requires Carries(ring, w) && ring.m.ppc == U.Rest && |w.toS| < CAPACITY - Held(ring)
    ensures Carries(Write(ring, x.m), w.(toS := w.toS + [x]))
  {
    WriteDropsIff(ring);
    assert |ring.h.sent[|ring.h.got|..]| == |w.toS|;
    var checked := U.Do(ring, U.PCheck);
    U.StepInv(ring, U.PCheck, checked);
    U.StepInv(checked, U.PProduce(x.m), Write(ring, x.m));
    BareAppend(w.toS, x);
    var h := ring.h;
    assert (h.sent + [x.m])[|h.got|..] == h.sent[|h.got|..] + [x.m];
  }

  lemma WorldBound(w: World)
    requires WorldInv(w)
    ensures |w.toS| <= MOST_IN_RING
  {
    TotalBound(w, SESSIONS);
    TotalIsAll(w.toS, SESSIONS);
  }

  const MARGIN := CAPACITY - MOST_IN_RING

  lemma SessionMoves(j: Joint, i: nat, mv: Move)
    requires JointInv(j) && MayStep(j, OfSession(i, mv)) && Held(j.ring) <= MARGIN
    ensures Carries(JointNext(j, OfSession(i, mv)).ring, Advance(j.w, i, mv))
  {
    AdvanceKeeps(j.w, i, mv);
    WorldBound(Advance(j.w, i, mv));
    AdvanceRing(j.w, i, mv);
    var sent := Sent(j.w, i, mv);
    if Takes(mv) {
      Takings(j);
    } else if sent != [] {
      assert sent == [sent[0]];
      Writing(j.ring, j.w, sent[0]);
    } else {
      assert j.w.toS + sent == j.w.toS;
    }
    hide Advance, Sent, WorldInv, U.Do, Write;
  }

  lemma StepKeeps(j: Joint, s: JointStep)
    requires JointInv(j) && MayStep(j, s) && Held(j.ring) <= MARGIN
    ensures JointInv(JointNext(j, s))
  {
    match s
    case OfRing(r) => RingMoves(j, r);
    case OfSession(i, mv) =>
      AdvanceKeeps(j.w, i, mv);
      SessionMoves(j, i, mv);
  }

  datatype JointRun = JointRun(states: seq<Joint>, steps: seq<JointStep>)

  ghost predicate IsJointRun(r: JointRun) {
    && |r.states| == |r.steps| + 1
    && Dormant(r.states[0].w) && U.Init(r.states[0].ring, CAPACITY)
    && forall k :: 0 <= k < |r.steps| ==> JointStepAt(r, k)
  }

  ghost predicate JointStepAt(r: JointRun, k: nat)
    requires k < |r.steps| < |r.states|
  {
    && Ready(r.states[k].ring) && MayStep(r.states[k], r.steps[k])
    && r.states[k + 1] == JointNext(r.states[k], r.steps[k])
  }

  /** The secure side never holds back more consumed messages than the margin. */
  ghost predicate Disciplined(r: JointRun) {
    forall k :: 0 <= k < |r.states| ==> HeldAt(r, k) <= MARGIN
  }

  function HeldAt(r: JointRun, k: nat): int
    requires k < |r.states|
  {
    Held(r.states[k].ring)
  }

  lemma {:induction false} JointRunInv(r: JointRun, k: nat)
    requires IsJointRun(r) && Disciplined(r) && k <= |r.steps|
    ensures JointInv(r.states[k])
  {
    hide JointInv;
    if k == 0 {
      StartInv(r.states[0]);
    } else {
      JointRunInv(r, k - 1);
      assert JointStepAt(r, k - 1) && HeldAt(r, k - 1) <= MARGIN;
      StepKeeps(r.states[k - 1], r.steps[k - 1]);
    }
  }

  lemma StartInv(j: Joint)
    requires Dormant(j.w) && U.Init(j.ring, CAPACITY)
    ensures JointInv(j)
  {
    DormantWorldInv(j.w);
    U.InitInv(j.ring, CAPACITY);
  }

  /** Nothing is ever lost: whatever the 28 sessions do on both sides, and however
      the steps of the ring interleave with that, as long as the secure side holds
      back at most 88 consumed messages the ring carries exactly the messages that
      the sessions have under way, in order; and what the secure side reads next
      from the masked array is the next of them. */
  lemma NothingLost(r: JointRun, k: nat)
    requires IsJointRun(r) && Disciplined(r) && k <= |r.steps|
    ensures Carries(r.states[k].ring, r.states[k].w)
    ensures var j := r.states[k];
            j.ring.m.cpc == U.Rest && j.ring.m.c.HasMessages() ==>
              j.w.toS != [] && U.Taken(j.ring.m) == j.w.toS[0].m
  {
    JointRunInv(r, k);
    var j := r.states[k];
    if j.ring.m.cpc == U.Rest && j.ring.m.c.HasMessages() {
      U.Readings(j.ring);
      assert |j.ring.h.sent[|j.ring.h.got|..]| == |j.w.toS|;
      Takings(j);
    }
  }

  // ----- The bound alone is not enough -----

  predicate Settled(ring: U.State<Message>, capacity: nat, n: nat) {
    && ring.m.ppc == ring.m.cpc == U.Rest
    && |ring.h.sent| == |ring.h.got| == ring.h.pubProd == n && ring.h.pubCons == 0 && ring.h.prodEnd == capacity
  }

  ghost predicate Leads(r: U.Run<Message>, capacity: nat, ring: U.State<Message>) {
    U.IsRun(r, capacity) && r.states[|r.steps|] == ring
  }

  ghost predicate Reached(capacity: nat, ring: U.State<Message>) {
    exists r :: Leads(r, capacity, ring)
  }

  lemma Go(capacity: nat, ring: U.State<Message>, s: U.Step<Message>) returns (ring': U.State<Message>)
    requires Reached(capacity, ring) && U.Inv(ring) && U.Enabled(ring.m, s)
    ensures ring' == U.Do(ring, s) && Reached(capacity, ring') && U.Inv(ring')
  {
    var r :| Leads(r, capacity, ring);
    ring' := U.Do(ring, s);
    U.Preserved(ring, s);
    var r' := U.Run(r.states + [ring'], r.steps + [s]);
    forall i | 0 <= i < |r'.steps|
      ensures U.StepAt(r', i)
    {
      if i < |r.steps| {
        assert U.StepAt(r, i);
      }
    }
    assert Leads(r', capacity, ring');
  }

  /** One message is written, committed, seen and consumed. */
  lemma OneThrough(capacity: nat, ring: U.State<Message>, n: nat, msg: Message) returns (ring': U.State<Message>)
    requires Reached(capacity, ring) && U.Inv(ring) && Settled(ring, capacity, n) && n < capacity
    ensures Reached(capacity, ring') && U.Inv(ring') && Settled(ring', capacity, n + 1)
  {
    hide Reached, U.Inv;
    U.Readings(ring);
    ring' := Go(capacity, ring, U.PProduce(msg));
    U.Readings(ring');
    ring' := Go(capacity, ring', U.PStore);
    ring' := Go(capacity, ring', U.PBell);
    ring' := Go(capacity, ring', U.CCheck);
    U.Readings(ring');
    ring' := Go(capacity, ring', U.CConsume);
  }

  lemma {:induction false} ManyThrough(capacity: nat, start: U.State<Message>, n: nat, msg: Message)
    returns (ring: U.State<Message>)
    requires U.Init(start, capacity) && n <= capacity
    ensures Reached(capacity, ring) && U.Inv(ring) && Settled(ring, capacity, n)
  {
    if n == 0 {
      ring := start;
      U.InitInv(start, capacity);
      assert Leads(U.Run([start], []), capacity, start);
    } else {
      ring := ManyThrough(capacity, start, n - 1, msg);
      ring := OneThrough(capacity, ring, n - 1, msg);
    }
  }

  /** A drain that goes on for one capacity of messages, one at a time, leaves the
      ring full with nothing in it: the next write is dropped. */
  lemma DroppedThoughConsumed(capacity: nat, start: U.State<Message>, msg: Message) returns (ring: U.State<Message>)
    requires U.Init(start, capacity)
    ensures Reached(capacity, ring) && U.Inv(ring) && ring.m.ppc == U.Rest
    ensures ring.h.got == ring.h.sent && !U.Do(ring, U.PCheck).m.p.HasRoom()
  {
    U.InitInv(start, capacity);
    ring := ManyThrough(capacity, start, capacity, msg);
    Capacity(capacity, ring);
    WriteDropsIff(ring);
    assert ring.h.got == ring.h.sent[..|ring.h.got|];
  }

  lemma Capacity(capacity: nat, ring: U.State<Message>)
    requires Reached(capacity, ring)
    ensures |ring.m.slots| == capacity
  {
    var r :| Leads(r, capacity, ring);
    U.RunInv(r, capacity, |r.steps|);
  }
}
