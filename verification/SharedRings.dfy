/** All sessions share one ring per direction, and do not disturb one another. What
    is unconsumed of the messages to the secure side is bounded by what each
    session can have unconsumed. */
module SharedRings {
  import opened Exchange
  import opened Lifetimes
  import opened Platform
  import opened SessionProtocol

  const CAPACITY := 0x100

  /** Both sides of all sessions, and the unconsumed messages of both rings. */
  datatype World = World(ns: seq<Half>, s: seq<Half>, toS: seq<Wire>, toNS: seq<Wire>)

  /** The messages of session `i`. */
  function Of(q: seq<Wire>, i: nat): seq<Wire> {
    if q == [] then [] else (if q[0].m.index == i then [q[0]] else []) + Of(q[1..], i)
  }

  function Project(w: World, i: nat): Pair
    requires i < |w.ns| && i < |w.s|
  {
    Pair(w.ns[i], w.s[i], Of(w.toS, i), Of(w.toNS, i))
  }

  predicate Sized(w: World) { |w.ns| == |w.s| == SESSIONS }

  /** All sessions are closed. */
  ghost predicate Dormant(w: World) {
    && Sized(w) && w.toS == w.toNS == []
    && forall i :: 0 <= i < SESSIONS ==> w.ns[i] == w.s[i] == NewHalf(CLOSED)
  }

  /** Session `i` can make the move: its next message is the next of the ring. */
  predicate MayMove(w: World, i: nat, mv: Move)
    requires Sized(w)
  {
    && i < SESSIONS && CanMove(Project(w, i), mv)
    && match mv
       case Move(NonSecure, Receive) => w.toNS != [] && w.toNS[0].m.index == i
       case Move(Secure, Receive) => w.toS != [] && w.toS[0].m.index == i
       case AnswerConfig(_) => w.toS != [] && w.toS[0].m.index == i
       case _ => true
  }

  function Advance(w: World, i: nat, mv: Move): World
    requires Sized(w) && MayMove(w, i, mv)
  {
    match mv
    case Move(NonSecure, Receive) =>
      var (a, sent) := Handle(w.ns[i], i, w.toNS[0]);
      World(w.ns[i := a], w.s, w.toS + sent, w.toNS[1..])
    case Move(Secure, Receive) =>
      var (b, sent) := Handle(w.s[i], i, w.toS[0]);
      World(w.ns, w.s[i := b], w.toS[1..], w.toNS + sent)
    case Move(NonSecure, s) =>
      var (a, sent) := Call(w.ns[i], i, s);
      w.(ns := w.ns[i := a], toS := w.toS + sent)
    case Move(Secure, s) =>
      var (b, sent) := Call(w.s[i], i, s);
      w.(s := w.s[i := b], toNS := w.toNS + sent)
    case Open(_, _, _) =>
      var p := Moved(Project(w, i), i, mv);
      w.(ns := w.ns[i := p.a], s := w.s[i := p.b], toS := w.toS + p.ab)
    case AnswerConfig(_) =>
      var p := Moved(Project(w, i), i, mv);
      World(w.ns, w.s[i := p.b], w.toS[1..], w.toNS + p.ba)
  }

  // ----- Sessions do not disturb one another -----

  lemma {:induction false} OfAppend(q: seq<Wire>, r: seq<Wire>, i: nat)
    ensures Of(q + r, i) == Of(q, i) + Of(r, i)
  {
    if q == [] {
      assert q + r == r;
    } else {
      assert (q + r)[1..] == q[1..] + r;
      OfAppend(q[1..], r, i);
      var first := if q[0].m.index == i then [q[0]] else [];
      assert Of(q + r, i) == first + (Of(q[1..], i) + Of(r, i)) == first + Of(q[1..], i) + Of(r, i);
    }
  }

  lemma OfOne(q: seq<Wire>, i: nat, j: nat)
    requires |q| <= 1 && forall x :: x in q ==> x.m.index == i
    ensures Of(q, j) == if i == j then q else []
  {
    if q != [] {
      assert q[0] in q && q[1..] == [];
    }
  }

  lemma OfHead(q: seq<Wire>, i: nat)
    requires q != []
    ensures q[0].m.index == i ==> Of(q, i) != [] && Of(q, i)[0] == q[0] && Of(q[1..], i) == Of(q, i)[1..]
    ensures q[0].m.index != i ==> Of(q[1..], i) == Of(q, i)
  {
  }

  lemma SentHasIndex(h: Half, i: nat, s: Step, w: Wire)
    ensures s != Receive ==> |Call(h, i, s).1| <= 1 && forall x :: x in Call(h, i, s).1 ==> x.m.index == i
    ensures |Handle(h, i, w).1| <= 1 && forall x :: x in Handle(h, i, w).1 ==> x.m.index == i
  {
  }

  /** What a move sends, and whether it takes the next message, on the two rings. */
  lemma Appended(q: seq<Wire>, sent: seq<Wire>, i: nat, j: nat)
    requires |sent| <= 1 && forall x :: x in sent ==> x.m.index == i
    ensures Of(q + sent, j) == Of(q, j) + if i == j then sent else []
  {
    OfAppend(q, sent, j);
    OfOne(sent, i, j);
    assert Of(q, j) + [] == Of(q, j);
  }

  lemma CallProjects(w: World, i: nat, mv: Move, j: nat)
    requires Sized(w) && MayMove(w, i, mv) && mv.Move? && mv.s != Receive && j < SESSIONS
    ensures Project(Advance(w, i, mv), j) == if i == j then Moved(Project(w, i), i, mv) else Project(w, j)
  {
    SentHasIndex(if mv.side == NonSecure then w.ns[i] else w.s[i], i, mv.s, Wire(ZERO, 0));
    if mv.side == NonSecure {
      Appended(w.toS, Call(w.ns[i], i, mv.s).1, i, j);
    } else {
      Appended(w.toNS, Call(w.s[i], i, mv.s).1, i, j);
    }
    hide Of, Call;
  }

  lemma ReceiveProjects(w: World, i: nat, mv: Move, j: nat)
    requires Sized(w) && MayMove(w, i, mv) && mv.Move? && mv.s == Receive && j < SESSIONS
    ensures Project(Advance(w, i, mv), j) == if i == j then Moved(Project(w, i), i, mv) else Project(w, j)
  {
    if mv.side == NonSecure {
      OfHead(w.toNS, j);
      OfHead(w.toNS, i);
      SentHasIndex(w.ns[i], i, Check, w.toNS[0]);
      Appended(w.toS, Handle(w.ns[i], i, w.toNS[0]).1, i, j);
    } else {
      OfHead(w.toS, j);
      OfHead(w.toS, i);
      SentHasIndex(w.s[i], i, Check, w.toS[0]);
      Appended(w.toNS, Handle(w.s[i], i, w.toS[0]).1, i, j);
    }
    hide Of, Handle;
  }

  lemma OpenProjects(w: World, i: nat, mv: Move, j: nat)
    requires Sized(w) && MayMove(w, i, mv) && mv.Open? && j < SESSIONS
    ensures Project(Advance(w, i, mv), j) == if i == j then Moved(Project(w, i), i, mv) else Project(w, j)
  {
    var p := Moved(Project(w, i), i, mv);
    Appended(w.toS, p.ab, i, j);
    assert [] + p.ab == p.ab;
    hide Of, Moved;
  }

  /** The answer to a configuration empties the session's channel to the secure side. */
  lemma AnswerSends(p: Pair, index: nat, accept: bool)
    requires Inv(p) && CanMove(p, AnswerConfig(accept))
    ensures var p' := Moved(p, index, AnswerConfig(accept));
            && p'.a == p.a && p'.ab == [] && p.ab[1..] == [] && p.ba == []
            && |p'.ba| == 1 && forall x :: x in p'.ba ==> x.m.index == index
  {
    hide Flows, Farewells;
    OnlyHead(p.ab, Configuring);
  }

  lemma AnswerReplaces(w: World, i: nat, j: nat, p: Pair)
    requires Sized(w) && i < SESSIONS && j < SESSIONS
    requires w.toS != [] && w.toS[0].m.index == i && Of(w.toS, i)[1..] == [] && Of(w.toNS, i) == []
    requires p.a == w.ns[i] && p.ab == [] && |p.ba| == 1 && forall x :: x in p.ba ==> x.m.index == i
    ensures Project(World(w.ns, w.s[i := p.b], w.toS[1..], w.toNS + p.ba), j) == if i == j then p else Project(w, j)
  {
    OfHead(w.toS, j);
    Appended(w.toNS, p.ba, i, j);
    assert [] + p.ba == p.ba;
    hide Of;
  }

  lemma AnswerProjects(w: World, i: nat, mv: Move, j: nat)
    requires Sized(w) && MayMove(w, i, mv) && mv.AnswerConfig? && j < SESSIONS && Inv(Project(w, i))
    ensures Project(Advance(w, i, mv), j) == if i == j then Moved(Project(w, i), i, mv) else Project(w, j)
  {
    OfHead(w.toS, i);
    AnswerSends(Project(w, i), i, mv.accept);
    AnswerReplaces(w, i, j, Moved(Project(w, i), i, mv));
    hide Inv, Moved, Of;
  }

  /** A move of one session is that session's move on its own, and nothing to the
      others. */
  lemma MoveProjects(w: World, i: nat, mv: Move, j: nat)
    requires Sized(w) && MayMove(w, i, mv) && j < SESSIONS && Inv(Project(w, i))
    ensures Sized(Advance(w, i, mv))
    ensures Project(Advance(w, i, mv), j) == if i == j then Moved(Project(w, i), i, mv) else Project(w, j)
  {
    if mv.Open? {
      OpenProjects(w, i, mv, j);
    } else if mv.AnswerConfig? {
      AnswerProjects(w, i, mv, j);
    } else if mv.s == Receive {
      ReceiveProjects(w, i, mv, j);
    } else {
      CallProjects(w, i, mv, j);
    }
  }

  // ----- What all sessions keep -----

  ghost predicate WorldInv(w: World) {
    && Sized(w)
    && (forall i :: 0 <= i < SESSIONS ==> SessionInv(w, i))
    && (forall x :: x in w.toS ==> x.m.index < SESSIONS)
  }

  ghost predicate SessionInv(w: World, i: nat)
    requires Sized(w) && i < SESSIONS
  {
    Inv(Project(w, i))
  }

  lemma DormantWorldInv(w: World)
    requires Dormant(w)
    ensures WorldInv(w)
  {
    DormantInv();
    forall i | 0 <= i < SESSIONS
      ensures SessionInv(w, i)
    {
      assert Project(w, i) == DORMANT;
    }
  }

  lemma AdvanceKeeps(w: World, i: nat, mv: Move)
    requires WorldInv(w) && MayMove(w, i, mv)
    ensures WorldInv(Advance(w, i, mv))
  {
    var w' := Advance(w, i, mv);
    assert SessionInv(w, i);
    MoveProjects(w, i, mv, i);
    MoveKeeps(Project(w, i), i, mv);
    forall j | 0 <= j < SESSIONS
      ensures SessionInv(w', j)
    {
      assert SessionInv(w, j);
      MoveProjects(w, i, mv, j);
    }
    AdvanceIndices(w, i, mv);
  }

  lemma AdvanceIndices(w: World, i: nat, mv: Move)
    requires Sized(w) && MayMove(w, i, mv) && forall x :: x in w.toS ==> x.m.index < SESSIONS
    ensures forall x :: x in Advance(w, i, mv).toS ==> x.m.index < SESSIONS
  {
    match mv
    case Move(NonSecure, Receive) => SentHasIndex(w.ns[i], i, Check, w.toNS[0]);
    case Move(NonSecure, s) => SentHasIndex(w.ns[i], i, s, Wire(ZERO, 0));
    case _ =>
  }

  datatype Run = Run(worlds: seq<World>, moves: seq<(nat, Move)>)

  ghost predicate IsRun(r: Run) {
    && |r.worlds| == |r.moves| + 1
    && Dormant(r.worlds[0])
    && forall k :: 0 <= k < |r.moves| ==> StepAt(r, k)
  }

  ghost predicate StepAt(r: Run, k: nat)
    requires k < |r.moves| < |r.worlds|
  {
    && Sized(r.worlds[k]) && MayMove(r.worlds[k], r.moves[k].0, r.moves[k].1)
    && r.worlds[k + 1] == Advance(r.worlds[k], r.moves[k].0, r.moves[k].1)
  }

  lemma {:induction false} RunInv(r: Run, k: nat)
    requires IsRun(r) && k <= |r.moves|
    ensures WorldInv(r.worlds[k])
  {
    hide WorldInv;
    if k == 0 {
      DormantWorldInv(r.worlds[0]);
    } else {
      RunInv(r, k - 1);
      assert StepAt(r, k - 1);
      AdvanceKeeps(r.worlds[k - 1], r.moves[k - 1].0, r.moves[k - 1].1);
    }
  }

  // ----- The ring towards the secure side -----

  /** The messages of the first `n` sessions. */
  function Total(q: seq<Wire>, n: nat): nat {
    if n == 0 then 0 else Total(q, n - 1) + |Of(q, n - 1)|
  }

  lemma TotalNext(q: seq<Wire>, n: nat)
    ensures Total(q, n + 1) == Total(q, n) + |Of(q, n)|
  {
  }

  lemma {:induction false} TotalHead(q: seq<Wire>, n: nat)
    requires q != []
    ensures Total(q, n) == Total(q[1..], n) + if q[0].m.index < n then 1 else 0
  {
    if n > 0 {
      hide Of, Total;
      TotalHead(q, n - 1);
      OfHead(q, n - 1);
      TotalNext(q, n - 1);
      TotalNext(q[1..], n - 1);
    }
  }

  lemma {:induction false} TotalNone(n: nat)
    ensures Total([], n) == 0
  {
    if n > 0 {
      TotalNone(n - 1);
    }
  }

  /** Every message belongs to one session. */
  lemma {:induction false} TotalIsAll(q: seq<Wire>, n: nat)
    requires forall x :: x in q ==> x.m.index < n
    ensures Total(q, n) == |q|
  {
    if q == [] {
      TotalNone(n);
    } else {
      TotalHead(q, n);
      TotalIsAll(q[1..], n);
    }
  }

  lemma {:induction false} TotalBound(w: World, n: nat)
    requires WorldInv(w) && n <= SESSIONS
    ensures Total(w.toS, n) <= n * MOST_UNCONSUMED
  {
    if n > 0 {
      TotalBound(w, n - 1);
      assert SessionInv(w, n - 1);
      MostUnconsumed(Project(w, n - 1));
    }
  }

  const MOST_IN_RING := SESSIONS * MOST_UNCONSUMED

  /** At most 168 messages to the secure side are unconsumed, whatever the 28
      sessions do. */
  lemma RingBound(r: Run, k: nat)
    requires IsRun(r) && k <= |r.moves|
    ensures |r.worlds[k].toS| <= MOST_IN_RING == 168
  {
    RunInv(r, k);
    TotalBound(r.worlds[k], SESSIONS);
    TotalIsAll(r.worlds[k].toS, SESSIONS);
  }
}
