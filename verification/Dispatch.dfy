/** How the work item tells the sessions that they have signals: it goes once
    around the table of sessions, from a starting point that moves on by one
    session each time. */
module Dispatch {
  import opened Platform

  /** The session that comes `k` places behind `start`. */
  function Place(start: nat, k: nat): (s: nat)
    requires start < SESSIONS && k <= SESSIONS
    ensures s < SESSIONS
  {
    if start + k < SESSIONS then start + k else start + k - SESSIONS
  }

  /** The driver takes the next session modulo their number. */
  lemma NextPlace(start: nat, k: nat)
    requires start < SESSIONS && k < SESSIONS
    ensures (Place(start, k) + 1) % SESSIONS == Place(start, k + 1) == Place(Place(start, k), 1)
  {
  }

  /** The sessions of `signals` among the first `k` places behind `start`. */
  function Visited(start: nat, signals: set<nat>, k: nat): seq<nat>
    requires start < SESSIONS && k <= SESSIONS
  {
    if k == 0 then []
    else Visited(start, signals, k - 1) + if Place(start, k - 1) in signals then [Place(start, k - 1)] else []
  }

  /** Going around, every session comes at exactly one place. */
  lemma OnePlace(start: nat, s: nat) returns (k: nat)
    requires start < SESSIONS && s < SESSIONS
    ensures k < SESSIONS && Place(start, k) == s
    ensures forall j :: 0 <= j < SESSIONS && Place(start, j) == s ==> j == k
  {
    k := if s >= start then s - start else s + SESSIONS - start;
  }

  /** Going around, a place and no earlier one is the start again. */
  lemma BackAtStart(start: nat, k: nat)
    requires start < SESSIONS && 0 < k <= SESSIONS
    ensures Place(start, k) == start <==> k == SESSIONS
  {
  }

  lemma VisitedNext(start: nat, signals: set<nat>, k: nat)
    requires start < SESSIONS && k < SESSIONS
    ensures var place := Place(start, k);
            Visited(start, signals, k + 1) == Visited(start, signals, k) + if place in signals then [place] else []
  {
  }

  lemma CountAppend(q: seq<nat>, x: nat, s: nat)
    ensures multiset(q + [x])[s] == multiset(q)[s] + if x == s then 1 else 0
  {
    assert multiset(q + [x]) == multiset(q) + multiset{x};
  }

  lemma {:induction false} VisitedCounts(start: nat, signals: set<nat>, k: nat, s: nat, at: nat)
    requires start < SESSIONS && k <= SESSIONS && at < SESSIONS && Place(start, at) == s
    ensures multiset(Visited(start, signals, k))[s] == if s in signals && at < k then 1 else 0
  {
    if k > 0 {
      VisitedCounts(start, signals, k - 1, s, at);
      VisitedNext(start, signals, k - 1);
      CountAppend(Visited(start, signals, k - 1), Place(start, k - 1), s);
      var same := OnePlace(start, s);
      assert Place(start, k - 1) == s <==> k - 1 == at;
      hide Visited, Place;
    }
  }

  lemma {:induction false} VisitedOnly(start: nat, signals: set<nat>, k: nat)
    requires start < SESSIONS && k <= SESSIONS
    ensures forall s :: s in Visited(start, signals, k) ==> s in signals && s < SESSIONS
  {
    if k > 0 {
      VisitedOnly(start, signals, k - 1);
    }
  }

  lemma {:induction false} NoneVisited(start: nat, k: nat)
    requires start < SESSIONS && k <= SESSIONS
    ensures Visited(start, {}, k) == []
  {
    if k > 0 {
      NoneVisited(start, k - 1);
    }
  }

  /** One round visits exactly the sessions that have signals, each once. */
  lemma EachOnce(start: nat, signals: set<nat>)
    requires start < SESSIONS && forall s :: s in signals ==> s < SESSIONS
    ensures multiset(Visited(start, signals, SESSIONS)) == multiset(signals)
  {
    var out := Visited(start, signals, SESSIONS);
    VisitedOnly(start, signals, SESSIONS);
    var visited: multiset<nat>, asked: multiset<nat> := multiset(out), multiset(signals);
    forall s: nat
      ensures visited[s] == asked[s]
    {
      if s < SESSIONS {
        var at := OnePlace(start, s);
        VisitedCounts(start, signals, SESSIONS, s, at);
      }
    }
  }

  /** Sessions are told in the order of their places behind the start. */
  lemma {:induction false} InOrder(start: nat, signals: set<nat>, n: nat, i: nat, j: nat) returns (p: nat, q: nat)
    requires start < SESSIONS && n <= SESSIONS && i < j < |Visited(start, signals, n)|
    ensures p < q < n
    ensures Place(start, p) == Visited(start, signals, n)[i] && Place(start, q) == Visited(start, signals, n)[j]
  {
    if j < |Visited(start, signals, n - 1)| {
      p, q := InOrder(start, signals, n - 1, i, j);
    } else {
      p := PlaceOf(start, signals, n - 1, i);
      q := n - 1;
    }
  }

  lemma {:induction false} PlaceOf(start: nat, signals: set<nat>, n: nat, i: nat) returns (p: nat)
    requires start < SESSIONS && n <= SESSIONS && i < |Visited(start, signals, n)|
    ensures p < n && Place(start, p) == Visited(start, signals, n)[i]
  {
    if i < |Visited(start, signals, n - 1)| {
      p := PlaceOf(start, signals, n - 1, i);
    } else {
      p := n - 1;
    }
  }

  class Dispatcher {
    var start: nat
    /** The SIGNAL event of each session. */
    const pending: array<bool>
    /** The sessions told so far, in order. */
    ghost var told: seq<nat>

    ghost predicate Valid()
      reads this
    {
      start < SESSIONS && pending.Length == SESSIONS
    }

    constructor ()
      ensures Valid() && start == 0 && told == [] && fresh(pending)
      ensures forall s :: 0 <= s < SESSIONS ==> !pending[s]
    {
      start, told := 0, [];
      pending := new bool[SESSIONS](_ => false);
    }

    method HandleSignal(s: nat)
      requires Valid() && s < SESSIONS
      modifies this`told, pending
      ensures told == old(told) + [s]
      ensures forall j :: 0 <= j < SESSIONS ==> pending[j] == (old(pending[j]) || j == s)
    {
      pending[s] := true;
      told := told + [s];
    }

    /** One round for the sessions `signals`; without any there is no round. */
    method Round(signals: set<nat>)
      requires Valid() && forall s :: s in signals ==> s < SESSIONS
      modifies this, pending
      ensures Valid()
      ensures start == if signals == {} then old(start) else Place(old(start), 1)
      ensures told == old(told) + Visited(old(start), signals, SESSIONS)
      ensures forall j :: 0 <= j < SESSIONS ==> pending[j] == (old(pending[j]) || j in signals)
    {
      if signals == {} {
        NoneVisited(start, SESSIONS);
        return;
      }
      var s := start;
      ghost var k := 0;
      var again := true;
      while again
        invariant Valid() && start == old(start) && k <= SESSIONS && s == Place(start, k)
        invariant again <==> k < SESSIONS
        invariant told == old(told) + Visited(start, signals, k)
        invariant forall j :: 0 <= j < SESSIONS && pending[j] ==> old(pending[j]) || j in signals
        invariant forall j :: 0 <= j < SESSIONS && old(pending[j]) ==> pending[j]
        invariant forall i :: 0 <= i < k && Place(start, i) in signals ==> pending[Place(start, i)]
        decreases SESSIONS - k
      {
        if s in signals {
          HandleSignal(s);
        }
        NextPlace(start, k);
        s := (s + 1) % SESSIONS;
        k := k + 1;
        BackAtStart(start, k);
        again := s != start;
      }
      forall j | 0 <= j < SESSIONS
        ensures pending[j] == (old(pending[j]) || j in signals)
      {
        var at := OnePlace(start, j);
      }
      NextPlace(start, 0);
      start := (start + 1) % SESSIONS;
    }
  }

  /** The start after `n` rounds with signals. */
  function StartAfter(start: nat, n: nat): (s: nat)
    requires start < SESSIONS
    ensures s < SESSIONS
  {
    if n == 0 then start else Place(StartAfter(start, n - 1), 1)
  }

  lemma {:induction false} StartsMoveOn(start: nat, first: nat, k: nat)
    requires start < SESSIONS && k <= SESSIONS
    ensures StartAfter(start, first + k) == Place(StartAfter(start, first), k)
  {
    if k > 0 {
      StartsMoveOn(start, first, k - 1);
    }
  }

  /** Any 28 rounds in a row start at every session exactly once. */
  lemma Fair(start: nat, first: nat, s: nat) returns (n: nat)
    requires start < SESSIONS && s < SESSIONS
    ensures first <= n < first + SESSIONS && StartAfter(start, n) == s
    ensures forall m :: first <= m < first + SESSIONS && StartAfter(start, m) == s ==> m == n
  {
    var k := OnePlace(StartAfter(start, first), s);
    n := first + k;
    StartsMoveOn(start, first, k);
    forall m | first <= m < first + SESSIONS
      ensures StartAfter(start, m) == Place(StartAfter(start, first), m - first)
    {
      StartsMoveOn(start, first, m - first);
    }
  }
}
