/** How little is done to notify: an interrupt is raised only by who finds the
    notification register clear, and that is once for each time the other world has
    looked; and nobody is told of a signal or an event twice. */
module Interrupts {
  import opened Notification
  import U = UniProtocol

  /** What can happen in a step. */
  datatype Happening =
    | Raised
    | FoundClear                       // a notification, of a register that was clear
    | Looked
    | Rang                             // a commit returned that the peer must be notified
    | ToldMessage
    | FoundNoSignal(session: nat)      // a signal was sent, to a register that was clear
    | ToldSignal(session: nat)
    | Collected(session: nat)
    | SentNothing(session: nat)        // no bits at all

  ghost predicate Happens<T>(e: Happening, st: State<T>, s: Step<T>) {
    match e
    case Raised => s.Raise?
    case FoundClear => (s.NotifyMessage? || s.NotifySignal?) && st.register == {}
    case Looked => s.Exchange?
    case Rang => s.Produce? && U.Enabled(st.ring.m, s.p) && U.Rings(st.ring.m, s.p)
    case ToldMessage => s.NotifyMessage?
    case FoundNoSignal(i) => s.SendSignal? && s.i == i && i < |st.channels| && st.channels[i].register == {}
    case ToldSignal(i) => s.NotifySignal? && s.i == i
    case Collected(i) => s.Collect? && s.i == i
    case SentNothing(i) => s.SendSignal? && s.i == i && s.bits == {}
  }

  /** How often it has happened in the first `n` steps. */
  ghost function Count<T>(r: Run<T>, n: nat, e: Happening): nat
    requires n <= |r.steps| < |r.states|
  {
    if n == 0 then 0 else Count(r, n - 1, e) + if Happens(e, r.states[n - 1], r.steps[n - 1]) then 1 else 0
  }

  function One(b: bool): nat { if b then 1 else 0 }

  lemma StepRaises<T>(st: State<T>, s: Step<T>, st': State<T>)
    requires Follows(st, s, st')
    ensures One(Happens(Raised, st, s)) + st'.raisers == One(Happens(FoundClear, st, s)) + st.raisers
    ensures One(Happens(FoundClear, st, s)) + One(st'.register == {})
         <= One(Happens(Looked, st, s)) + One(st.register == {})
  {
    hide U.Do, U.Enabled, U.Rings, AfterDrain, DrainStep, Signals;
  }

  /** The interrupts raised, or about to be, are exactly as many as notifications found
      the register clear; and these are at most one more than the work item has looked. */
  lemma {:induction false} OneRaisePerLook<T>(r: Run<T>, capacity: nat, n: nat)
    requires IsRun(r, capacity) && n <= |r.steps|
    ensures Count(r, n, Raised) + r.states[n].raisers == Count(r, n, FoundClear)
    ensures Count(r, n, FoundClear) + One(r.states[n].register == {}) <= Count(r, n, Looked) + 1
  {
    if n > 0 {
      OneRaisePerLook(r, capacity, n - 1);
      RunStep(r, capacity, n - 1);
      StepRaises(r.states[n - 1], r.steps[n - 1], r.states[n]);
      hide Inv, Follows, Happens;
    }
  }

  lemma StepTellsMessages<T>(st: State<T>, s: Step<T>, st': State<T>)
    requires Follows(st, s, st')
    ensures One(Happens(ToldMessage, st, s)) + st'.notifiers == One(Happens(Rang, st, s)) + st.notifiers
  {
    hide U.Do, U.Rings, AfterDrain, DrainStep, Signals;
  }

  /** Messages are announced in the register exactly as often as a commit has returned
      that the peer must be notified, but for those that are about to. */
  lemma {:induction false} OneNotificationPerRing<T>(r: Run<T>, capacity: nat, n: nat)
    requires IsRun(r, capacity) && n <= |r.steps|
    ensures Count(r, n, ToldMessage) + r.states[n].notifiers == Count(r, n, Rang)
  {
    if n > 0 {
      OneNotificationPerRing(r, capacity, n - 1);
      RunStep(r, capacity, n - 1);
      StepTellsMessages(r.states[n - 1], r.steps[n - 1], r.states[n]);
      hide Inv, Follows, Happens;
    }
  }

  /** What becomes of one session's channel. */
  function ChannelAfter<T>(ch: Channel, s: Step<T>, i: nat): Channel {
    match s
    case SendSignal(k, bits) =>
      if k == i then ch.(register := ch.register + bits, sent := ch.sent + bits) else ch
    case DispatchOne(k) => if k == i then ch.(event := true) else ch
    case TakeEvent(k) => if k == i then ch.(event := false) else ch
    case Collect(k) => if k == i then ch.(register := {}, received := ch.received + ch.register) else ch
    case _ => ch
  }

  lemma StepChannel<T>(st: State<T>, s: Step<T>, st': State<T>, i: nat)
    requires Follows(st, s, st')
    ensures |st'.channels| == |st.channels|
    ensures i < |st.channels| ==> st'.channels[i] == ChannelAfter(st.channels[i], s, i)
  {
    hide U.Do, U.Enabled, U.Rings, AfterDrain, DrainStep, Signals;
  }

  lemma StepTellsSignals<T>(st: State<T>, s: Step<T>, st': State<T>, i: nat)
    requires Follows(st, s, st') && i < |st.channels|
    ensures One(Happens(ToldSignal(i), st, s)) + st'.senders[i] == One(Happens(FoundNoSignal(i), st, s)) + st.senders[i]
  {
    hide U.Do, U.Enabled, U.Rings, AfterDrain, DrainStep, Signals;
    if s.SendSignal? {
      assert (st.senders + multiset{s.i})[i] == st.senders[i] + One(s.i == i);
    } else if s.NotifySignal? {
      assert (st.senders - multiset{s.i})[i] == st.senders[i] - One(s.i == i);
    } else {
      SameSenders(st, s, st');
    }
  }

  lemma SameSenders<T>(st: State<T>, s: Step<T>, st': State<T>)
    requires Follows(st, s, st') && !s.SendSignal? && !s.NotifySignal?
    ensures st'.senders == st.senders
  {
    hide U.Do, U.Enabled, U.Rings, AfterDrain, DrainStep, Signals;
  }

  lemma StepClearsSignals<T>(st: State<T>, s: Step<T>, st': State<T>, i: nat)
    requires Follows(st, s, st') && i < |st.channels|
    ensures |st'.channels| == |st.channels|
    ensures One(Happens(FoundNoSignal(i), st, s)) + One(st'.channels[i].register == {})
         <= One(Happens(Collected(i), st, s)) + One(Happens(SentNothing(i), st, s)) + One(st.channels[i].register == {})
  {
    hide Follows;
    StepChannel(st, s, st', i);
    if s.SendSignal? && s.bits != {} {
      var b :| b in s.bits;
      assert b in st.channels[i].register + s.bits;
    }
  }

  /** A session's signals are announced in the register exactly as often as some were sent
      to its clear signal register, and that, if bits are sent at all, at most one time
      more than they have been collected. */
  lemma {:induction false} OneNotificationPerCollect<T>(r: Run<T>, capacity: nat, n: nat, i: nat)
    requires IsRun(r, capacity) && n <= |r.steps| && i < |r.states[0].channels|
    ensures i < |r.states[n].channels|
    ensures Count(r, n, ToldSignal(i)) + r.states[n].senders[i] == Count(r, n, FoundNoSignal(i))
    ensures Count(r, n, FoundNoSignal(i)) + One(r.states[n].channels[i].register == {})
         <= Count(r, n, Collected(i)) + Count(r, n, SentNothing(i)) + 1
  {
    if n > 0 {
      OneNotificationPerCollect(r, capacity, n - 1, i);
      RunStep(r, capacity, n - 1);
      StepTellsSignals(r.states[n - 1], r.steps[n - 1], r.states[n], i);
      StepClearsSignals(r.states[n - 1], r.steps[n - 1], r.states[n], i);
      hide Inv, Follows, Happens;
    }
  }

  // ----- Nothing is told twice -----

  /** Step `j` sends bit `b` on session `i`. */
  predicate Sends<T>(r: Run<T>, j: nat, i: nat, b: nat)
    requires j < |r.steps|
  {
    r.steps[j].SendSignal? && r.steps[j].i == i && b in r.steps[j].bits
  }

  ghost predicate Pending<T>(r: Run<T>, j: nat, i: nat, b: nat)
    requires j < |r.states|
  {
    i < |r.states[j].channels| && b in r.states[j].channels[i].register
  }

  lemma ChannelAt<T>(r: Run<T>, capacity: nat, j: nat, i: nat)
    requires IsRun(r, capacity) && j < |r.steps|
    ensures |r.states[j + 1].channels| == |r.states[j].channels|
    ensures i < |r.states[j].channels| ==>
              r.states[j + 1].channels[i] == ChannelAfter(r.states[j].channels[i], r.steps[j], i)
  {
    RunStep(r, capacity, j);
    hide Inv, IsRun, Follows, ChannelAfter;
    StepChannel(r.states[j], r.steps[j], r.states[j + 1], i);
  }

  lemma StepSends<T>(r: Run<T>, capacity: nat, j: nat, i: nat, b: nat)
    requires IsRun(r, capacity) && j < |r.steps| && Pending(r, j + 1, i, b)
    ensures (Pending(r, j, i, b) && r.steps[j] != Step<T>.Collect(i)) || Sends(r, j, i, b)
  {
    ChannelAt(r, capacity, j, i);
    hide IsRun;
  }

  /** A bit that is in a session's signal register after its signals were collected has
      been sent since; so none is collected twice. */
  lemma {:induction false} CollectedOnce<T>(r: Run<T>, capacity: nat, u: nat, v: nat, i: nat, b: nat) returns (k: nat)
    requires IsRun(r, capacity) && u < v <= |r.steps| && r.steps[u] == Step<T>.Collect(i) && Pending(r, v, i, b)
    ensures u < k < v && Sends(r, k, i, b)
    decreases v
  {
    assert |r.states| == |r.steps| + 1;
    StepSends(r, capacity, v - 1, i, b);
    hide IsRun, Pending, Sends;
    if u < v - 1 && !Sends(r, v - 1, i, b) {
      k := CollectedOnce(r, capacity, u, v - 1, i, b);
    } else {
      k := v - 1;
    }
  }

  /** An event of a session that is pending after it was taken has been set since, by a
      round that visited the session. */
  lemma {:induction false} TakenOnce<T>(r: Run<T>, capacity: nat, u: nat, v: nat, i: nat) returns (k: nat)
    requires IsRun(r, capacity) && u < v <= |r.steps| && r.steps[u] == Step<T>.TakeEvent(i)
    requires i < |r.states[v].channels| && r.states[v].channels[i].event
    ensures u < k < v && r.steps[k] == Step<T>.DispatchOne(i)
    decreases v
  {
    assert |r.states| == |r.steps| + 1;
    ChannelAt(r, capacity, v - 1, i);
    hide IsRun;
    if u < v - 1 && r.steps[v - 1] != Step<T>.DispatchOne(i) {
      k := TakenOnce(r, capacity, u, v - 1, i);
    } else {
      k := v - 1;
    }
  }
}
