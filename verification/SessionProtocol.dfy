/** One session of the driver: the three state machines (global, server, client)
    and the pending events, as the handlers of received messages and the public
    calls change them, each inside the session's semaphore.

    Functions on values say what each section does; class Session does it to its
    fields in place, and writes messages to the producing end of a ring. */
module SessionProtocol {
  import opened Platform
  import BlockList
  import SessionMemory

  const REQUEST_CANCEL_OK := 0xABE0_0001
  const REQUEST_CANCEL_RESPONSE := 0xABE0_0002

  datatype Action = Request | Response | Config | ConfigAck | Cancel | CancelAck | Term | TermAck

  datatype Message = Message(action: Action, index: nat, p0: nat, p1: nat, p2: nat)

  /** A cleared message buffer. */
  const ZERO := Message(Request, 0, 0, 0, 0)

  datatype Global = Null | ConfigWaiting | Configured | TermWaiting

  datatype Role = Unset | Idle | Notified | Busy | Waiting | CancelWaiting

  datatype Event = SignalEvent | RequestEvent | ResponseEvent

  const ALL_EVENTS := {SignalEvent, RequestEvent, ResponseEvent}

  datatype Values = Values(
    free: bool, global: Global, server: Role, client: Role,
    serverMessage: Message, clientMessage: Message, events: set<Event>)

  /** A session's new state and the messages it writes. */
  datatype Reaction = Reaction(v: Values, sent: seq<Message>)

  /** Likewise for a call, with its return value and what it stores for the caller. */
  datatype Reply = Reply(ret: int, out: nat, v: Values, sent: seq<Message>)

  function Plain(action: Action, index: nat, p1: nat): Message { Message(action, index, 0, p1, 0) }

  // ----- What received messages do -----

  function OnRequest(v: Values, m: Message): Values {
    if v.global == Configured && v.server == Idle
    then v.(serverMessage := m, events := v.events + {RequestEvent}, server := Notified)
    else v
  }

  function OnAnswer(v: Values, m: Message): Values {
    v.(clientMessage := m, events := v.events + {ResponseEvent}, client := Notified)
  }

  function OnResponse(v: Values, m: Message): Values {
    if v.global == Configured && (v.client == Waiting || v.client == CancelWaiting) then OnAnswer(v, m) else v
  }

  function OnCancelAck(v: Values, m: Message): Values {
    if v.global == Configured && v.client == CancelWaiting then OnAnswer(v, m) else v
  }

  function OnConfigAck(v: Values, m: Message): Values {
    if v.global != ConfigWaiting then v
    else if m.p1 == 0 then
      v.(global := Configured, server := Idle, client := Idle, events := v.events + {ResponseEvent})
    else
      v.(global := Null, clientMessage := m, events := v.events + {ResponseEvent})
  }

  /** The event that announced the request stays pending. */
  function OnCancel(v: Values, index: nat): Reaction {
    if v.global == Configured && v.server == Notified
    then Reaction(v.(serverMessage := ZERO, server := Idle), [Plain(CancelAck, index, 0)])
    else Reaction(v, [])
  }

  function OnTerm(v: Values, index: nat): Reaction {
    Reaction(v.(events := if v.global == Configured then ALL_EVENTS else v.events, global := Null),
             [Plain(TermAck, index, 0)])
  }

  function OnTermAck(v: Values): Values {
    if v.global == TermWaiting then v.(events := v.events + {ResponseEvent}) else v
  }

  /** A message for session `index`; one for a closed session is ignored. */
  function OnMessage(v: Values, index: nat, m: Message): Reaction {
    if v.free then Reaction(v, [])
    else match m.action
      case Request => Reaction(OnRequest(v, m), [])
      case Response => Reaction(OnResponse(v, m), [])
      case Config => Reaction(v, [])
      case ConfigAck => Reaction(OnConfigAck(v, m), [])
      case Cancel => OnCancel(v, index)
      case CancelAck => Reaction(OnCancelAck(v, m), [])
      case Term => OnTerm(v, index)
      case TermAck => Reaction(OnTermAck(v), [])
  }

  // ----- What the sections of the public calls do -----

  function SendRequest(v: Values, index: nat, request: nat): Reply {
    if v.client != Idle then Reply(-EPROTO, 0, v, [])
    else Reply(0, 0, v.(client := Waiting), [Plain(Request, index, request)])
  }

  function GetResponse(v: Values): Reply {
    if v.client != Notified then Reply(-EAGAIN, 0, v, [])
    else Reply(0, v.clientMessage.p1,
               v.(clientMessage := ZERO, client := Idle, events := v.events - {ResponseEvent}), [])
  }

  function GetRequest(v: Values): Reply {
    if v.server != Notified then Reply(-EAGAIN, 0, v, [])
    else Reply(0, v.serverMessage.p1,
               v.(serverMessage := ZERO, server := Busy, events := v.events - {RequestEvent}), [])
  }

  function SendResponse(v: Values, index: nat, response: nat): Reply {
    if v.server != Busy then Reply(-EPROTO, 0, v, [])
    else Reply(0, 0, v.(server := Idle), [Plain(Response, index, response)])
  }

  /** Cancelling, up to the wait (on 0) or to its end. A client that already
      waits for the acknowledgement of a cancellation waits again, after an error
      that nobody will see. */
  function CancelStart(v: Values, index: nat): Reply {
    match v.client
    case Waiting => Reply(0, 0, v.(client := CancelWaiting), [Plain(Cancel, index, 0)])
    case Notified =>
      Reply(REQUEST_CANCEL_RESPONSE, v.clientMessage.p1,
            v.(clientMessage := ZERO, events := v.events - {ResponseEvent}, client := Idle), [])
    case CancelWaiting => Reply(0, 0, v, [])
    case _ => Reply(-EPROTO, 0, v, [])
  }

  /** Cancelling, after the wait. */
  function CancelFinish(v: Values): Reply {
    if v.client != Notified then Reply(-EFAULT, 0, v, [])
    else
      var done := v.(clientMessage := ZERO, client := Idle);
      if v.clientMessage.action == CancelAck then Reply(REQUEST_CANCEL_OK, 0, done, [])
      else Reply(REQUEST_CANCEL_RESPONSE, v.clientMessage.p1, done, [])
  }

  function SendTerm(v: Values, index: nat): Reply {
    Reply(0, 0, v.(global := TermWaiting), [Plain(Term, index, 0)])
  }

  /** The end of a wait for the events `mask` that ended with `waited`. */
  function TakeEvents(v: Values, mask: set<Event>, waited: int): Values {
    if waited == 0 then v.(events := v.events - mask) else v
  }

  /** After a wait: a session that is no longer configured is (being) closed. */
  function HandleTerminated(v: Values): Reply {
    match v.global
    case Configured => Reply(0, 0, v, [])
    case TermWaiting => Reply(0, 0, v.(global := Null), [])
    case _ => Reply(-EPIPE, 0, v.(global := Null, free := true), [])
  }

  /** The end of closing. */
  function Close(v: Values): Values {
    v.(global := Null, events := ALL_EVENTS, free := true)
  }

  const SID_MARKS := 0xC000_0000_0000_0000

  /** The configuration message: the session identifier with its two top bits
      set, and the session's memory, whose length the message keeps in 16 bits. */
  function ConfigFor(index: nat, sid: nat, offset: nat, pages: nat): Message {
    Message(Config, index, sid % 0x4000_0000_0000_0000 + SID_MARKS, offset % 0x1_0000_0000, pages % 0x1_0000)
  }

  function SendConfig(v: Values, index: nat, sid: nat, offset: nat, pages: nat): Reply {
    if v.free then Reply(-EINVAL, 0, v, [])
    else if v.global != Null then Reply(-EBADF, 0, v, [])
    else Reply(0, 0, v.(global := ConfigWaiting), [ConfigFor(index, sid, offset, pages)])
  }

  /** The message tells where the session's memory lies exactly if its offset fits in 32
      bits, and its size exactly if that has fewer than 2^16 pages; sizes that differ by
      a multiple of 2^16 pages look the same. The identifier keeps all but its two top
      bits, which are set. */
  lemma ConfigForTells(index: nat, sid: nat, offset: nat, pages: nat, others: nat)
    ensures var m := ConfigFor(index, sid, offset, pages);
            && m.action == Config && m.index == index
            && (m.p1 == offset <==> offset < 0x1_0000_0000)
            && (m.p2 == pages <==> pages < 0x1_0000)
            && m.p0 % 0x4000_0000_0000_0000 == sid % 0x4000_0000_0000_0000
            && m.p0 / 0x4000_0000_0000_0000 == 3
            && (m == ConfigFor(index, sid, offset, others) <==> (pages - others) % 0x1_0000 == 0)
  {
  }

  /** What two sessions tell of their memories, if the shared memory has fewer than 2^32
      pages: each of them only pages of its own, and none that are reserved. */
  lemma ConfigsApart(memory: SessionMemory.Sessions, i: nat, j: nat, sid: nat, other: nat)
    requires memory.Valid() && memory.shm.total < 0x1_0000_0000
    requires i < SESSIONS && j < SESSIONS && i != j && memory.mem[i] != null && memory.mem[j] != null
    ensures var (block, next) := (memory.Extent(i), memory.Extent(j));
            var m := ConfigFor(i, sid, block.0, block.1);
            var n := ConfigFor(j, other, next.0, next.1);
            && block.0 <= m.p1 && m.p1 + m.p2 <= block.0 + block.1
            && BlockList.RESERVED_PAGES <= m.p1 && BlockList.RESERVED_PAGES <= n.p1
            && (m.p1 + m.p2 <= n.p1 || n.p1 + n.p2 <= m.p1)
  {
    if i < j {
      memory.PagesDisjoint(i, j);
    } else {
      memory.PagesDisjoint(j, i);
    }
    hide SessionMemory.Sessions.Valid;
    ToldWithin(i, sid, memory.mem[i].offset, memory.mem[i].pages);
    ToldWithin(j, other, memory.mem[j].offset, memory.mem[j].pages);
  }

  lemma ToldWithin(index: nat, sid: nat, offset: nat, pages: nat)
    requires offset < 0x1_0000_0000
    ensures var m := ConfigFor(index, sid, offset, pages); m.p1 == offset && m.p2 <= pages
  {
  }

  /** A thread that cancels waits exactly if the client waits for an answer or for that of
      a cancellation; only in the first case it asks for one. One that finishes its wait
      when another has taken the answer fails, although the request has been answered. */
  lemma CancelTwice(v: Values, index: nat)
    ensures var r := CancelStart(v, index);
            && (r.v.client == CancelWaiting <==> v.client == Waiting || v.client == CancelWaiting)
            && (r.sent != [] <==> v.client == Waiting)
            && (v.client == CancelWaiting ==> r == Reply(0, 0, v, []))
    ensures v.client == Notified ==> CancelFinish(v).ret > 0 && CancelFinish(CancelFinish(v).v).ret == -EFAULT
  {
  }

  // ----- The session as the driver keeps it -----

  /** The producing end of the ring towards the other world: the messages written,
      and for how many more there is room. */
  class Outbox {
    var messages: seq<Message>
    var room: nat

    constructor (room: nat)
      ensures messages == [] && this.room == room
    {
      messages, this.room := [], room;
    }

    /** Nobody is told if the ring is full; the message is dropped. */
    method Write(m: Message)
      modifies this
      ensures messages == old(messages) + (if old(room) > 0 then [m] else [])
      ensures room == if old(room) > 0 then old(room) - 1 else 0
    {
      if room > 0 {
        messages, room := messages + [m], room - 1;
      }
    }
  }

  function Fitting(sent: seq<Message>, room: nat): (r: seq<Message>)
    ensures r <= sent && |r| <= room && (|sent| <= room ==> r == sent)
  {
    if |sent| <= room then sent else sent[..room]
  }

  /** The signals to the other world that are pending for a session. */
  class SignalRegister {
    var pending: set<nat>

    constructor ()
      ensures pending == {}
    {
      pending := {};
    }
  }

  /** Whose methods do what the functions above say, to its fields in place. */
  class Session {
    const index: nat
    const outbox: Outbox
    const signals: SignalRegister
    const memory: SessionMemory.Sessions
    var free: bool
    var global: Global
    var server: Role
    var client: Role
    var serverMessage: Message
    var clientMessage: Message
    var events: set<Event>

    constructor (index: nat, outbox: Outbox, signals: SignalRegister, memory: SessionMemory.Sessions)
      ensures this.index == index && this.outbox == outbox && this.signals == signals && this.memory == memory
      ensures Value() == Values(true, Null, Unset, Unset, ZERO, ZERO, {})
    {
      this.index, this.outbox, this.signals, this.memory := index, outbox, signals, memory;
      free, global, server, client, serverMessage, clientMessage, events := true, Null, Unset, Unset, ZERO, ZERO, {};
    }

    function Value(): Values
      reads this
    {
      Values(free, global, server, client, serverMessage, clientMessage, events)
    }

    /** The session has become `v` and has written what fits of `sent`. */
    twostate predicate Became(v: Values, sent: seq<Message>)
      reads this, outbox
    {
      && Value() == v
      && outbox.messages == old(outbox.messages) + Fitting(sent, old(outbox.room))
      && outbox.room == old(outbox.room) - |Fitting(sent, old(outbox.room))|
    }

    method HandleRequest(m: Message)
      modifies this
      ensures Value() == OnRequest(old(Value()), m)
    {
      if global == Configured {
        match server {
          case Idle =>
            serverMessage := m;
            events := events + {RequestEvent};
            server := Notified;
          case _ =>
        }
      }
    }

    method HandleResponse(m: Message)
      modifies this
      ensures Value() == OnResponse(old(Value()), m)
    {
      if global == Configured {
        match client {
          case Waiting | CancelWaiting =>
            clientMessage := m;
            events := events + {ResponseEvent};
            client := Notified;
          case _ =>
        }
      }
    }

    method HandleConfigAck(m: Message)
      modifies this
      ensures Value() == OnConfigAck(old(Value()), m)
    {
      if global == ConfigWaiting {
        if m.p1 == 0 {
          global := Configured;
          server := Idle;
          client := Idle;
        } else {
          global := Null;
          clientMessage := m;
        }
        events := events + {ResponseEvent};
      }
    }

    method HandleCancel()
      modifies this, outbox
      ensures var r := OnCancel(old(Value()), index); Became(r.v, r.sent)
    {
      if global == Configured {
        match server {
          case Notified =>
            serverMessage := ZERO;
            outbox.Write(Plain(CancelAck, index, 0));
            server := Idle;
          case _ =>
        }
      }
    }

    method HandleCancelAck(m: Message)
      modifies this
      ensures Value() == OnCancelAck(old(Value()), m)
    {
      if global == Configured {
        match client {
          case CancelWaiting =>
            clientMessage := m;
            events := events + {ResponseEvent};
            client := Notified;
          case _ =>
        }
      }
    }

    /** The signals that are pending for the peer are cleared if configured. */
    method HandleTerm()
      modifies this, outbox, signals
      ensures var r := OnTerm(old(Value()), index); Became(r.v, r.sent)
      ensures signals.pending == if old(global) == Configured then {} else old(signals.pending)
    {
      if global == Configured {
        signals.pending := {};
        events := ALL_EVENTS;
      }
      outbox.Write(Plain(TermAck, index, 0));
      global := Null;
    }

    method HandleTermAck()
      modifies this
      ensures Value() == OnTermAck(old(Value()))
    {
      if global == TermWaiting {
        events := events + {ResponseEvent};
      }
    }

    method HandleMessage(m: Message)
      modifies this, outbox, signals
      ensures var r := OnMessage(old(Value()), index, m); Became(r.v, r.sent)
      ensures signals.pending ==
                if !old(free) && m.action == Term && old(global) == Configured then {} else old(signals.pending)
    {
      if free {
        return;
      }
      match m.action {
        case Request => HandleRequest(m);
        case Response => HandleResponse(m);
        case Config =>
        case ConfigAck => HandleConfigAck(m);
        case Cancel => HandleCancel();
        case CancelAck => HandleCancelAck(m);
        case Term => HandleTerm();
        case TermAck => HandleTermAck();
      }
    }

    /** Whether public calls may go on; `ready`: the framework is enabled,
        `shmReady`: the shared memory is initialised, `interrupted`: the semaphore
        was not obtained. */
    method CheckConfigured(ready: bool, shmReady: bool, interrupted: bool) returns (ret: int)
      ensures ret == 0 <==> ready && shmReady && !interrupted && index < SESSIONS && !free && global == Configured
      ensures ret == -EAGAIN <==> !ready
      ensures ret == -ENOENT <==> ready && !shmReady
      ensures ret == -ERESTARTSYS <==> ready && shmReady && interrupted
      ensures ret == -EINVAL <==> ready && shmReady && !interrupted && (index >= SESSIONS || free)
      ensures ret == -ENODEV <==>
                ready && shmReady && !interrupted && index < SESSIONS && !free && global != Configured
    {
      if !ready {
        return -EAGAIN;
      }
      if !shmReady {
        return -ENOENT;
      }
      if interrupted {
        return -ERESTARTSYS;
      }
      if index >= SESSIONS || free {
        ret := -EINVAL;
      } else if global != Configured {
        ret := -ENODEV;
      } else {
        ret := 0;
      }
    }

    method DoSendRequest(request: nat, interrupted: bool) returns (ret: int)
      modifies this, outbox
      ensures interrupted ==> ret == -ERESTARTSYS && Became(old(Value()), [])
      ensures !interrupted ==> var r := SendRequest(old(Value()), index, request); ret == r.ret && Became(r.v, r.sent)
    {
      if interrupted {
        return -ERESTARTSYS;
      }
      if client != Idle {
        return -EPROTO;
      }
      outbox.Write(Plain(Request, index, request));
      client := Waiting;
      return 0;
    }

    method DoGetResponse(interrupted: bool) returns (ret: int, response: nat)
      modifies this
      ensures interrupted ==> ret == -ERESTARTSYS && Value() == old(Value())
      ensures !interrupted ==>
                var r := GetResponse(old(Value())); ret == r.ret && response == r.out && Value() == r.v
    {
      response := 0;
      if interrupted {
        return -ERESTARTSYS, 0;
      }
      if client != Notified {
        return -EAGAIN, 0;
      }
      response := clientMessage.p1;
      clientMessage := ZERO;
      client := Idle;
      events := events - {ResponseEvent};
      ret := 0;
    }

    method DoGetRequest(interrupted: bool) returns (ret: int, request: nat)
      modifies this
      ensures interrupted ==> ret == -ERESTARTSYS && Value() == old(Value())
      ensures !interrupted ==>
                var r := GetRequest(old(Value())); ret == r.ret && request == r.out && Value() == r.v
    {
      request := 0;
      if interrupted {
        return -ERESTARTSYS, 0;
      }
      if server != Notified {
        return -EAGAIN, 0;
      }
      request := serverMessage.p1;
      serverMessage := ZERO;
      server := Busy;
      events := events - {RequestEvent};
      ret := 0;
    }

    method DoSendResponse(response: nat, interrupted: bool) returns (ret: int)
      modifies this, outbox
      ensures interrupted ==> ret == -ERESTARTSYS && Became(old(Value()), [])
      ensures !interrupted ==> var r := SendResponse(old(Value()), index, response); ret == r.ret && Became(r.v, r.sent)
    {
      if interrupted {
        return -ERESTARTSYS;
      }
      if server != Busy {
        return -EPROTO;
      }
      outbox.Write(Plain(Response, index, response));
      server := Idle;
      return 0;
    }

    /** `wait`: whether to wait, and then finish. */
    method DoCancelStart(interrupted: bool) returns (ret: int, response: nat, wait: bool)
      modifies this, outbox
      ensures interrupted ==> ret == -ERESTARTSYS && !wait && Became(old(Value()), [])
      ensures !interrupted ==>
                var r := CancelStart(old(Value()), index);
                && Became(r.v, r.sent) && wait == (client == CancelWaiting)
                && (!wait ==> ret == r.ret && response == r.out)
    {
      ret, response, wait := 0, 0, false;
      if interrupted {
        return -ERESTARTSYS, 0, false;
      }
      match client {
        case Waiting =>
          outbox.Write(Plain(Cancel, index, 0));
          client := CancelWaiting;
        case Notified =>
          response := clientMessage.p1;
          clientMessage := ZERO;
          events := events - {ResponseEvent};
          client := Idle;
          ret := REQUEST_CANCEL_RESPONSE;
        case _ =>
          ret := -EPROTO;
      }
      wait := client == CancelWaiting;
    }

    method DoCancelFinish(interrupted: bool) returns (ret: int, response: nat)
      modifies this
      ensures interrupted ==> ret == -ERESTARTSYS && Value() == old(Value())
      ensures !interrupted ==>
                var r := CancelFinish(old(Value())); ret == r.ret && response == r.out && Value() == r.v
    {
      response := 0;
      if interrupted {
        return -ERESTARTSYS, 0;
      }
      if client == Notified {
        if clientMessage.action == CancelAck {
          ret := REQUEST_CANCEL_OK;
        } else {
          ret := REQUEST_CANCEL_RESPONSE;
          response := clientMessage.p1;
        }
        clientMessage := ZERO;
        client := Idle;
      } else {
        ret := -EFAULT;
      }
    }

    /** Clears the signals that are pending for the peer, even if interrupted. */
    method DoSendTerm(interrupted: bool)
      modifies this, outbox, signals
      ensures signals.pending == {}
      ensures interrupted ==> Became(old(Value()), [])
      ensures !interrupted ==> var r := SendTerm(old(Value()), index); Became(r.v, r.sent)
    {
      signals.pending := {};
      if interrupted {
        return;
      }
      outbox.Write(Plain(Term, index, 0));
      global := TermWaiting;
    }

    /** What closing does to the session's memory. */
    twostate predicate Forgot(interrupted: bool)
      requires index < SESSIONS && |old(memory.mem)| == SESSIONS
      reads this, memory, memory.shm, memory.shm.nodes
    {
      && memory.Valid() && memory.mem == old(memory.mem)[index := null]
      && (old(memory.NothingForgotten()) ==>
            (memory.NothingForgotten() <==> old(memory.mem[index]) == null || !interrupted))
    }

    method ForgetMemory(freeInterrupted: bool)
      requires memory.Valid() && index < SESSIONS
      modifies memory`mem, memory.shm`blocks, if memory.mem[index] == null then {} else {memory.mem[index]}
      ensures Value() == old(Value()) && Forgot(freeInterrupted)
    {
      memory.Release(index, freeInterrupted);
    }

    /** The end of a wait, which ended with `waited` (0 or an error); the two
        semaphore acquisitions, and the allocator's, may each be interrupted. */
    method FinishWait(mask: set<Event>, waited: int, interrupted: bool, interruptedAgain: bool, freeInterrupted: bool)
      returns (ret: int, taken: set<Event>)
      requires memory.Valid() && index < SESSIONS
      modifies this, memory`mem, memory.shm`blocks, if memory.mem[index] == null then {} else {memory.mem[index]}
      ensures interrupted ==> ret == -ERESTARTSYS && Value() == old(Value())
      ensures !interrupted ==>
                var v := TakeEvents(old(Value()), mask, waited);
                var r := HandleTerminated(v);
                && taken == (if waited == 0 then old(events) * mask else {})
                && if v.global != Configured && interruptedAgain then ret == -ERESTARTSYS && Value() == v
                   else ret == (if r.ret == 0 then waited else r.ret) && Value() == r.v
      ensures events == if !interrupted && waited == 0 then old(events) - mask else old(events)
      ensures ret == 0 <==> !interrupted && waited == 0 &&
                            (old(global) == Configured || (old(global) == TermWaiting && !interruptedAgain))
      ensures !interrupted && !interruptedAgain && (old(global) == Null || old(global) == ConfigWaiting) ==>
                ret == -EPIPE && free
      ensures if !interrupted && !interruptedAgain && (old(global) == Null || old(global) == ConfigWaiting)
              then Forgot(freeInterrupted) else memory.Valid() && memory.mem == old(memory.mem)
    {
      hide SessionMemory.Sessions.Valid, SessionMemory.Sessions.NothingForgotten;
      taken := {};
      if interrupted {
        return -ERESTARTSYS, {};
      }
      if waited == 0 {
        taken := events * mask;
        events := events - mask;
      }
      var ret2 := CheckTerminated(interruptedAgain, freeInterrupted);
      ret := if ret2 == 0 then waited else ret2;
    }

    method CheckTerminated(interrupted: bool, freeInterrupted: bool) returns (ret: int)
      requires memory.Valid() && index < SESSIONS
      modifies this, memory`mem, memory.shm`blocks, if memory.mem[index] == null then {} else {memory.mem[index]}
      ensures old(global) == Configured || !interrupted ==>
                var r := HandleTerminated(old(Value())); ret == r.ret && Value() == r.v
      ensures old(global) != Configured && interrupted ==> ret == -ERESTARTSYS && Value() == old(Value())
      ensures ret == 0 <==> old(global) == Configured || (old(global) == TermWaiting && !interrupted)
      ensures ret == -EPIPE <==> (old(global) == Null || old(global) == ConfigWaiting) && !interrupted
      ensures if !interrupted && (old(global) == Null || old(global) == ConfigWaiting)
              then Forgot(freeInterrupted) else memory.Valid() && memory.mem == old(memory.mem)
    {
      hide SessionMemory.Sessions.Valid, SessionMemory.Sessions.NothingForgotten;
      if global == Configured {
        return 0;
      }
      if interrupted {
        return -ERESTARTSYS;
      }
      if global == TermWaiting {
        global := Null;
        return 0;
      }
      global := Null;
      ForgetMemory(freeInterrupted);
      free := true;
      return -EPIPE;
    }

    /** Closing, after the termination handshake if there was one; the semaphore's
        being obtained or not makes no difference. */
    method FinishClose(freeInterrupted: bool)
      requires memory.Valid() && index < SESSIONS
      modifies this, memory`mem, memory.shm`blocks, if memory.mem[index] == null then {} else {memory.mem[index]}
      ensures Value() == Close(old(Value())) && Forgot(freeInterrupted)
    {
      hide SessionMemory.Sessions.Valid, SessionMemory.Sessions.NothingForgotten;
      global := Null;
      ForgetMemory(freeInterrupted);
      events := ALL_EVENTS;
      free := true;
    }

    /** The message names the session's block, if it has one. */
    method DoSendConfig(sid: nat, interrupted: bool) returns (ret: int)
      requires memory.Valid()
      modifies this, outbox
      ensures interrupted ==> ret == -ERESTARTSYS && Became(old(Value()), [])
      ensures !interrupted && index >= SESSIONS ==> ret == -EINVAL && Became(old(Value()), [])
      ensures !interrupted && index < SESSIONS ==>
                var (offset, pages) := memory.Extent(index);
                var r := SendConfig(old(Value()), index, sid, offset, pages); ret == r.ret && Became(r.v, r.sent)
      ensures ret == 0 <==> !interrupted && index < SESSIONS && !old(free) && old(global) == Null
      ensures ret == -EINVAL <==> !interrupted && (index >= SESSIONS || old(free))
      ensures ret == -EBADF <==> !interrupted && index < SESSIONS && !old(free) && old(global) != Null
      ensures ret == 0 && old(outbox.room) > 0 && memory.mem[index] != null ==>
                && |outbox.messages| == old(|outbox.messages|) + 1
                && var (m, b) := (outbox.messages[|outbox.messages| - 1], memory.mem[index]);
                   m.action == Config && m.p1 == b.offset % 0x1_0000_0000 && m.p2 == b.pages % 0x1_0000
    {
      if interrupted {
        return -ERESTARTSYS;
      }
      if index >= SESSIONS {
        return -EINVAL;
      }
      if free {
        return -EINVAL;
      }
      if global != Null {
        return -EBADF;
      }
      var offset, pages := 0, 0;
      if memory.mem[index] != null {
        offset, pages := memory.mem[index].offset, memory.mem[index].pages;
      }
      outbox.Write(ConfigFor(index, sid, offset, pages));
      global := ConfigWaiting;
      return 0;
    }
  }

  // ----- Messages as they come from the ring -----

  datatype RawMessage = RawMessage(action: nat, index: nat, p0: nat, p1: nat, p2: nat)

  const ACTIONS := [Request, Response, Config, ConfigAck, Cancel, CancelAck, Term, TermAck]

  /** The message of session `index`, if the code of its action is one. */
  function Decode(raw: RawMessage): Message
    requires raw.action < |ACTIONS|
  {
    Message(ACTIONS[raw.action], raw.index, raw.p0, raw.p1, raw.p2)
  }

  /** The code of each action. */
  function CodeOf(a: Action): (code: nat)
    ensures code < 8
  {
    match a
    case Request => 0
    case Response => 1
    case Config => 2
    case ConfigAck => 3
    case Cancel => 4
    case CancelAck => 5
    case Term => 6
    case TermAck => 7
  }

  /** A message as it is put into the ring. */
  function Encode(m: Message): RawMessage { RawMessage(CodeOf(m.action), m.index, m.p0, m.p1, m.p2) }

  /** Decoding and encoding undo each other, and the codes are exactly those below 8. */
  lemma DecodeEncode(m: Message, raw: RawMessage)
    ensures Encode(m).action < |ACTIONS| == 8 && Decode(Encode(m)) == m
    ensures raw.action < |ACTIONS| ==> Encode(Decode(raw)) == raw
  {
    assert raw.action < |ACTIONS| ==> CodeOf(ACTIONS[raw.action]) == raw.action;
  }

  /** Handles a message from the ring, for the session that it names: nothing happens
      if there is no such session, or no such action. */
  method HandleRawMessage(sessions: seq<Session>, raw: RawMessage)
    requires |sessions| == SESSIONS && forall i :: 0 <= i < SESSIONS ==> sessions[i].index == i
    modifies if raw.index >= SESSIONS then {}
             else {sessions[raw.index], sessions[raw.index].outbox, sessions[raw.index].signals}
    ensures raw.index < SESSIONS && raw.action < |ACTIONS| ==>
              var s := sessions[raw.index];
              var r := OnMessage(old(s.Value()), raw.index, Decode(raw)); s.Became(r.v, r.sent)
    ensures raw.index < SESSIONS && raw.action >= |ACTIONS| ==>
              var s := sessions[raw.index];
              s.Became(old(s.Value()), []) && s.signals.pending == old(s.signals.pending)
  {
    if raw.index >= SESSIONS || sessions[raw.index].free {
      return;
    }
    if raw.action < |ACTIONS| {
      sessions[raw.index].HandleMessage(Decode(raw));
    }
  }
}
