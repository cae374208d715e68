# A verified model of the ProvenCore driver's communication with the secure world

The driver and the secure world talk through shared memory: two rings of
messages, two notification registers, a signal register per session and
direction, and pages that sessions allocate. This project models those parts
in Dafny and proves what holds in every run. `dafny verify dfyconfig.toml`
checks it.

## Structure

| module | models |
|---|---|
| Platform | shared constants |
| Index32, Capacity, BulkCopy | wrapping 32-bit indices and masks; the capacity macros; copying in two pieces |
| UniRing, BiRing | the two ends of either ring, as the C functions run them on their fields |
| UniProtocol, BiProtocol | both ends at once, one atomic load or store per step, beside a history of unbounded indices and messages |
| Notification | ring, notification register, signal registers, interrupt, work item and drain, composed |
| Interrupts | how seldom the other world is interrupted, and that nothing is told twice |
| Dispatch | the loop that tells sessions of their signals |
| SessionProtocol | one session's state machines: message handlers and the sections of the public calls |
| Exchange | a session with its peer over two channels, step by step |
| Lifetimes | its lifetimes from configuration to closing, and what holds throughout |
| Answers | what its calls report, and when they are refused |
| Events | when each of its events is pending, which messages do nothing, what messages carry |
| Announcements, Endings | when its events are true; what the end of a session announces, and when that of a termination is noticed |
| SharedRings | all sessions over the two shared rings; how full these get |
| Writes | the sessions and the ring to the secure side as one machine; when a write is dropped |
| Drops | a run in which a session's own write is dropped |
| BlockList, Shm, SessionMemory | the block list as a value, the linked list that is rewritten in place, and who owns which block |

The concurrent modules are state machines: a state, a datatype of steps, a
predicate that says when a step can be taken, and a function that takes it.
Theorems are about every state of every run. Interleavings are sequentially
consistent, which the fence between a store and the load after it justifies for
the pattern used. Histories (unbounded indices, message logs, serial numbers of
requests, who sleeps) only record; no step depends on them.

The object-like parts are classes. Each method is proved equal to a function on
values, and the state machines are built from these same functions, so what
holds of the machines holds of the methods. What a peer may store at any time,
an interrupted semaphore or a failing allocation is a parameter. The methods that
do no more than transcribe their C function in this way have no rows below:

| class | methods | source |
|---|---|---|
| UniRing.Shared, Producer, Consumer | constructors, Checkout(Helper), Produce(N), Consume(N), AdvanceN, Commit | pnr_ring.h:1157-1605 |
| BiRing.Shared, Client, Server | constructors, Checkout(Helper), Produce, Consume, Commit | pnr_ring.h:1784-2245 |
| SessionProtocol.Session | HandleRequest, -Response, -ConfigAck, -Cancel, -CancelAck, -TermAck, -Message | session.c:214-455 |
| SessionProtocol.Session | DoSendRequest, DoGetResponse, DoGetRequest, DoSendResponse, DoCancelStart, DoCancelFinish | session.c:992-1570 |

## What the proofs brought up

- ree.h counts at most 5 messages of a session in one direction. It can be 6: a
  cancellation that crossed the response may still be unconsumed when the next
  request and its cancellation are sent (`Lifetimes.SixCanBeUnconsumed`; that run
  needs a second thread, or a wait for the cancellation that timed out, to close
  the session meanwhile). The ring is large enough for that: 168 of 256 slots.
- "Ring buffer can never be full" is nevertheless not a consequence. The reader
  publishes its consumption only after its whole drain, and a drain that keeps
  finding messages can hold all 256 slots back: `Drops.SessionWriteDropped` is a run
  in which a session's request is lost. `Writes.WriteDropsIff` gives the exact
  condition; `Writes.NothingLost` shows that holding back at most 88 is safe.
- Two terminations that cross wake neither closing thread; both run into the
  timeout (`Endings.CrossedTerminationsWakeNobody`). Nor is a closing thread woken if
  any other thread of its side comes to the end of a wait on the session before the
  acknowledgement arrives (`Endings.OtherWaitEndsFirst`). `Endings.AckWakesIff` gives
  the exact condition under which the acknowledgement sets the event that the closing
  thread waits for; another waiter for a response may still take that event.
- A cancelled request leaves its event pending, so a wait for a request can end
  at once with `-EAGAIN` (`Announcements.EventWithoutRequestIff` says exactly when),
  which the documentation of the call does not list. A wait for a response can do so
  too (`Announcements.EventWithoutResponseIff`), which the documentation says should
  never occur: the event that the acknowledgement of the configuration has set may
  still be pending when another thread sends its first request
  (`Announcements.EventWithoutResponse`).
- Cancelling again while a cancellation is waited for logs an error, sends nothing
  and then waits; whoever finishes such a wait when the answer has been taken gets
  `-EFAULT` (`SessionProtocol.CancelTwice`).
- An acknowledged cancellation is told apart from a response only by the thread whose
  wait for it ends. If another thread fetches the response, or cancels, first, it is
  handed out 0 as the response to a request that the peer's application never saw
  (`Answers.CancelledIsHandedOut`; `Answers.ToldTheTruth` says what holds in general).
- `pnc_session_alloc` passes the number of pages on in 32 bits: 2^44 bytes ask
  for zero pages. A block of zero pages in use is the one thing that keeps the
  allocator from merging free neighbours, and from first fit, if it lies inside
  the fit (`BlockList.WalkIsFirstFit`, `BlockList.EmptyLiveSeparates`). The message
  that configures a session keeps the number of pages in 16 bits
  (`SessionProtocol.ConfigForTells`).
- Interrupted while closing, a session forgets a block that stays in use
  (`SessionMemory.Sessions.Release`).
- The bulk functions of the ring copy but do not advance, although their comments
  read as if they did; they are specified together with the functions that do.

## Model

| member | source | states |
|---|---|---|
| UniProtocol.Preserved | include/misc/provencore/pnr_ring.h:1186-1592 | every atomic load or store of producer or consumer, in any interleaving, keeps: 32-bit words are the images of unbounded indices, the indices are ordered, the masked array holds what is not known to be consumed, and a sleeper with something to wake for has a wake-up owed |
| UniProtocol.ConsumedIsPrefix | include/misc/provencore/pnr_ring.h:526-603 | in every reachable state what was consumed is a prefix of what was produced, and cons.shared <= cons <= cons_end <= prod.shared <= prod <= prod_end <= cons.shared + capacity for the unbounded indices behind the words |
| UniProtocol.RefinesQueue | include/misc/provencore/pnr_ring.h:1319-1327 | each production with room enqueues its message, each consumption with something to consume dequeues the oldest one and reads it from the masked array, and every other step leaves the queue alone |
| UniProtocol.NoClobber | include/misc/provencore/pnr_ring.h:1319-1327 | the slots that the producer may write are none of those of unconsumed messages or of messages it does not know to be consumed, also across the 2^32 wrap |
| UniProtocol.CheckoutTells | include/misc/provencore/pnr_ring.h:1209-1224 | after a checkout there is room exactly if less than one capacity is produced beyond the published consumption, and a message exactly if a published one is unconsumed |
| UniProtocol.RingsIffAwaited | include/misc/provencore/pnr_ring.h:1353-1368 | a commit returns true to a waiting peer exactly if it made the awaited index pass the peer's limit, for both directions |
| UniProtocol.NoLostWakeup | include/misc/provencore/pnr_ring.h:1431-1446 | in every reachable state a sleeping end for which something is published has been rung, or the commit in progress is bound to ring it |
| UniProtocol.FirstCommitWakesConsumer | include/misc/provencore/pnr_ring.h:1431-1446 | after a checkout of the consumer that found nothing, the first commit whose store moves the index returns true, exactly unless between its store and its last load the consumer stores the limit of a checkout that has seen the new index, and then it has consumed everything published; whatever else either end does, and whatever limits were stored before |
| UniProtocol.FirstCommitWakesProducer | include/misc/provencore/pnr_ring.h:1577-1592 | the same for a producer that found the ring full and the consumer's commits: true exactly unless the producer has meanwhile filled the ring again and asked anew |
| UniRing.ProducerAlwaysConfined | include/misc/provencore/pnr_ring.h:590-595 | for any sequence of arbitrary values published by the peer, window and productions since the last checkout are together at most one capacity |
| UniRing.ConsumerAlwaysConfined | include/misc/provencore/pnr_ring.h:590-595 | the same for the consumer |
| UniRing.MaskedIndexInBounds | include/misc/provencore/pnr_ring.h:1324 | so every masked index is in bounds and one checkout permits at most one capacity of productions or consumptions |
| BiRing.ClientAlwaysConfined | include/misc/provencore/pnr_ring.h:671-676 | for any sequence of arbitrary values published by the server, the client never consumes, or is permitted to, more responses than it has published requests, and has room exactly while fewer than one capacity of its requests lack a consumed response |
| BiRing.ServerAlwaysConfined | include/misc/provencore/pnr_ring.h:671-676 | for any sequence of arbitrary values published by the client, the server never consumes, or is permitted to, more than one capacity of requests beyond its published responses, and has room exactly while it has answered fewer than it has consumed |
| UniRing.BulkIsRepeated | include/misc/provencore/pnr_ring.h:1341-1345 | copying in bulk and advancing equals producing one message after the other until messages or slots run out |
| UniRing.BulkConsumptionIsRepeated | include/misc/provencore/pnr_ring.h:1564-1569 | copying out in bulk and advancing equals consuming one message after the other until enough or all are consumed |
| BulkCopy.RangesInOrder | include/misc/provencore/pnr_ring.h:917-936 | the two pieces of a range list the slots of begin, begin + 1, ... in order, for every begin including the wraps |
| BulkCopy.StoredAt | include/misc/provencore/pnr_ring.h:986-1006 | storing up to one ringful changes exactly the slots of the window, each to its message |
| BulkCopy.CopyToRing | include/misc/provencore/pnr_ring.h:986-1006 | the two block copies equal storing min(count, free) messages one by one |
| BulkCopy.CopyFromRing | include/misc/provencore/pnr_ring.h:951-971 | the two block copies equal loading min(count, unconsumed) messages one by one, and touch no more of the target |
| BulkCopy.RoundTrip | include/misc/provencore/pnr_ring.h:951-1006 | what was stored in a window is loaded back from it, in order |
| Index32.CommitTestIffPassed | include/misc/provencore/pnr_ring.h:1365-1367 | the unsigned test (prod - last) > (limit - last) holds exactly if limit is walked over from last up to but excluding prod, modulo 2^32 |
| Index32.CommitTestExactly | include/misc/provencore/pnr_ring.h:1589-1591 | on unbounded indices, for every limit however old, it holds exactly if the limit or an index with the same 32-bit image lies in [last, prod) |
| Index32.CommitTestUnbounded | include/misc/provencore/pnr_ring.h:1589-1591 | so it holds exactly if last <= limit < prod, for every limit less than 2^32 ahead of last and at most 2^31 behind it; one left further behind can ring without need |
| Index32.MaskIsMod | include/misc/provencore/pnr_ring.h:545-557 | index & (2^k - 1) is index mod 2^k |
| Index32.SlotOfWrap | include/misc/provencore/pnr_ring.h:545-557 | the masked 32-bit index is the unbounded index modulo the capacity, for every capacity up to 2^31 |
| Capacity.RoundDownIndexCorrect | include/misc/provencore/pnr_ring.h:832-881 | the five nested macros yield the largest power of two up to 2^31 that is at most x, 0 only for 0 |
| Capacity.SizeToCapacityLargest | include/misc/provencore/pnr_ring.h:1616-1633 | the capacity for a size is the largest one whose ring fits; 0 exactly if not one slot does |
| Capacity.SizeToCapacityInverse | include/misc/provencore/pnr_ring.h:1616-1633 | sizing for a capacity and computing the capacity of that size gives it back, for every power of two up to 2^31 |
| BiProtocol.Preserved | include/misc/provencore/pnr_ring.h:1813-2232 | every step of client or server keeps the invariant of the bidirectional ring |
| BiProtocol.IndicesOrdered | include/misc/provencore/pnr_ring.h:608-686 | cc <= sp <= sc <= cp <= cc + capacity in every reachable state, over private and published copies; responses and requests sit in the slots of their indices as what they are |
| BiProtocol.RightKind | include/misc/provencore/pnr_ring.h:1904-1914 | the client only ever consumes the next response and the server the next request; neither reads a slot of the other kind |
| BiProtocol.RoomIff | include/misc/provencore/pnr_ring.h:2201-2210 | the server has room exactly while it has answered fewer requests than it consumed, so one response per request never fails; the client exactly while fewer than one capacity of requests lack a consumed response |
| BiProtocol.NoClobber | include/misc/provencore/pnr_ring.h:1973-1983 | no slot that one side may write is one that the other may read or write |
| BiProtocol.RingsIffAwaited | include/misc/provencore/pnr_ring.h:1989-2004 | a commit returns true to a waiting peer exactly if it made the awaited index pass |
| BiProtocol.NoLostWakeup | include/misc/provencore/pnr_ring.h:2066-2080 | a sleeping side for which something is published has been rung or is bound to be |
| BiProtocol.FirstCommitWakesServer | include/misc/provencore/pnr_ring.h:2066-2080 | after a checkout of the server that found nothing, the first commit of requests returns true, exactly unless the server has in between consumed them all and stored the limit of a checkout that had seen them |
| BiProtocol.FirstCommitWakesClient | include/misc/provencore/pnr_ring.h:1838-1852 | the same for a client that found nothing and the server's commits of responses |
| Notification.Preserved | drivers/provencore/ree/session.c:510-585 | every step of senders, interrupt, work item, drain and receiving applications keeps: a set register bit means that the work item will look; a published message or a set signal is under way |
| Notification.NoStrandedMessage | drivers/provencore/ree/session.c:139-163 | in every reachable state, if a published message is unconsumed, then the drain is running or about to, or the MESSAGE bit is set and an interrupt or queued work is owed, or a sender has yet to set it, or its commit is bound to return true |
| Notification.DrainEndsEmpty | drivers/provencore/ree/session.c:571-580 | the drain ends only when every published message is consumed, and the work item only when the consumption is published |
| Notification.DrainBounded | drivers/provencore/ree/session.c:571-580 | whatever the senders do, one drain consumes at most one capacity of messages and takes at most 4 * capacity + 6 steps |
| Notification.NoStrandedSignal | drivers/provencore/ree/session.c:463-474 | a signal register that is not clear means a sender mid-send, the session's bit set and a look owed, the session still to be visited, its event pending, or somebody about to collect |
| Notification.SignalsConserved | drivers/provencore/ree/session.c:1605-1699 | signals sent on a session are exactly those received together with those still in its register |
| Notification.QuiescentMeansDelivered | drivers/provencore/ree/session.c:139-163 | when nobody is in the middle of anything, all published messages are consumed, the notification register is clear, and every session with signals has its event pending (or just taken) |
| Notification.NeverStuck | drivers/provencore/ree/session.c:510-630 | while anything is under way, some step that carries it on can be taken |
| Notification.BoundedDelivery | drivers/provencore/ree/session.c:510-630 | once nothing new is sent, the steps that deliver are at most as many as the backlog says, in any interleaving; so delivery completes |
| Interrupts.OneRaisePerLook | drivers/provencore/ree/session.c:150-160 | in every run the interrupts raised, or about to be, are exactly as many as notifications found the register clear, and these at most one more than the times the other side has looked |
| Interrupts.OneNotificationPerRing | drivers/provencore/ree/session.c:148-155 | the messages bit is set, or about to be, exactly as often as a commit has returned that the peer must be notified |
| Interrupts.OneNotificationPerCollect | drivers/provencore/ree/session.c:1617-1640 | a session's bit is set, or about to be, exactly as often as signals were sent to its clear signal register, and that at most one time more than they were collected, empty sends apart |
| Interrupts.CollectedOnce | drivers/provencore/ree/session.c:1668-1671 | a signal that can be collected after the session's signals were collected has been sent since |
| Interrupts.TakenOnce | drivers/provencore/ree/session.c:463-474 | a signal event that is pending after it was taken has been set since, by a round that visited the session |
| Dispatch.EachOnce | drivers/provencore/ree/session.c:549-561 | one round tells exactly the sessions of the mask, each once |
| Dispatch.InOrder | drivers/provencore/ree/session.c:549-561 | in the order of their places behind the starting session |
| Dispatch.Dispatcher.Round | drivers/provencore/ree/session.c:544-566 | the do-while loop ends from every start, sets the SIGNAL event of exactly the sessions in the mask, and moves the start on by one if there were any |
| Dispatch.Dispatcher.HandleSignal | drivers/provencore/ree/session.c:463-474 | sets the session's SIGNAL event |
| Dispatch.Fair | drivers/provencore/ree/session.c:563-566 | any 28 rounds with signals in a row start at every session exactly once |
| Lifetimes.OneToken | drivers/provencore/ree/session.c:992-1026 | while neither side has ended the session, every request ever sent in either direction is in exactly one place: under way, at the server, answered by one response or cancel-acknowledgement under way, or learnt of once; also when a cancellation crosses the response |
| Lifetimes.AnswersAreTrue | drivers/provencore/ree/session.c:1488-1570 | each answer a client learns of is the very reply the server's application made to that very request as it fetched it, or a cancellation of a request it never fetched; there is one per request, in order, and a notified client holds that of its latest |
| Answers.ToldTheTruth | drivers/provencore/ree/session.c:1028-1056 | in every state of every lifetime a notified client gets, from whichever call it makes, the reply that the peer's application made to its latest request; and the end of a cancellation reports it as done exactly if the application never saw the request, as a response exactly if it replied |
| Answers.RefusedRightly | drivers/provencore/ree/session.c:992-1056 | a configured client can ask exactly if its requests are all answered and handed out, fetch exactly if an answer waits for that, cancel exactly if it cannot ask, and gets -EPROTO or -EAGAIN otherwise; a server fetches only the latest request, as it was asked and once, and replies exactly while one is fetched and not replied to |
| Answers.NothingKept | drivers/provencore/ree/session.c:1043-1049 | in every state a role's message buffer is clear unless it holds a message to be fetched, or the reason of a refused configuration |
| Answers.CancelledIsHandedOut | drivers/provencore/ree/session.c:1519-1530 | a reachable state in which a request was taken back and another call would hand out a response to it |
| Lifetimes.NoBreakOfProtocol | drivers/provencore/ree/session.c:214-264 | what a configured side receives next always suits its state: the break-of-protocol branches for requests, responses and cancel-acknowledgements are unreachable |
| Announcements.NothingUnannounced | drivers/provencore/ree/session.c:878-933 | a notified request or answer has its event pending, or a thread has taken the event and not yet fetched |
| Announcements.AnnouncedIff | drivers/provencore/ree/session.c:214-236 | while a side is configured, the event of a request is pending or taken exactly if the request received last has not been fetched |
| Announcements.KnownWithoutRequestIff | drivers/provencore/ree/session.c:296-322 | a request's event is pending, or was taken by a wait after which nothing has been fetched, although fetching reports -EAGAIN, exactly if a cancellation has taken the last request back before it was fetched (the server was notified) and none has come since |
| Announcements.EventWithoutRequestIff | drivers/provencore/ree/session.c:296-322 | in every state of every lifetime: while configured, the event bit of a request is set although fetching reports -EAGAIN exactly if a cancellation took back a request that had not been fetched while its event was set, and since then no request has come and no wait has taken the event |
| Announcements.EventWithoutResponseIff | include/misc/provencore/ree_session.h:297-298 | likewise for a response: exactly if the acknowledgement of the configuration has set the event, or a cancellation has come to its end and left it set, and since then no answer has come and no wait has taken it |
| Announcements.EventWithoutResponse | include/misc/provencore/ree_session.h:297-298 | so a request sent while the configuration is still announced finds its wait over at once and nothing to fetch, which is said never to occur |
| Announcements.EventWithoutRequest | drivers/provencore/ree/session.c:307-313 | and it happens: a cancelled request leaves its event behind, and fetching then reports -EAGAIN |
| Events.EventNext | drivers/provencore/ree/session.c:214-393 | in every lifetime an event is pending after a move exactly if the move set it, or it was pending and the move has not taken it, fetched what it announced or begun a new lifetime; a request or an answer sets one exactly if the side is configured, an acknowledgement exactly if the side waits for it, the peer's termination all exactly if the side is configured |
| Events.StaysPending | drivers/provencore/ree/session.c:917-924 | so an event stays pending, however many moves later, until one of those that take it |
| Events.UnsuitedIgnored | drivers/provencore/ree/session.c:214-455 | whatever a misbehaving peer sends, in any state, a message that does not suit the session's states, or is for a closed session, changes nothing and is not answered |
| Events.TooLate | drivers/provencore/ree/session.c:214-455 | in a lifetime these are only messages that come after the session has ended or been closed, cancellations after their request was fetched, and termination acknowledgements not waited for |
| Events.AlwaysFormatted | drivers/provencore/ree/ree.h:233-251 | in every state the messages under way name their session, cancellations, terminations and the acknowledgements of either carry nothing, and all but the configuration only the 32-bit parameter |
| Endings.NoStrandedTermination | drivers/provencore/ree/session.c:354-393 | while a side waits for the acknowledgement of its termination, one of the two is under way, or it has been woken, or the peer's own termination crosses |
| Endings.AckWakesIff | drivers/provencore/ree/session.c:383-393 | the acknowledgement of a termination sets the event that the closing thread waits for exactly if the session was not free when the termination was sent and, since then, the side has not received the peer's own, no wait of any of its threads has ended and it has not finished closing; else the acknowledgement changes no event |
| Endings.OtherWaitEndsFirst | drivers/provencore/ree/session.c:855-858 | one thread's wait that ends while another closes keeps the acknowledgement from waking that, though the peer has not terminated: a reachable state with nothing under way and no event |
| Endings.NeverWoken | drivers/provencore/ree/session.c:354-393 | and a side that has terminated, was not woken and would no longer be is not woken for the rest of the lifetime |
| Endings.CrossedTerminationsWakeNobody | drivers/provencore/ree/session.c:354-393 | when both sides terminate at once, both acknowledgements arrive and neither closing thread is woken |
| Endings.TermWakesAll | drivers/provencore/ree/session.c:359-367 | in every lifetime, a configured side that receives the peer's termination has all three events pending |
| Endings.CloseWakesAll | drivers/provencore/ree/session.c:1093-1106 | and so has a side that finishes closing |
| Endings.TermIsReported | drivers/provencore/ree/session.c:843-876 | from then on no call can begin and every wait that ends reports -EPIPE and frees the session, unless the side itself is terminating |
| Endings.ConfigAckWakes | drivers/provencore/ree/session.c:269-291 | either answer to a configuration sets the event that its thread waits for; a refusal is reported as -EPIPE, with its reason kept |
| Lifetimes.MoveKeeps | drivers/provencore/ree/session.c:214-455 | every handler and every section of a call on either side, in any interleaving, keeps the invariant that these rest on |
| Lifetimes.AtMostSixUnconsumed | drivers/provencore/ree/ree.h:296-331 | at most 6 messages of a session to the secure side are unconsumed, in every reachable state |
| Lifetimes.SixCanBeUnconsumed | drivers/provencore/ree/ree.h:296-316 | and 6 are reached, one more than the itemised maximum, which overlooks a cancellation that crossed the response |
| Lifetimes.SixExactlyIf | drivers/provencore/ree/ree.h:296-316 | they are three of a client, an answer and both terminations; the documented 5 hold as long as not both sides have sent a termination |
| SharedRings.MoveProjects | drivers/provencore/ree/session.c:398-455 | on the shared rings a step of one session is that session's step on its own channels and nothing to the other 27 |
| SharedRings.RingBound | drivers/provencore/ree/ree.h:318-331 | at most 28 * 6 = 168 of 256 slots of the ring to the secure side hold unconsumed messages, whatever the sessions do |
| Writes.WriteDropsIff | drivers/provencore/ree/session.c:172-186 | a write finds no room, and silently drops its message, exactly if the unconsumed and the consumed-but-uncommitted messages fill the ring together |
| Writes.NothingLost | drivers/provencore/ree/session.c:172-186 | in every run of all sessions and the ring together in which the secure side holds back at most 88 consumed messages, no write is dropped: the ring carries exactly the messages the sessions have under way, in order, and the next one read from the masked array is the next of them |
| Writes.DroppedThoughConsumed | drivers/provencore/ree/session.c:571-580 | a drain that goes on for one capacity of messages leaves the ring full though everything is consumed, so that the next write is dropped |
| Drops.SessionWriteDropped | drivers/provencore/ree/session.c:992-1026 | in a run of the sessions and the ring together a session's own request is lost though every message before it is consumed: it may send, the write finds no room, and the ring stays as it is |
| SessionProtocol.HandleRawMessage | drivers/provencore/ree/session.c:398-455 | a message from the ring is handled by the session it names; one for no session or with no known action does nothing |
| SessionProtocol.Session.HandleTerm | drivers/provencore/ree/session.c:354-378 | acknowledged in every state; the signals pending for the peer are cleared, and all events set, only if configured |
| SessionProtocol.Session.DoSendTerm | drivers/provencore/ree/session.c:943-967 | clears the signals pending for the peer in any case, and sends one termination unless interrupted, in whatever state the session is by then |
| SessionProtocol.Session.CheckConfigured | drivers/provencore/ree/session.c:777-831 | which of the five errors is reported, each exactly for its cause, and 0 exactly if the session is open and configured |
| SessionProtocol.Session.FinishWait | drivers/provencore/ree/session.c:913-932 | takes the awaited events if the wait succeeded; returns 0 exactly if it did and the session is configured, or its own termination is noticed, and -EPIPE if the session has ended; what that does to the session's memory |
| SessionProtocol.Session.DoSendConfig | drivers/provencore/ree/session.c:1171-1232 | names the session's own block, or none; which error exactly when, and 0 exactly if the session is open and unconfigured |
| SessionProtocol.Session.CheckTerminated | drivers/provencore/ree/session.c:843-876 | each result exactly for its cause; a side that terminated itself is done; a terminated one is freed, forgets its memory and reports -EPIPE |
| SessionProtocol.Session.FinishClose | drivers/provencore/ree/session.c:1093-1106 | the session is closed, forgets its memory and wakes every waiter, whether or not the semaphore was obtained |
| SessionProtocol.CancelTwice | drivers/provencore/ree/session.c:1488-1548 | cancelling waits exactly if the client waits for an answer or for that of a cancellation, and sends a cancellation only in the first case; one that finishes its wait when the answer has been taken gets -EFAULT |
| SessionProtocol.ConfigForTells | drivers/provencore/ree/session.c:1212-1225 | the configuration keeps the identifier but for its two top bits, which are set, tells the offset of the session's memory exactly below 2^32 and its size exactly below 2^16 pages; two sizes look the same exactly if they are equal modulo 2^16 |
| SessionProtocol.ConfigsApart | drivers/provencore/ree/session.c:1221-1225 | with fewer than 2^32 pages in all, what two sessions tell of their memories are pages of their own, disjoint and none of them reserved |
| SessionProtocol.DecodeEncode | drivers/provencore/ree/ree.h:233-251 | the eight actions have the codes 0 to 7 in the order of their declaration; decoding and encoding undo each other |
| SessionProtocol.Outbox.Write | drivers/provencore/ree/session.c:177-186 | appends the message if there is room, and drops it without a word otherwise |
| BlockList.WalkIsFirstFit | drivers/provencore/ree/shm.c:79-147 | for every n > 0: the walk returns the lowest run of n adjacent free pages and removes exactly those pages, or fails only if there is none or memory for a split is missing, and then leaves the set of free pages as it was, if no empty block in use lies inside the lowest such run; and, memory for a split being there, only if |
| BlockList.NoPagesTaken | drivers/provencore/ree/shm.c:79-147 | for n = 0 the walk changes no page; it succeeds only if there is a free block, and if there is one fails only for lack of memory for a split |
| BlockList.FirstFitStartsRun | drivers/provencore/ree/shm.c:79-147 | the pages returned start a maximal run of free pages |
| BlockList.WalkPartitions | drivers/provencore/ree/shm.c:90-143 | merging, splitting and donating keep the list a contiguous partition |
| BlockList.WalkKeepsLive | drivers/provencore/ree/shm.c:90-143 | no block in use is moved, resized or freed, and only the result joins them, with exactly n pages |
| BlockList.NoEmptyLiveKept | drivers/provencore/ree/shm.c:99-101 | an allocation leaves no empty block in use exactly if it fails or asks for at least one page |
| BlockList.EmptyLiveSeparates | drivers/provencore/ree/shm.c:104-113 | a concrete list in which an empty block in use hides five free pages in a row |
| BlockList.ReleasePages | drivers/provencore/ree/shm.c:149-164 | releasing a block in use makes exactly its pages free |
| BlockList.AlwaysPartition | drivers/provencore/ree/shm.c:58-62 | over any sequence of allocations and releases the list partitions [3, nr_pages), its first block stays first, and no block in use is empty unless zero pages were asked for |
| BlockList.AlwaysNonEmpty | drivers/provencore/ree/shm.c:58-62 | and no block at all, free or in use, is empty unless zero pages were asked for or there are none behind the reserved ones |
| BlockList.LiveUntilReleased | drivers/provencore/ree/shm.c:79-164 | a block in use stays as it is through any sequence of operations on others |
| Shm.Init | drivers/provencore/ree/shm.c:40-64 | one free block behind the reserved pages, or -ENOMEM without memory for it |
| Shm.Allocator.constructor | drivers/provencore/ree/shm.c:52-63 | one free block behind the reserved pages |
| Shm.Allocator.Search | drivers/provencore/ree/shm.c:90-122 | the walk over the linked list, merging nodes in place as it goes, ends at the block (or end) where the walk over the value of the list ends; it ends by the number of nodes ahead |
| Shm.Allocator.Settle | drivers/provencore/ree/shm.c:98-143 | taking, donating to the next free node, splitting off a new node, or failing, in place, as the value says |
| Shm.Allocator.Alloc | drivers/provencore/ree/shm.c:79-147 | in place: the list becomes the walk's, the result is the node it names, which was not in use; first fit over the free pages for n > 0 unless an empty block in use divides the fit; the head and every node in use stay untouched; an interrupted call changes nothing |
| Shm.Allocator.Free | drivers/provencore/ree/shm.c:149-164 | marks exactly that node free; nothing happens for null or if interrupted |
| SessionMemory.PagesForEnough | drivers/provencore/ree/session.c:1124-1136 | the pages asked for hold the size exactly if it is at most 2^32 - 1 pages; 2^44 bytes ask for none |
| SessionMemory.Sessions.Alloc | drivers/provencore/ree/session.c:1124-1136 | each result exactly for its cause; it succeeds exactly if the walk finds a block, so with memory for a split, and if no empty block in use divides the fit, exactly if there are enough adjacent free pages, and then takes the first fit; sessions' blocks stay distinct and in use, and all there are in use if they were |
| SessionMemory.Sessions.Release | drivers/provencore/ree/session.c:1085-1109 | the session forgets its block; the one-to-one correspondence survives exactly if there was none or the allocator's semaphore was obtained |
| SessionMemory.Sessions.PagesDisjoint | drivers/provencore/ree/session.c:1124-1136 | page ranges of different sessions are disjoint and outside the reserved pages |

## Left out

- Weak memory orders, padding, volatile reads and concurrent changes of message contents; steps are sequentially consistent and messages are values.
- E_RESET, module exit and the start-up handshake on the header's magic number; everything starts with the shared memory ready, as the initialisation leaves it.
- Timed-out and interrupted waits as events of their own: calls on either side may be taken up or abandoned by any thread at any time once the session has been found configured, which covers them for all waits but two. A wait for configuration is assumed not to time out, and a session slot is assumed to be opened again only when both sides have closed it and none of its messages is left in the rings, as after a termination handshake in which no wait timed out and that overtook no call.
- Exchange.Configure: how the secure side treats A_CONFIG is not in the repository; it accepts and is configured, or refuses. In all else the secure side is assumed to run the mirror image of the driver's code.
- What the driver leaves in the role fields and message buffers of a closed session; a new lifetime starts with them cleared, which the acknowledgement of its configuration does before anything reads them.
- Exchange, Lifetimes and SharedRings let every write find room; Writes.NothingLost discharges that for the ring to the secure side, under its margin.
- The ring to the non-secure side is not bounded in the same way: the driver is its reader, and how the secure side writes to it is not in the repository.
- Each side sends at most one A_TERM in a lifetime (one thread closes the session).
- Notification: the order in which one round of signals tells the sessions is left open there and settled in Dispatch; the other direction's commit at the end of the handler is the sender's part of the same model; clearing a signal register at termination is done by SessionProtocol.Session.HandleTerm and DoSendTerm and is no step of this machine, so conservation of signals is per lifetime.
- Notification.BoundedDelivery: says that delivery takes boundedly many steps once nothing new is sent, not that the scheduler takes them.
- Writes.NothingLost: the margin of 88 messages is sufficient for every mix of sessions; the exact condition for one write is Writes.WriteDropsIff. A write's checkout and production are one step there, which only the reader could interrupt, and only by making room.
- BlockList.WalkIsFirstFit: without memory for splitting a block only one direction holds, since failing for that reason may coincide with what first fit would have done.
- SessionMemory.PagesForEnough: assumes an unsigned long of 64 bits and pages of 4096 bytes.
- Overflow of a size in bytes computed from a capacity, and pointers: slots are positions in an array.
- The peek and advance-by-one functions of the rings, which produce and consume in two calls what the modelled functions do in one.
- That the configuring call returns the reason of a refusal, which Endings.ConfigAckWakes says is kept for it, and resets it (session.c:1239-1256).
- Configuration by service name (session.c:1195-1211) and the obsolete combined request call; get_mem and get_version, which only read.
- main.c, smc.c and the shdev drivers: module plumbing, secure monitor calls, kernel threads and block I/O. Calling the monitor is the step that raises the interrupt.
