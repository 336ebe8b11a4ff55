# A verified model of libevent's state machines, indexes and codecs

This project models the parts of libevent 1.4.3 that carry real invariants and proves them for all inputs, all reachable
states and all runs: the balanced search trees of the Windows port, the asynchronous DNS resolver (message codec and
request protocol), the reactor core, the byte buffer with the tagged serialization and the generated RPC code on top of
it, the interest tables of the backends, and HTTP chunked transfer coding.

The kernel, the clock, `malloc`, the network and user callbacks are an arbitrary environment: readiness, times, results of
allocations and sends, replies, and the calls that callbacks make are parameters or lists that every statement quantifies
over.

How the files are organized:

- `Basics`: optional values, bytes, bits and powers of two.
- `Trees`, `RedBlackTree`, `SplayTree`: entries live in a memory indexed by addresses and are rewritten in place, with parent
  links, by the algorithms of `tree.h`. Ghost trees and paths say what the links mean. The mirror-image halves of the
  algorithms are one body with a `Side`.
- `DnsName`, `DnsMessage`: names with compression, responses, and the reply parser.
- `Nameservers`, `Resolver`, `ResolverRequests`, `ResolverLookups`, `ResolverRuns`, `ResolverSafety`, `ResolverLaws`, `EvDns`: the
  request protocol as functions on a state value, what its steps keep, its runs, what each step does, and the class that
  performs the steps in place.
- `TimeVal`, `Queues`, `Reactor`, `EventLoop`: times, the queues of a base as values, and the base as an object.
- `EvBuffer`, `Tagging`, `Rpc`: the sliding-window buffer, the codecs, and the generated marshal and unmarshal code for every
  schema, recursive ones included.
- `Interest`, `PollBackend`, `SelectBackend`, `DevPollBackend`, `EpollBackend`, `Win32Backend`: one abstract interest map and the
  five tables that implement it.
- `HttpChunked`, `HttpUri`: chunked coding under fragmentation, and URI coding.

State that the source updates in place is a class whose methods are proved equal to step functions on values
(`Value() == Step(old(Value()))`); the laws are proved about those functions.

Where code and comments disagree the model follows the code:

- `reply_handle` says that a SERVERFAILED reply lets the request time out (evdns.c:719-727); the code goes on to the next
  search candidate or reports the failure at once, and so does the model.
- `evdns_clear_nameservers_and_suspend` says that suspended requests go to the front of the waiting queue because they are
  older (evdns.c:2044-2050); they do, but in reverse order (`ResolverSafety.SuspendKeeps`).
- `do_fd_clear` tests the wrong variable for "this indicates a bug" (WIN32-Code/win32.c:220-222); `Win32Backend.LastOwner` shows
  that the entry searched for always exists.

Properties that hold only under a condition, with the condition:

- Unmarshalling returns the marshalled message, of any size, if and only if the message is readable
  (`Rpc.MessageReadBack`): every payload, nested ones included, is shorter than 2^32 - 1 bytes, and at every item the tag and
  the length stand within what the decoder sees, which is the number of bytes left taken as a 32-bit int (nothing if that is
  negative). For a message of less than 2^32 bytes in which no payload is cut this is the same as less than 2^31 bytes
  (`Rpc.OrdinaryReadable`). Longer messages may be readable again: `Rpc.LongMessage` has one of 2^32 + 12 bytes. The model
  keeps, as the code does, only the low 32 bits of a payload's length, and cuts the payload accordingly.
- An integer and a tag are decoded from a buffer if and only if their encoding lies within those visible bytes
  (`Tagging.IntReadBack`, `Tagging.TagReadBack`).
- `devpoll_del` keeps the kernel's set and the table in step exactly when the second, unchecked queueing does not fail
  (`DevPollBackend.DevDelOk`, with an input in `DevPollBackend.LostWriter`). Over a whole history with any results of the
  commits, table and kernel agree about a descriptor if and only if the last successful deletion there was no such failure;
  otherwise the kernel watches less than the table asks for, never more (`DevPollBackend.DevTracks`).
- Chunked decoding returns the chunks and leaves the final line end if and only if no cut separates CR and LF of a size line,
  the size lines of chunks that consist of line feeds only excepted (`HttpChunked.ChunksReadBack`, with an input in
  `HttpChunked.UnsafeCut`). At such a cut the line feed is taken for the first byte of the data; the end marker "0" is never
  excepted, since its line feed would be left over.
- In win32.c, "the tree holds exactly the sockets that have an event" survives every insertion but one: a new entry is made,
  the first array that it needs is full, and growing it fails. `Win32Backend.Win32Op.Insert` says exactly when, and
  `Win32Backend.LeftoverEntry` is an input.
- In epoll.c, table and kernel stay in agreement after a deletion if and only if epoll_ctl succeeds or the slot did not change
  (`EpollBackend.EpollDelOk`).

## Model

| member | source | states |
|---|---|---|
| Trees.HeightBound | WIN32-Code/tree.h:53-54 | two to the height of a red-black tree is at most (n+1) squared, that is, the height is at most 2 lg(n+1) |
| RedBlackTree.EventMap.RotateLeft | WIN32-Code/tree.h:335-353 | the in-place rotation of parent-linked entries gives the rotated tree with the same in-order listing and keeps every other link |
| RedBlackTree.EventMap.RotateRight | WIN32-Code/tree.h:355-373 | the mirror image |
| RedBlackTree.EventMap.InsertColor | WIN32-Code/tree.h:391-432 | from one possible red-red edge the fix-up loop restores a red-black tree with the same listing |
| RedBlackTree.EventMap.RemoveColor | WIN32-Code/tree.h:435-509 | from one place that lacks a black node the fix-up loop restores a red-black tree with the same listing |
| RedBlackTree.ShortSibling | WIN32-Code/tree.h:439-473 | the sibling that the fix-up loop reads is never null |
| RedBlackTree.EventMap.Remove | WIN32-Code/tree.h:511-575 | removes exactly the given entry from any valid tree; search order, parent links, colors, black heights and a black root are kept |
| RedBlackTree.EventMap.Insert | WIN32-Code/tree.h:579-606 | adds exactly the entry, or returns the entry that has the key and changes nothing; all red-black conditions are kept |
| RedBlackTree.EventMap.Find | WIN32-Code/tree.h:610-624 | finds an entry if and only if its key is in the tree |
| RedBlackTree.EventMap.Next | WIN32-Code/tree.h:627-645 | returns the entry listed right after the given one, or null at the end |
| RedBlackTree.EventMap.MinMax | WIN32-Code/tree.h:648-661 | returns the first or the last entry of the listing, or null |
| RedBlackTree.EventMap.ForEach | WIN32-Code/tree.h:672-675 | visits every entry once, in ascending order of keys |
| SplayTree.RotatedSpread | WIN32-Code/tree.h:80-91 | a rotation during a splay keeps the tree between the two lists, the lists themselves and the whole listing |
| SplayTree.LinkedSpread | WIN32-Code/tree.h:93-103 | linking moves the root to the list of the other side and keeps order and listing |
| SplayTree.AssembledLinked | WIN32-Code/tree.h:105-110 | assembling puts both lists under the root: a search tree again |
| SplayTree.SplayMap.Splay | WIN32-Code/tree.h:203-235 | keeps the listing of every search tree and brings the key to the root if present, and otherwise a neighbour: no key lies between root and key; cells outside the tree are untouched |
| SplayTree.NearestFinds | WIN32-Code/tree.h:122-130 | after a splay, membership of the key shows at the root |
| SplayTree.SplayMap.Find | WIN32-Code/tree.h:122-130 | membership; the set is unchanged |
| SplayTree.SplayMap.Insert | WIN32-Code/tree.h:158-179 | set insertion, or the entry that has the key |
| SplayTree.SplayMap.Remove | WIN32-Code/tree.h:182-200 | set deletion; true exactly if the key was present |
| SplayTree.SplayMap.MinMax | WIN32-Code/tree.h:147-151 | returns the first or the last entry of the listing, which is kept |
| DnsName.ParseFrom | evdns.c:756-809 | ends on every packet, cyclic pointers included, since jumps left plus room left falls; success gives a name that fits with its terminator and an index behind the start and at most the length |
| DnsName.NameParse | evdns.c:756-809 | the loop computes that function, writes the name with its terminating zero, and leaves the index alone on failure |
| DnsName.ParseDenoted | evdns.c:756-809 | where the bytes denote labels, through any chain of pointers, the parser returns exactly those labels and the index just past them |
| DnsName.ParseExact | evdns.c:756-809 | on any packet, the parser returns a name if and only if the bytes spell it, through at most as many pointers as there are bytes, and it fits, and then exactly that name |
| DnsName.WriteSpells | evdns.c:1336-1399 | the bytes written for a name denote its labels, and so does every entry added to the compression table |
| DnsName.WriteThenParse | evdns.c:1336-1399 | a name written behind any message and table is read back without its trailing dot, with the index behind it, whatever follows |
| DnsName.AllNamesReadBack | evdns.c:1296-1399 | for any sequence of well-formed names written with one table, also when the 128 entries are used up, the parser at each start returns the original name and the next index; section 4.1.4 of RFC 1035 |
| DnsName.WriteFits | evdns.c:1358-1399 | a well-formed name is rejected only for want of room |
| DnsName.DnsnameToLabels | evdns.c:1336-1399 | the loop writes the same bytes and makes the same table entries in place |
| DnsMessage.RecordReadBack | evdns.c:1641-1668 | a written record is found again by the parser: name, type, class, ttl, length and data |
| DnsMessage.AnswersReadBack | evdns.c:871-932 | parsing the written answers collects exactly the matching ones, in order |
| DnsMessage.QuestionsSkipped | evdns.c:857-865 | skipping the written questions ends at the first answer |
| DnsMessage.ResponseReadBack | evdns.c:1594-1688 | the client's parser applied to the formatted response yields what collecting the answers yields |
| DnsMessage.AddressesReadBack | evdns.c:812-940 | for every no-error response of at most 512 bytes, the reply holds the first 32 addresses of the asked type in order and the smallest ttl of the first k records, where k is exact: fewer than k records hold less than 32 addresses, and k stops short of all records only if k records hold 32; there is an answer if and only if some record has the asked type; section 4.1.3 of RFC 1035 |
| DnsMessage.FlagBits | evdns.c:842-845 | the mask 0x8000 is the top bit, and the mask 0x020f the truncation bit and the four bits of the error code; section 4.1.1 of RFC 1035 |
| DnsMessage.ErrorsRejected | evdns.c:842-845 | a packet that is no response, is truncated, or has an error code is not read |
| DnsMessage.HeaderBytes | evdns.c:1612-1625 | the header of a response is six numbers of 16 bits, high byte first: id, flags, and the four counts |
| DnsMessage.ResponseFits | evdns.c:1626-1668 | a response of well-formed names is refused only for want of room: not if its names, uncompressed, and its fields take at most 1500 bytes |
| DnsMessage.ResponseBound | evdns.c:1626-1668 | a response stays within 1500 bytes, but for the final zero of a name, which is written unchecked |
| DnsMessage.ReadAnswer | evdns.c:871-932 | the loop body is the step function on answers |
| DnsMessage.ReplyParse | evdns.c:813-940 | the parser's loops compute that outcome on every packet |
| Nameservers.RaiseOk | evdns.c:541-551 | recovery keeps the count of good servers equal to the number of servers up |
| Nameservers.LowerOk | evdns.c:493-510 | so does failure, and the count stays non-negative as asserted |
| Nameservers.AddOk | evdns.c:2112-2127 | so does adding a server |
| Nameservers.PickOk | evdns.c:1108-1139 | a pick returns a member of the ring, the next server that is up whenever there is one, and moves it to the end of the turn |
| Nameservers.PicksSpread | evdns.c:1104-1139 | with k servers up, k picks in a row return k different servers, exactly those that are up |
| Nameservers.PickTurns | evdns.c:1108-1139 | a pick turns the ring to behind the server picked and passes over servers that are down only; with none up the ring turns by one and its new head is picked |
| EvDns.Globals.NameserverPick | evdns.c:1108-1139 | the loop computes the pick, and its assertion that all servers are down cannot fail |
| EvDns.Globals.NameserverUp | evdns.c:541-551 | afterwards the server is up, every other server is as before, and the count is again the number of servers up |
| EvDns.Globals.NameserverFailed | evdns.c:493-537 | lowers the server and reassigns the unsent requests it had, as FailedIs and ReassignIs say |
| EvDns.Globals.RequestTransmit | evdns.c:1901-1941 | the send in place, for every result of the socket, which TransmitIs tells apart |
| EvDns.Globals.Transmit | evdns.c:1977-1996 | sends every marked request of the ring |
| EvDns.Globals.PumpWaitingQueue | evdns.c:624-651 | fills the inflight ring; its assertion holds |
| EvDns.Globals.RequestFinished | evdns.c:562-592 | takes the request out of its ring and pumps |
| EvDns.Globals.RequestSubmit | evdns.c:2198-2250 | puts a new request into the right ring, as SubmitIs says |
| EvDns.Globals.ResolveName | evdns.c:2253-2300 | accepts a lookup under a fresh number |
| EvDns.Globals.ReplyCallback | evdns.c:654-686 | runs the callback with its error, as AnswerIs says; it may ask for further names |
| EvDns.Globals.RequestReissue | evdns.c:601-619 | moves the request to another server if there is one, as ReissueIs says |
| EvDns.Globals.SearchTryNext | evdns.c:2521-2558 | the next candidate, if there is one and its packet can be built, takes the lookup over; Resolver.CandidatesAre says which names these are and in which order, HandOver and BadReplyIs what becomes of the lookup |
| EvDns.Globals.ReplyHandle | evdns.c:690-753 | keeps the invariant; the state changes by the reply step, of which GoodReplyIs and BadReplyIs say what each reply leads to, and ReplyHandled that it brings the lookup closer to its end |
| EvDns.Globals.TimeoutCallback | evdns.c:1849-1873 | keeps the invariant; the state changes by the timeout step, of which TimeoutIs says what it leads to and TimeoutHandled that it brings the lookup closer to its end |
| EvDns.Globals.SendProbeTo | evdns.c:1958-1972 | keeps the invariant; the probe enters the inflight ring even beyond the maximum |
| EvDns.Globals.WriteCallback | evdns.c:1234-1243 | keeps the invariant; the server is unchoked and every marked request is sent |
| EvDns.Globals.ClearNameserversAndSuspend | evdns.c:2013-2060 | keeps the invariant if no probe is in flight; SuspendKeeps says where the inflight requests go |
| EvDns.Globals.NameserverAdd | evdns.c:2072-2127 | one more server is up and counted, no server leaves the ring, and the invariant of the resolver is kept |
| EvDns.Globals.PacketFrom | evdns.c:1143-1157 | a packet resets the timeout count of the server that was read; keeps the invariant whether or not it answers a request |
| EvDns.Globals.Handle | evdns.c:561-753 | every event of the environment is handled exactly if it can happen, changes the object by the step of the run model, and keeps the invariant |
| EvDns.Globals.Drive | evdns.c:561-753 | the states a new object passes through while it handles any events are a run, so that RunSafe and LookupEnds hold of it |
| Resolver.FirstNameIs | evdns.c:2482-2517 | a search starts with the first of the candidates, which CandidatesAre spells out |
| Resolver.NextNameIs | evdns.c:2521-2558 | and goes on with the others one after the other, each exactly once |
| Resolver.CandidatesAre | evdns.c:2455-2517 | the candidates: the name alone without domains or search; otherwise, for each domain in order, what starts with the name and ends with the domain, with one dot between unless the name ends in one; and the name itself, first if it has at least ndots dots and last if it has fewer |
| Resolver.SearchAsksAll | evdns.c:2482-2558 | a search that is never answered asks for all candidates, each once and in order, and for nothing else |
| ResolverRequests.TransmitProgress | evdns.c:1880-1941 | a transmission keeps requests well-formed and only brings them closer to their end, for every result of the send |
| ResolverRequests.ReassignProgress | evdns.c:528-536 | so does the walk of nameserver_failed |
| ResolverLookups.PumpMoves | evdns.c:624-651 | pumping moves requests and nothing else, and ends with an empty waiting ring or a full inflight ring |
| ResolverLookups.FinishEvolves | evdns.c:562-592 | removing an answered request loses no lookup |
| ResolverRuns.ResolveEvolves | evdns.c:2198-2250 | a new lookup is carried by exactly one request, in one ring |
| ResolverRuns.AnswerEvolves | evdns.c:654-686 | a callback, with any further lookups it starts, hands exactly one lookup from its request to the completed ones |
| ResolverSafety.ReplyHandled | evdns.c:690-753 | every reply completes its lookup or brings it strictly closer to its end in (candidates left, reissues left, transmissions left), and loses or doubles none |
| ResolverSafety.TimeoutHandled | evdns.c:1849-1873 | the same for every timeout |
| ResolverSafety.HandOver | evdns.c:733-742 | the next search candidate takes the lookup over from the finished request |
| ResolverSafety.SuspendKeeps | evdns.c:2013-2060 | suspension keeps every lookup and puts the inflight ones, newest first, before the waiting ones |
| ResolverSafety.StepSafe | evdns.c:561-753 | every event of the environment keeps the invariant |
| ResolverSafety.StepSound | evdns.c:561-753 | every event keeps the whole invariant: settled, and every lookup accounted for |
| ResolverSafety.RunSafe | evdns.c:561-753 | at every moment of every run the counters are the ring lengths, non-probe inflight requests are within the maximum, each inflight request has a live server and a timer or pending transmission, good servers are counted right, and every accepted lookup is carried by exactly one request or its callback ran exactly once |
| ResolverSafety.LookupEnds | evdns.c:1849-1941 | without suspension a lookup sees at most a fixed number of replies and timeouts, given by candidates, reissues and transmissions left, and then its callback has run exactly once |
| ResolverLaws.GoodReplyIs | evdns.c:690-753 | a reply with clear truncation and error bits and an answer: the callback is told NoError once, the server is up when the request leaves, and stays up unless a send to it fails |
| ResolverLaws.BadReplyIs | evdns.c:690-753 | any other reply: which flags mean which error, never NoError; a request that moved to another server is not answered; otherwise the next candidate of the search is asked for under the same lookup if its packet can be built, and else the callback is told the error |
| ResolverLaws.JudgeIs | evdns.c:700-731 | not implemented and refused bring the server down and move the request on while it may be reissued; a broken server is left alone, as those two are without reissues left; any other error shows that the server is up |
| ResolverLaws.ReissueIs | evdns.c:601-619 | a reissued request goes to another server of the ring, one that is up if any is, unsent and counted; it stays where it is only if the pick is its own server, which then is up if any is |
| ResolverLaws.AnswerIs | evdns.c:654-686 | a callback is told its error once and its further lookups are accepted; the answer to a probe brings its server up if there was no error or the name does not exist, and is one failure more otherwise; no server gets better by further lookups |
| ResolverLaws.TimeoutIs | evdns.c:1849-1873 | a timeout is counted, and the server fails with the one after the allowed row; a request sent often enough ends with the callback told TimedOut, any other one is sent again |
| ResolverLaws.FailedIs | evdns.c:493-537 | a server that fails goes down with its first failure counted, and exactly the unsent requests it had go to the servers of as many picks, in ring order; one that is down already is left as it is |
| ResolverLaws.ReassignIs | evdns.c:524-536 | the walk changes the server of exactly those requests, one pick each, in ring order, and nothing else |
| ResolverLaws.TransmitIs | evdns.c:1880-1941 | what a transmission leaves: marked if the server is choked; sent, counted and armed; marked with the server choked if the socket would block; or sent after the server failed |
| ResolverLaws.TransmitAllTries | evdns.c:1977-1996 | without hard failures every marked request of the ring is sent, or its server is choked; the others are untouched, and servers only get choked |
| ResolverLaws.SubmitIs | evdns.c:2239-2250 | a new request goes to the next server that is up, and is sent, if there is room in flight; otherwise it waits, last of all |
| ResolverLaws.ResolveIs | evdns.c:2253-2517 | a lookup is accepted under the next number exactly if its packet can be built, and its request asks for the first candidate and has the others left |
| ResolverLaws.FinishIs | evdns.c:562-592 | the request leaves, the others keep their order, waiting ones move up until none waits or the inflight ring is full, and nothing is completed by it |
| ResolverLaws.PumpHarmless | evdns.c:624-651 | when pumping promoted a request, no request is left to be sent but to a choked server, if no send fails for good; pumping makes no server better |
| ResolverLaws.ProbeIs | evdns.c:1958-1972 | a probe goes to the server to be probed and to no other, however many requests are in flight, and touches no lookup |
| ResolverLaws.SuspendIs | evdns.c:2013-2060 | no server is left, and every request that was in flight waits as it did when it was new, with its name and its search |
| TimeVal.LessIsLess | evutil.h:154-157 | comparing normalized times field by field is comparing durations |
| TimeVal.Add | evutil.h:125-133 | adds durations and keeps values normalized |
| TimeVal.Sub | evutil.h:134-142 | subtracts durations and keeps values normalized |
| TimeVal.MillisRoundsUp | poll.c:143-144 | rounding to milliseconds never shortens the wait and adds less than one |
| TimeVal.ShiftKeepsOrder | event.c:1087-1096 | a uniform shift keeps the order of deadlines |
| Reactor.GoodPutOn | event.c:1173-1216 | queueing keeps every flag bit equal to membership in the matching queue, and both counters equal to what they count |
| Reactor.GoodTakeOff | event.c:1134-1164 | so does dequeueing |
| Reactor.DeletedGood | event.c:941-986 | a deleted event is on no queue and nothing else changes |
| Reactor.ActivatedGood | event.c:997-1011 | activation keeps the invariant |
| Reactor.ActivatedIs | event.c:997-1011 | an active event gathers the results and stays where it is; another one takes them, with its number of calls, and stands last in its priority queue; nothing else changes |
| Reactor.ScheduledGood | event.c:878-912 | a scheduled event waits for its new deadline only, not for the callback of an earlier timeout |
| Reactor.AddedGood | event.c:861-937 | event_add keeps the invariant for every outcome of heap and backend |
| Reactor.AddedIs | event.c:861-937 | for every outcome of heap and backend: without room in the heap nothing changes and the result is -1; otherwise, with a timeout, the event is in the heap with the deadline now plus tv, in microseconds; an event not yet registered is on its queue exactly if the backend succeeded; no other event, queue or flag changes |
| EventLoop.PerformedGood | event.c:796-1011 | every call of the interface that a callback may make keeps the invariant |
| EventLoop.FireAllIs | event.c:1103-1130 | after firing a list of events, each of them left every queue and stands, in that order, at the end of its own priority queue |
| EventLoop.EventBase.constructor | event.c:209-262 | a new base satisfies the invariant |
| EventLoop.EventBase.QueueInsert | event.c:1173-1216 | keeps the invariant; appends to the matching queue, sets the flag and counts, or does nothing for an event that is active already |
| EventLoop.EventBase.QueueRemove | event.c:1134-1164 | of an event on the queue, keeps the invariant, clears the flag, counts down, and takes the event out of the matching queue |
| EventLoop.EventBase.Add | event.c:861-937 | keeps the invariant and does what AddedIs says: the deadline now plus tv, the registration exactly if the backend succeeded, nothing at all if the heap has no room, no other event touched, and the result |
| EventLoop.EventBase.Del | event.c:941-986 | keeps the invariant; the new state is the deletion that DeletedGood characterizes, and the result is the backend's or zero |
| EventLoop.EventBase.Activate | event.c:997-1011 | keeps the invariant and does what ActivatedIs says: an active event only gathers results, another one is appended to its priority queue |
| EventLoop.EventBase.PrioritySet | event.c:796-810 | refused while active or out of range |
| EventLoop.EventBase.TimeoutNext | event.c:1023-1058 | no wait limit exactly if there are no timers; otherwise zero if the earliest deadline has passed, and else exactly earliest minus now |
| EventLoop.EventBase.TimeoutCorrect | event.c:1067-1097 | if the clock went back, every timer moves by the same amount and deadline order is kept |
| EventLoop.EventBase.TimeoutProcess | event.c:1103-1130 | activates exactly the expired events, in deadline order, and leaves only later ones |
| EventLoop.EventBase.RunEvent | event.c:444-459 | the event just taken is called exactly as often as it asked for, whatever callbacks do, unless a callback breaks the loop or resets the counter; then at least once and no more often; first with its active flag clear and, unless persistent, on no queue; every call is recorded with the results and flags the event then has and with what the callback left behind |
| EventLoop.EventBase.ProcessActive | event.c:424-461 | the queue chosen is the first non-empty one; whatever callbacks do, the trace of the pass consists of takings of heads of that queue, each followed by the calls of the event taken, finished before the next is taken; the pass breaks off exactly if a callback broke the loop, and the queue is empty afterwards otherwise; if callbacks leave the base alone, exactly that queue runs, in order; the assertion on a non-empty queue holds |
| EventLoop.CalledFromQueue | event.c:433-446 | in such a trace every callback belongs to an event that was an active member of the chosen queue, with its priority, and at its head, when it was taken off |
| EventLoop.CalledAsAsked | event.c:446-459 | in such a trace an event taken off is called exactly as often as it asked for, unless the last of its calls broke the loop or reset its counter: then at least once, no more than it asked for, and no earlier call did so |
| EventLoop.ResetsIs | event.c:889-964 | a call made by a callback resets a running counter if and only if it deletes the running event, or replaces its timeout while it is active again, with calls left |
| EventLoop.EventBase.Dispatch | event.c:612-616 | after a dispatch that succeeds every reported event is active with its reported results, behind those active before and in the order of the reports; no other event changes |
| EventLoop.EventBase.Drain | event.c:626-640 | if an event is active a pass over the first busy queue is made to its end or to a break; otherwise nothing runs |
| EventLoop.EventBase.PerformRound | event.c:610-640 | one round after its beginning: the reports, the timers, and the pass stand in the record, in that order, and the trace has the calls of the pass; a failed backend leaves everything as it was |
| EventLoop.EventBase.Loop | event.c:556-641 | keeps the invariant over any number of rounds and records each: the clock is corrected; the backend may wait zero time if an event is active or the call does not block, and else what timeout_next gives; then every event it reports is active with the reported results; then exactly the timers expired by then have fired, by deadline; then a pass over the first busy queue has run if an event is active. Each round begins where the one before ended, and the loop goes on until exactly one of its reasons to end: no event of the application on any queue (1), a failed backend (-1), event_break, or a last round as once and nonblock ask (0) |
| EventLoop.WaitInTime | event.c:1023-1058 | a backend that waits no longer than its limit misses no deadline to come, and it does not wait at all if a deadline has passed |
| EventLoop.EventBase.Take | event.c:439-446 | takes the head of the queue off and records the event and its queue as they were right before; a persistent event stays registered, another one is on no queue |
| EventLoop.NothingLeft | event.c:408-411 | an event count of zero means that no event of the application is on any queue |
| EvBuffer.Buffer.constructor | buffer.c:68-75 | an empty buffer without capacity |
| EvBuffer.Buffer.Align | buffer.c:259-264 | moves the contents to the front unchanged |
| EvBuffer.Buffer.Expand | buffer.c:269-302 | keeps the contents, leaves the requested room, and keeps the capacity zero or 256 times a power of two, for every branch and failed allocation |
| EvBuffer.Buffer.Add | buffer.c:305-322 | appends to the byte sequence |
| EvBuffer.Buffer.Drain | buffer.c:325-346 | drops a prefix; an empty buffer has no misalignment |
| EvBuffer.Buffer.Remove | buffer.c:197-207 | returns and drops a prefix |
| EvBuffer.Buffer.Readline | buffer.c:215-254 | the bytes before the first line break, and what is left behind it and its second character; if the copy cannot be allocated, the line is lost and the break is left |
| EvBuffer.Buffer.Find | buffer.c:432-447 | the leftmost match, or none at all |
| EvBuffer.AddBuffer | buffer.c:99-133 | swapping and copying give the same contents |
| Tagging.IntReadBack | event_tagging.c:90-114 | decoding an encoded 32-bit integer returns it and its length, whatever follows, if and only if the encoding is visible |
| Tagging.TagReadBack | event_tagging.c:121-173 | the same for tags |
| Tagging.IntFormat | event_tagging.c:74-114 | an encoded integer has the number of its significant half-bytes minus one in its first half-byte, then these half-bytes, lowest first, filled up with zero to whole bytes |
| Tagging.TagFormat | event_tagging.c:116-142 | an encoded tag is its digits in base 128, lowest first, all but the last with the high bit set, and no more |
| Tagging.MarshalReadBack | event_tagging.c:187-194 | tag, payload and rest of a marshalled item are read back if and only if its head is visible; evtag_unmarshal fails for a payload of 2^32 - 1 bytes, whose length it takes for -1; below 2^31 bytes every head is visible |
| Tagging.IntPayloadReadBack | event_tagging.c:197-206 | a marshalled integer is read back if and only if its head is visible |
| Tagging.SplitShortest | event_tagging.c:331-351 | no item with a given tag and payload is shorter than the marshalled one |
| Tagging.FillNibbles | event_tagging.c:91-112 | the loop over the local array fills in the encoding |
| Tagging.EncodeInt | event_tagging.c:91-114 | appends the encoding, or nothing if evbuffer_add fails, whose result is ignored |
| Tagging.EncodeTag | event_tagging.c:122-142 | appends the encoding, or nothing if evbuffer_add fails or there is no buffer, and returns its length in any case |
| Tagging.ScanInt | event_tagging.c:227-257 | the accumulating loop decodes without overflow |
| Tagging.ScanTag | event_tagging.c:145-173 | the loop decodes the groups |
| Tagging.ReadInt | event_tagging.c:227-257 | decodes from a buffer and drains exactly the encoding if asked, nothing on failure |
| Tagging.ReadTag | event_tagging.c:145-173 | decodes from a buffer and drains exactly the encoding if asked, nothing on failure |
| Tagging.WriteTagged | event_tagging.c:188-194 | appends a tagged payload; each of its three parts is there exactly if its own evbuffer_add succeeded |
| Tagging.ReadTagged | event_tagging.c:331-351 | takes a tagged payload off a buffer, or fails; in either case what is left in the buffer is stated: a tag, or a tag and a length, are gone even if the rest cannot be read |
| Tagging.WriteInt | event_tagging.c:198-206 | appends a tagged integer by way of the scratch buffer; for every outcome of the allocations it states which parts are there |
| Tagging.ReadTaggedInt | event_tagging.c:356-381 | takes a tagged integer off a buffer, or fails; what is left is stated for every failure |
| Tagging.AfterIsSuffix | event_tagging.c:331-381 | reading takes bytes off the front of the buffer and nothing else, on every path |
| Tagging.LeftBehind | event_tagging.c:331-381 | a length that promises more than there is, is taken off with the tag before it; a tag that is not wanted is taken off alone |
| Rpc.PlainReadBack | event_rpcgen.py:532-610 | the payload of an int, string or bytes field, as it arrives, is the value if and only if it is shorter than 2^32 - 1 bytes |
| Rpc.ItemReadBack | event_rpcgen.py:203-257 | one turn of the unmarshalling loop: the message comes out if and only if the item is readable, holds the field's value, and the rest completes the message |
| Rpc.LoopKeeps | event_rpcgen.py:203-257 | what is set when the loop goes on is part of its result: set fields keep their values, arrays their elements |
| Rpc.MessageShortest | event_rpcgen.py:188-257 | a message is never read from fewer bytes than it marshals to |
| Rpc.FieldsReadBack | event_rpcgen.py:188-257 | reading what was written for the fields from any one on completes the message if and only if those fields are readable, with optional fields left out and arrays element by element |
| Rpc.MessageReadBack | event_rpcgen.py:188-257 | for every accepted schema, recursive ones included, and every complete message of any size, unmarshal after marshal returns an equal message if and only if the message is readable |
| Rpc.MessageComplete | event_rpcgen.py:188-257 | whatever the bytes, only complete messages are accepted: every required field is set, nested messages included |
| Rpc.MessageAccepts | event_rpcgen.py:203-257 | bytes that are accepted consist of items, each with the tag of a field, and only arrays occur more than once |
| Rpc.OrdinaryReadable | event_tagging.c:144-173 | without cut payloads, a message of less than 2^32 bytes is readable if and only if it is shorter than 2^31 |
| Rpc.LongMessage | event_tagging.c:144-173 | a readable message of 2^32 + 12 bytes |
| Rpc.TaggedMessageReadBack | event_rpcgen.py:259-297 | a message inside a stream is read back and the rest is left, if and only if its item and the message are readable |
| Rpc.RegressReadBack | test/regress.gen.c:276-420 | the instance msg, kill, run of the regression test, of ordinary size |
| Rpc.Struct.AddEntry | event_rpcgen.py:32-41 | accepts an entry exactly if its tag is new, so tags stay distinct |
| Rpc.Elements.Add | test/regress.gen.c:69-93 | the array keeps its elements and gets one more, with power-of-two allocation, and is unchanged on failure |
| Rpc.MarshalStruct | test/regress.gen.c:276-289 | the generated marshalling loop appends the encoding |
| Rpc.UnmarshalStruct | test/regress.gen.c:292-353 | the generated unmarshalling loop computes the decoding and, on success, has consumed all bytes |
| Interest.LegalPaired | event.c:918-930 | if every descriptor has at most one reader and one writer, an event that wants both stands in both places |
| PollBackend.PollAddOk | poll.c:200-295 | index and dense arrays stay inverse to each other, and the table is the interest with the event added |
| PollBackend.PollDelOk | poll.c:305-355 | the same under swap-with-last removal; it fails exactly for a descriptor nobody waits for |
| PollBackend.PollOp.Add | poll.c:200-295 | the arrays are grown and updated in place: on success the new state is the step that PollAddOk describes, and a failed allocation changes nothing |
| PollBackend.PollOp.Del | poll.c:305-355 | the arrays are updated in place by the step that PollDelOk describes, with its result |
| PollBackend.PollTells | poll.c:166-194 | for a table that holds an interest, an activation occurs if and only if it is owed: its event is reader or writer of its descriptor; it says read exactly if the event is the reader and the descriptor is readable or broken, write exactly if it is the writer and the descriptor is writable or broken, and one of them holds |
| PollBackend.PollOp.Dispatch | poll.c:166-194 | the loop activates, entry by entry, what the readiness of the entry says; so whatever interest the table holds, exactly the activations owed to it occur, with their results |
| SelectBackend.SelectAddOk | select.c:265-309 | sets and arrays agree and hold the interest with the event added |
| SelectBackend.SelectDelOk | select.c:318-343 | the same with the event's places freed |
| SelectBackend.SelectOp.Resize | select.c:201-256 | growing the sets keeps every bit and every event, and a failed allocation changes nothing |
| SelectBackend.SelectOp.Add | select.c:265-309 | the sets are grown and updated in place by the step that SelectAddOk describes |
| SelectBackend.SelectOp.Del | select.c:318-343 | the sets are updated in place by the step that SelectDelOk describes |
| SelectBackend.SelectTells | select.c:176-194 | the same for select |
| SelectBackend.SelectOp.Dispatch | select.c:176-194 | the loop activates, descriptor by descriptor, what the readiness says; so whatever interest the sets hold, exactly the activations owed to it occur, with their results |
| SelectBackend.BothHold | select.c:265-343 | after any history both backends hold exactly the same map from descriptor to reader and writer |
| SelectBackend.SameDispatch | poll.c:136-195 | for equal legal histories and equal readiness, hang-ups included, poll and select activate the same events with the same result masks, equally often, and each at most once |
| SelectBackend.DispatchTells | poll.c:136-195 | after every legal history and for any readiness, either dispatcher makes an activation if and only if the interest of the history owes it |
| DevPollBackend.QueueTells | devpoll.c:90-124 | wherever the commits fall, the kernel is told the same changes in the same order |
| DevPollBackend.DevAddOk | devpoll.c:290-342 | adding keeps table and told kernel in step, refusals and failed commits included |
| DevPollBackend.DevAddRefuses | devpoll.c:290-342 | an add is refused if and only if another event holds a place it wants, or the full log cannot be written |
| DevPollBackend.DevDelOk | devpoll.c:344-398 | deletion keeps them in step if and only if the unchecked second queueing does not fail |
| DevPollBackend.LostWriter | devpoll.c:372-390 | an input where it fails |
| DevPollBackend.DevTracks | devpoll.c:90-124 | over every history, with any buffer size, commit points and results of the commits: the table is the interest of the operations that returned zero; the kernel is told no more about a descriptor than the table asks for, and the same if and only if the last deletion there that returned zero did not lose what remained; so all is in step if and only if nothing is lost |
| DevPollBackend.WrittenTracks | devpoll.c:90-124 | if the commits succeed that operations need, every legal operation succeeds, and table and log describe exactly the interest |
| DevPollBackend.Replay | devpoll.c:290-398 | an object that goes through a history ends in the state DevTracks speaks of |
| DevPollBackend.DevPollOp.CommitChanges | devpoll.c:90-104 | the kernel takes the logged changes in order and the log is empty; a failed write changes nothing |
| DevPollBackend.DevPollOp.QueueChange | devpoll.c:105-124 | appends to the change buffer, committing first exactly when it is full |
| DevPollBackend.DevPollOp.AddEvent | devpoll.c:290-342 | table, buffer and kernel change by the step that DevAddOk describes; what was in step stays so |
| DevPollBackend.DevPollOp.DelEvent | devpoll.c:344-398 | table, buffer and kernel change by the step that DevDelOk describes; what was in step stays so if and only if nothing is lost |
| EpollBackend.EpollAddOk | epoll.c:348-448 | the operation chosen is always legal, and the kernel's mask equals the table's afterwards |
| EpollBackend.EpollDelOk | epoll.c:458-535 | the operation chosen is legal exactly if somebody waits for the descriptor, and the masks agree if and only if epoll_ctl succeeds or the slot did not change |
| EpollBackend.EpollTracks | epoll.c:348-535 | over every legal history the table is the interest and the kernel's masks are the table's |
| EpollBackend.EpollOp.AddEvent | epoll.c:348-448 | table and kernel change by the step that EpollAddOk describes, and stay in agreement |
| EpollBackend.EpollOp.DelEvent | epoll.c:458-535 | table and kernel change by the step that EpollDelOk describes, for either result of epoll_ctl |
| Win32Backend.SetOk | WIN32-Code/win32.c:176-201 | every known place holds the entry's socket and every occupied place is known by one entry, after a socket is added |
| Win32Backend.ClearMoved | WIN32-Code/win32.c:203-229 | and after the last socket moved into a freed place |
| Win32Backend.LastOwner | WIN32-Code/win32.c:216-227 | the entry of the moved socket always exists |
| Win32Backend.Win32Op.GetEntry | WIN32-Code/win32.c:158-174 | finds or creates the entry of a socket; null exactly if there is none and none can be allocated, and then nothing changed |
| Win32Backend.Win32Op.Detach | WIN32-Code/win32.c:203-229 | frees the entry's place in one array and keeps all places right |
| Win32Backend.Win32Op.Insert | WIN32-Code/win32.c:269-295 | for every outcome of the allocations: the result, the entries, and which of the two directions got the event; places, arrays and tree stay consistent; the tree still holds exactly the sockets that have an event unless a new entry got neither |
| Win32Backend.Win32Op.Delete | WIN32-Code/win32.c:298-324 | the same with the event withdrawn; an entry without events leaves the tree |
| Win32Backend.Replay | WIN32-Code/win32.c:269-324 | after every legal history with enough memory the tree holds exactly the sockets of the interest, with their events |
| Win32Backend.LeftoverEntry | WIN32-Code/win32.c:269-295 | an input where an entry without events stays in the tree |
| HttpChunked.SizeReadBack | http.c:711-712 | a printed chunk size is read back |
| HttpChunked.SizeLine | http.c:711-712 | any size line that has a number, behind spaces, a sign or 0x, is the size if and only if the number ends the line or is followed by a space; the number saturates at 64 bits |
| HttpChunked.NoSize | http.c:711-712 | a line without a number is the size zero if it begins with a space, and corrupted otherwise |
| HttpChunked.LineJudged | http.c:699-722 | on any line that stands complete in the buffer, a call reports corruption exactly if it is no size, the end of the body if the size is zero, and goes on with that size otherwise |
| HttpChunked.ReadsOn | http.c:693-742 | a call on any part of a message reads on to a later position in it or to its end, and never reports corruption; at an unsafe cut it takes the size line for complete, with its line feed still to come |
| HttpChunked.ChunksReadBack | http.c:693-742 | any message of non-empty chunks, of any length, received in any fragments, is read completely (result 1, the body is their concatenation, only the final line end is left) if and only if no cut separates CR and LF of a size line, chunks of line feeds only excepted |
| HttpChunked.ShortStream | http.c:696-698 | no call finds a buffer too long for its int if the stream is shorter than 2^31 bytes, however it is cut |
| HttpChunked.FeedGrows | http.c:729-731 | the body only grows, whatever arrives |
| HttpChunked.UnsafeCut | buffer.c:239-251 | an input where such a cut goes wrong |
| HttpChunked.EmptyChunkEnds | http.c:1724-1737 | an empty chunk is the same bytes as the end of the message |
| HttpChunked.Request.HandleChunkedRead | http.c:693-742 | the loop on buffers computes that function |
| HttpChunked.SendReplyChunk | http.c:1724-1737 | appends the chunk to the output and empties the data buffer |
| HttpUri.EncodeCharIs | http.c:1782-1829 | letters, digits and sixteen marks stay, every other byte becomes a percent sign and its two digits in upper-case base 16 |
| HttpUri.UriReadBack | http.c:1811-1862 | decoding undoes encoding for every string |
| HttpUri.EncodeUri | http.c:1812-1829 | the loop computes the encoding |
| HttpUri.DecodeUri | http.c:1832-1862 | the loop computes the decoding |

## Left out

- Sockets, reading and writing, epoll_wait, kevent, port_getn, signal delivery, logging, formatted printing other than hexadecimal sizes, configuration and build scripts.
- The timer heap's shape (min_heap.h is not part of this model): a top is any event with the earliest deadline, so ties fire in any order.
- EventLoop.EventBase.Loop: event_gotterm and signal callbacks of the loop are not modelled, and gettime does not fail.
- Events that carry both signal and I/O bits, event_set on a pending event, and changing the number of priorities while events exist.
- EventLoop.EventBase.TimeoutCorrect: does not state that remaining times survive repeated backward steps of the clock, because the code does not update event_tv there.
- EventLoop.EventBase.RunEvent: the counter that ev_pncalls points to is one flag of the base; when an event that was interrupted in an earlier pass is deleted later, the source writes through a stale pointer to a counter of that pass, and the model then interrupts the running event.
- The in-place form of evdns_server_request_format_response: DnsMessage models it as a function on byte sequences, over which DnsName.DnsnameToLabels is proved; the path that truncates responses over 512 bytes is not modelled.
- Replies to PTR lookups, evdns_request_data_build and the server side of evdns.c other than the response format.
- DnsName.DnsnameToLabels: takes one spare byte behind the buffer as a precondition, since the final zero byte is written without its own check.
- DnsName.NameParse: a label that runs past the packet fails at once; the source copies it first and fails in the next round.
- Transaction ids, so that a reply is an event about one inflight request; changes of options and search domains while lookups run; memory exhaustion in the resolver other than a request that cannot be built.
- evdns_shutdown, suspension with a probe in flight, resumption without a server, and duplicate server addresses.
- Tagging.ReadTag: a tag of more than five bytes shifts by 32 or more, which C leaves undefined; the model drops those bits.
- Tagging.ReadTagged: the destination has memory for the payload.
- EvDns.Globals.ReplyCallback: a callback may only ask for further names; calls that change the servers are events of their own.
- EvDns.Globals.WriteCallback: the flag write_waiting, which only decides whether the socket is watched for writing, is not modelled.
- Rpc.MessageReadBack: the number of elements of an array is unbounded, where the generated code counts them in an int; memory suffices.
- Rpc.UnmarshalStruct: fixed-length bytes entries are missing, since the generator fails on them; a missing required struct counts as incomplete, where the generated check dereferences a null pointer; accessor functions and freeing are not modelled.
- EvBuffer.Buffer.Expand: sizes are unbounded, so the overflow of size_t is not modelled; change callbacks of buffers are not modelled.
- Growth of the tables of epoll and devpoll, which does not cover the descriptor it is called for when it equals the table's size; descriptors are within the table.
- Dispatch in devpoll, epoll and win32.
- Win32Backend.Win32Op.Insert: a failed realloc in realloc_fd_sets overwrites the pointer to the set with null in the source (WIN32-Code/win32.c:128-150); the model keeps the arrays.
- HttpChunked.ChunksReadBack: each chunk, and what a call finds in the buffer, is shorter than 2^31 bytes, since the loop keeps the length in an int (ShortStream); the chunk callback is not modelled.
- SPLAY_NEXT, the duplicate copy of the trees in tree.h, evrpc, bufferevents, kqueue.c, evport.c and the HTTP connection state machine.
