# IOHandler: a verified model of its queues, buffers and state machines

IOHandler is a single-threaded event multiplexer in C. It waits with select, epoll or kqueue and
calls its clients back for timers, sockets and DNS lookups. What can go wrong in it is not in the
system calls but in what it keeps between them, and that is what is modelled here:

| files | what they model |
|---|---|
| `TimeVals`, `Schedule`, `Timers` | the timer list: an intrusive doubly linked list sorted by deadline, every operation on it, and the trigger loop |
| `Waits` | how long select and epoll wait for the first timer |
| `Buffers`, `Lines`, `ReadBuffer` | the read buffer and the line splitter that edits it in place |
| `WriteQueue` | the write buffer |
| `Addresses`, `Lifecycle`, `LifecycleRuns`, `SocketEvents`, `LookupRuns`, `ClientSockets` | the life of a connecting socket: lookups, family choice, fallback, SSL handshake, data, closing |
| `DnsQueue`, `DnsQueries` | the query list and the loop of the default DNS engine |
| `CaresProtocol`, `CaresQueries`, `CaresTable` | one query under the c-ares engine, and its socket table |
| `Deferral`, `Collector` | the deferred-free queue |

`Basics` holds what they share. `dafny verify dfyconfig.toml` checks all of it.

Most components come in two layers. A class has the fields of the source's structs and methods
with its loops and pointer updates, and each method is proved equal to a step of a function on
plain values (`Schedule.Run`, `Lines.Pass`, `Lifecycle.Step`, ...). What the source promises is
then proved of those functions, for every input and every run.

The system, the resolver and the SSL library are inputs: clock readings, the cuts recv makes,
what a write takes, what a lookup returns, how a handshake goes on, and what a client sends from
inside its callbacks. The clock is a function from
the number of the reading to a time value; where a property needs it, it never goes back.

## Where the code falls short of its intent

In these places the code as written is modelled together with a repaired step, which a comment in
the Dafny text names. For the written code the project proves exactly when it does what it should.

- `src/IOHandler/IOTimer.c:198-206` and `:264-267` leave the links of a timer that is taken out.
  `Timers.TimerList.LinkIn` is the insertion as written and says when the list survives it;
  `Timers.RearmAsWritten` says when it survives arming a listed timer again,
  `Timers.ReloadAsWritten` the same of popping the head and reloading it, and
  `Timers.BrokenFromEmpty` builds the smallest run that breaks it. The repaired step clears the
  links.
- `src/IOHandler/IOSockets.c:869` shortens the write buffer without moving the rest to the front.
  `WriteQueue.InOrderIffAllOrNothing` says which schedules of writes keep the order. The repaired
  step moves it.
- `src/IOHandler/IOSockets.c:1112` looks at the byte in front of the delimiter to see whether the
  line is empty, also at index -1. `Lines.ScanAgreesIff` and `Lines.AsWrittenInvariantIff` say when
  that does no harm. The repaired test compares positions.
- `src/IOHandler/IOSockets.c:1122` compares with the byte behind the delimiter table, and `:1125`
  may count one byte more than there is. `Lines.NeverOverrunsIff` says when that cannot happen. The
  repaired loop skips to any delimiter and stays inside the buffer.
- `src/IOHandler/IOGarbageCollector.c:101` leaves `last_object` at a freed entry when the queue
  empties. `Collector.GarbageCollector.AddObject` then links new objects behind that entry, and
  `Deferral.LosesIffAddedAfterEmptied` says which runs lose objects.
- `src/IOHandler/IODNSEngine_cares.c:221-224` uses a pointer after setting it to NULL.
  `CaresProtocol.AsWrittenFaultsIffLate` says which runs reach it.

More results are about the code as it stands:

- `iodns_abort` (`src/IOHandler/IODNSLookup.c:220-231`) does not clear the descriptor's pointer to
  the query it frees. `DnsQueue.ProcessFaultsIff` says which clients of the default engine make it
  use freed memory: those that abort a query again after the first abort has freed it, also from
  the callback of a delivery. By `DnsQueue.RunSafe` a client that aborts no query twice is safe in
  every run.
- The milliseconds epoll waits are an int. With the timeout that is always given they are right
  exactly in the cases of `Waits.LoopWaitExactIff`: a timer 30 days ahead makes epoll wait without
  end, one 50 days ahead does no harm.
- A deadline can keep 1000000 microseconds, because the carry test of `IOTimer.c:247` is `>`.
  `Waits.SelectWait` says when select is therefore asked for 1000000 microseconds, which it may refuse.
  The 100 ms of `iohandler_run` exclude it; longer calls of `iosocket_loop` do not.
- `IOSockets.c:867` turns the failure of an SSL write into 0, so that its caller does not tell the
  engine about a rehandshake. By `LifecycleRuns.RunInterest` that is the one way to a stale
  interest, by `LifecycleRuns.StaleInterest` it is reached, and by
  `LifecycleRuns.RehandshakeAgrees` the next event puts it right.
- After a handshake that fails for good the engine is asked to update a socket that has been freed
  (`IOSockets.c:963`, `:1034`): `LifecycleRuns.UpdatesFreedIff`.
- A socket whose destination is a literal address forgets it when its bind host had to be looked up
  (`IOSockets.c:414-415`), and connects to none; a literal bind address is forgotten when the
  destination was looked up (`:397-398`). `LifecycleRuns.AddressForgottenIff` says that it is so in
  exactly these cases.
- A handshake that waits to write is armed for writing only while bytes are queued:
  `LifecycleRuns.HandshakeArmedIff`.

## Model

| member | source | states |
|---|---|---|
| TimeVals.Reload | src/IOHandler/IOTimer.c:244-250 | adding a period keeps the total of microseconds exact; the result has 0 to 1000000 microseconds, and exactly 1000000 only when the parts add up to that |
| TimeVals.BiggerThanClock | src/IOHandler/IOInternal.h:23-24 | for such a deadline and a normalised clock reading the lexicographic comparison is the order of the totals |
| TimeVals.BiggerRefinesMicros | src/IOHandler/IOInternal.h:23-24 | between two deadlines it refines the order of the totals |
| Schedule.InsertSorted | src/IOHandler/IOTimer.c:209-228 | inserting in front of the first later deadline keeps a queue sorted |
| Schedule.InsertPosUnique | src/IOHandler/IOTimer.c:209-228 | that position is the only one with no later deadline before it and a later one behind it: equal deadlines stay in the order of arming |
| Schedule.FiringSpendsBudget | src/IOHandler/IOTimer.c:244-283 | with positive periods and clock readings up to a bound each firing strictly shrinks the sum over the queue of max(0, bound + 1 - deadline): the trigger loop ends |
| Schedule.RunNeverEarly | src/IOHandler/IOTimer.c:257-283 | in every run firing number i happens at reading number i and not before its deadline |
| Schedule.RunFiresInOrder | src/IOHandler/IOTimer.c:257-283 | firings follow the order of the deadlines, whatever the clock reads in between, also across reloads |
| Schedule.RunLeavesNothingDue | src/IOHandler/IOTimer.c:257-283 | after a run no armed timer is due at the last reading; the clock was read once per firing and once more unless the queue ran empty |
| Schedule.AdvanceDeadline | src/IOHandler/IOTimer.c:244-252 | after c reloads a deadline is exactly c periods later |
| Schedule.NoDrift | src/IOHandler/IOTimer.c:244-252 | firing number j of a periodic timer was due exactly j periods after the first deadline, whatever the trigger times |
| Schedule.RunSettles | src/IOHandler/IOTimer.c:254-283 | the account of each timer after a run: a one-shot fired once and is gone, or did not and is untouched; a periodic timer fired at successive deadlines and is armed as many periods later as it fired |
| Schedule.RunIgnoresAbsent | src/IOHandler/IOTimer.c:254-283 | a timer that is not in the queue never fires and does not turn up in it |
| Schedule.RunFiresWhatIsDue | src/IOHandler/IOTimer.c:254-283 | the closed form: how often a timer fires depends only on the last reading, and is the number of its deadlines up to then |
| Timers.PutChained | src/IOHandler/IOTimer.c:209-229 | once the list is opened at a position for a timer, it is well formed with it if and only if the timer's own links hold its neighbours |
| Timers.CutChained | src/IOHandler/IOTimer.c:198-206 | passing over one timer in both directions leaves a well formed list of the others |
| Timers.TimerList.LinkIn | src/IOHandler/IOTimer.c:209-229 | the insertion as written puts the timer at the stable position, and the list is well formed afterwards if and only if the timer went in front of another one or had no stale links |
| Timers.TimerList.Unlink | src/IOHandler/IOTimer.c:198-206 | unlinking as written takes exactly this timer out of a well formed list and keeps its own links |
| Timers.TimerList.PopAsWritten | src/IOHandler/IOTimer.c:264-267 | popping the head as written leaves a well formed list of the others, and the head keeps its links |
| Timers.RearmAsWritten | src/IOHandler/IOTimer.c:197-230 | unlinking a listed timer and inserting it again as written leaves the list well formed if and only if the timer was the last one or another timer is due after its new deadline |
| Timers.ReloadAsWritten | src/IOHandler/IOTimer.c:244-270 | popping the head and reloading it as written leaves the list well formed if and only if it was alone or another timer is due after its new deadline |
| Timers.BrokenFromEmpty | src/IOHandler/IOTimer.c:197-230 | two timers created and started, and the first armed again behind the second, give a list that is not well formed |
| Timers.TimerList.Rearrange | src/IOHandler/IOTimer.c:197-230 | from a list that is valid but for the deadline and activity of one linked or unlinked timer it makes a valid one: that timer is removed and, if active, inserted stably |
| Timers.TimerList.Create | src/IOHandler/IOTimer.c:33-49 | a new inactive timer that its descriptor and it point at; the queue is as before |
| Timers.TimerList.Start | src/IOHandler/IOTimer.c:51-59 | the timer is active and stands behind the timers with its deadline, also when it was running; no other timer starts or stops; a destroyed descriptor changes nothing |
| Timers.TimerList.Stop | src/IOHandler/IOTimer.c:61-73 | the timer leaves the queue; a persistent one lives on inactive, another one is destroyed and its descriptor handed to the collector; no other timer starts or stops |
| Timers.TimerList.SetAutoreload | src/IOHandler/IOTimer.c:87-106 | periodic exactly when a period is given; only a timer without a deadline gets one, a period after now, and is rearranged; all other timers keep deadline and period |
| Timers.TimerList.SetTimeout | src/IOHandler/IOTimer.c:127-139 | the deadline of a linked timer changes and the timer moves to its stable place; nothing else changes |
| Timers.TimerList.SetPersistent | src/IOHandler/IOTimer.c:157-167 | sets this flag of this timer, the queue stays |
| Timers.TimerList.Destroy | src/IOHandler/IOTimer.c:169-179 | the timer is gone from list and memory, its descriptor is collected once; a second call changes nothing |
| Timers.TimerList.DestroyTimer | src/IOHandler/IOTimer.c:232-242 | the freed timer is out of the list and the rest is well formed |
| Timers.TimerList.Autoreload | src/IOHandler/IOTimer.c:244-252 | the deadline advances by one period and the timer is queued again at its stable place if it is active |
| Timers.TimerList.Turn | src/IOHandler/IOTimer.c:258-281 | one turn of the trigger loop on the linked list is one step of the run on values, and spends some of the budget; only a one-shot is destroyed |
| Timers.TimerList.Trigger | src/IOHandler/IOTimer.c:254-283 | the loop on the linked list ends, and its firings, the queue it leaves and its clock readings are those of the run on values; a timer is destroyed exactly when it is a one-shot that fired, the descriptors collected are those of the fired public one-shots in order, and a timer that did not fire keeps its deadline |
| Timers.TimerList.TurnWithCallback | src/IOHandler/IOTimer.c:264-281 | a turn whose callback creates, starts, stops, sets and destroys timers, but does not stop or destroy the one that is firing, keeps the whole invariant; the fired timer is destroyed if and only if it is a one-shot; a periodic one the callback leaves alone is queued for its next period, and other timers it leaves alone keep deadline, period and place in or out of the list |
| Timers.TimerList.DoAll | src/IOHandler/IOTimer.c:33-283 | after every sequence of create, start, stop, set_timeout, set_autoreload, set_persistent, destroy and trigger, also with deadlines and periods of 1000000 microseconds, the list is acyclic with inverse links and open ends, holds exactly the timers flagged IN_LIST, all of them active, sorted by deadline |
| Waits.CheckedBeforeWait | src/IOHandler/IOEngine_epoll.c:76-79 | after the check in front of the wait the first deadline is not past the reading it used |
| Waits.SelectWait | src/IOHandler/IOEngine_select.c:75-92 | the wait is never negative and is the smaller of the given timeout and the gap to the first deadline, to the microsecond; its microseconds are in range unless the deadline has 1000000, the reading 0 and no smaller timeout is given |
| Waits.RunWaitsInRange | src/IOHandler/IOSockets.c:1175-1180 | with the 100 ms of iohandler_run they always are |
| Waits.LoopWaitOutOfRange | src/IOHandler/IOSockets.c:1175-1180 | with 5 seconds and a deadline at 1 second and 1000000 microseconds they are not |
| Waits.EpollWait | src/IOHandler/IOEngine_epoll.c:81-91 | the milliseconds stored in an int: -1 for neither timer nor timeout, otherwise the wrapped value of the gap, of the timeout, or the smaller of both |
| Waits.RawMsecClose | src/IOHandler/IOEngine_epoll.c:82-85 | before they are stored the milliseconds are not negative and less than 1 ms from the gap, with division that truncates |
| Waits.EpollWaitExactIff | src/IOHandler/IOEngine_epoll.c:71-94 | the milliseconds handed to epoll_wait are the smaller of timeout and gap if and only if that one fits in an int and the other one, as an int, is not smaller still; then they are not negative and less than 1 ms from what is to be waited |
| Waits.LoopWaitExactIff | src/IOHandler/IOSockets.c:1175-1180 | for a call of iosocket_loop they are right if and only if the timer is less than 2^31 ms ahead, or what is left of that in an int is not less than the timeout |
| Waits.ThirtyDaysWaitForever | src/IOHandler/IOEngine_epoll.c:71-94 | whatever timeout is given a timer 30 days ahead gives a negative number, a wait without end; one 50 days ahead leaves the 100 ms of iohandler_run |
| Lines.SplitSound | src/IOHandler/IOSockets.c:1097-1139 | the one-shot split is the only way to cut a stream into delimiter-free pieces, their delimiters and a delimiter-free rest that make up the stream in order |
| Lines.ScanIsSplit | src/IOHandler/IOSockets.c:1097-1139 | a repaired pass over lines below the limit delivers the non-empty pieces of that split (all with parse_empty) and keeps its rest |
| Lines.PassIsSplitIffShort | src/IOHandler/IOSockets.c:1097-1139 | a repaired pass is the one-shot split of the buffer if and only if every line in it is below the limit |
| Lines.PassIsLimited | src/IOHandler/IOSockets.c:1097-1139 | a repaired pass over any buffer delivers every line of the one-shot split in order, of those with 1024 bytes or more the first 1023, and keeps the open rest, or delivers its first 1023 bytes and keeps nothing |
| Lines.SkipMeans | src/IOHandler/IOSockets.c:1116-1127 | the skip of an over-long line ends right behind the next delimiter or with the buffer; as written right behind the next byte that equals the one behind the table, or one byte too far |
| Lines.FirstLineCut | src/IOHandler/IOSockets.c:1116-1127 | also as written a first line of 1024 bytes or more is delivered, cut to 1023 |
| Lines.SplitAppend | src/IOHandler/IOSockets.c:1097-1139 | splitting can stop at any byte and go on from what was left |
| Lines.ChunkInvariance | src/IOHandler/IOSockets.c:1091-1145 | however recv cuts a stream of lines below the limit, the repaired passes together deliver the lines of the one-shot split of the whole stream and leave its rest |
| Lines.ScanRestBounded | src/IOHandler/IOSockets.c:1116-1139 | whatever a pass is given, written or repaired, it keeps less than 1024 bytes |
| Lines.RepairedNeverOverruns | src/IOHandler/IOSockets.c:1116-1139 | a repaired pass never counts more bytes than the buffer holds |
| Lines.ScanAgreesIff | src/IOHandler/IOSockets.c:1107-1114 | over lines below the limit the emptiness test as written gives the repaired pass if and only if empty lines are wanted or the byte in front of each delimiter is 0 exactly for empty lines |
| Lines.AsWrittenInvariantIff | src/IOHandler/IOSockets.c:1091-1145 | the splitter as written is chunk invariant on all streams of lines below the limit if and only if empty lines are wanted, or the byte in front of the buffer is 0 and NUL is a delimiter |
| Lines.NeverOverrunsIff | src/IOHandler/IOSockets.c:1120-1125 | as written no pass overruns if and only if the byte behind the delimiter table is 0 |
| Buffers.Increase | src/IOHandler/IOSockets.c:172-183 | a buffer grows to what is required, never shrinks, and keeps its contents |
| ReadBuffers.ReadBuffer.MakeRoom | src/IOHandler/IOSockets.c:1058-1069 | recv always has room, in line mode more than 128 bytes, and in line mode the buffer stays at 0, 512, 1024 or 2048 bytes |
| ReadBuffers.ReadBuffer.Receive | src/IOHandler/IOSockets.c:1073-1093 | what recv returns is appended to the contents |
| ReadBuffers.ReadBuffer.FindDelimiter | src/IOHandler/IOSockets.c:1100-1106 | the search stops inside the table if and only if the byte is a delimiter |
| ReadBuffers.ReadBuffer.SplitPass | src/IOHandler/IOSockets.c:1098-1139 | the loop that edits the buffer in place delivers the lines of the pass on values and leaves its rest at the front, or reports that the written code would overrun; repaired, these are the lines of the one-shot split of the buffer, cut to 1023 bytes where they are longer |
| ReadBuffers.ReadBuffer.OnReadable | src/IOHandler/IOSockets.c:1055-1146 | a read event with its retries is one pass per recv for some cut of the bytes it took, and it stops when one leaves room in the buffer; in every run the buffer holds less than a line between events and never exceeds 2048 bytes |
| ReadBuffers.ReadBuffer.ReadStream | src/IOHandler/IOSockets.c:1055-1146 | over as many read events as a stream takes, cut as the system likes, a client with short lines gets exactly those of the one-shot split of the stream, and the buffer keeps its rest |
| WriteQueue.Conserves | src/IOHandler/IOSockets.c:854-899 | in every run, written or repaired, bytes handed over plus bytes buffered equal bytes accepted |
| WriteQueue.RepairedInOrder | src/IOHandler/IOSockets.c:854-899 | repaired, what was handed over followed by what is buffered is the accepted stream |
| WriteQueue.AllOrNothingInOrder | src/IOHandler/IOSockets.c:854-899 | when each write takes all or nothing the written code is the repaired one |
| WriteQueue.InOrderIffAllOrNothing | src/IOHandler/IOSockets.c:854-899 | as written a schedule keeps every stream in order if and only if each of its writes takes all or nothing |
| WriteQueue.WriteBuffer.Send | src/IOHandler/IOSockets.c:876-899 | the buffer grows if needed and the data are appended |
| WriteQueue.WriteBuffer.TryWrite | src/IOHandler/IOSockets.c:854-874 | the first bytes are handed over; what stays in the array is its beginning as written, its end repaired |
| Addresses.PickRank | src/IOHandler/IOSockets.c:383-413 | the entry picked by number k has exactly k entries of its family before it |
| Addresses.RankPick | src/IOHandler/IOSockets.c:383-413 | every entry of the family is picked by exactly that number, which is in range: with PickRank, a bijection |
| Addresses.CountRecords | src/IOHandler/IOSockets.c:312-327 | the loop counts the entries of each family |
| Addresses.PickRecord | src/IOHandler/IOSockets.c:383-413 | the loop always finds its entry, the one with that number |
| LifecycleRuns.EventTraces | src/IOHandler/IOSockets.c:950-1168 | in every run, plain or SSL and whatever the callbacks send, a client sees a prefix of DNSFAILED, of NOTCONNECTED or of CONNECTED RECV* CLOSED; when the socket is gone, and not before, its descriptor has been collected once and, if it ever tried to connect, its file closed once; it is gone after a terminal event |
| LifecycleRuns.NothingFollows | src/IOHandler/IOSockets.c:793-826 | once a socket is closed no input changes anything or gives an event |
| LifecycleRuns.InterestAgreement | src/IOHandler/IOSockets.c:152-170 | after every run of a plain socket the engine waits for reading, and for writing if and only if bytes are queued or it is connecting |
| LifecycleRuns.RunInterest | src/IOHandler/IOEngine_epoll.c:41-67 | after every run of any socket it holds one exactly if the socket is active, and the computed one unless a write of an SSL socket waits for a rehandshake |
| LifecycleRuns.RehandshakeAgrees | src/IOHandler/IOSockets.c:1048-1163 | every event of a socket in a rehandshake ends with the engine holding the computed interest |
| LifecycleRuns.StaleInterest | src/IOHandler/IOSockets.c:863-867 | a run from a connect call to a stale interest |
| LifecycleRuns.UpdatesFreedIff | src/IOHandler/IOSockets.c:957-963 | in every run, for a socket in its handshake and for one about to start it, the handshake call leaves a freed socket to be updated if and only if the handshake fails for good |
| LifecycleRuns.HandshakeArmedIff | src/IOHandler/IOSockets.c:920-940 | in every run a socket in its handshake is registered for reading, and for writing if and only if bytes are queued |
| LifecycleRuns.LookupsWait | src/IOHandler/IOSockets.c:258-292 | in every run, as long as a lookup is pending, no address has been chosen beyond the literal ones of the connect call, no connect was tried, nothing is registered, no file is open and the client was told nothing |
| LifecycleRuns.HasMeans | src/IOHandler/IOSockets.c:312-353 | the counts say whether a lookup that was made has an entry of the family |
| LifecycleRuns.FamilyChoice | src/IOHandler/IOSockets.c:294-440 | with fresh results and at a fallback, applying succeeds if and only if a lookup was made and those made share a usable family, IPv6 first; the chosen addresses are the results of that family the random numbers mean; a fallback is prepared if and only if IPv6 was chosen and they share IPv4 too or it already was; otherwise DNSFAILED and the socket is closed |
| LifecycleRuns.AddressForgottenIff | src/IOHandler/IOSockets.c:383-415 | in every run a connect is tried without destination address if and only if that was literal and the bind host was looked up; and without bind address if and only if none was given, or a literal one while the destination was looked up |
| LifecycleRuns.TwoAttempts | src/IOHandler/IOSockets.c:1010-1018 | every run makes at most two connect attempts, the second IPv4 after IPv6, the engine is given the file of each, and a fallback that is due finds its results and settles on IPv4 |
| LifecycleRuns.LookupsReleased | src/IOHandler/IOSockets.c:1016-1030 | in every run a connected socket, or one in its handshake, holds no lookup results any more |
| LifecycleRuns.RunKeeps | src/IOHandler/IOSockets.c:258-1168 | the invariant behind these results holds in every run of lookups, events, sends and closes, and no lookup starts later |
| SocketEvents.EveryInput | src/IOHandler/IOSockets.c:258-1168 | in every run each input that can occur adds exactly the events, closes the socket exactly when, tries the connects, and moves the bytes of the write buffer, as read off the input; every other one changes nothing |
| SocketEvents.ConnectedShows | src/IOHandler/IOSockets.c:1048-1168 | an event of a connected socket gives one RECV for each line, or one for the first recv with data; CLOSED, and the socket is gone, if and only if a recv or the write that is reached failed for good and no rehandshake goes on |
| SocketEvents.ConnectingShows | src/IOHandler/IOSockets.c:1010-1046 | a connecting socket that is readable, also if it is writable, falls back with a second connect and no event if a fallback is due, and otherwise gets NOTCONNECTED and is gone; one that is only writable is connected or starts its handshake |
| SocketEvents.HandshakingShows | src/IOHandler/IOSockets.c:957-1000 | a handshake gives CONNECTED when it is done, NOTCONNECTED and a closed socket when it fails for good, and nothing before |
| SocketEvents.ResolvedShows | src/IOHandler/IOSockets.c:258-292 | an answer to a lookup gives nothing while the other one is pending; then DNSFAILED and a closed socket if and only if the answers share no family, and a connect over IPv6 first otherwise |
| SocketEvents.QueueIsLevel | src/IOHandler/IOSockets.c:793-899 | in every run the bytes queued are those accepted, from the client and its callbacks, that no write took, the last write of a close included; whatever the bytes are, the repaired write buffer holds as many, and with those handed over they are the accepted stream |
| SocketEvents.RehandshakeFlags | src/IOHandler/IOSockets.c:1048-1163 | which rehandshakes go on after an event is determined by the calls that were made, and the engine waits in the direction the last one asked for |
| SocketEvents.SslInterestIff | src/IOHandler/IOSockets.c:1048-1163 | for a connected SSL socket outside a rehandshake an event ends in agreement if and only if it does not happen that the socket is writable, bytes are queued or were sent by the callbacks of its reads, no read asked for a rehandshake, the write does, and the client sends nothing after it |
| LookupRuns.AnswersDecide | src/IOHandler/IOSockets.c:258-440 | in every run of a socket that makes lookups, in whatever order they are answered: DNSFAILED is told if and only if all answers are in and share no family; a connect is tried only if they share one, over IPv6 first if they share that, a second one only if they share IPv4 too, and with addresses that are members of the answers |
| LookupRuns.LastAnswer | src/IOHandler/IOSockets.c:258-292 | when the last answer comes in: DNSFAILED, no connect and a closed socket if the answers of the run share no family; otherwise no event and, if the system gives a socket, exactly one connect over that family, registered with the engine, with the entry of each answer its random number means |
| ClientSockets.ClientSocket.constructor | src/IOHandler/IOSockets.c:679-735 | the state a connect call leaves: waiting for the lookups it needs, or connecting |
| ClientSockets.ClientSocket.WantsReads | src/IOHandler/IOSockets.c:920-928 | the read half of the computed interest |
| ClientSockets.ClientSocket.WantsWrites | src/IOHandler/IOSockets.c:929-940 | the write half |
| ClientSockets.ClientSocket.Activate | src/IOHandler/IOEngine_epoll.c:41-51 | an inactive socket becomes active and is registered for its interest |
| ClientSockets.ClientSocket.UpdateEngine | src/IOHandler/IOEngine_epoll.c:58-67 | a registered socket is registered for its interest of now, another one is not registered |
| ClientSockets.ClientSocket.Deactivate | src/IOHandler/IOEngine_epoll.c:53-56 | an active socket becomes inactive and unregistered |
| ClientSockets.ClientSocket.TryWrite | src/IOHandler/IOSockets.c:854-874 | the effect of a write on buffer length, SSL flags (also when it succeeds) and registration, and whether it is reported as an error |
| ClientSockets.ClientSocket.Send | src/IOHandler/IOSockets.c:876-899 | a live socket queues the bytes and, if active, tells the engine |
| ClientSockets.ClientSocket.Close | src/IOHandler/IOSockets.c:793-826 | a last write, the file closed, the socket unregistered and freed, the descriptor collected; a second call changes nothing |
| ClientSockets.ClientSocket.LookupCallback | src/IOHandler/IOSockets.c:258-292 | the stored result, and the connect once no lookup is pending |
| ClientSockets.ClientSocket.LookupApply | src/IOHandler/IOSockets.c:294-440 | the loops and branches decide as the family rule on values does and pick the addresses it picks |
| ClientSockets.ClientSocket.ConnectFinish | src/IOHandler/IOSockets.c:512-561 | a connect attempt of the chosen family is made and the socket is connecting and registered, unless the system gives no socket |
| ClientSockets.ClientSocket.ClientHandshake | src/IOHandler/IOSSLBackend.c:76-101 | the handshake step with its re-entrant events call when it is over |
| ClientSockets.ClientSocket.Emit | src/IOHandler/IOSockets.c:943-948 | the client gets the event, and what its callback sends is queued and told to the engine |
| ClientSockets.ClientSocket.EventsCallback | src/IOHandler/IOSockets.c:950-1168 | the events callback, with what the client's callbacks send and also when the handshake calls it again, is the step on values; the nested calls end |
| ClientSockets.ClientSocket.Live | src/IOHandler/IOSockets.c:679-1168 | on the object, a connect call and any sequence of inputs give one of the traces, one collection, the computed interest unless a write waits for a rehandshake, and as many bytes queued as were accepted and not taken |
| DnsQueue.TurnFinishes | src/IOHandler/IODNSEngine_default.c:183-283 | in a turn that uses no freed memory the query it claims leaves the list: dropped with its results if it was aborted meanwhile, otherwise delivered with them, as a success if and only if something was found; only after a delivery the callback may free others; the number of pending queries shrinks |
| DnsQueue.TurnFaultsIff | src/IOHandler/IODNSLookup.c:220-231 | a turn uses freed memory if and only if, during the resolution or in the callback of a delivery, a descriptor is aborted whose query is gone, or twice one whose query is not being processed; otherwise exactly the descriptors of the aborted queries point at freed memory afterwards, and a delivery clears its own |
| DnsQueue.ProcessFaultsIff | src/IOHandler/IODNSEngine_default.c:175-285 | for lists of public and socket queries: the loop uses freed memory if and only if the client aborts a query it has aborted before, in an earlier turn or the same one, unless that query was being processed all the while |
| DnsQueue.OnceIsSafe | src/IOHandler/IODNSLookup.c:220-231 | a client that aborts no query twice does not |
| DnsQueue.AbortTwiceFaults | src/IOHandler/IODNSLookup.c:117-131 | one whose callback aborts another pending query twice does |
| DnsQueue.AbortsKeep | src/IOHandler/IODNSLookup.c:103-110 | aborts during a resolution that use no freed memory leave the claimed query in the list and clear its RUNNING flag exactly if it was among them and has a descriptor |
| DnsQueue.TurnLedger | src/IOHandler/IODNSEngine_default.c:183-283 | no query, public or of a socket, is lost or accounted for twice in a turn that uses no freed memory, whatever its callback aborts |
| DnsQueue.ProcessSettles | src/IOHandler/IODNSEngine_default.c:175-285 | unless it uses freed memory the restart loop ends with nothing left to claim; each query is in the list or in the log as often as before, and a pending one is delivered, dropped or freed exactly once |
| DnsQueue.ProcessNeverAdds | src/IOHandler/IODNSEngine_default.c:175-285 | a query that is not in the list is not in it afterwards |
| DnsQueue.RunSafe | src/IOHandler/IODNSLookup.c:145-231 | in every run of creating, aborting and processing, a client that aborts no query twice, neither between the loops nor in callbacks, makes the engine use no freed memory |
| DnsQueue.RunLedger | src/IOHandler/IODNSLookup.c:69-143 | in every run that uses no freed memory each query ever created is in the list, delivered, dropped or freed, exactly one of these and once |
| DnsQueue.RunFates | src/IOHandler/IODNSLookup.c:69-231 | in every run that uses no freed memory the log has of each query the fate read off the operations: freed if it has a descriptor and is aborted before it is claimed, dropped if it is aborted while it is resolved, delivered otherwise; queries without a fate yet wait in the list |
| DnsQueue.RunResolves | src/IOHandler/IODNSEngine_default.c:175-285 | after a loop that uses no freed memory the list is empty, and each query created before it is in the log once, with its fate |
| DnsQueue.RunDelivers | src/IOHandler/IODNSEngine_default.c:186-282 | a query that no one aborted, or that has no descriptor, is delivered with what its resolution found, as a success if and only if that is not empty |
| DnsQueries.QueryList.Create | src/IOHandler/IODNSLookup.c:69-82 | a new query at the end of a well formed list, and a descriptor that points at it; no other id is used up |
| DnsQueries.QueryList.CreateForSocket | src/IOHandler/IOSockets.c:218-256 | the query of a socket comes to the end of the list without a descriptor |
| DnsQueries.QueryList.Free | src/IOHandler/IODNSLookup.c:89-101 | exactly this query leaves, and first, last, prev and next are those of the rest |
| DnsQueries.QueryList.Start | src/IOHandler/IODNSLookup.c:84-87 | the query's RUNNING flag is set, and nothing else in the list changes |
| DnsQueries.QueryList.Stop | src/IOHandler/IODNSLookup.c:103-110 | the query is no longer running, and it is freed unless it is being processed |
| DnsQueries.QueryList.Abort | src/IOHandler/IODNSLookup.c:220-231 | following the descriptor is the abort on values: nothing for a cleared one, a use of freed memory for one whose query was freed |
| DnsQueries.QueryList.Deliver | src/IOHandler/IODNSLookup.c:117-143 | a descriptor lets go of the query, a socket has none; the query leaves the list and is freed, delivered with its results |
| DnsQueries.QueryList.AddResults | src/IOHandler/IODNSEngine_default.c:196-272 | the results found stand in front of the result list, the last one first |
| DnsQueries.QueryList.Complete | src/IOHandler/IODNSEngine_default.c:273-283 | the end of a resolution on the linked list is the one on values |
| DnsQueries.QueryList.ProcessQueries | src/IOHandler/IODNSEngine_default.c:175-285 | the loop over the linked list, with callbacks that abort queries, ends, keeps list and descriptors well formed, and leaves the list, the log, the descriptors and the fault of the loop on values |
| DnsQueries.QueryList.Serve | src/IOHandler/IODNSLookup.c:69-231 | every sequence of creating public and socket queries, aborting and processing on the linked list is the run on values; it uses no freed memory if no query is aborted twice, and without that each query meets its fate and processing empties the list |
| CaresProtocol.Protocol | src/IOHandler/IODNSEngine_cares.c:214-333 | in every interleaving of aborts and answers the wrapper is freed once, with the last answer; the node once; a query that was not aborted gets one event, after the last answer, a success if and only if an answer was, with all their addresses; an aborted one gets none and its results are freed; a fault needs a second abort after the node was freed |
| CaresProtocol.AsWrittenFaultsIffLate | src/IOHandler/IODNSEngine_cares.c:214-297 | as written a run uses the null pointer if and only if an answer comes after an abort, and every other run is the repaired one |
| CaresProtocol.AbortThenAnswerFaults | src/IOHandler/IODNSEngine_cares.c:219-225 | one request, aborted and then answered, is such a run |
| CaresProtocol.LateIsAborted | src/IOHandler/IODNSEngine_cares.c:214-297 | an aborted query all of whose answers have come has had an answer after the abort, which freed it |
| CaresQueries.Exchange.constructor | src/IOHandler/IODNSEngine_cares.c:299-333 | one outstanding answer for each record type asked for |
| CaresQueries.Exchange.AbortQuery | src/IOHandler/IODNSLookup.c:220-231 | an abort on the objects is the abort step, also through a handle whose node was freed |
| CaresQueries.Exchange.Deliver | src/IOHandler/IODNSLookup.c:117-143 | the handle is cleared, the query freed if it is not being processed, and one event with its results given |
| CaresQueries.Exchange.Callback | src/IOHandler/IODNSEngine_cares.c:214-297 | an answer on the objects is the repaired answer step |
| CaresTable.Pigeonhole | src/IOHandler/IODNSEngine_cares.c:114-125 | distinct members of a set are no more than the set has |
| CaresTable.Table.RoomLeft | src/IOHandler/IODNSEngine_cares.c:114-125 | a wanted socket without an entry always finds a free one: the error branch is unreachable |
| CaresTable.Table.FindWanted | src/IOHandler/IODNSEngine_cares.c:85-92 | the search among the wanted sockets, zeros behind them included, is exact |
| CaresTable.Table.Unregister | src/IOHandler/IODNSEngine_cares.c:80-98 | entries no longer wanted are unregistered and emptied, the others untouched |
| CaresTable.Table.Register | src/IOHandler/IODNSEngine_cares.c:100-168 | a wanted socket ends up in one entry, its own if it had one, with the flags and registration asked for; all other entries stay |
| CaresTable.Table.Update | src/IOHandler/IODNSEngine_cares.c:73-169 | for distinct wanted sockets that are not 0 the table afterwards holds exactly those, once each, with the flags and registration asked for; entries that were wanted keep their socket object, the others are unregistered |
| Deferral.Accounts | src/IOHandler/IOGarbageCollector.c:55-102 | in every run of adds, execs and switches, repaired, what was freed later followed by what is queued is exactly what was added while enabled, in order; the rest was freed at once |
| Deferral.FreedLate | src/IOHandler/IOGarbageCollector.c:85-102 | with a clock that does not go back nothing is freed before strictly more than 60 seconds have passed |
| Deferral.ExecMissesNone | src/IOHandler/IOGarbageCollector.c:85-102 | stopping at the first object that has not expired leaves none behind that has |
| Deferral.LosesIffAddedAfterEmptied | src/IOHandler/IOGarbageCollector.c:77-101 | as written objects are lost if and only if one is added after an exec emptied the queue; all other runs are the repaired ones |
| Deferral.LosingRun | src/IOHandler/IOGarbageCollector.c:77-101 | one object freed after its minute and another one added is such a run |
| Collector.GarbageCollector.AddObject | src/IOHandler/IOGarbageCollector.c:55-83 | the object is freed at once, appended to the linked queue, or, when `last_object` is stale, linked behind it and never reached from `first_object` |
| Collector.GarbageCollector.ExecAsWritten | src/IOHandler/IOGarbageCollector.c:85-102 | the expired front of the linked queue is freed in order; `last_object`, if it was right, is right afterwards if and only if the queue is not empty or already was |
| Collector.GarbageCollector.RunAsWritten | src/IOHandler/IOGarbageCollector.c:44-102 | on the linked queue every sequence of operations as written is the run on values, and objects become unreachable if and only if one is added after the queue was emptied |
| Collector.GarbageCollector.Execute | src/IOHandler/IOGarbageCollector.c:85-102 | repaired, it is the step on values and keeps the queue valid |
| Collector.GarbageCollector.SetGc | src/IOHandler/IOGarbageCollector.c:44-49 | switching changes nothing that is queued |

## Left out

- Timer callbacks that stop or destroy the timer that is firing, which `IOTimer.c:275-276` reads again.
- Clocks without an upper bound and periods of zero, for which the trigger loop need not end.
- Lookups the resolver answers during the call that starts them, and the synchronous answers of c-ares.
- The server side: listening sockets, accepted clients and their handshake.
- SSL setup that fails before the handshake starts (`src/IOHandler/IOSSLBackend.c:30-73`).
- A close while lookups are pending, which leaves them pointing at a freed socket, and callbacks that close their socket; callbacks that send are part of the model.
- The value of memory read after a re-entrant close: the model lets the fields of a freed socket keep what they held; `UpdatesFreedIff` says when it is read.
- What happens after freed memory was used: the models of the DNS engines stop there.
- The connect of a host given as a literal IPv6 address, for which the code does not set its IPv6 flag.
- Lines as C strings: a delivered line is the bytes up to its delimiter, also if a NUL is among them.
- Chunk invariance for lines over the limit: the code does not remember between reads that it is skipping.
- Delivery of every byte in raw mode: a retried read that finds the peer closed replaces RECV by CLOSED.
- Failed allocations, and descriptors and memory that leak, among them the file of a failed IPv6 attempt.
- The list of all sockets (`_create_socket`, `_free_socket`), which has the shape of the query list.
- Reverse lookups (`iodns_getnameinfo`), which differ only in what a result holds.
- `IOEngine_win32.c` and `IOEngine_kevent.c`, which repeat the arithmetic of the other engines, and the fd sets select fills.
- The worker threads of the default DNS engine, which are compiled out.
- The SSL libraries themselves, logging, address parsing and printing, the C++ wrappers.
- Waits.EpollWait: the timeout and the deadlines are unbounded integers; only what is stored in the two int variables wraps.
- DnsQueries.QueryList.ProcessQueries: callbacks start no queries, because then the loop need not end.
- Timers.TimerList.Trigger: over its whole run callbacks leave the timers alone, because what they start may keep it from ending; `TurnWithCallback` is about one turn.
