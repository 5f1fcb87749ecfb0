# Verified model of plexus-transport

A Dafny model of how plexus-transport carries a socket: the frame guard on the
way in, the loop that multiplexes reader and writer, the counts that admit a
connection, a socket and a call, the certificate cache, the stdio writer, and
the walk that finds a client behind its proxies. `dafny verify dfyconfig.toml`
checks all of it.

What the source changes in place is a class whose fields the methods change
(`Guard`, `Loop`, `Watch`, `Quotas`, `Pending`, `ConnectionCalls`, `Reloading`,
`SecurePeers`, `Middleware`, `Transport`); what other tasks and threads do is
nondeterministic at every point where they may run. What holds over every
interleaving is proved on transition systems (`WriterRuns`, `Calls`, `Tls`,
`Stdio`), whose runs are lists of steps, each only required to be enabled where it
is taken. `Loop`, `ConnectionCalls`, `Reloading` and `Transport` record every step
they take as a step of such a run, so that what is proved of all runs is proved of
them. What the socket, the queues, the timers and the acceptances answer the loop
is given beforehand, poll by poll, and may be anything: so the loop cannot choose
to hear that there is nothing to do.

| file | what it models |
|---|---|
| `Wire.dfy` | a frame's header, parsed and encoded (RFC 6455, section 5.2) |
| `GuardSpec.dfy` | the guard's promise: a function of the client's whole byte stream |
| `GuardSteps.dfy` | what each step of the guard makes of what is still owed |
| `Guard.dfy` | the guard, suspended and resumed at any byte |
| `GuardMessages.dfy` | what becomes of whole messages (RFC 6455, section 5.4) |
| `WriterRuns.dfy` | producers, fence, answers and flushes: every run |
| `Intake.dfy` | what the messages read come to: answers, tasks, acceptances, activity |
| `SocketLoop.dfy` | the loop itself, each of its steps a step of `WriterRuns` |
| `Liveness.dfy` | ping timeout and idle limit against ticks at most τ apart; the watch each loop keeps |
| `Tally.dfy`, `Quotas.dfy` | counts by key; the quotas and the sockets not yet upgraded |
| `Calls.dfy` | the lock-free counter of calls open |
| `Text.dfy`, `Address.dfy`, `Proxy.dfy` | header text, addresses, who a request comes from |
| `Upgrade.dfy` | the checks of an upgrade, in their order |
| `Tls.dfy`, `SecurePeers.dfy` | the certificate cache; the peers that came over TLS |
| `Stdio.dfy` | the reader, the streams and the one batching writer |

## How the guard is proved

`GuardSpec.Guarded(cap, s)` says what comes of a byte stream `s`: the bytes
handed on, the messages counted as dropped, and whether it is refused. It knows
of frames and nothing of reads. The class `Guard` says at every moment what it
still owes (`Owed`), as the same function of its buffers and the bytes to come;
each read hands on exactly a beginning of it. Reading to the end therefore gives
`Guarded`, however the network cuts the bytes up, however often a read has to
wait or fails, and whatever buffers the reader brings.

## What is true only under a condition

Each of these is proved with the exact condition.

- A data frame past the cap reaches the framing library if and only if it is out
  of place by the fragmentation rules, in any stream of whole frames
  (`GuardMessages.PastTheCapOnlyOutOfPlace`).
- Anonymous sockets are held below the total (`src/config.rs:100-102`), which is
  not part of this model. Of the quotas that are, the address's own can be filled
  by anonymous sockets, and a signed-in caller at that address refused, exactly
  when neither anonymous limit is below it (`Quotas.AnonymousLockOut`); the
  defaults are below it.
- `src/websocket.rs:1063-1066` says the validator is never fed the key. Of a
  request let past the key it is, exactly when the cookies are the key, or the
  bearer is the key and the cookies were not accepted (`Upgrade.KeyIsAsked`); so
  whatever header the key is configured in, a caller that sends it as its bearer
  too has the validator asked (`Upgrade.KeySentTwiceIsAsked`).
- Looking for a place among the sockets not yet upgraded leaves an empty entry
  behind exactly when the limit is 0 and the address unknown
  (`Quotas.RefusalLeavesAnEntry`, `Quotas.NoEntryOfNothing`).
- Forwarded headers change the answer exactly when the peer is a trusted proxy
  (`Proxy.BelievedOnlyFromAProxy`).
- A handshake begun after the last write presents the pair the files hold, except
  that some run presents another exactly when something else may have been found
  under the stamps the files have: an earlier look at the same stamps, then a read
  of versions that load differently or not at all
  (`Tls.WrongExactlyWhenMisled`, for files that end on another pair than the
  listener opened on, or under other stamps with nothing failed under them;
  `Tls.CertWrittenOnce` and `Tls.KeyWrittenOnce` for one write).
- `src/tls.rs:124-125` says that files that failed to load are not tried again
  until one changes. They are, in some run, and so are files that loaded, exactly
  when a handshake under way is reading already or has stamps that are remembered
  neither way (`Tls.ReadAgainExactlyWhenLate`). Both arise:
  `Tls.FailedFilesAreReadAgain` and `Tls.LateHandshakeTakesOver` are the runs.

The bound on bytes is on those handed over between two completed flushes: one
wakeup may flush more than once, because the loop goes round while anything moved.

## Model

| member | source | states |
|---|---|---|
| Wire.ParseHeader | src/ws/guard.rs:101-120 | a header that is read is all there, between 2 and 14 bytes, its opcode below 16 |
| Wire.HeaderRoundTrip | src/ws/guard.rs:101-120 | every header RFC 6455 can encode, in any of its length forms, masked or not, reads back as itself |
| Wire.HeaderIsEncoded | src/ws/guard.rs:101-120 | and every header that is read is one of those encodings, byte for byte |
| Wire.HeaderIsAPrefix | src/ws/guard.rs:101-120 | bytes after a header never change how it is read, nor whether it is refused |
| Wire.IllegalLengthIsTopBit | src/ws/guard.rs:94-98 | the third byte shows exactly the frames whose 64-bit length has its top bit set |
| Wire.TotalNeverShort | src/ws/guard.rs:84-92 | a frame's saturated total is exact below 2^63 and above it never shorter than the payload |
| GuardSpec.RefusedAtTheThirdByte | src/ws/guard.rs:94-98 | a refusal is settled by a frame's third byte and not before, whatever follows |
| GuardSpec.MoreBytesOnlyAdd | src/ws/guard.rs:273-358 | what the beginning of a stream settles the whole stream keeps; a refusal is final |
| GuardSpec.HeldPlusAwaited | src/ws/guard.rs:197-210 | payload bytes held, headers left out, plus those awaited are the message's length so far |
| GuardSpec.HoldsMorePayload | src/ws/guard.rs:316-327 | payload arriving for a held fragment keeps that account, up to its last byte |
| GuardSpec.HoldsAnotherHeader | src/ws/guard.rs:247-257 | so does the next fragment's header |
| GuardSteps.RelayOwes | src/ws/guard.rs:212-227 | a frame passed on as it came owes the held bytes first, then itself, and the message is over |
| GuardSteps.DropOwes | src/ws/guard.rs:188-210 | a frame dropped owes its count, if it is its message's first past the cap, and nothing of what was held |
| GuardSteps.HoldOwes | src/ws/guard.rs:247-257 | a frame held owes nothing until its message's last has come, and leaves the held account in order |
| GuardSteps.PassSome | src/ws/guard.rs:291-315 | any part of a frame passed on, handed on early, leaves exactly the rest of it owed |
| Guard.Socket.Read | src/ws/guard.rs:361-373 | a socket's read: any part of what has arrived, a wait, a failure, or the end and nothing lost |
| Guard.Guard.constructor | src/ws/guard.rs:158-172 | a fresh guard owes what its socket's whole stream determines |
| Guard.Guard.Decide | src/ws/guard.rs:178-245 | deciding a frame's fate settles what is owed only by the message it counts, with the message within the cap |
| Guard.Guard.HoldFrame | src/ws/guard.rs:247-257 | holding a frame changes nothing owed |
| Guard.Guard.EndHold | src/ws/guard.rs:259-269 | the end of a held fragment changes nothing owed, its message released whole if it was the last |
| Guard.Guard.HoldAccount | src/ws/guard.rs:197-210 | until a refusal, payload held plus awaited is the message's length, at most the cap |
| Guard.Guard.PassStraight | src/ws/guard.rs:299-315 | read straight into the reader's buffer, a frame's bytes come out as they would through the guard's own |
| Guard.Guard.QuietOwesNothing | src/ws/guard.rs:273-358 | a guard that waits keeps back nothing that the bytes read have settled |
| Guard.Guard.RefusingOwesRefusal | src/ws/guard.rs:336-341 | at an illegal length nothing else is owed, whatever the client still sends |
| Guard.Guard.PollRead | src/ws/guard.rs:273-358 | one read: hands on exactly a beginning of what is owed and counts what it passed; waits or ends only when the bytes read oblige nothing more, and waits or fails exactly when the socket did; refuses only after everything before has gone out, and then for ever; reads come to an end |
| Guard.ReadToEnd | src/ws/guard.rs:421-439 | chunk independence: for every stream, every split into arrivals, every wait and failed read, and every sequence of non-empty buffers, what is received, counted and refused is the pure function of the stream |
| GuardMessages.WholeFrame | src/ws/guard.rs:178-269 | one whole frame's effect on the outcome, at any message state |
| GuardMessages.OneFrameByItself | src/ws/guard.rs:178-245 | a lone frame as a client writes it, by its opcode: from 8 to 15 it comes out byte for byte whatever its length, from 1 to 7 it comes out within the cap if it is a whole message and is counted past it, and a continuation of nothing comes out |
| GuardMessages.FramesFrom | src/ws/guard.rs:178-269 | from any frame on, whatever frames there are and whatever bytes follow the last, the outcome is what looking back says, the message open and what is held included |
| GuardMessages.FramesHandedOn | src/ws/guard.rs:178-269 | any whole frames, in any order: which frames come out where each one stood, byte for byte, and how many messages past the cap are counted |
| GuardMessages.EveryStreamIsCut | src/ws/guard.rs:101-120 | every stream of bytes is whole frames and then a part of one or one refused |
| GuardMessages.StreamHandedOn | src/ws/guard.rs:178-358 | so what comes of any stream at all: its whole frames frame by frame, and of the bytes after them what their header alone decides |
| GuardMessages.RefusedExactlyAtAnIllegalLength | src/ws/guard.rs:336-341 | a stream is refused if and only if its frames, read one after another, come to an illegal length |
| GuardMessages.OnceAndInOrder | src/ws/guard.rs:178-269 | of any whole frames none comes out twice, and every control frame does, in order |
| GuardMessages.OutOfPlaceIsStray | src/ws/guard.rs:211-226 | a frame that continues nothing, or begins a message inside another, found by looking back, is the one the guard finds stray |
| GuardMessages.PastTheCapOnlyOutOfPlace | src/ws/guard.rs:211-226 | in any stream of whole frames a data frame past the cap is handed on if and only if it is out of place by section 5.4 |
| GuardMessages.MessagesPreserved | src/ws/guard.rs:178-269 | for whole frames fragmented by the rules: every control frame comes out once and in order, and a data frame once, if and only if its message came to its last frame within the cap, contiguous where that stood; messages past it counted once each |
| WriterRuns.RunKeepsInv | src/ws/conn.rs:503-586 | queues, fence, meter and turns keep their invariant over every run |
| WriterRuns.WriterConserves | src/ws/conn.rs:503-586 | what the socket was handed from each queue is a prefix, in order, of what was put there; nothing lost or repeated, the fenced frame once; answers in the order made, pings pushed ahead or not; and no queue past its bound |
| WriterRuns.SentOnlyGrows | src/ws/conn.rs:559-586 | what has been handed over at any step stays so |
| WriterRuns.FenceOrder | src/ws/conn.rs:512-521 | in every interleaving the socket is handed a call's answer, then its first frame, then its later ones in order |
| WriterRuns.EveryCallAnswered | src/ws/conn.rs:512-521 | at every step of every run, a call with any frame handed over has had its answer handed over |
| WriterRuns.BytesPerFlush | src/ws/conn.rs:559-586 | since the last completed flush, but for the last frame handed over, the messages' own sizes come to less than the budget; nothing unflushed means nothing gathered |
| WriterRuns.RoundRobin | src/ws/conn.rs:522-555 | of three frames taken by turns a queue that stayed non-empty supplies one, no poll being falsely Pending |
| Intake.EffectsOfMessage | src/ws/conn.rs:355-474 | one message more: answered at once in its turn, or its task begun, or its acceptance awaited, as its shape says, and nothing else answered |
| Intake.EffectsOfResolve | src/ws/conn.rs:326-345 | an acceptance resolved is done with, answered exactly if refused, and leaves the others awaited |
| Intake.PolledSize | src/ws/conn.rs:326-345 | of acceptances polled, those resolved are gone and the others are the same ones |
| SocketLoop.Loop.constructor | src/ws/conn.rs:749-783 | a fresh loop: nothing handed over or read, its writer at the start of a run |
| SocketLoop.Loop.EveryMessageSeenTo | src/ws/conn.rs:312-474 | in every state the loop comes to, each message read has had its effect once: the answers due at once made in the messages' order, tasks begun, acceptances awaited still or resolved and the refused answered, one answer to each drop; no other answer is made, and all made are handed over or wait, in order |
| SocketLoop.Loop.Answer | src/ws/conn.rs:312-324 | an answer goes behind those waiting |
| SocketLoop.Loop.PingNow | src/ws/conn.rs:606-616 | a ping goes ahead of everything queued, which keeps its order |
| SocketLoop.Loop.PollAccepting | src/ws/conn.rs:326-345 | every acceptance is polled; those that resolved are answered, where refused, in arrival order behind what was queued, and the others are left in theirs |
| SocketLoop.Loop.AnswerDrops | src/ws/conn.rs:347-353 | one answer made for each message dropped and not yet answered, naming no call, behind those waiting |
| SocketLoop.Loop.Message | src/ws/conn.rs:355-474 | a message counts as heard now, and as activity and an open call exactly if its shape begins one; by its shape it is answered, begins a task or an acceptance, ends the socket, or does nothing |
| SocketLoop.Loop.ReadOne | src/ws/conn.rs:622-644 | the reader is polled once: a message there is taken, in order, the watch told of it and the message seen to, or the socket ends for what it is; and no drop is left unanswered |
| SocketLoop.Loop.PollSignals | src/ws/conn.rs:588-616 | ends for the stop or the close exactly when due, as silent or idle only when the watch finds it so at a tick due now; else a tick due is added to the life and a ping due put ahead of everything |
| SocketLoop.Loop.TakeIn | src/ws/conn.rs:617-644 | what comes in, once round: whoever did not move was polled to Pending, the reader unless the answers are backed up; and the socket ends only for what was read |
| SocketLoop.Loop.BehindFence | src/ws/conn.rs:512-521 | with a frame fenced, the table's front goes out, or, the table found empty, the frame |
| SocketLoop.Loop.AskAround | src/ws/conn.rs:522-555 | the queues by turns give a frame, or a first frame to fence, or have all been asked in vain |
| SocketLoop.Loop.NextOut | src/ws/conn.rs:503-555 | the loop's own oldest answer first; else a frame by the writer's rules, or none, and then every open queue was found empty and wakes the task when it fills, or came back falsely empty and the task woke itself |
| SocketLoop.Loop.PollWrite | src/ws/conn.rs:557-586 | writing is tried to its end: moves frames or a flush, or leaves the task waiting on the socket's write side or on all queues with nothing unflushed; and gives up only when the socket failed |
| SocketLoop.Loop.FlushedHasBudget | src/ws/conn.rs:559-586 | nothing unflushed leaves the writer its budget |
| SocketLoop.Loop.SocketHadTheAnswer | src/ws/conn.rs:503-555 | fence order, of what this loop handed its socket |
| SocketLoop.Loop.Round | src/ws/conn.rs:617-661 | a round that moves leaves less to do; one that does not leaves nothing unheard; writing was tried after what was read |
| SocketLoop.Loop.PollRun | src/ws/conn.rs:588-661 | no lost wakeup: on Pending every source that could move the task was polled in this wakeup, last to Pending, the write side standing in for a reader paused by the backlog, and the task has woken itself if a queue came back falsely empty; only after 64 messages read may more be left, the task having woken itself; writing was tried after each message; a socket ends only for a reason it has; and a wakeup ends |
| Liveness.TickIsAnEighth | src/ws/conn.rs:746-747 | ticks come at an eighth of the shorter limit, from 200 ms to 40 s, and otherwise within 25 ms and 5 s |
| Liveness.Watch.Check | src/ws/conn.rs:485-501 | silent exactly past the ping timeout since the last message, else idle exactly with no call open and the idle limit reached since the last activity; and that is the verdict of the whole life so far, which the watch keeps |
| Liveness.Watch.Begun | src/ws/conn.rs:418-422 | a call begun is added to that life, over at once or not |
| Liveness.Watch.Heard | src/ws/conn.rs:355-357 | a message heard is added to that life |
| Liveness.Watch.InTime | src/ws/conn.rs:485-501 | of a watch whose ticks came at most τ apart: a tick that closes its socket comes within τ of the limit, either way for the idle one, and an open socket was heard from and active in time |
| Liveness.LifeKept | src/ws/conn.rs:485-501 | what every moment of a socket's life keeps, over any events with ticks at most τ apart |
| Liveness.ClosedNoSooner | src/ws/conn.rs:485-501 | closed as idle only with no call open, and within τ of the idle limit after the last instant one was open or begun, either way; as silent only past the ping timeout, and within τ of it |
| Liveness.ClosedWithinAnEighth | src/ws/conn.rs:485-501 | with τ the tick the loop sets, a limit of 200 ms or more is kept to within an eighth of itself |
| Liveness.ClosedNoLater | src/ws/conn.rs:485-501 | a socket not yet closed was active within idle + τ and heard within ping timeout + τ |
| Tally.DownUndoesUp | src/websocket.rs:320-332 | counting down undoes counting up, the entry gone with its last |
| Tally.SumIsTheWhole | src/websocket.rs:262-268 | counts by key add up to the number of members counted |
| Quotas.Quotas.constructor | src/websocket.rs:282-285 | no socket is counted |
| Quotas.Quotas.Admit | src/websocket.rs:287-318 | refused exactly when the address is full, or, with identities, its principal is or, signed in as nobody, either anonymous quota is, the first of them named; else a permit under who it is; the counts stay those of the live permits, none past its limit; a refusal changes nothing |
| Quotas.Quotas.Drop | src/websocket.rs:320-341 | a permit gives back what it took, and no count was at nothing |
| Quotas.RunStaysWithin | src/websocket.rs:287-341 | over any run of arrivals and ends no limit is passed |
| Quotas.AnonymousIsTheSum | src/websocket.rs:262-268 | the anonymous count is the sum of the addresses' anonymous counts |
| Quotas.OthersDoNotInterfere | src/websocket.rs:287-341 | over any run, callers sharing no address and no principal with a group of signed-in sockets change nothing of what the group is given |
| Quotas.AnonymousLockOut | src/config.rs:97-105 | some run of anonymous sockets keeps a signed-in caller out of its address exactly when both anonymous limits reach the address's |
| Quotas.Pending.Take | src/websocket.rs:226-237 | a place exactly when the address holds fewer than the limit; an entry is put there first |
| Quotas.Pending.Drop | src/websocket.rs:239-249 | a place is given back, from a count never at nothing |
| Quotas.RefusalLeavesAnEntry | src/websocket.rs:227-236 | taking, granted or refused, leaves an empty entry exactly when the limit is 0 and the address unknown |
| Quotas.NoEntryOfNothing | src/websocket.rs:226-249 | over any run of taking and giving back, with every limit positive, no empty entry is kept |
| Calls.ConnectionCalls.TryOpenWithin | src/calls.rs:80-96 | as steps of a run, other threads doing what they do between them: a new place, taken by the call's last step, a swap that raised the counter by one to within both limits; or a refusal that found the counter at the smaller at some moment of the call and took nothing; the call's other steps leave the counter alone; each failed swap charged to a step of its own, within the call, by which another thread changed the counter |
| Calls.ConnectionCalls.CompareExchange | src/calls.rs:90-93 | a swap takes a place from what was found, or finds what another thread has left |
| Calls.ConnectionCalls.Drop | src/calls.rs:50-57 | a place is given back, and the counter lowered by it |
| Calls.RunKeepsInv | src/calls.rs:83-96 | any threads, any interleaving of loads, swaps and drops |
| Calls.CounterIsLivePlaces | src/calls.rs:50-96 | the counter is the number of live places, within the connection's limit |
| Calls.OutcomeJustified | src/calls.rs:83-96 | a refusal found the counter at the limit at some moment of its call; a success keeps it within |
| Calls.RetriesAreOthersSteps | src/calls.rs:86-94 | each failed swap is charged to a different step, within the call, of another thread that changed the counter |
| Address.Canonical | src/proxy.rs:204-210 | an IPv4-mapped address is the IPv4 address it maps, any other itself |
| Proxy.ParseHop | src/proxy.rs:195-202 | a hop that reads as an address, with a port or not, is a canonical one |
| Proxy.Proto | src/proxy.rs:152-156 | with one proto to a hop the client's own entry decides, else the last there is |
| Proxy.SaysSecure | src/proxy.rs:157 | the word is secure exactly if it spells https or wss, in any case |
| Proxy.Client | src/proxy.rs:121-135 | from a peer that is no trusted proxy: the peer itself, secure exactly on loopback with no proxy in front |
| Proxy.Walk | src/proxy.rs:137-151 | the right-to-left walk is the recursive rule: the rightmost hop that is not a proxy |
| Proxy.Resolve | src/proxy.rs:121-159 | client, peer and security of a request are those of the rule |
| Proxy.WalkFindsTheClient | src/proxy.rs:10-20 | and that rule is the documented one, which exactly one client and place meet |
| Proxy.PrependingChangesNothing | src/proxy.rs:137-151 | once a hop stops the walk, entries before the hops move only the place along |
| Proxy.WrittenAheadProvesNothing | src/proxy.rs:121-151 | so a header a client writes of its own does not move its address |
| Proxy.PrependingBothKeepsTheWord | src/proxy.rs:152-157 | with as many protos written ahead as hops, the word on the client's connection stays |
| Proxy.DividingChangesNothing | src/proxy.rs:168-177 | dividing a list among headers of its name changes no field |
| Proxy.BelievedOnlyFromAProxy | src/proxy.rs:121-135 | headers can change the answer exactly when the peer is a trusted proxy |
| Proxy.MappedPeersAreTheSame | src/proxy.rs:121-124 | a peer is the same client however its address is written |
| Text.Trim | src/proxy.rs:168-177 | the text without the spaces at its ends, and none left there |
| Text.GetText | src/websocket.rs:1002-1006 | the first header of its name, if it is text |
| Text.SplitLosesNothing | src/proxy.rs:168-177 | the parts, none of which holds a separator, are the text again with one between each two |
| Text.ListHolds | src/proxy.rs:168-177 | a list holds exactly the parts of its name's headers |
| Text.SplitJoined | src/proxy.rs:168-177 | splitting a joined list splits its parts |
| Text.ListDividedAnywhere | src/proxy.rs:168-177 | headers of one name are one list, wherever it is divided |
| Upgrade.HostRefused | src/host.rs:37-52 | with a list of hosts, exactly the requests whose first host header, or without one whose authority, is not on it without spaces and case, or that name none |
| Upgrade.OriginRefused | src/websocket.rs:884-896 | with a list of origins, exactly the requests that name one not on it, without spaces, slashes at the end and case |
| Upgrade.KeyRefused | src/websocket.rs:1002-1057 | let past with the key in its header, or, without a validator and that header, as the bearer; another key is invalid, none is one required |
| Upgrade.PresentsCredential | src/websocket.rs:822-839 | any authorization header presents a credential, and so does a credential cookie in any cookie header, and nothing else |
| Upgrade.IsCredential | src/websocket.rs:822-839 | a pair whose part before its first = is a declared name and after it not blank |
| Upgrade.Middleware.TakeQuota | src/websocket.rs:767-802 | only an upgrade with a known address takes a place, at the client's address and under who it is; a refusal takes nothing |
| Upgrade.Middleware.SignIn | src/websocket.rs:1071-1114 | the first candidate the validator accepts, cookies before the bearer, and none asked after it |
| Upgrade.Middleware.Call | src/websocket.rs:957-1215 | the outcome is the first stopping check's in the documented order: misdirected exactly when there is a list of hosts and the request names none on it; whoever goes on brought the key and, not accepted by the validator, presented no credential under the anonymous view, else is let on only where failures are; the validator is asked only after host, metadata, origin and key; a request refused leaves the quotas as they were, one let in takes one place |
| Upgrade.FirstStopIsTheFirst | src/websocket.rs:957-1215 | a reply is a check's exactly when it stops the request and none before it does |
| Upgrade.TheOrder | src/websocket.rs:969-1060 | the order written out, and the first four checks depend on nothing found out by signing in |
| Upgrade.SignedInOnlyByTheValidator | src/websocket.rs:1094-1165 | whoever goes on signed in was accepted for the cookies or, those refused, for the bearer; under the anonymous view nobody else goes on who presented a credential |
| Upgrade.KeyIsAsked | src/websocket.rs:1061-1114 | of a request let past the key, the validator is asked the key exactly when the cookies are the key, or the bearer is and the cookies were not accepted |
| Upgrade.KeySentTwiceIsAsked | src/websocket.rs:1061-1114 | a key sent in its own header and as the bearer too is asked of the validator |
| Upgrade.ReadFromTwoHeaders | src/websocket.rs:1071-1085 | adding a header changes nothing that may be tried exactly when it is neither of the two the sign-in is read from |
| Upgrade.OtherCookiesArePassedOver | src/websocket.rs:822-837 | a cookie not declared a credential, or blank, does not count as presenting one |
| Tls.Reloading.Stamp | src/tls.rs:85-100 | stamps of versions the files had since the call began, one looked at after the other, as steps of a run |
| Tls.Reloading.Look | src/tls.rs:139-150 | found exactly if the cached pair has the stamps or, under the lock, they are remembered as failing; nothing changes |
| Tls.Reloading.Load | src/tls.rs:104-160 | what versions the files had since the call began load as is cached under the stamps and presented; or, not loading, is remembered, and the pair cached just before is presented |
| Tls.Reloading.Current | src/tls.rs:137-163 | as steps of a run among others': the pair presented is the one cached at the end, and the stamps seen are remembered, with it or as failing; the files are read only under the lock and with their stamps unknown; files that fail leave the pair cached just before; every pair loaded, and of files not written since the call began, whose stamps do not mislead, it is the one they hold |
| Tls.OpenedInv | src/tls.rs:130-135 | a listener that opened remembers what was found, though its files changed between looking and reading |
| Tls.NextKeepsInv | src/tls.rs:137-163 | after every step of every handshake, and every write, what is cached or remembered as failing was found so |
| Tls.PresentsWhatTheDiskHolds | src/tls.rs:129-163 | over all interleavings every pair presented is one that loaded, and a handshake begun after the last write presents the pair the files hold unless their stamps mislead, late handshakes or not |
| Tls.NewStampsDoNotMislead | src/tls.rs:85-91 | stamps no earlier version carried do not mislead |
| Tls.WrongExactlyWhenMisled | src/tls.rs:129-163 | for every history of the two files that ends on another pair than the listener opened on, or under other stamps none of which failed to load, some run presents a handshake begun after the last write another pair exactly when something else may have been found under the stamps the files have |
| Tls.WrongOnlyWhenMisled | src/tls.rs:129-163 | for every history at all, a wrong pair needs that, and another pair that loaded |
| Tls.CertWrittenOnce | src/tls.rs:85-91 | a certificate written once misleads exactly when its stamp is the old one's and it loads differently, the old one perhaps not at all |
| Tls.KeyWrittenOnce | src/tls.rs:85-91 | and a key likewise |
| Tls.ReadAgainExactlyWhenLate | src/tls.rs:124-160 | unchanged files whose stamps are remembered, with their pair or as failing, are read again in some run exactly when a handshake under way is reading already or has stamps that are remembered neither way |
| Tls.LateHandshakeTakesOver | src/tls.rs:137-163 | such a run for files that load: a handshake with older stamps takes the cache over, and the next one reads the same files again |
| Tls.FailedFilesAreReadAgain | src/tls.rs:124-160 | and for files that failed: from the listener's opening a failure comes to be remembered under the stamps the files have while a handshake is late, and some run reads them again |
| SecurePeers.SecurePeers.New | src/tls.rs:243-248 | a connection takes its place |
| SecurePeers.SecurePeers.Drop | src/tls.rs:250-260 | and gives it back, from a count never at nothing |
| SecurePeers.SecurePeers.IsTlsPeer | src/tls.rs:233-237 | a peer is secure exactly while a TLS connection from it is open |
| Stdio.Transport.Gather | src/stdio.rs:107-119 | a line waited for and every line ready after it, buffered with their newlines, until none is ready or the budget is met |
| Stdio.Transport.WriteLines | src/stdio.rs:104-124 | as steps of a run: it returns once nobody is left to queue a line and all that was queued is out, or once a write has failed, the output having taken all it will of more |
| Stdio.LinesReadBack | src/stdio.rs:107-111 | split at its newlines the output is the lines, each whole |
| Stdio.CutShort | src/stdio.rs:91-121 | an output cut short anywhere is whole lines in order and a part of the next |
| Stdio.NextKeepsInv | src/stdio.rs:43-124 | every step of reader, streams and writer, a failed or given-up write included, keeps the queue within its bound, each request's lines in order, and the output that of the batches |
| Stdio.OutputIsAShuffle | src/stdio.rs:43-124 | over every interleaving, batches cut and writes failing anywhere, the output split at its newlines is the lines taken, each whole and once, and a part of the next; every line is a request's, and of each request it holds the answer and then its first items, in order; batches are under the budget but for their last line |
| Stdio.AllQueuedIsOut | src/stdio.rs:84-97 | with nothing left to take or write, all that was queued is out |
| Stdio.EndOfInputEndsEveryCall | src/stdio.rs:84-87 | whatever runs on, nothing is queued after the end of the input |

## Left out

- SocketLoop.Loop.PollSignals: which of the stop, the close, a tick and the ping timer is due at each wakeup is given beforehand, and may be any.
- SocketLoop.Loop.Message: JSON, the method table, hooks and inputs are a shape given with the message; what an answer says is left out, its size and order are not.
- SocketLoop.Loop.PollWrite: the framing library and the socket answer each poll ready, full or broken as given beforehand, and take a frame whole once they are ready.
- Liveness.Watch.Check: calls open are one number, not the four counts that `busy` reads (`src/ws/conn.rs:478-483`), and the clock is a number.
- Quotas.Quotas.Admit: which quota is full is a tag, not the text of the 429; `max_connections`, which the accept loop's semaphore keeps, is not counted here, and a place in it outlives the permit.
- Calls.ConnectionCalls.TryOpenWithin: a step's place in the run is its moment: atomics are sequentially consistent and the counter does not wrap.
- Upgrade.Middleware.Call: status codes, bodies and headers are tags; whether a request is an upgrade is given; the watch put on a signed-in socket (`src/websocket.rs:1129-1135`) is not part of this model.
- Upgrade.Middleware.SignIn: a validator answers as any function of all it has been asked.
- Tls.Reloading.Current: a file is a stamp and a body; whether a pair loads is any function of the two bodies, and what is logged is left out.
- Tls.WrongExactlyWhenMisled: of files that end on the pair the listener opened on, under its stamps or with a failure found under the ones they have, only one direction is stated (`Tls.WrongOnlyWhenMisled`).
- Proxy.ParseHop: reading an address from text and a network's members are parameters.
- Stdio.Transport.WriteLines: a line is a sequence of characters, and whether more lines wait at any moment is nondeterministic.
- Guard.Guard.Fill: the spare room in the buffer is any size from 4096 up; how `BytesMut` allocates, and the unsafe fills, are appended bytes.
- Text: a header value is text or not, and trims spaces, tabs and line ends only.
- The close handshake at a loop's end (`src/ws/conn.rs:663-692`), and what calls still writing then learn.
- The guard's write side, which passes every call through to the socket.
- tungstenite, hyper, axum, rustls, tokio and jsonrpsee themselves.
- plexus-core's input table, credit and pipe: their source is not part of this model.
- Host routes, the REST bridge, MCP, the registry, builders and configuration: plumbing whose properties would be easy ones.
