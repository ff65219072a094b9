# Verified model of switch-proxy

switch-proxy copies each client's traffic to every configured target and merges what the targets send
back to the client. This project models its UDP and TCP proxies, the rotating log they write, and the
text helpers they rely on, and proves what holds in every run.

Everything that happens outside the program is nondeterministic: which socket becomes readable and with
what, how a blocking call ends, when the clock moves, which thread goes next, which system calls fail.
A theorem about runs is about every finite sequence of such choices.

## How the model is built

Behaviour is modelled twice and the two are tied together.

* **Objects.** A class of the source that updates its fields is a class here, with methods of the same
  names. Each method is proved to do what a function on values says.
* **Runs.** The same functions are the steps of transition systems. `UdpInterleaving` interleaves the
  manager's thread with one thread for each session at their preemption points. `TcpWorld` runs the
  handlers of any number of sessions in any order the sockets, timers and clock allow. `ConcurrentLog`
  gives each thread a program counter inside `write_log`. The invariants of the steps give the theorems
  in `UdpTheorems`, `UdpLifetime`, `TcpTheorems`, `TcpTraffic`, `TcpClosing`, `ConcurrentLogTheorems` and
  `LogOrder`. Where steps are finer than methods, a lemma shows that the steps, run without interruption,
  are the method.

The states of a run also record what happened: bytes read and written, replies, times, verdicts. So that no
theorem rests on those records alone, `UdpHistory` and `TcpHistory` say what they must be, from the steps of
the run: which data came in while a session was open, to whom it went, what armed and what ended a session.

| file | contents |
|---|---|
| `Keepalive` | the keepalive timer of both kinds of session |
| `UdpSession`, `UdpInterleaving`, `UdpTheorems`, `UdpLifetime`, `UdpHistory`, `UdpUninterrupted` | UDP sessions, their cache, their timers and closing, and the races between threads |
| `TcpSession`, `TcpProxy` | the TCP session and the accept loop, as values and as objects |
| `TcpWorld`, `TcpStreams`, `TcpTheorems`, `TcpTraffic`, `TcpClosing`, `TcpHistory` | many TCP sessions, their byte streams, counts, timers and closing |
| `FlowStatistics`, `IoServicePool` | packet counters and the round-robin cursor |
| `LogFile`, `ConcurrentLog`, `ConcurrentLogTheorems`, `LogOrder`, `SoloLog`, `Easylog` | the rotating log, for one thread and for many, and the four level logs |
| `Format`, `Tokens`, `ConfigFile`, `Addresses`, `Decimal`, `Directories` | text and path loops |
| `Sequences`, `Trimming` | shared facts about sequences, and about chunks that lose their ends |

## What the model shows about the code

* The UDP cache erases by address, yet never removes a later session of the same client: a session stays
  cached under its key until its own erase step, so no successor can be inserted before.
* A UDP datagram is dropped only when its session is closing or has left the cache between the lookup
  and the reading of its flag; the datagram that creates a session is never dropped.
  `ADatagramCanBeDropped` gives a run, for any list of targets, in which a client's second datagram finds the
  first one's session in the cache and yet reaches none of them.
* A UDP session whose target receive fails once stays open and cached and hears no target again.
  `ASessionCanGoDeaf` gives the run; `DeafAfterAnError` says exactly when it happens.
* The keepalive timer can close a session whose client has just sent data, over TCP and over UDP: re-arming
  cannot take back a handler that is already queued. `TimerCanCloseABusySession` in `TcpClosing` and in
  `UdpUninterrupted` give the runs; `TimerCloseExact` in `TcpClosing` and in `UdpLifetime` say exactly when a
  timer close means a silent client.
* After a short write to a target the session goes on, so the target's stream can have a gap in the middle
  rather than an end. `ShortWriteLeavesAGap` gives the run. `CopyIsAPrefix` says exactly when a target has
  been given the first bytes of the client's stream and no others, and `FanOutCopiesTheClient` exactly when
  it has been given all of them.
* The one-argument `address` constructor cuts at the first colon, so printing and reparsing restores an
  address exactly when its host has no colon. IPv4 keys have none.
* A config line counts exactly when it has no `#` and is a key and a value with `=`s between them and perhaps
  around them; a line with three fields is ignored, so it does not mask a later line for its key.
* A config file carries a map exactly when all keys and values are non-empty and free of `=`, `#`,
  newline and NUL.
* A rotation whose `open` fails leaves the full file in use, so the file passes the limit by more than its
  last record. `FailedRotationOvershoots` gives the run; `SizesBounded` says exactly when no file does.
* Records of different threads need not lie in the log in the order in which they were written: a thread can
  look the current file up, be overtaken by a rotation, and append to the file before. Each thread's own
  records stay in order. `ARotationCanOvertakeAWrite` gives the run; `RotationIsLinear` says exactly when the
  files are in the global order.
* A failed write can make a level's log and the ALL log disagree for good. `LostWriteSplitsTheLogs` gives the
  run; `LevelLogsAreFilters` says exactly when they agree throughout.

## Model

| member | source | states |
|---|---|---|
| UdpSession.UdpSession.constructor | udp/udp_switch_session.cpp:14-22 | a new session is open, with an open socket, no receive outstanding and no timer armed |
| UdpSession.UdpSession.SendToTarget | udp/udp_switch_session.cpp:24-46 | a closed session does nothing; an open one re-arms its timer and attempts every target once, in list order, with the same bytes, whatever earlier sends did: the i-th attempt added is to the i-th target |
| UdpSession.UdpSession.AsyncReceiveTarget | udp/udp_switch_session.cpp:48-55 | one more receive is outstanding, unless the session is closed |
| UdpSession.UdpSession.OnReceiveTarget | udp/udp_switch_session.cpp:56-77 | an open session sends the data to the endpoint its address spells, if any, and keeps one receive outstanding; an error or a closed session does neither |
| UdpSession.RepliesToOrigin | udp/udp_switch_session_manager.cpp:28-33 | a session built for an endpoint sends its replies to that endpoint |
| UdpSession.UdpSession.ResetKeepaliveTimer | udp/udp_switch_session.cpp:80-98 | the expiry moves to now plus 480 seconds, the wait still on the old expiry is cancelled, an expired one is not, and a new wait is added |
| UdpSession.UdpSession.OnKeepalive | udp/udp_switch_session.cpp:85-92 | a wait that expired closes an open session and erases its key; a cancelled one, or one of a closed session, does nothing |
| UdpSession.UdpSession.Close | udp/udp_switch_session.cpp:100-118 | the first call sets the flag, leaves no wait on the expiry, shuts the socket and erases its own key; every later call changes nothing |
| UdpSession.UdpSessionManager.GetOrCreate | udp/udp_switch_session_manager.cpp:75-98 | a cached session is returned unchanged; otherwise a fresh one for the parsed address is cached under the key with one receive outstanding; a key whose port does not parse leaves the cache alone |
| UdpSession.UdpSessionManager.UdpSwitchSessionClosed | udp/udp_switch_session_manager.cpp:43-50 | exactly the given key is erased |
| UdpSession.UdpSessionManager.SendToClient | udp/udp_switch_session_manager.cpp:28-41 | the data goes to the endpoint rebuilt from the stored address, or nowhere if its text is no address |
| UdpSession.UdpSessionManager.AsyncReceiveClient | udp/udp_switch_session_manager.cpp:52-55 | one more client receive is outstanding |
| UdpSession.UdpSessionManager.OnReceiveClient | udp/udp_switch_session_manager.cpp:52-73 | a datagram reaches the session cached under its sender's key, created if missing, which re-arms and attempts every target unless it is closed, and the next receive is started; an error ends the loop; every cached session keeps the manager's targets, so the handler can run again |
| UdpInterleaving.StepInv | udp/udp_switch_session_manager.cpp:43-98 | every step of every thread keeps the cache, the mutex, the closing order and the session being served consistent |
| UdpInterleaving.EraseInv | udp/udp_switch_session_manager.cpp:43-47 | erasing by address keeps the cache exactly the set of live sessions |
| UdpInterleaving.FindInv | udp/udp_switch_session_manager.cpp:81-95 | a lookup under the mutex finds the live session of the datagram's own sender or none |
| UdpInterleaving.RunInv | udp/udp_switch_session_manager.cpp:43-98 | the invariant holds after every run from the start |
| UdpTheorems.CacheHoldsTheLiveSessions | udp/udp_switch_session_manager.cpp:75-98 | in every interleaving the cached sessions are exactly those published and not yet erased, each under the key of its own client |
| UdpTheorems.OneLiveSessionPerClient | udp/udp_switch_session_manager.cpp:75-98 | in every interleaving two live sessions of the same client are the same session |
| UdpTheorems.EraseRemovesExactlyItself | udp/udp_switch_session_manager.cpp:43-50 | in every interleaving a session that reaches its erase is still the one cached under its address, the erase removes that session and no other, and no session is erased twice |
| UdpTheorems.MutexHolderCanMove | udp/udp_switch_session_manager.cpp:45-77 | whoever holds the mutex can take its next step, and the manager waits only for a closing session |
| UdpTheorems.RepliesReachTheirClient | udp/udp_switch_session_manager.cpp:28-33 | in every run each reply goes to the endpoint whose datagram created the session, each datagram is served by a session its own sender created, and a creating datagram is never dropped |
| UdpTheorems.AllOrNone | udp/udp_switch_session.cpp:24-46 | whenever the manager is between datagrams, the attempts ever made are, datagram by datagram, one per target in list order with that datagram's bytes, or none |
| UdpTheorems.DroppedOnlyWhileClosing | udp/udp_switch_session.cpp:24-27 | a looked-up session is live and its sender's own; its datagram is dropped exactly when the session has set its flag or been erased by the time `closed_` is read |
| UdpTheorems.OneClientReceive | udp/udp_switch_session_manager.cpp:52-73 | exactly one client receive is outstanding or being handled until the first receive error, and none afterwards |
| UdpLifetime.KeepaliveSound | udp/udp_switch_session.cpp:80-98 | in every interleaving the expiry is the last datagram served plus 480 seconds, and a closed session was closed by a wait during whose 480 seconds no datagram was served |
| UdpLifetime.OnlyDatagramsRearm | udp/udp_switch_session.cpp:24-31 | in every interleaving a step that moves a session's expiry is the manager's, for a datagram of the session's own client that passed the closed check |
| UdpLifetime.TimerCloseExact | udp/udp_switch_session.cpp:85-92 | in every interleaving, if queued handlers run within a keepalive time, a timer close finds the client silent exactly if the wait is the session's newest; otherwise a datagram was served after the wait ran out |
| UdpLifetime.ClosedIsFinal | udp/udp_switch_session.cpp:48-60 | after the flag is set no step clears it, sends a reply for the session or starts a receive |
| UdpLifetime.ClosedDrains | udp/udp_switch_session.cpp:100-118 | however a run goes on after the flag is set, the session stays closed and sends no reply, at most the one wait the manager already owed it is armed, and it runs at most the handlers then pending and that wait's |
| UdpLifetime.DeafAfterAnError | udp/udp_switch_session.cpp:53-77 | in every run an open cached session has exactly one target receive outstanding until its first receive error, and none afterwards |
| UdpHistory.RepliesFollowTheRun | udp/udp_switch_session.cpp:56-69 | in every run the replies sent are, in order, the data of the target receives that found their session open, each to the endpoint whose datagram created the session, and no others |
| UdpHistory.WireFollowsTheRun | udp/udp_switch_session.cpp:31-45 | between datagrams, what was attempted on the target sockets is, for each datagram that arrived and in order of arrival, its own bytes to every target in list order, or nothing |
| UdpHistory.SessionsClose | udp/udp_switch_session.cpp:85-118 | in every run a session's flag is set by its own close and by nothing else, a close begins exactly when a wait that had run out finds the session open, and the target socket is open until the close has shut it, which is before the session is erased |
| UdpHistory.CloseCancelsTheTimer | udp/udp_switch_session.cpp:104-107 | after the flag is set the close cancels the wait still on the expiry, and no other |
| UdpHistory.EveryDatagramRearms | udp/udp_switch_session.cpp:24-31 | in every run a session has been re-armed once for each of its datagrams that passed the closed check, but for the one being handled |
| UdpHistory.FirstDatagramsCreate | udp/udp_switch_session_manager.cpp:75-98 | in every run a datagram creates its session if and only if it is the first one looked up to it, and every session but the one being created has had one |
| UdpHistory.CacheIsGuarded | udp/udp_switch_session_manager.cpp:43-98 | in every run the cache is looked up and changed only by the thread that holds the mutex |
| UdpHistory.AnythingCanArrive | udp/udp_switch_session_manager.cpp:52-57 | in every run the waiting manager can be handed any datagram or an error, and an open session with a receive outstanding any data or an error |
| UdpHistory.SilentSessionCanBeClosed | udp/udp_switch_session.cpp:80-92 | from every state in which an open session's expiry has passed, its newest wait can run out, if it has not, and its handler then begins the close |
| UdpUninterrupted.ASessionCanGoDeaf | udp/udp_switch_session.cpp:69-74 | for any targets, a run after which a session is open and cached with no target receive outstanding |
| UdpUninterrupted.TimerCanCloseABusySession | udp/udp_switch_session.cpp:80-98 | for any targets, a run in which the timer closes a session at the second its client's datagram was served |
| UdpUninterrupted.ADatagramCanBeDropped | udp/udp_switch_session.cpp:24-27 | for any targets, a run in which a client's second datagram finds the first's session in the cache and is sent to no target, because the flag is set between the lookup and its reading |
| UdpUninterrupted.UninterruptedClose | udp/udp_switch_session.cpp:85-118 | the fine-grained steps of a due keepalive handler, run without interruption, do what `OnKeepalive` does and give the mutex back |
| UdpUninterrupted.UninterruptedSend | udp/udp_switch_session.cpp:31-45 | the fan-out steps, run without interruption, make all remaining attempts and start the next receive |
| UdpUninterrupted.UninterruptedDatagram | udp/udp_switch_session_manager.cpp:52-73 | the fine-grained steps for a cached client, run without interruption, re-arm and fan out, or do nothing if the session is closed |
| UdpUninterrupted.UninterruptedFirstDatagram | udp/udp_switch_session_manager.cpp:52-98 | the fine-grained steps for an unknown client, run without interruption, build, cache, re-arm and fan out |
| UdpUninterrupted.UninterruptedReceive | udp/udp_switch_session.cpp:56-77 | the step of a target receive does what `OnReceiveTarget` does to the session, and sends what it sends |
| UdpUninterrupted.AttemptsAreDue | udp/udp_switch_session.cpp:31-45 | the attempts `SendToTarget` adds are those the interleaved model says its datagram is due |
| Addresses.AddressRoundTrip | common/address.h:11-26 | printing an address and parsing it back restores it if and only if the host has no colon |
| Addresses.ParsesAtFirstColon | common/address.h:17-25 | any text is cut at its first colon, the port is what `stoi` reads of the rest cut down to sixteen bits, and a text without a colon sets nothing |
| Addresses.Ipv4RoundTrip | udp/udp_switch_session_manager.cpp:32-33 | dotted decimal text is read back into the address it was printed from |
| Addresses.Ipv4ReadsOnlyItsText | udp/udp_switch_session_manager.cpp:32-33 | a text is read as an address if and only if it is that address's dotted decimal text |
| Addresses.FieldsOfJoin | common/address.h:19-23 | cutting a text at a separator undoes joining fields with it |
| Addresses.KeyRoundTrip | udp/udp_socket.h:22-25 | a session key is parsed into the address of the endpoint it was printed from, and a reply to that address goes to that endpoint |
| Addresses.KeyInjective | udp/udp_socket.h:22-25 | two endpoints with the same key are the same endpoint |
| Decimal.StoiOfDecimal | common/address.h:14-23 | the port parser restores every printed number an `int` can hold |
| Decimal.StoiReads | common/address.h:23 | white space, a sign and a digit run are read as the number they spell, whatever follows, or are out of range |
| Decimal.DecimalInjective | tcp/tcp_switch_session.cpp:120 | two numbers with the same decimal text are equal |
| TcpProxy.TcpSwitchSession.constructor | tcp/tcp_switch_session.cpp:15-20 | a new session is untouched and its target list knows every open target socket |
| TcpProxy.TcpSwitchSession.Start | tcp/tcp_switch_session.cpp:27-39 | counts the connection, arms the timer, connects, and issues one client read and one read per target, or closes with no target socket left open |
| TcpProxy.TcpSwitchSession.InitTargetSocket | tcp/tcp_switch_session.cpp:41-47 | one unconnected target per address, numbered in list order |
| TcpProxy.TcpSwitchSession.ConnectTargetServer | tcp/tcp_switch_session.cpp:49-67 | succeeds exactly if every connect does; the first failure closes the session |
| TcpProxy.TcpSwitchSession.AsyncReadTargets | tcp/tcp_switch_session.cpp:99-105 | adds exactly one outstanding read per target |
| TcpProxy.TcpSwitchSession.OnClientData | tcp/tcp_switch_session.cpp:79-87 | re-arms the timer, counts one packet, and writes the bytes to every target |
| TcpProxy.TcpSwitchSession.OnTargetData | tcp/tcp_switch_session.cpp:117-122 | writes the bytes once to the client, counting the read and, if it succeeded, the write |
| TcpProxy.TcpSwitchSession.OnReadClient | tcp/tcp_switch_session.cpp:72-96 | data is copied to all targets and the read renewed; an error closes; an aborted read or a closed session does neither |
| TcpProxy.TcpSwitchSession.OnReadTarget | tcp/tcp_switch_session.cpp:110-132 | data is passed to the client and that target's read renewed; an error closes; an aborted read or a closed session does neither |
| TcpProxy.TcpSwitchSession.SendToClient | tcp/tcp_switch_session.cpp:135-148 | one write to the client, counted only if it succeeded |
| TcpProxy.TcpSwitchSession.SendToTarget | tcp/tcp_switch_session.cpp:150-166 | one write of the same bytes to every target in list order, whatever the earlier results, each success counted under its own serial |
| TcpProxy.TcpSwitchSession.ResetKeepaliveTimer | tcp/tcp_switch_session.cpp:168-187 | the expiry moves to now plus 480 seconds, the wait still on the old expiry is cancelled, an expired one is not, and a new wait is added |
| TcpProxy.TcpSwitchSession.OnTimer | tcp/tcp_switch_session.cpp:174-181 | a wait that ended with success closes an open session; any other does nothing |
| TcpProxy.TcpSwitchSession.CloseSession | tcp/tcp_switch_session.cpp:189-203 | the first call closes every socket, empties the target list, cancels the timer and uncounts the connection; a later call changes nothing |
| TcpProxy.TcpSwitchSession.CloseTargetSocket | tcp/tcp_switch_session.cpp:205-218 | no target socket stays open and the list is empty |
| TcpProxy.TcpSwitchSession.CloseClientSocket | tcp/tcp_switch_session.cpp:220-228 | the client socket is closed |
| TcpProxy.TcpSwitchSessionManager.constructor | tcp/tcp_switch_session_manager.cpp:5-11 | the acceptor takes the pool's first service |
| TcpProxy.TcpSwitchSessionManager.StartAccept | tcp/tcp_switch_session_manager.cpp:22-26 | one accept is outstanding on a fresh session, which runs on the next service in turn |
| TcpProxy.TcpSwitchSessionManager.OnAccept | tcp/tcp_switch_session_manager.cpp:26-38 | an accepted session is started, a failed accept leaves its session untouched, either way that session's target list knows its open sockets, and the next accept is outstanding |
| TcpWorld.HandlerInv | tcp/tcp_switch_session.cpp:69-187 | every handler keeps its session's operations, timing and streams consistent |
| TcpWorld.TargetReadsExact | tcp/tcp_switch_session.cpp:99-105 | the reads issued are one for each serial below the number of targets and no others |
| TcpStreams.CopyStep | tcp/tcp_switch_session.cpp:150-166 | a client read and its fan-out leave every target offered the client's chunks, each once, whole and in order, whatever the results |
| TcpStreams.FanOutWrites | tcp/tcp_switch_session.cpp:150-166 | a fan-out makes exactly one write to each target, of the same bytes |
| TcpStreams.BlockStreams | tcp/tcp_switch_session.cpp:150-166 | a client read and its fan-out add the chunk to the client's stream and, to each target's, what its own write transferred |
| TcpStreams.MergeStep | tcp/tcp_switch_session.cpp:117-124 | a target read and its reply extend the merge by one chunk of that target, cut to what the reply write transferred |
| TcpTheorems.StepSessions | tcp/tcp_switch_session_manager.cpp:22-39 | every event keeps every session's invariant and the single outstanding accept |
| TcpTheorems.OutstandingOperations | tcp/tcp_switch_session.cpp:27-39 | in every run an open session has exactly one client read and exactly one read per target outstanding, and an uncancelled keepalive wait that owns it |
| TcpTheorems.TargetReadsAreLive | tcp/tcp_switch_session.cpp:107-110 | in every run an open session's outstanding target read names an element still in the list |
| TcpTheorems.OneAcceptOutstanding | tcp/tcp_switch_session_manager.cpp:22-39 | exactly one accept is outstanding at every moment, on a session not yet started |
| TcpTheorems.FanOutCopiesTheClient | tcp/tcp_switch_session.cpp:69-97 | in every run each target has been written every client chunk once, whole, in order; what it was given is those chunks without their untransferred ends, each byte at the place where it was sent; it is the client's stream if and only if every write to that target was whole |
| TcpTheorems.CopyIsAPrefix | tcp/tcp_switch_session.cpp:150-166 | in every run a target has been given the first bytes of the client's stream and no later ones if and only if every write after a short one transferred nothing; then its stream is a prefix of the client's, and if the client's stream repeats no byte only then |
| TcpTheorems.FanInMergesTheTargets | tcp/tcp_switch_session.cpp:107-148 | in every run the client has been given the targets' chunks in the order in which they were read, each once and without the untransferred end of its reply write; with every reply write whole that is a merge of the chunks themselves, and exactly then the client was given all that was read |
| TcpTheorems.MergeProjects | tcp/tcp_switch_session.cpp:107-133 | a merge's chunks spell its output, and those of one target are exactly its list, in order |
| TcpTheorems.ShortWriteLeavesAGap | tcp/tcp_switch_session.cpp:150-166 | a run after which an open session's target has been given the client's stream less a byte in the middle |
| TcpTheorems.HandlerCounts | tcp/tcp_switch_session.cpp:27-30 | a handler changes the count by how many sessions it makes live or stops |
| TcpTheorems.ConnectionCount | utils/tcp_flow_statistics.h:26-37 | in every run the count is the number of sessions started and not closed, so never negative |
| TcpTraffic.HandlerTally | tcp/tcp_switch_session.cpp:79-165 | a handler counts exactly the reads and successful writes it makes |
| TcpTraffic.PacketsAreConserved | utils/tcp_flow_statistics.h:40-79 | under every description the code uses, all printed windows and the current one add up to the reads and successful writes of all sessions |
| TcpTraffic.NothingElseIsCounted | utils/tcp_flow_statistics.h:40-45 | under every other description nothing is ever counted |
| TcpSession.DescribeInjective | tcp/tcp_switch_session.cpp:8-11 | different kinds of packet, and different targets, have different descriptions |
| TcpClosing.KeepaliveSound | tcp/tcp_switch_session.cpp:168-187 | in every run the expiry is the last client activity plus 480 seconds, and a timer close is witnessed by 480 seconds without client data |
| TcpClosing.OnlyClientDataRearms | tcp/tcp_switch_session.cpp:79-81 | an event that moves a session's expiry is its start or its own client's data |
| TcpClosing.TimerCloseExact | tcp/tcp_switch_session.cpp:174-181 | if queued handlers run within a keepalive time, a timer close finds the client silent exactly if the wait is the session's newest; otherwise data was processed after the wait ran out |
| TcpClosing.TimerCanCloseABusySession | tcp/tcp_switch_session.cpp:168-187 | a run in which the timer closes a session at the second its client's data was processed |
| TcpClosing.ClosedHandler | tcp/tcp_switch_session.cpp:74-77 | a handler of a closed session moves no bytes, arms nothing, reads nothing, counts nothing, and is one fewer pending |
| TcpClosing.ClosedDrains | tcp/tcp_switch_session.cpp:189-203 | however a run goes on after a close, the session stays as close left it and runs at most the handlers then pending |
| TcpHistory.StreamsFollowTheRun | tcp/tcp_switch_session.cpp:69-166 | in every run the client's chunks are, in order, the bytes of the client reads that found the session open, and each target was written exactly those with the results of those writes; each target's chunks are the bytes of its reads that found the session open, and the client was written exactly those, in the order of the reads, with those results |
| TcpHistory.WholeWritesCopyTheClient | tcp/tcp_switch_session.cpp:150-166 | when every write to a target succeeds, it has been given exactly the bytes of the client reads that found the session open |
| TcpHistory.WholeWritesMergeTheTargets | tcp/tcp_switch_session.cpp:135-148 | when every reply write succeeds, the client has been given exactly the bytes of the target reads that found the session open, in the order of the reads |
| TcpHistory.SessionsOpenAndClose | tcp/tcp_switch_session.cpp:27-67 | in every run a session has started if and only if its client was accepted, and has closed if and only if a connect or a read of it failed or a wait of it that had run out was handled; its sockets are open exactly until then and nothing waits on its timer afterwards |
| TcpHistory.EveryChunkRearms | tcp/tcp_switch_session.cpp:79-81 | in every run the expiry is 480 seconds after the last time at which the session was started or, being open, read data from its client |
| TcpHistory.AnythingCanArrive | tcp/tcp_switch_session.cpp:69-133 | in every run the acceptor can be handed a client or a failure, and an open session a chunk or an error from its client and from each target, whatever its writes do |
| TcpHistory.SilentSessionCanBeClosed | tcp/tcp_switch_session.cpp:168-187 | from every state in which an open session's expiry has passed, its newest wait can run out, if it has not, and its handler then closes the session |
| TcpHistory.CountersShowTheWindow | utils/tcp_flow_statistics.h:62-79 | in every run the counters show the traffic of all sessions since the last report, and that report kept what they had shown |
| TcpClosing.ServicesInTurn | tcp/tcp_switch_session_manager.cpp:22-24 | sessions get the services in turn, starting after the acceptor's |
| TcpClosing.ThreadsAreBalanced | tcp/tcp_switch_session_manager.cpp:5-24 | no thread is ever given two sessions more than another, failed accepts and closed sessions included |
| FlowStatistics.TcpFlowStatistics.IncrementConnection | utils/tcp_flow_statistics.h:26-30 | the count grows by one and nothing else changes |
| FlowStatistics.TcpFlowStatistics.SubtractConnection | utils/tcp_flow_statistics.h:33-37 | the count shrinks by one and nothing else changes |
| FlowStatistics.TcpFlowStatistics.IncrementPacket | utils/tcp_flow_statistics.h:40-45 | the counter of that description grows by one, starting from zero |
| FlowStatistics.TcpFlowStatistics.PrintPacketCount | utils/tcp_flow_statistics.h:62-79 | a window is printed and cleared, and every total over all windows stays the same |
| FlowStatistics.EffectsAreCounted | utils/tcp_flow_statistics.h:26-45 | any sequence of calls changes each total and the connection count by what it contains |
| FlowStatistics.ReportKeepsTotals | utils/tcp_flow_statistics.h:62-79 | clearing the counters loses no packet |
| IoServicePool.IoServicePool.constructor | common/io_service_pool.cpp:5-14 | as many services as asked for, none handed out |
| IoServicePool.IoServicePool.GetIoService | common/io_service_pool.cpp:40-50 | hands out the service at the cursor and moves the cursor round |
| IoServicePool.CursorOffset | common/io_service_pool.cpp:42-47 | after k calls the cursor is k mod n steps round from where it started |
| IoServicePool.Fair | common/io_service_pool.cpp:40-50 | in k calls each of n services is handed out k / n times, plus once for the first k mod n in turn |
| IoServicePool.Balanced | common/io_service_pool.cpp:40-50 | no service is handed out two times more than another |
| LogFile.LogFileProxy.constructor | utils/easylog/log_file_proxy.h:39-45 | no file, no descriptor, counter zero |
| LogFile.LogFileProxy.WriteLog | utils/easylog/log_file_proxy.h:54-80 | opens the first file if needed, rotates at the limit onto the same descriptor, writes to the current file, and adds what was written to the counter, for every outcome of the system calls |
| LogFile.LogFileProxy.CreateFile | utils/easylog/log_file_proxy.h:82-100 | a successful open makes a new empty file under a new descriptor and resets the counter; a failed one changes nothing |
| LogFile.LogFileProxy.WriteFile | utils/easylog/log_file_proxy.h:117-128 | what was written goes to the end of the current file and onto the counter |
| LogFile.LogFileProxy.CloseFile | utils/easylog/log_file_proxy.h:130-138 | the descriptor is closed and no file changes |
| LogFile.SizesBounded | utils/easylog/log_file_proxy.h:65-79 | for a positive limit the counter is the current file's size and every retired file reached the limit; every file was below the limit before its last piece if and only if no call wrote to a full file after its rotation's open failed |
| LogFile.FailedRotationOvershoots | utils/easylog/log_file_proxy.h:65-79 | a run in which a rotation's open fails and a file passes the limit by more than its last record |
| LogFile.NothingLost | utils/easylog/log_file_proxy.h:54-80 | the files end to end are the pieces written, in call order, for every limit and every outcome of the system calls |
| LogFile.FilesArePaidFor | utils/easylog/log_file_proxy.h:65-79 | all files but one, times the limit, is at most the bytes written |
| ConcurrentLog.StepInv | utils/easylog/log_file_proxy.h:54-80 | every step of every thread keeps the lock, the descriptors and the order of the files consistent |
| ConcurrentLog.RunInv | utils/easylog/log_file_proxy.h:54-80 | the invariant holds after every run of any number of threads |
| ConcurrentLogTheorems.NoDescriptorLeaks | utils/easylog/log_file_proxy.h:70-75 | outside the critical sections the log owns exactly its one descriptor |
| ConcurrentLogTheorems.DescriptorsAreGuarded | utils/easylog/log_file_proxy.h:58-76 | in every run descriptors are opened, moved and closed only by the thread that holds the mutex |
| ConcurrentLogTheorems.HolderCanMove | utils/easylog/log_file_proxy.h:58-76 | the thread that holds the mutex can always go on |
| ConcurrentLogTheorems.RecordsKeepTheirOrder | utils/easylog/log_file_proxy.h:54-80 | in every interleaving a thread's records are in submission order, at most once each; while no call has failed or fallen short, all of them are there, whole, and no thread writes to an unopened log |
| ConcurrentLogTheorems.CallsAreBounded | utils/easylog/log_file_proxy.h:65-79 | in every run a thread that has taken 17 steps has finished the call it was in, whoever holds the mutex |
| ConcurrentLogTheorems.WritersNeverWait | utils/easylog/log_file_proxy.h:56-69 | in every run a thread with a call to make or finish can take a step unless it waits to open the first file; once the log is open no call comes to wait |
| ConcurrentLogTheorems.InitialFileOpenedOnce | utils/easylog/log_file_proxy.h:56-63 | in every interleaving the initial file is opened with success exactly once if the log is open, and at most once |
| ConcurrentLogTheorems.CounterNeverFallsBehind | utils/easylog/log_file_proxy.h:117-123 | outside a rotation's window the counter is behind the current file by at most the writes in flight, and by nothing once all writers have returned |
| LogOrder.FilesKeepProgramOrder | utils/easylog/log_file_proxy.h:54-80 | in every interleaving each thread's records lie in the files, end to end, in submission order, at most once each; while no call has failed or fallen short, all of them are there and whole |
| LogOrder.RotationIsLinear | utils/easylog/log_file_proxy.h:65-79 | in every interleaving each successful write is whole in one file and the files, in the order they became current, hold the successful writes and nothing else; they hold them in the global order if and only if no append went to a file after a later one had been written to |
| SoloLog.ARotationCanOvertakeAWrite | utils/easylog/log_file_proxy.h:65-79 | a run without a failed call in which the files end to end are not the order of the writes |
| SoloLog.UninterruptedCall | utils/easylog/log_file_proxy.h:54-80 | the steps of one call that no thread interrupts do what the one-thread model says, for every outcome of the system calls |
| Easylog.Easylog.constructor | utils/easylog/easylog.h:55-64 | four empty logs with the same limit on file systems of their own, all freshly made, and the threshold |
| Easylog.Easylog.ModifyLogLevel | utils/easylog/easylog.h:21 | only the threshold changes |
| Easylog.Easylog.LogMessage | utils/easylog/easylog.h:67-75 | a record at or above the threshold is spelled and written; any other changes nothing; for every outcome of the system calls |
| Easylog.RecordsReadBack | utils/easylog/easylog.h:97-126 | a record begins with its level's letter and ends with a newline, and two messages with the same record are the same, as time stamps have one width and file names no colon |
| Easylog.RecordLayout | utils/easylog/easylog.h:97-126 | a record is its level's letter, the time, a space, the file, a colon, the line, `] `, the content and a newline, as the formatter lays them out |
| Easylog.Easylog.WriteFile | utils/easylog/easylog.h:139-155 | a record goes to ALL and, for WARN, ERROR and FATAL, to that level's log; the others are untouched; for every outcome of the system calls |
| Easylog.AllHoldsWhatPasses | utils/easylog/easylog.h:37-75 | over any run with whole writes the ALL log holds exactly the messages whose level, by its place in the enumeration, was at or after the threshold in force, in order; with threshold zero that is every message |
| Easylog.LevelLogsAreFilters | utils/easylog/easylog.h:139-155 | over any run the WARN, ERROR and FATAL logs are throughout exactly the records of those levels in the ALL log, in its order, if and only if each message of the level lands the same in both, whatever the limit, the rotations and the threshold changes |
| Easylog.SmoothRunsFilter | utils/easylog/easylog.h:139-155 | while first opens and writes succeed the three logs are those records, even if every rotation fails |
| Easylog.LostWriteSplitsTheLogs | utils/easylog/easylog.h:141-154 | a run in which one failed write leaves the WARN log empty while ALL holds that warning |
| Easylog.AllLogIsComplete | utils/easylog/easylog.h:67-75 | the ALL log is what landed of each message that passed the threshold in force, in order; it is those messages if and only if each landed whole |
| Format.GetArgByIndex | utils/easylog/format.h:13-32 | the argument at the index, or the exception if there is none |
| Format.Format | utils/easylog/format.h:34-77 | the pointer loop, never reading past the terminator, gives the recursive substitution; without arguments it gives the text |
| Format.FormatString | utils/easylog/format.h:79-83 | a string is formatted up to its first NUL |
| Format.ThrowsIffTooFewArguments | utils/easylog/format.h:58 | with arguments it throws if and only if there are more holes than arguments |
| Format.HolesAddUp | utils/easylog/format.h:50 | joining two texts adds their holes, plus one exactly if the join makes one |
| Format.FormatSplits | utils/easylog/format.h:48-74 | unless the join makes a hole, formatting a join is formatting the parts, the first with as many arguments as it has holes, the second with the rest |
| Format.FormatWeaves | utils/easylog/format.h:58-60 | the result is the literal pieces with the arguments between them, whatever the arguments contain; surplus arguments are ignored |
| Format.EveryTextIsATemplate | utils/easylog/format.h:48-74 | every text is hole-free pieces joined by holes, one more piece than holes |
| Tokens.StrTok | utils/switch_proxy_util.h:41-47 | the next token from the resume point is reported and cut off in place by one NUL, and the rest of the text is still there |
| Tokens.Split | utils/switch_proxy_util.h:37-50 | the tokens of what `c_str` shows of the text |
| Tokens.SplitFindsMaximalRuns | utils/switch_proxy_util.h:37-50 | the tokens are exactly the maximal delimiter-free runs, each once, from left to right |
| Tokens.GetLine | utils/switch_proxy_util.h:27 | the line at the position without its newline, and where the next one starts; nothing at the end |
| Tokens.ReadFile | utils/switch_proxy_util.h:19-34 | the lines of the file, or none if it cannot be opened |
| Tokens.LinesCons | utils/switch_proxy_util.h:26-30 | a newline-free line with its newline in front of a text is one more line |
| Tokens.LinesHaveNoNewline | utils/switch_proxy_util.h:26-30 | no line contains a newline |
| Tokens.LinesSpell | utils/switch_proxy_util.h:26-30 | no line contains a newline, and the lines with a newline after each are the text, with a last newline added if it had none |
| Tokens.BcdToHex | utils/switch_proxy_util.h:59-85 | the hexadecimal text of the first bytes with separators between them; a negative length gives nothing |
| Tokens.HexLength | utils/switch_proxy_util.h:73-82 | n bytes give 2n characters and n - 1 separators |
| Tokens.HexSplits | utils/switch_proxy_util.h:66-82 | two stretches of bytes are printed one after the other with one separator between them |
| Tokens.HexOne | utils/switch_proxy_util.h:73-82 | one byte is its two upper-case hexadecimal digits |
| Tokens.HexRoundTrip | utils/switch_proxy_util.h:59-85 | a decoder of fixed stride restores the bytes for every separator |
| ConfigFile.AcceptedExactly | utils/config_file.h:20-28 | a line makes a binding if and only if it has no `#` and what `c_str` shows of it is a key and a value, non-empty and free of `=`, with at least one `=` between them and nothing but `=`s around them |
| ConfigFile.ConfigFile.SetFilePath | utils/config_file.h:16-30 | the accepted lines are added in order on top of what is there, a key already there keeping its value, as if all files were one |
| ConfigFile.ConfigFile.GetString | utils/config_file.h:33-42 | the value of the first line accepted for the key in everything loaded so far, or the exception exactly if no line was |
| ConfigFile.ConfigFile.IsExist | utils/config_file.h:57-60 | true exactly if some line loaded so far was accepted for the key |
| ConfigFile.FirstBindingWins | utils/config_file.h:18-28 | an earlier value stays; otherwise the value is that of the first accepted line for the key; no other key appears |
| ConfigFile.LoadedIsClean | utils/config_file.h:20-26 | every binding loaded from any lines has a non-empty key and value free of `=`, `#`, newline and NUL |
| ConfigFile.ConfigRoundTrip | utils/config_file.h:16-30 | printing a map and loading it restores it if and only if all its keys and values are non-empty and free of `=`, `#`, newline and NUL |
| Directories.FileSystem.MakeDirectory | utils/easylog/easylog_util.h:78 | the system call creates one level in an existing directory, or says why not |
| Directories.FileSystem.MakeDirectories | utils/easylog/easylog_util.h:58-87 | creates every missing level of the path; it makes no call without an existing parent and none for a directory that is there |
| Directories.PathsResolve | utils/easylog/easylog_util.h:71-86 | a path names the directories between its slashes from left to right, empty and `.` steps left out |
| Directories.MakeAllExact | utils/easylog/easylog_util.h:71-86 | succeeds if and only if the system refuses no missing level, and then adds exactly the path's levels; otherwise adds exactly the levels above the first refused one |

## Assumptions

* Each io service is run by one thread, so the handlers of one session never overlap.
* `start` runs on the acceptor's thread and is one step, up to issuing the reads.
* Handlers of different TCP sessions, and the statistics report, are atomic with respect to each other.
* A `write` to the log looks its descriptor up in one step and appends in another; each is atomic, and a file
  looked up stays writable after `dup2` has replaced it.
* Fields that two threads touch without a lock are read and written in single, sequentially consistent steps:
  `closed_` and `keepalive_timer_` (udp/udp_switch_session.cpp:26,84,107) and `fd_`
  (utils/easylog/log_file_proxy.h:36,61,119).
* A read is reported as aborted only on a socket this side has closed.
* A failed write may have transferred any number of bytes; a write without an error transferred all.
* A timer wait that has expired and whose handler is queued can no longer be cancelled.
* A file name made from a time stamp is new, so every successful open creates a file.
* `open` never returns descriptor 0, which the source would treat as a failure.
* Client endpoints are IPv4, and their text is dotted decimal without superfluous zeros.

## Left out

- Boost.Asio, sockets, file descriptors and the clock: they appear as events and results with the contracts above.
- Memory lifetime after close: handlers capture a raw `this`; here session objects stay allocated.
- Size bounds for the log shared by threads: writers that fail `try_lock` keep appending to the old file, and a stale size check can rotate twice.
- ThreadsAreBalanced: bounds the sessions given to threads; which of them are still open is up to clients and targets.
- SizesBounded: for a positive limit; with limit zero every call rotates and there is nothing to bound.
- MakeDirectories: for a non-empty path, because the source reads the character before the end of an empty one; `..` is an ordinary name, and other processes do not touch the tree meanwhile.
- StrTok: delimiters come from a C string, so they hold no NUL.
- GetIoService: for a pool that is not empty, because the source indexes an empty pool out of bounds.
- Wrap-around of the connection count, the packet counters and the byte counter.
- Exceptions inside `reset_keepalive_timer`, console output, time stamps, symbolic links, log messages and error strings.
- IPv6 session keys: their text contains colons, which the address parser cuts at.
- `log_file` and `log_console`, which are parts of `log`; a message's content arrives there already formatted.
- `get_int` and `get_long_long`, which hand the text to the C library.
- `get_local_address` and `get_session_id`, which only feed log messages.
- The UDP packet counters, which repeat the TCP ones, and the timer that triggers the report, which is an arbitrary event.
- `main.cpp`, `switch/`, `utils/singletion.h`, `utils/lexical_cast.h` and `utils/task_timer.h`: wiring and conversions.
