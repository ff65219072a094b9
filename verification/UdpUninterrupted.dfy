/** The steps of `UdpInterleaving` against the methods of `UdpSession`: run without interruption they do the
    same.  Interrupted at the wrong moment, they drop a datagram. */
module UdpUninterrupted {
  import opened Sequences
  import opened Addresses
  import opened Keepalive
  import opened UdpSession
  import opened UdpInterleaving
  import opened UdpTheorems

  function Then(s: Option<State>, step: Step): Option<State> {
    match s
    case None => None
    case Some(s) => if Enabled(s, step) then Some(Next(s, step)) else None
  }

  /** Run without interruption, the steps of a due keepalive handler do what `UdpSession.OnKeepalive`
      does to the session and to the cache, and hand the mutex back. */
  lemma {:induction false} UninterruptedClose(s: State, sid: nat, k: nat)
    requires Enabled(s, RunWait(sid, k)) && s.mutex.Free?
    requires !s.sessions[sid].closed && s.sessions[sid].waits[k].status.Expired?
    ensures var a := CloseAdvance(sid);
            var r := Then(Then(Then(Then(Then(Then(Then(Some(s), RunWait(sid, k)), a), a), a), a), a), a);
            var closed := ShutSocket(CancelTimer(FlagClosed(TimeOut(s.sessions[sid], k, s.now))));
            && r.Some?
            && r.value.sessions == s.sessions[sid := closed]
            && closed.closed && !closed.socketOpen && !SomeWaiting(closed.waits)
            && r.value.cache == s.cache - {s.sessions[sid].client.addr}
            && r.value.mutex.Free? && r.value.closing == s.closing && r.value.manager == s.manager
  {
    hide CancelWaits, Without;
    var a := CloseAdvance(sid);
    var s1 := Next(s, RunWait(sid, k));
    var s2 := Next(s1, a);
    var s3 := Next(s2, a);
    var s4 := Next(s3, a);
    var s5 := Next(s4, a);
    var s6 := Next(s5, a);
    var closed := ShutSocket(CancelTimer(FlagClosed(TimeOut(s.sessions[sid], k, s.now))));
    assert Next(s6, a).sessions == s.sessions[sid := closed];
    assert Next(s6, a).closing == s.closing;
  }

  /** The replies of one session. */
  function RepliesOf(sid: nat, replies: seq<Reply>): seq<Routed> {
    seq(|replies|, k requires 0 <= k < |replies| => Routed(sid, replies[k]))
  }

  /** The step of a target receive does what `OnReceiveTarget` does to the session, and sends what it sends. */
  lemma UninterruptedReceive(s: State, sid: nat, data: Option<Payload>)
    requires Enabled(s, TargetReceive(sid, data))
    ensures var session, s' := s.sessions[sid], Next(s, TargetReceive(sid, data));
            if !session.closed && data.Some? then
              && s'.sessions == s.sessions
              && s'.replies == s.replies + RepliesOf(sid, RepliesTo(session.client, data.value))
            else
              && s'.sessions == s.sessions[sid := session.(receiving := session.receiving - 1)]
              && s'.replies == s.replies
  {
    hide Destination;
  }

  /** The attempts `SendToTarget` adds are those the interleaved model says its datagram is due. */
  lemma AttemptsAreDue(before: seq<Attempt>, after: seq<Attempt>, targets: seq<Address>, data: Payload,
                       delivered: seq<bool>, v: Verdict)
    requires |delivered| == |targets| && Attempted(before, after, targets, data, delivered) && v.passed
    ensures |after| == |before| + |targets| == |before| + |Due(targets, v, data)|
    ensures forall i :: 0 <= i < |targets| ==>
              && Due(targets, v, data)[i] == Tagged(v.sid, after[|before| + i].target, after[|before| + i].data)
              && after[|before| + i].delivered == delivered[i]
  {}

  /** `n` consecutive manager steps. */
  function Advance(s: State, n: nat): Option<State>
    decreases n
  {
    if n == 0 then Some(s)
    else if Enabled(s, ManagerAdvance) then Advance(ManagerNext(s), n - 1)
    else None
  }

  lemma {:induction false} AdvanceMore(s: State, m: nat, n: nat)
    requires Advance(s, m).Some?
    ensures Advance(s, m + n) == Advance(Advance(s, m).value, n)
    decreases m
  {
    hide Enabled, ManagerNext;
    if m > 0 { AdvanceMore(ManagerNext(s), m - 1, n); }
  }

  /** The fan-out loop, uninterrupted, makes the remaining attempts and returns to the receive loop. */
  lemma {:induction false} UninterruptedSend(s: State)
    requires s.manager.Sending? && s.manager.next <= |s.targets| && s.datagrams != []
    ensures var due := Due(s.targets, Verdict(s.manager.sid, s.creating, true), Last(s.datagrams).data);
            Advance(s, |s.targets| - s.manager.next + 2)
            == Some(s.(manager := Receiving, receives := s.receives + 1, wire := s.wire + due[s.manager.next..]))
    decreases |s.targets| - s.manager.next
  {
    var due := Due(s.targets, Verdict(s.manager.sid, s.creating, true), Last(s.datagrams).data);
    var s1 := ManagerNext(s);
    if s.manager.next < |s.targets| {
      UninterruptedSend(s1);
      assert due[s.manager.next..] == [due[s.manager.next]] + due[s.manager.next + 1..];
      assert s.wire + due[s.manager.next..] == s1.wire + due[s.manager.next + 1..];
    } else {
      assert s.wire + due[s.manager.next..] == s.wire;
      var s2 := ManagerNext(s1);
      assert Advance(s, 2) == Advance(s1, 1) == Advance(s2, 0);
    }
  }

  lemma AdvanceStart(s: State)
    requires Enabled(s, ManagerAdvance)
    ensures Advance(s, 1) == Some(ManagerNext(s))
  {
    hide Enabled, ManagerNext;
    assert Advance(s, 1) == Advance(ManagerNext(s), 0);
  }

  lemma AdvanceOnce(s: State, n: nat, t: State)
    requires Advance(s, n) == Some(t) && Enabled(t, ManagerAdvance)
    ensures Advance(s, n + 1) == Some(ManagerNext(t))
  {
    hide Enabled, ManagerNext;
    AdvanceMore(s, n, 1);
    assert Advance(t, 1) == Advance(ManagerNext(t), 0);
  }

  /** From the receipt of a datagram to the start of its fan-out, for a cached open session. */
  lemma UninterruptedLookup(s: State, d: Datagram)
    requires Enabled(s, ClientReceive(d)) && s.mutex.Free?
    requires RemoteAddress(d.from) in s.cache && s.cache[RemoteAddress(d.from)] < |s.sessions|
    ensures var sid := s.cache[RemoteAddress(d.from)];
            var open := !s.sessions[sid].closed;
            Advance(Next(s, ClientReceive(d)), 4)
            == Some(s.(creating := false, receives := s.receives - 1, datagrams := s.datagrams + [d],
                       verdicts := s.verdicts + [Verdict(sid, false, open)],
                       manager := if open then Rearming(sid) else ReReceiving))
  {
    hide RemoteAddress, Advance, Live, Run;
    var s0 := Next(s, ClientReceive(d));
    var s1 := ManagerNext(s0);
    var s2 := ManagerNext(s1);
    var s3 := ManagerNext(s2);
    AdvanceStart(s0);
    AdvanceOnce(s0, 1, s1);
    AdvanceOnce(s0, 2, s2);
    AdvanceOnce(s0, 3, s3);
  }

  /** Run without interruption, a datagram for a cached session does what `OnReceiveClient` does: the
      session it finds, if open, is re-armed and attempts every target; if closed, nothing is sent. */
  lemma UninterruptedDatagram(s: State, d: Datagram)
    requires Enabled(s, ClientReceive(d)) && s.mutex.Free?
    requires RemoteAddress(d.from) in s.cache && s.cache[RemoteAddress(d.from)] < |s.sessions|
    ensures var sid := s.cache[RemoteAddress(d.from)];
            var open := !s.sessions[sid].closed;
            var verdict := Verdict(sid, false, open);
            Advance(Next(s, ClientReceive(d)), if open then |s.targets| + 7 else 5)
            == Some(s.(creating := false,
                       sessions := if open then s.sessions[sid := Rearm(s.sessions[sid], s.now)] else s.sessions,
                       datagrams := s.datagrams + [d],
                       verdicts := s.verdicts + [verdict],
                       wire := s.wire + Due(s.targets, verdict, d.data)))
  {
    hide RemoteAddress, Advance;
    var sid := s.cache[RemoteAddress(d.from)];
    var s0 := Next(s, ClientReceive(d));
    UninterruptedLookup(s, d);
    var s4 := Advance(s0, 4).value;
    AdvanceOnce(s0, 4, s4);
    if s.sessions[sid].closed {
      assert s.wire + [] == s.wire;
    } else {
      var s5 := ManagerNext(s4);
      UninterruptedSend(s5);
      AdvanceMore(s0, 5, |s.targets| + 2);
      var due := Due(s.targets, Verdict(sid, false, true), d.data);
      assert due[0..] == due;
    }
  }

  /** From the receipt of a datagram to the construction of its session. */
  lemma UninterruptedConstruction(s: State, d: Datagram)
    requires Enabled(s, ClientReceive(d)) && s.mutex.Free?
    requires RemoteAddress(d.from) !in s.cache
    ensures var client := AddressOf(Ipv4Text(d.from.ip), d.from.port);
            Advance(Next(s, ClientReceive(d)), 3)
            == Some(s.(creating := true, mutex := Manager, receives := s.receives - 1,
                       sessions := s.sessions + [NewSession(client)], closing := s.closing + [Idle],
                       origins := s.origins + [d.from], datagrams := s.datagrams + [d],
                       manager := StartingReceive(|s.sessions|)))
  {
    KeyRoundTrip(d.from);
    hide RemoteAddress, AddressOf, Ipv4Text, ParseAddress, Advance;
    var s0 := Next(s, ClientReceive(d));
    var s1 := ManagerNext(s0);
    var s2 := ManagerNext(s1);
    AdvanceStart(s0);
    AdvanceOnce(s0, 1, s1);
    AdvanceOnce(s0, 2, s2);
  }

  /** From the construction of a session to its place in the cache. */
  lemma {:induction false} UninterruptedPublication(s: State, session: Session)
    requires s.sessions != [] && Last(s.sessions) == session && !session.closed
    requires s.manager == StartingReceive(|s.sessions| - 1) && s.datagrams != [] && Key(s) !in s.cache
    ensures var sid := |s.sessions| - 1;
            Advance(s, 3)
            == Some(s.(mutex := Free, cache := s.cache[Key(s) := sid],
                       sessions := s.sessions[sid := StartReceive(session)], manager := Checking(sid)))
  {
    hide RemoteAddress, Advance;
    var s1 := ManagerNext(s);
    var s2 := ManagerNext(s1);
    AdvanceStart(s);
    AdvanceOnce(s, 1, s1);
    AdvanceOnce(s, 2, s2);
  }

  /** From the closed check of an open session to the start of its fan-out. */
  lemma UninterruptedCheck(s: State, sid: nat)
    requires s.manager == Checking(sid) && sid < |s.sessions| && !s.sessions[sid].closed
    ensures Advance(s, 2)
            == Some(s.(sessions := s.sessions[sid := Rearm(s.sessions[sid], s.now)],
                       verdicts := s.verdicts + [Verdict(sid, s.creating, true)], manager := Sending(sid, 0)))
  {
    hide Advance;
    AdvanceStart(s);
    AdvanceOnce(s, 1, ManagerNext(s));
  }

  /** The same for a client without a cached session: one is built for its address with a target receive
      outstanding, cached under its key, re-armed, and attempts every target. */
  lemma UninterruptedFirstDatagram(s: State, d: Datagram)
    requires Enabled(s, ClientReceive(d)) && s.mutex.Free?
    requires RemoteAddress(d.from) !in s.cache
    ensures var sid := |s.sessions|;
            var client := AddressOf(Ipv4Text(d.from.ip), d.from.port);
            var verdict := Verdict(sid, true, true);
            Advance(Next(s, ClientReceive(d)), |s.targets| + 10)
            == Some(s.(creating := true,
                       sessions := s.sessions + [Rearm(StartReceive(NewSession(client)), s.now)],
                       closing := s.closing + [Idle],
                       origins := s.origins + [d.from],
                       cache := s.cache[RemoteAddress(d.from) := sid],
                       datagrams := s.datagrams + [d],
                       verdicts := s.verdicts + [verdict],
                       wire := s.wire + Due(s.targets, verdict, d.data)))
  {
    hide RemoteAddress, AddressOf, Ipv4Text, Advance, ManagerNext;
    var sid := |s.sessions|;
    var s0 := Next(s, ClientReceive(d));
    UninterruptedConstruction(s, d);
    var s3 := Advance(s0, 3).value;
    UninterruptedPublication(s3, s3.sessions[sid]);
    AdvanceMore(s0, 3, 3);
    UninterruptedCheck(Advance(s0, 6).value, sid);
    AdvanceMore(s0, 6, 2);
    UninterruptedSend(Advance(s0, 8).value);
    AdvanceMore(s0, 8, |s.targets| + 2);
    var due := Due(s.targets, Verdict(sid, true, true), d.data);
    assert due[0..] == due;
    assert Advance(s0, 8).value.sessions == s.sessions + [Rearm(StartReceive(s3.sessions[sid]), s.now)];
  }

  // ---- A datagram dropped ---------------------------------------------------------------------

  ghost predicate Reachable(targets: seq<Address>, s: State) { exists steps :: Run(targets, steps) == Some(s) }

  lemma ReachNext(targets: seq<Address>, s: State, step: Step)
    requires Reachable(targets, s) && Enabled(s, step)
    ensures Reachable(targets, Next(s, step))
  {
    var steps :| Run(targets, steps) == Some(s);
    hide Enabled, Next;
    assert (steps + [step])[..|steps|] == steps;
    assert Run(targets, steps + [step]) == Some(Next(s, step));
  }

  lemma AdvanceFirst(s: State, n: nat)
    requires n > 0 && Advance(s, n).Some?
    ensures Enabled(s, ManagerAdvance) && Next(s, ManagerAdvance) == ManagerNext(s)
    ensures Advance(s, n) == Advance(ManagerNext(s), n - 1)
  {
    hide Enabled, ManagerNext;
  }

  lemma {:induction false} ReachAdvance(targets: seq<Address>, s: State, n: nat)
    requires Reachable(targets, s) && Advance(s, n).Some?
    ensures Reachable(targets, Advance(s, n).value)
    decreases n
  {
    hide Reachable, Enabled, Next, ManagerNext;
    if n > 0 {
      AdvanceFirst(s, n);
      hide Advance;
      ReachNext(targets, s, ManagerAdvance);
      ReachAdvance(targets, ManagerNext(s), n - 1);
    }
  }

  /** The first datagram created the session and was sent to every target; no other was handled. */
  ghost predicate Served(s: State, targets: seq<Address>, d: Datagram) {
    && s.targets == targets && s.datagrams == [d] && s.verdicts == [Verdict(0, true, true)]
    && s.wire == Due(targets, Verdict(0, true, true), d.data)
    && |s.sessions| == 1 && !s.sessions[0].closed
  }

  /** One session, open, cached under the key of the datagram's sender, and at rest after serving it. */
  ghost predicate Resting(s: State, targets: seq<Address>, d: Datagram) {
    && Served(s, targets, d)
    && s.manager.Receiving? && s.receives > 0 && s.mutex.Free?
    && s.cache == map[RemoteAddress(d.from) := 0]
    && s.closing == [Idle]
  }

  lemma FirstSession(client: Address)
    ensures var s := Rearm(StartReceive(NewSession(client)), 0);
            !s.closed && s.expiry == KEEPALIVE_SECONDS && s.waits == [Wait(0, Waiting)] && s.receiving == 1
  {
    assert CancelWaits([]) + [Wait(0, Waiting)] == [Wait(0, Waiting)];
  }

  lemma FirstReceive(targets: seq<Address>, d: Datagram)
    ensures Enabled(Init(targets), ClientReceive(d))
  {}

  /** The proxy after its first datagram. */
  ghost function AfterFirst(targets: seq<Address>, d: Datagram): State {
    var client := AddressOf(Ipv4Text(d.from.ip), d.from.port);
    var verdict := Verdict(0, true, true);
    var s := Init(targets);
    s.(creating := true, sessions := s.sessions + [Rearm(StartReceive(NewSession(client)), s.now)],
       closing := s.closing + [Idle], origins := s.origins + [d.from], cache := s.cache[RemoteAddress(d.from) := 0],
       datagrams := s.datagrams + [d], verdicts := s.verdicts + [verdict],
       wire := s.wire + Due(targets, verdict, d.data))
  }

  lemma FirstDatagramServed(targets: seq<Address>, d: Datagram)
    ensures Enabled(Init(targets), ClientReceive(d))
    ensures Advance(Next(Init(targets), ClientReceive(d)), |targets| + 10) == Some(AfterFirst(targets, d))
  {
    hide Advance, Next, Enabled, RemoteAddress, AddressOf, Ipv4Text, Due, Rearm, StartReceive, NewSession, ManagerNext;
    var s0 := Init(targets);
    FirstReceive(targets, d);
    UninterruptedFirstDatagram(s0, d);
  }

  lemma RestsAfterFirst(targets: seq<Address>, d: Datagram)
    ensures var s := AfterFirst(targets, d);
            && Resting(s, targets, d) && s.now == 0 && s.sessions[0].expiry == KEEPALIVE_SECONDS
            && s.sessions[0].waits == [Wait(0, Waiting)] && s.sessions[0].receiving == 1
  {
    FirstSession(AddressOf(Ipv4Text(d.from.ip), d.from.port));
    hide RemoteAddress, AddressOf, Ipv4Text, Due, Rearm, StartReceive, NewSession;
    var due := Due(targets, Verdict(0, true, true), d.data);
    assert [] + due == due;
  }

  lemma RestingIsReachable(targets: seq<Address>, d: Datagram) returns (s: State)
    ensures Reachable(targets, s) && Resting(s, targets, d)
    ensures s.now == 0 && s.sessions[0].expiry == KEEPALIVE_SECONDS
    ensures s.sessions[0].waits == [Wait(0, Waiting)] && s.sessions[0].receiving == 1
  {
    var s0 := Init(targets);
    assert Run(targets, []) == Some(s0);
    FirstDatagramServed(targets, d);
    RestsAfterFirst(targets, d);
    hide Advance, Next, Enabled, Resting, Init, Run, RunFrom, AfterFirst;
    ReachNext(targets, s0, ClientReceive(d));
    hide Reachable;
    ReachAdvance(targets, Next(s0, ClientReceive(d)), |targets| + 10);
    s := AfterFirst(targets, d);
  }

  /** The keepalive time passes, and the handler of the session's wait is queued. */
  lemma ExpiringIsReachable(targets: seq<Address>, d: Datagram) returns (s: State)
    ensures Reachable(targets, s) && Resting(s, targets, d)
    ensures s.now == KEEPALIVE_SECONDS && s.sessions[0].waits == [Wait(0, Expired(KEEPALIVE_SECONDS))]
  {
    var s1 := RestingIsReachable(targets, d);
    hide Reachable, RemoteAddress, Due;
    ReachNext(targets, s1, Tick(KEEPALIVE_SECONDS));
    var s2 := Next(s1, Tick(KEEPALIVE_SECONDS));
    assert s2.sessions[0].waits[0].status.Waiting?;
    ReachNext(targets, s2, Expire(0));
    s := Next(s2, Expire(0));
    assert s.sessions[0].waits == [Wait(0, Expired(KEEPALIVE_SECONDS))];
  }

  /** The manager has looked the session up; the session is about to set its flag. */
  ghost predicate Racing(s: State, targets: seq<Address>, d: Datagram) {
    && s.targets == targets && s.datagrams == [d, d] && s.verdicts == [Verdict(0, true, true)]
    && s.wire == Due(targets, Verdict(0, true, true), d.data)
    && |s.sessions| == 1 && !s.sessions[0].closed && s.closing == [Entered]
    && s.manager == Checking(0) && !s.creating
  }

  lemma RacingIsReachable(targets: seq<Address>, d: Datagram) returns (s: State)
    ensures Reachable(targets, s) && Racing(s, targets, d)
  {
    var s1 := ExpiringIsReachable(targets, d);
    hide Reachable, RemoteAddress, Due, Without;
    ReachNext(targets, s1, RunWait(0, 0));
    var s2 := Next(s1, RunWait(0, 0));
    ReachNext(targets, s2, ClientReceive(d));
    var s3 := Next(s2, ClientReceive(d));
    ReachNext(targets, s3, ManagerAdvance);
    var s4 := Next(s3, ManagerAdvance);
    ReachNext(targets, s4, ManagerAdvance);
    var s5 := Next(s4, ManagerAdvance);
    ReachNext(targets, s5, ManagerAdvance);
    s := Next(s5, ManagerAdvance);
  }

  /** Of two datagrams of one client, the second found the first's session and was sent to no target. */
  ghost predicate Dropped(s: State, targets: seq<Address>, d: Datagram) {
    && s.manager.Receiving? && s.datagrams == [d, d]
    && s.verdicts == [Verdict(0, true, true), Verdict(0, false, false)]
    && s.wire == Due(targets, Verdict(0, true, true), d.data)
  }

  lemma RacingDrops(s: State, targets: seq<Address>, d: Datagram)
    requires Racing(s, targets, d)
    ensures Enabled(s, CloseAdvance(0))
    ensures var s1 := Next(s, CloseAdvance(0));
            && Enabled(s1, ManagerAdvance)
            && var s2 := Next(s1, ManagerAdvance);
            && Enabled(s2, ManagerAdvance) && Dropped(Next(s2, ManagerAdvance), targets, d)
  {
    hide Due;
  }

  /** A run in which a cached client's datagram reaches no target, whatever the targets: the manager finds
      the session open in the cache, the session's timer closes it, and the manager then reads the flag. */
  lemma ADatagramCanBeDropped(targets: seq<Address>, d: Datagram)
    ensures exists s :: Reachable(targets, s) && Dropped(s, targets, d) && |s.wire| == |targets|
  {
    var s := RacingIsReachable(targets, d);
    RacingDrops(s, targets, d);
    hide Reachable, Next, Enabled, Racing;
    ReachNext(targets, s, CloseAdvance(0));
    var s1 := Next(s, CloseAdvance(0));
    ReachNext(targets, s1, ManagerAdvance);
    var s2 := Next(s1, ManagerAdvance);
    ReachNext(targets, s2, ManagerAdvance);
    assert Dropped(Next(s2, ManagerAdvance), targets, d);
  }

  /** The timer closed session 0 at the very second its client's second datagram was served; both datagrams
      were sent to every target. */
  ghost predicate ClosedWhileBusy(s: State, targets: seq<Address>, d: Datagram) {
    && |s.sessions| == 1 && s.datagrams == [d, d]
    && s.wire == Due(targets, Verdict(0, true, true), d.data) + Due(targets, Verdict(0, false, true), d.data)
    && var session := s.sessions[0];
    && session.closed && session.timeout.Some? && session.activity != []
    && Last(session.activity) == session.timeout.value.at == s.now
  }

  /** The session has served a second datagram, and the handler of its first wait is still queued. */
  ghost predicate Overtaken(s: State, targets: seq<Address>, d: Datagram) {
    && |s.sessions| == 1 && s.datagrams == [d, d] && s.closing == [Idle]
    && s.wire == Due(targets, Verdict(0, true, true), d.data) + Due(targets, Verdict(0, false, true), d.data)
    && var session := s.sessions[0];
    && !session.closed && session.activity != [] && Last(session.activity) == s.now
    && session.waits == [Wait(0, Expired(KEEPALIVE_SECONDS)), Wait(s.now, Waiting)]
  }

  lemma SecondServed(s: State, targets: seq<Address>, d: Datagram)
    requires Resting(s, targets, d)
    requires s.now == KEEPALIVE_SECONDS && s.sessions[0].waits == [Wait(0, Expired(KEEPALIVE_SECONDS))]
    ensures Enabled(s, ClientReceive(d))
    ensures var r := Advance(Next(s, ClientReceive(d)), |targets| + 7); r.Some? && Overtaken(r.value, targets, d)
  {
    hide RemoteAddress, Due, Advance, Next;
    UninterruptedDatagram(s, d);
    var session := Rearm(s.sessions[0], s.now);
    assert session.waits == [Wait(0, Expired(KEEPALIVE_SECONDS)), Wait(KEEPALIVE_SECONDS, Waiting)];
    assert s.sessions[0 := session][0] == session;
  }

  lemma OvertakenCloses(s: State, targets: seq<Address>, d: Datagram)
    requires Overtaken(s, targets, d)
    ensures Enabled(s, RunWait(0, 0))
    ensures var s1 := Next(s, RunWait(0, 0));
            Enabled(s1, CloseAdvance(0)) && ClosedWhileBusy(Next(s1, CloseAdvance(0)), targets, d)
  {
    hide Due, Without;
  }

  /** A run in which the timer closes a busy session: the keepalive time passes and the wait's handler is
      queued, the client's second datagram re-arms the timer and is sent to every target, and then the
      queued handler runs. */
  lemma TimerCanCloseABusySession(targets: seq<Address>, d: Datagram)
    ensures exists s :: Reachable(targets, s) && ClosedWhileBusy(s, targets, d)
  {
    var s := ExpiringIsReachable(targets, d);
    SecondServed(s, targets, d);
    hide Reachable, Next, Enabled, Resting, Overtaken, Advance, ClosedWhileBusy;
    ReachNext(targets, s, ClientReceive(d));
    ReachAdvance(targets, Next(s, ClientReceive(d)), |targets| + 7);
    var s1 := Advance(Next(s, ClientReceive(d)), |targets| + 7).value;
    OvertakenCloses(s1, targets, d);
    ReachNext(targets, s1, RunWait(0, 0));
    ReachNext(targets, Next(s1, RunWait(0, 0)), CloseAdvance(0));
  }

  /** A run in which a session goes deaf: its target receive fails, and it stays open and cached. */
  lemma ASessionCanGoDeaf(targets: seq<Address>, d: Datagram)
    ensures exists s :: Reachable(targets, s) && Resting(s, targets, d) && s.sessions[0].receiving == 0
  {
    var s := RestingIsReachable(targets, d);
    hide Reachable, RemoteAddress, Due;
    ReachNext(targets, s, TargetReceive(0, None));
    var s' := Next(s, TargetReceive(0, None));
    assert Resting(s', targets, d) && s'.sessions[0].receiving == 0;
  }
}
