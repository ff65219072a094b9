/** The TCP session and its manager as objects.  Each handler is shown to do what the function of the
    same name in `TcpSession` says; the sockets, the timer and the results of blocking calls are the
    parameters. */
module TcpProxy {
  import opened Addresses
  import opened FlowStatistics
  import opened Keepalive
  import opened TcpSession
  import opened IoServicePool

  class TcpSwitchSession {
    const service: nat
    const statistics: TcpFlowStatistics
    var closed: bool
    var clientOpen: bool
    var targets: seq<Target>
    var expiry: int
    var waits: seq<Wait>
    var pending: multiset<Operation>
    ghost var started: bool
    ghost var events: seq<IoEvent>
    ghost var activity: seq<int>
    ghost var cause: Cause
    ghost var descriptors: set<nat>  // serials of the target sockets open in the system

    ghost function View(): Session
      reads this
    {
      Session(started, closed, clientOpen, targets, expiry, waits, pending, events, activity, cause)
    }

    /** The target list knows every open target socket. */
    ghost predicate Tracked()
      reads this
    {
      && (forall i :: 0 <= i < |targets| ==> targets[i].serial == i)
      && forall i: nat :: i in descriptors <==> i < |targets| && targets[i].open
    }

    constructor (service: nat, statistics: TcpFlowStatistics)
      ensures View() == FRESH && Tracked()
      ensures this.statistics == statistics && this.service == service
    {
      this.service, this.statistics := service, statistics;
      closed, clientOpen, targets := false, true, [];
      expiry, waits, pending := 0, [], multiset{};
      started, events, activity, cause, descriptors := false, [], [], NotClosed, {};
    }

    method Start(addresses: seq<Address>, connects: seq<bool>, now: int)
      requires |connects| == |addresses| && View() == FRESH && Tracked()
      modifies this, statistics
      ensures View() == TcpSession.Start(old(View()), addresses, connects, now).session && Tracked()
      ensures statistics.View() ==
              ApplyAll(old(statistics.View()), TcpSession.Start(old(View()), addresses, connects, now).effects)
      ensures closed ==> descriptors == {}
    {
      hide ApplyAll, Apply, CancelWaits, TargetReads, Rearmed;
      statistics.IncrementConnection();
      started, activity := true, activity + [now];
      ResetKeepaliveTimer(now);
      InitTargetSocket(addresses);
      ghost var armed := Rearm(old(View()).(started := true, activity := old(activity) + [now]), now);
      assert View() == armed.(targets := targets);
      var connected := ConnectTargetServer(addresses, connects);
      if connected {
        AsyncReadClient();
        AsyncReadTargets();
        assert targets == ConnectedTargets(addresses);
      }
      ApplyFew(old(statistics.View()), Connected, Disconnected);
    }

    method InitTargetSocket(addresses: seq<Address>)
      requires targets == [] && Tracked()
      modifies `targets
      ensures Tracked()
      ensures targets == seq(|addresses|, i requires 0 <= i < |addresses| => Target(i, addresses[i], false))
    {
      for i := 0 to |addresses|
        invariant |targets| == i && descriptors == {}
        invariant forall k :: 0 <= k < i ==> targets[k] == Target(k, addresses[k], false)
      {
        targets := targets + [Target(i, addresses[i], false)];
      }
    }

    /** Connects in list order.  The first failure closes the session and ends the loop. */
    method ConnectTargetServer(ghost addresses: seq<Address>, connects: seq<bool>) returns (ok: bool)
      requires |connects| == |targets| == |addresses| && Tracked() && !closed
      requires forall k :: 0 <= k < |targets| ==> targets[k] == Target(k, addresses[k], false)
      modifies this, statistics
      ensures ok <==> false !in connects
      ensures Tracked()
      ensures ok ==> View() == old(View()).(targets := ConnectedTargets(addresses))
      ensures ok ==> statistics.View() == old(statistics.View())
      ensures !ok ==>
                && View() == Close(old(View()), ByConnectError).session && descriptors == {}
                && statistics.View() == Apply(old(statistics.View()), Disconnected)
    {
      var n := |targets|;
      for i := 0 to n
        invariant Tracked() && |targets| == n && View() == old(View()).(targets := targets)
        invariant forall k :: 0 <= k < n ==> targets[k] == Target(k, addresses[k], k < i)
        invariant statistics.View() == old(statistics.View())
        invariant false !in connects[..i]
      {
        targets := targets[i := targets[i].(open := true)];
        descriptors := descriptors + {i};
        assert connects[..i + 1] == connects[..i] + [connects[i]];
        if !connects[i] {
          CloseSession(ByConnectError);
          return false;
        }
      }
      assert connects[..n] == connects;
      assert targets == ConnectedTargets(addresses);
      return true;
    }

    method AsyncReadClient()
      modifies `pending
      ensures pending == old(pending) + multiset{ReadClient}
    {
      pending := pending + multiset{ReadClient};
    }

    method AsyncReadTarget(serial: nat)
      modifies `pending
      ensures pending == old(pending) + multiset{ReadTarget(serial)}
    {
      pending := pending + multiset{ReadTarget(serial)};
    }

    method AsyncReadTargets()
      requires forall i :: 0 <= i < |targets| ==> targets[i].serial == i
      modifies `pending
      ensures pending == old(pending) + TargetReads(|targets|)
    {
      for i := 0 to |targets|
        invariant pending == old(pending) + TargetReads(i)
      {
        AsyncReadTarget(targets[i].serial);
      }
    }

    /** What `OnReadClient` does with data before it reads again. */
    method OnClientData(bytes: Bytes, results: seq<WriteResult>, now: int)
      requires Tracked() && |results| == |targets|
      modifies `expiry, `waits, `events, `activity, statistics
      ensures View() == Rearm(old(View()), now).(events := old(events) + [FromClient(bytes)] + FanOut(bytes, results),
                                                 activity := old(activity) + [now])
      ensures statistics.View() ==
              ApplyAll(old(statistics.View()), [Packet(Describe(ReceivedFromClient))] + FanOutEffects(results))
    {
      hide FanOut, FanOutEffects, Describe, ApplyAll, Apply, CancelWaits;
      ResetKeepaliveTimer(now);
      activity, events := activity + [now], events + [FromClient(bytes)];
      statistics.IncrementPacket(Describe(ReceivedFromClient));
      SendToTarget(bytes, results);
      ApplyCons(old(statistics.View()), Packet(Describe(ReceivedFromClient)), FanOutEffects(results));
    }

    method OnReadClient(r: ReadResult, results: seq<WriteResult>, now: int)
      requires ReadClient in pending && Tracked() && |results| == |targets|
      modifies this, statistics
      ensures View() == TcpSession.OnReadClient(old(View()), r, results, now).session && Tracked()
      ensures statistics.View() ==
              ApplyAll(old(statistics.View()), TcpSession.OnReadClient(old(View()), r, results, now).effects)
      ensures !old(closed) && closed ==> descriptors == {}
    {
      hide FanOut, FanOutEffects, Describe, ApplyAll, Apply, CancelWaits;
      pending := pending - multiset{ReadClient};
      ghost var before := statistics.View();
      ApplyFew(before, Disconnected, Disconnected);
      if closed {
        return;
      }
      match r
      case Data(bytes) =>
        OnClientData(bytes, results, now);
        AsyncReadClient();
      case Error =>
        CloseSession(ByReadError);
      case Aborted =>
    }

    /** What `OnReadTarget` does with data before it reads again. */
    method OnTargetData(serial: nat, bytes: Bytes, result: WriteResult)
      requires Tracked() && serial < |targets|
      modifies `events, statistics
      ensures events == old(events) + [FromTarget(serial, bytes), ToClient(serial, bytes, result)]
      ensures statistics.View() ==
              ApplyAll(old(statistics.View()), [Packet(Describe(ReceivedFromTarget(serial)))]
                                               + if result.Full? then [Packet(Describe(SentToClient))] else [])
    {
      hide Describe, ApplyAll, Apply;
      ghost var first := Packet(Describe(ReceivedFromTarget(serial)));
      ApplyFew(old(statistics.View()), first, Packet(Describe(SentToClient)));
      assert [first] + [] == [first];
      events := events + [FromTarget(targets[serial].serial, bytes)];
      statistics.IncrementPacket(Describe(ReceivedFromTarget(targets[serial].serial)));
      SendToClient(targets[serial].serial, bytes, result);
    }

    method OnReadTarget(serial: nat, r: ReadResult, result: WriteResult)
      requires ReadTarget(serial) in pending && Tracked() && (!closed ==> serial < |targets|)
      modifies this, statistics
      ensures View() == TcpSession.OnReadTarget(old(View()), serial, r, result).session && Tracked()
      ensures statistics.View() ==
              ApplyAll(old(statistics.View()), TcpSession.OnReadTarget(old(View()), serial, r, result).effects)
      ensures !old(closed) && closed ==> descriptors == {}
    {
      hide Describe, ApplyAll, Apply, CancelWaits;
      pending := pending - multiset{ReadTarget(serial)};
      ApplyFew(statistics.View(), Disconnected, Disconnected);
      if closed {
        return;
      }
      match r
      case Data(bytes) =>
        OnTargetData(serial, bytes, result);
        AsyncReadTarget(targets[serial].serial);
      case Error =>
        CloseSession(ByReadError);
      case Aborted =>
    }

    method SendToClient(serial: nat, bytes: Bytes, result: WriteResult)
      modifies `events, statistics
      ensures events == old(events) + [ToClient(serial, bytes, result)]
      ensures statistics.View() ==
              if result.Full? then Apply(old(statistics.View()), Packet(Describe(SentToClient)))
              else old(statistics.View())
    {
      events := events + [ToClient(serial, bytes, result)];
      if result.Full? {
        statistics.IncrementPacket(Describe(SentToClient));
      }
    }

    /** Writes the same bytes to every target in list order; a failed write does not stop the loop. */
    method SendToTarget(bytes: Bytes, results: seq<WriteResult>)
      requires Tracked() && |results| == |targets|
      modifies `events, statistics
      ensures events == old(events) + FanOut(bytes, results)
      ensures statistics.View() == ApplyAll(old(statistics.View()), FanOutEffects(results))
    {
      ApplyFew(old(statistics.View()), Disconnected, Disconnected);
      assert results[..0] == [] && FanOut(bytes, []) == [] && old(events) + [] == old(events);
      hide FanOut, FanOutEffects, Describe, ApplyAll, Apply;
      for i := 0 to |targets|
        invariant events == old(events) + FanOut(bytes, results[..i])
        invariant statistics.View() == ApplyAll(old(statistics.View()), FanOutEffects(results[..i]))
      {
        FanOutMore(bytes, results, i);
        events := events + [ToTarget(targets[i].serial, bytes, results[i])];
        if results[i].Full? {
          statistics.IncrementPacket(Describe(SentToTarget(targets[i].serial)));
          ApplySnoc(old(statistics.View()), FanOutEffects(results[..i]), Packet(Describe(SentToTarget(i))));
        }
      }
      assert results[..|results|] == results;
    }

    method ResetKeepaliveTimer(now: int)
      modifies `expiry, `waits
      ensures View() == Rearm(old(View()), now)
    {
      CancelTimer();
      expiry := now + KEEPALIVE_SECONDS;
      waits := waits + [Wait(now, Waiting)];
    }

    method CancelTimer()
      modifies `waits
      ensures waits == CancelWaits(old(waits))
    {
      waits := CancelWaits(waits);
    }

    method OnTimer(k: nat, now: int)
      requires k < |waits| && !waits[k].status.Waiting? && Tracked()
      modifies this, statistics
      ensures View() == TcpSession.OnTimer(old(View()), k, now).session && Tracked()
      ensures statistics.View() == ApplyAll(old(statistics.View()), TcpSession.OnTimer(old(View()), k, now).effects)
      ensures !old(closed) && closed ==> descriptors == {}
    {
      var w := waits[k];
      waits := Without(waits, k);
      if !closed && w.status.Expired? {
        CloseSession(ByTimer(Timeout(w.armedAt, w.status.queuedAt, now)));
        ApplyFew(old(statistics.View()), Disconnected, Disconnected);
      }
    }

    /** Idempotent: the first call closes every socket, empties the target list, and uncounts the
        connection; a later call does nothing. */
    method CloseSession(ghost reason: Cause)
      requires Tracked()
      modifies this, statistics
      ensures View() == Close(old(View()), reason).session && Tracked()
      ensures statistics.View() ==
              if old(closed) then old(statistics.View()) else Apply(old(statistics.View()), Disconnected)
      ensures descriptors == if old(closed) then old(descriptors) else {}
    {
      if !closed {
        closed, cause := true, reason;
        CancelTimer();
        CloseTargetSocket();
        CloseClientSocket();
        statistics.SubtractConnection();
      }
    }

    method CloseTargetSocket()
      requires Tracked()
      modifies `targets, `descriptors
      ensures targets == [] && descriptors == {}
    {
      var n := |targets|;
      for i := 0 to n
        invariant Tracked() && |targets| == n
        invariant forall k :: 0 <= k < i ==> !targets[k].open
      {
        if targets[i].open {
          targets := targets[i := targets[i].(open := false)];
          descriptors := descriptors - {i};
        }
      }
      assert forall i: nat :: i !in descriptors;
      targets := [];
    }

    method CloseClientSocket()
      modifies `clientOpen
      ensures !clientOpen
    {
      if clientOpen {
        clientOpen := false;
      }
    }
  }

  class TcpSwitchSessionManager {
    const pool: IoServicePool
    const addresses: seq<Address>
    const statistics: TcpFlowStatistics
    var accepting: TcpSwitchSession?
    ghost var sessions: seq<TcpSwitchSession>

    /** One accept is outstanding, on the newest session, which is untouched; session k was given the
        io service handed out k + 1 calls after the acceptor's. */
    ghost predicate Valid()
      reads this, pool, accepting
    {
      && accepting != null && accepting.View() == FRESH && accepting.Tracked() && accepting.statistics == statistics
      && sessions != [] && sessions[|sessions| - 1] == accepting
      && pool.Valid() && |pool.services| > 0 && |pool.handed| == |sessions| + 1
      && (forall k :: 0 <= k < |sessions| ==> sessions[k].service == pool.handed[k + 1])
    }

    constructor (poolSize: nat, addresses: seq<Address>, statistics: TcpFlowStatistics)
      requires poolSize > 0
      ensures accepting == null && sessions == [] && fresh(pool)
      ensures pool.Valid() && |pool.services| == poolSize && |pool.handed| == 1
      ensures this.statistics == statistics && this.addresses == addresses
    {
      var p := new IoServicePool(poolSize);
      var acceptor := p.GetIoService();
      pool, this.addresses, this.statistics := p, addresses, statistics;
      accepting, sessions := null, [];
    }

    method StartAccept()
      requires pool.Valid() && |pool.services| > 0 && |pool.handed| == |sessions| + 1
      requires forall k :: 0 <= k < |sessions| ==> sessions[k].service == pool.handed[k + 1]
      modifies this, pool
      ensures Valid() && fresh(accepting) && sessions == old(sessions) + [accepting]
      ensures pool.handed == old(pool.handed) + [accepting.service]
    {
      var service := pool.GetIoService();
      var session := new TcpSwitchSession(service, statistics);
      accepting, sessions := session, sessions + [session];
    }

    /** The accept handler: an accepted client's session is started, a failed accept leaves its session
        alone, and either way the next accept is outstanding on a new session. */
    method OnAccept(ok: bool, connects: seq<bool>, now: int)
      requires Valid() && |connects| == |addresses|
      modifies this, pool, accepting, statistics
      ensures Valid() && fresh(accepting) && sessions == old(sessions) + [accepting]
      ensures var done := old(accepting);
              && done.Tracked()
              && done.View() == (if ok then Start(FRESH, addresses, connects, now).session else FRESH)
              && statistics.View() ==
                 (if ok then ApplyAll(old(statistics.View()), Start(FRESH, addresses, connects, now).effects)
                  else old(statistics.View()))
    {
      if ok {
        accepting.Start(addresses, connects, now);
      }
      StartAccept();
    }
  }
}
