/** The UDP session and its manager as objects: what each source function does when it runs without
    interruption.  `UdpInterleaving` takes the same functions apart at their preemption points. */
module UdpSession {
  import opened Sequences
  import opened Decimal
  import opened Addresses
  import opened Keepalive

  type Payload = seq<nat>

  /** One `send_to` on a session's target socket. */
  datatype Attempt = Attempt(target: Address, data: Payload, delivered: bool)

  /** One datagram handed to the client socket for a client endpoint. */
  datatype Reply = Reply(to: Endpoint, data: Payload)

  /** A session as a value.  `activity` and `timeout` record the run: when the timer was re-armed for a
      client datagram, and the wait whose handler closed the session. */
  datatype Session = Session(
    client: Address,
    closed: bool,
    socketOpen: bool,
    receiving: nat,
    expiry: int,
    waits: seq<Wait>,
    activity: seq<int>,
    timeout: Option<Timeout>)

  function NewSession(client: Address): Session {
    Session(client, false, true, 0, 0, [], [], None)
  }

  function FlagClosed(s: Session): Session { s.(closed := true) }

  function CancelTimer(s: Session): Session { s.(waits := CancelWaits(s.waits)) }

  function Rearm(s: Session, now: int): Session {
    s.(expiry := now + KEEPALIVE_SECONDS, waits := Rearmed(s.waits, now), activity := s.activity + [now])
  }

  function Elapse(s: Session, now: int): Session { s.(waits := ExpireWaits(s.waits, now)) }

  /** The handler of the wait has run. */
  function TakeWait(s: Session, k: nat): Session
    requires k < |s.waits|
  {
    s.(waits := Without(s.waits, k))
  }

  /** It found the session open and its wait expired. */
  function TimeOut(s: Session, k: nat, now: int): Session
    requires k < |s.waits| && s.waits[k].status.Expired?
  {
    TakeWait(s, k).(timeout := Some(Timeout(s.waits[k].armedAt, s.waits[k].status.queuedAt, now)))
  }

  function ShutSocket(s: Session): Session { s.(socketOpen := false) }

  function StartReceive(s: Session): Session {
    if s.closed then s else s.(receiving := s.receiving + 1)
  }

  /** One attempt at each target, in list order, with the same bytes, whatever the earlier outcomes were. */
  ghost predicate Attempted(before: seq<Attempt>, after: seq<Attempt>, targets: seq<Address>, data: Payload,
                            delivered: seq<bool>)
    requires |delivered| == |targets|
  {
    && |after| == |before| + |targets| && after[..|before|] == before
    && forall i :: 0 <= i < |targets| ==> after[|before| + i] == Attempt(targets[i], data, delivered[i])
  }

  /** What reaches the wire when data is sent to a stored client address. */
  function RepliesTo(client: Address, data: Payload): seq<Reply> {
    match Destination(client)
    case Some(to) => [Reply(to, data)]
    case None => []
  }

  /** A session built for an endpoint replies to that endpoint. */
  lemma RepliesToOrigin(e: Endpoint, data: Payload)
    ensures RepliesTo(AddressOf(Ipv4Text(e.ip), e.port), data) == [Reply(e, data)]
  {
    KeyRoundTrip(e);
  }

  class UdpSession {
    const clientAddress: Address
    const targets: seq<Address>
    const manager: UdpSessionManager
    var closed: bool
    var socketOpen: bool
    var receiving: nat
    var expiry: int
    var waits: seq<Wait>
    ghost var activity: seq<int>
    ghost var timeout: Option<Timeout>
    ghost var sent: seq<Attempt>

    ghost function View(): Session
      reads this
    {
      Session(clientAddress, closed, socketOpen, receiving, expiry, waits, activity, timeout)
    }

    constructor (targets: seq<Address>, clientAddress: Address, manager: UdpSessionManager)
      ensures View() == NewSession(clientAddress) && sent == []
      ensures !closed && socketOpen && receiving == 0 && waits == []
      ensures this.targets == targets && this.manager == manager
    {
      this.clientAddress, this.targets, this.manager := clientAddress, targets, manager;
      closed, socketOpen := false, true;
      receiving, expiry, waits := 0, 0, [];
      activity, timeout, sent := [], None, [];
    }

    /** A closed session drops the datagram; an open one re-arms the keepalive timer and attempts every
        target exactly once, in order, even after a failed send. */
    method SendToTarget(data: Payload, delivered: seq<bool>, now: int)
      requires |delivered| == |targets|
      modifies this
      ensures old(closed) ==> View() == old(View()) && sent == old(sent)
      ensures !old(closed) ==> View() == Rearm(old(View()), now)
      ensures !old(closed) ==> Attempted(old(sent), sent, targets, data, delivered)
    {
      if closed {
        return;
      }
      ResetKeepaliveTimer(now);
      ghost var timed := View();
      for i := 0 to |targets|
        invariant View() == timed
        invariant Attempted(old(sent), sent, targets[..i], data, delivered[..i])
      {
        sent := sent + [Attempt(targets[i], data, delivered[i])];
      }
      assert targets[..|targets|] == targets && delivered[..|targets|] == delivered;
    }

    method AsyncReceiveTarget()
      modifies this
      ensures View() == StartReceive(old(View())) && sent == old(sent)
    {
      if closed {
        return;
      }
      receiving := receiving + 1;
    }

    /** The handler of a target receive: an open session forwards the data to its own client, if its
        address spells one, and keeps one receive outstanding; a failed receive is not renewed; a closed
        session does neither. */
    method OnReceiveTarget(data: Option<Payload>)
      requires receiving > 0
      modifies this, manager`replies
      ensures sent == old(sent)
      ensures !old(closed) && data.Some? ==>
                View() == old(View()) && manager.replies == old(manager.replies) + RepliesTo(clientAddress, data.value)
      ensures old(closed) || data.None? ==>
                View() == old(View()).(receiving := old(receiving) - 1) && manager.replies == old(manager.replies)
    {
      receiving := receiving - 1;
      if closed {
        return;
      }
      if data.Some? {
        manager.SendToClient(data.value, clientAddress);
        AsyncReceiveTarget();
      }
    }

    /** The expiry is 480 seconds away, and one more wait, the only one on it, is outstanding. */
    method ResetKeepaliveTimer(now: int)
      modifies this
      ensures View() == Rearm(old(View()), now) && sent == old(sent)
      ensures expiry == now + 480 && activity == old(activity) + [now]
      ensures |waits| == |old(waits)| + 1 && Last(waits) == Wait(now, Waiting)
      ensures forall k :: 0 <= k < |old(waits)| ==>
                waits[k] == if old(waits)[k].status.Waiting? then Wait(old(waits)[k].armedAt, Cancelled)
                            else old(waits)[k]
      ensures closed == old(closed) && socketOpen == old(socketOpen) && receiving == old(receiving)
    {
      expiry, waits := now + KEEPALIVE_SECONDS, Rearmed(waits, now);
      activity := activity + [now];
    }

    /** The handler of a keepalive wait that expired or was cancelled. */
    method OnKeepalive(k: nat, now: int)
      requires k < |waits| && !waits[k].status.Waiting?
      modifies this, manager`cache
      ensures sent == old(sent)
      ensures old(closed) || old(waits[k].status.Cancelled?) ==>
                View() == TakeWait(old(View()), k) && manager.cache == old(manager.cache)
      ensures !old(closed) && old(waits[k].status.Expired?) ==>
                && View() == ShutSocket(CancelTimer(FlagClosed(TimeOut(old(View()), k, now))))
                && closed && !socketOpen && !SomeWaiting(waits)
                && manager.cache == old(manager.cache) - {clientAddress.addr}
    {
      var w := waits[k];
      waits := Without(waits, k);
      if !closed && w.status.Expired? {
        timeout := Some(Timeout(w.armedAt, w.status.queuedAt, now));
        Close();
      }
    }

    /** The first call closes the session and erases its key; every later call does nothing. */
    method Close()
      modifies this, manager`cache
      ensures sent == old(sent)
      ensures old(closed) ==> View() == old(View()) && manager.cache == old(manager.cache)
      ensures !old(closed) ==>
                && View() == ShutSocket(CancelTimer(FlagClosed(old(View()))))
                && closed && !socketOpen && !SomeWaiting(waits)
                && manager.cache == old(manager.cache) - {clientAddress.addr}
    {
      if !closed {
        closed := true;
        waits := CancelWaits(waits);
        if socketOpen {
          socketOpen := false;
        }
        manager.UdpSwitchSessionClosed(clientAddress.addr);
      }
    }
  }

  class UdpSessionManager {
    const targets: seq<Address>
    var cache: map<string, UdpSession>
    var receives: nat
    ghost var replies: seq<Reply>

    /** Every cached session sends to the manager's targets and reports to the manager. */
    ghost predicate Valid()
      reads this
    {
      forall k :: k in cache ==> cache[k].targets == targets && cache[k].manager == this
    }

    constructor (targets: seq<Address>)
      ensures Valid() && cache == map[] && receives == 0 && replies == [] && this.targets == targets
    {
      this.targets := targets;
      cache, receives, replies := map[], 0, [];
    }

    method AsyncReceiveClient()
      modifies this`receives
      ensures receives == old(receives) + 1
    {
      receives := receives + 1;
    }

    /** A cached session is returned as it is.  A missing one is built for the address the key spells,
        with one target receive outstanding and no timer, and cached under the key; a key whose port
        does not parse leaves the cache alone. */
    method GetOrCreate(clientAddress: string) returns (r: Result<UdpSession, StoiError>)
      modifies this`cache
      ensures old(Valid()) ==> Valid()
      ensures clientAddress in old(cache) ==> r == Ok(old(cache)[clientAddress]) && cache == old(cache)
      ensures clientAddress !in old(cache) && ParseAddress(clientAddress).Err? ==> r.Err? && cache == old(cache)
      ensures clientAddress !in old(cache) && ParseAddress(clientAddress).Ok? ==>
                && r.Ok? && fresh(r.value)
                && cache == old(cache)[clientAddress := r.value]
                && r.value.View() == StartReceive(NewSession(ParseAddress(clientAddress).value))
                && r.value.sent == [] && r.value.targets == targets && r.value.manager == this
    {
      if clientAddress in cache {
        return Ok(cache[clientAddress]);
      }
      var parsed := ParseAddress(clientAddress);
      if parsed.Err? {
        return Err(parsed.error);
      }
      var session := new UdpSession(targets, parsed.value, this);
      session.AsyncReceiveTarget();
      cache := cache[clientAddress := session];
      return Ok(session);
    }

    method UdpSwitchSessionClosed(clientAddress: string)
      modifies this`cache
      ensures cache == old(cache) - {clientAddress}
    {
      cache := cache - {clientAddress};
    }

    /** A stored address that `from_string` rejects sends nothing; the exception is caught. */
    method SendToClient(data: Payload, clientAddress: Address)
      modifies this`replies
      ensures replies == old(replies) + RepliesTo(clientAddress, data)
    {
      match Destination(clientAddress)
      case Some(to) => replies := replies + [Reply(to, data)];
      case None => assert replies + [] == replies;
    }

    /** The receive loop's handler: the datagram reaches its own client's session, which attempts every
        target or, if closed, none, and the next receive is started; an error ends the loop. */
    method OnReceiveClient(from: Endpoint, data: Option<Payload>, delivered: seq<bool>, now: int)
      returns (session: UdpSession?)
      requires Valid() && receives > 0 && |delivered| == |targets|
      modifies this`cache, this`receives, if RemoteAddress(from) in cache then {cache[RemoteAddress(from)]} else {}
      ensures Valid()
      ensures data.None? ==> receives == old(receives) - 1 && cache == old(cache) && session == null
      ensures data.Some? ==>
                && receives == old(receives) && session != null
                && cache == old(cache)[RemoteAddress(from) := session]
                && (RemoteAddress(from) in old(cache) ==> session == old(cache)[RemoteAddress(from)])
                && (RemoteAddress(from) !in old(cache) ==>
                    && fresh(session)
                    && session.View() == Rearm(StartReceive(NewSession(AddressOf(Ipv4Text(from.ip), from.port))), now)
                    && Attempted([], session.sent, targets, data.value, delivered))
      ensures data.Some? && RemoteAddress(from) in old(cache) ==>
                && var known := old(cache)[RemoteAddress(from)];
                && (if old(known.closed) then known.sent == old(known.sent)
                    else Attempted(old(known.sent), known.sent, targets, data.value, delivered))
                && known.View() == if old(known.closed) then old(known.View()) else Rearm(old(known.View()), now)
    {
      hide Attempted, Rearm;
      receives := receives - 1;
      session := null;
      if data.Some? {
        KeyRoundTrip(from);
        var r := GetOrCreate(RemoteAddress(from));
        session := r.value;
        session.SendToTarget(data.value, delivered, now);
        AsyncReceiveClient();
      }
    }
  }
}
