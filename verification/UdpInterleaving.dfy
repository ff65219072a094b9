/** The UDP proxy as threads.  The manager's thread and one thread for every session take turns at the
    points where the source can be preempted; the session cache is guarded by one mutex.  A state is
    reachable when some finite sequence of enabled steps leads to it. */
module UdpInterleaving {
  import opened Sequences
  import opened Addresses
  import opened Keepalive
  import opened UdpSession

  datatype Datagram = Datagram(from: Endpoint, data: Payload)

  datatype Owner = Free | Manager | Closer(sid: nat)

  datatype ManagerPc =
    | Receiving
    | Locking
    | Finding
    | Constructing
    | StartingReceive(sid: nat)
    | Emplacing(sid: nat)
    | Unlocking(sid: nat)
    | Checking(sid: nat)
    | Rearming(sid: nat)
    | Sending(sid: nat, next: nat)
    | ReReceiving
    | Stopped
    | Crashed

  datatype ClosePc = Idle | Entered | Flagged | TimerCancelled | SocketShut | Locked | Erased

  /** What became of one datagram: the session it was looked up to, whether it created that session, and
      whether it passed the closed check. */
  datatype Verdict = Verdict(sid: nat, created: bool, passed: bool)

  datatype Tagged = Tagged(sid: nat, target: Address, data: Payload)

  datatype Routed = Routed(sid: nat, reply: Reply)

  /** `origins` and the four histories at the end record the run; the code does not read them. */
  datatype State = State(
    targets: seq<Address>,
    now: int,
    sessions: seq<Session>,
    closing: seq<ClosePc>,
    cache: map<string, nat>,
    mutex: Owner,
    manager: ManagerPc,
    receives: nat,
    creating: bool,
    erased: set<nat>,
    origins: seq<Endpoint>,
    datagrams: seq<Datagram>,
    verdicts: seq<Verdict>,
    wire: seq<Tagged>,
    replies: seq<Routed>)

  /** `Expire` queues the handler of the wait on a session's expiry; `RunWait` runs the handler of its k-th
      wait. */
  datatype Step =
    | Tick(seconds: nat)
    | ClientReceive(datagram: Datagram)
    | ClientReceiveError
    | ManagerAdvance
    | Expire(sid: nat)
    | RunWait(sid: nat, k: nat)
    | CloseAdvance(sid: nat)
    | TargetReceive(sid: nat, data: Option<Payload>)

  function Init(targets: seq<Address>): State {
    State(targets, 0, [], [], map[], Free, Receiving, 1, false, {}, [], [], [], [], [])
  }

  /** The key of the datagram being handled. */
  function Key(s: State): string
    requires s.datagrams != []
  {
    RemoteAddress(Last(s.datagrams).from)
  }

  predicate Enabled(s: State, step: Step) {
    match step
    case Tick(_) => true
    case ClientReceive(_) => s.manager.Receiving? && s.receives > 0
    case ClientReceiveError => s.manager.Receiving? && s.receives > 0
    case ManagerAdvance =>
      (match s.manager
       case Receiving => false
       case Stopped => false
       case Crashed => false
       case Locking => s.mutex.Free?
       case Finding => s.datagrams != []
       case Constructing => s.datagrams != []
       case StartingReceive(sid) => sid < |s.sessions|
       case Emplacing(sid) => s.datagrams != []
       case Unlocking(_) => true
       case Checking(sid) => sid < |s.sessions|
       case Rearming(sid) => sid < |s.sessions|
       case Sending(sid, next) => s.datagrams != []
       case ReReceiving => true)
    case Expire(sid) =>
      sid < |s.sessions| && s.now >= s.sessions[sid].expiry && SomeWaiting(s.sessions[sid].waits)
    case RunWait(sid, k) =>
      && sid < |s.sessions| && sid < |s.closing| && s.closing[sid].Idle?
      && k < |s.sessions[sid].waits| && !s.sessions[sid].waits[k].status.Waiting?
    case CloseAdvance(sid) =>
      && sid < |s.sessions| && sid < |s.closing|
      && (s.closing[sid].SocketShut? ==> s.mutex.Free?)
      && !s.closing[sid].Idle?
    case TargetReceive(sid, _) =>
      && sid < |s.sessions| && sid < |s.closing| && s.closing[sid].Idle?
      && s.sessions[sid].receiving > 0
  }

  function SetSession(s: State, sid: nat, session: Session): State
    requires sid < |s.sessions|
  {
    s.(sessions := s.sessions[sid := session])
  }

  function ManagerNext(s: State): State
    requires Enabled(s, ManagerAdvance)
  {
    match s.manager
    case Locking => s.(mutex := Manager, manager := Finding)
    case Finding =>
      if Key(s) in s.cache then s.(manager := Unlocking(s.cache[Key(s)]), creating := false)
      else s.(manager := Constructing, creating := true)
    case Constructing =>
      (match ParseAddress(Key(s))
       case Err(_) => s.(manager := Crashed, mutex := Free)
       case Ok(client) =>
         s.(sessions := s.sessions + [NewSession(client)], closing := s.closing + [Idle],
            origins := s.origins + [Last(s.datagrams).from], manager := StartingReceive(|s.sessions|)))
    case StartingReceive(sid) => SetSession(s, sid, StartReceive(s.sessions[sid])).(manager := Emplacing(sid))
    case Emplacing(sid) =>
      s.(cache := if Key(s) in s.cache then s.cache else s.cache[Key(s) := sid], manager := Unlocking(sid))
    case Unlocking(sid) => s.(mutex := Free, manager := Checking(sid))
    case Checking(sid) =>
      s.(verdicts := s.verdicts + [Verdict(sid, s.creating, !s.sessions[sid].closed)],
         manager := if s.sessions[sid].closed then ReReceiving else Rearming(sid))
    case Rearming(sid) => SetSession(s, sid, Rearm(s.sessions[sid], s.now)).(manager := Sending(sid, 0))
    case Sending(sid, next) =>
      if next < |s.targets| then
        s.(wire := s.wire + [Tagged(sid, s.targets[next], Last(s.datagrams).data)], manager := Sending(sid, next + 1))
      else s.(manager := ReReceiving)
    case ReReceiving => s.(receives := s.receives + 1, manager := Receiving)
  }

  function CloseNext(s: State, sid: nat): State
    requires Enabled(s, CloseAdvance(sid))
  {
    var session := s.sessions[sid];
    match s.closing[sid]
    case Entered =>
      if session.closed then s.(closing := s.closing[sid := Idle])
      else SetSession(s, sid, FlagClosed(session)).(closing := s.closing[sid := Flagged])
    case Flagged => SetSession(s, sid, CancelTimer(session)).(closing := s.closing[sid := TimerCancelled])
    case TimerCancelled => SetSession(s, sid, ShutSocket(session)).(closing := s.closing[sid := SocketShut])
    case SocketShut => s.(mutex := Closer(sid), closing := s.closing[sid := Locked])
    case Locked =>
      s.(cache := s.cache - {session.client.addr}, erased := s.erased + {sid}, closing := s.closing[sid := Erased])
    case Erased => s.(mutex := Free, closing := s.closing[sid := Idle])
  }

  function Next(s: State, step: Step): State
    requires Enabled(s, step)
  {
    match step
    case Tick(seconds) => s.(now := s.now + seconds)
    case ClientReceive(d) => s.(receives := s.receives - 1, datagrams := s.datagrams + [d], manager := Locking)
    case ClientReceiveError => s.(receives := s.receives - 1, manager := Stopped)
    case ManagerAdvance => ManagerNext(s)
    case Expire(sid) => SetSession(s, sid, Elapse(s.sessions[sid], s.now))
    case RunWait(sid, k) =>
      var session := s.sessions[sid];
      if !session.closed && session.waits[k].status.Expired? then
        SetSession(s, sid, TimeOut(session, k, s.now)).(closing := s.closing[sid := Entered])
      else SetSession(s, sid, TakeWait(session, k))
    case CloseAdvance(sid) => CloseNext(s, sid)
    case TargetReceive(sid, data) =>
      var session := s.sessions[sid].(receiving := s.sessions[sid].receiving - 1);
      if session.closed || data.None? then SetSession(s, sid, session)
      else
        SetSession(s, sid, StartReceive(session))
          .(replies := s.replies + match Destination(session.client)
                                   case Some(to) => [Routed(sid, Reply(to, data.value))]
                                   case None => [])
  }

  /** The state after a sequence of steps, if every step was enabled. */
  function RunFrom(s: State, steps: seq<Step>): Option<State> {
    if steps == [] then Some(s)
    else
      match RunFrom(s, steps[..|steps| - 1])
      case None => None
      case Some(s') => if Enabled(s', Last(steps)) then Some(Next(s', Last(steps))) else None
  }

  function Run(targets: seq<Address>, steps: seq<Step>): Option<State> { RunFrom(Init(targets), steps) }

  lemma RunLast(s: State, steps: seq<Step>)
    requires steps != [] && RunFrom(s, steps).Some?
    ensures var before := RunFrom(s, steps[..|steps| - 1]);
            && before.Some? && Enabled(before.value, Last(steps))
            && RunFrom(s, steps).value == Next(before.value, Last(steps))
  {
    hide Enabled, Next;
  }

  // ---- What every step keeps -------------------------------------------------------------------

  /** The session the manager has built but not yet put in the cache. */
  function Building(m: ManagerPc): Option<nat> {
    match m
    case StartingReceive(sid) => Some(sid)
    case Emplacing(sid) => Some(sid)
    case _ => None
  }

  /** The session the manager is looking up or serving. */
  function Current(m: ManagerPc): Option<nat> {
    match m
    case StartingReceive(sid) => Some(sid)
    case Emplacing(sid) => Some(sid)
    case Unlocking(sid) => Some(sid)
    case Checking(sid) => Some(sid)
    case Rearming(sid) => Some(sid)
    case Sending(sid, _) => Some(sid)
    case _ => None
  }

  predicate ManagerHolds(m: ManagerPc) {
    m.Finding? || m.Constructing? || m.StartingReceive? || m.Emplacing? || m.Unlocking?
  }

  predicate CloserHolds(c: ClosePc) {
    c.Locked? || c.Erased?
  }

  /** Datagrams received but not yet past the closed check. */
  function Unchecked(m: ManagerPc): nat {
    if m.Locking? || m.Finding? || m.Constructing? || m.StartingReceive? || m.Emplacing? || m.Unlocking?
       || m.Checking? || m.Crashed?
    then 1 else 0
  }

  ghost predicate Shape(s: State) {
    && |s.sessions| == |s.closing| == |s.origins|
    && (Building(s.manager).Some? ==> Building(s.manager).value == |s.sessions| - 1)
    && (forall sid :: sid in s.erased ==> sid < |s.sessions|)
    && !s.manager.Crashed?
    && s.receives == (if s.manager.Receiving? then 1 else 0)
    && (!s.manager.Receiving? && !s.manager.Stopped? ==> s.datagrams != [])
    && |s.verdicts| + Unchecked(s.manager) == |s.datagrams|
  }

  /** Every session was built from the key of the endpoint whose datagram created it. */
  ghost predicate Addressed(s: State)
    requires Shape(s)
  {
    forall sid :: 0 <= sid < |s.sessions| ==>
      s.sessions[sid].client == AddressOf(Ipv4Text(s.origins[sid].ip), s.origins[sid].port)
  }

  ghost predicate MutexOwned(s: State)
    requires Shape(s)
  {
    && (s.mutex.Manager? <==> ManagerHolds(s.manager))
    && (s.mutex.Closer? ==> s.mutex.sid < |s.closing|)
    && forall sid :: 0 <= sid < |s.closing| ==> (CloserHolds(s.closing[sid]) <==> s.mutex == Closer(sid))
  }

  /** How far a session's closing has come agrees with its flag and with its erasure. */
  predicate ClosingOrdered(session: Session, pc: ClosePc, erased: bool) {
    match pc
    case Idle => session.closed <==> erased
    case Entered => !session.closed && !erased
    case Erased => session.closed && erased
    case _ => session.closed && !erased
  }

  /** Nothing can close a session before its first datagram has re-armed the timer. */
  predicate Quiet(session: Session, pc: ClosePc) {
    session.waits == [] && session.activity == [] && !session.closed && pc.Idle?
  }

  ghost predicate Closings(s: State)
    requires Shape(s)
  {
    forall sid :: 0 <= sid < |s.sessions| ==> ClosingOrdered(s.sessions[sid], s.closing[sid], sid in s.erased)
  }

  /** In the cache: built, published, and not erased. */
  predicate Live(s: State, sid: nat) {
    sid < |s.sessions| && Building(s.manager) != Some(sid) && sid !in s.erased
  }

  /** The session being served was created by the datagram's sender, and is still quiet when this very
      datagram created it. */
  ghost predicate Serving(s: State)
    requires Shape(s)
  {
    && (Current(s.manager).Some? ==>
          && var sid := Current(s.manager).value;
          && sid < |s.sessions|
          && s.origins[sid] == Last(s.datagrams).from
          && (s.creating && !s.manager.Sending? ==> Quiet(s.sessions[sid], s.closing[sid]))
          && (s.manager.Unlocking? ==> Live(s, sid)))
    && (s.manager.Constructing? || s.manager.StartingReceive? || s.manager.Emplacing? ==>
          s.creating && Key(s) !in s.cache)
  }

  ghost predicate CacheExact(s: State)
    requires Shape(s)
  {
    && (forall k :: k in s.cache ==> Live(s, s.cache[k]) && RemoteAddress(s.origins[s.cache[k]]) == k)
    && (forall sid :: 0 <= sid < |s.origins| && Live(s, sid) ==>
          RemoteAddress(s.origins[sid]) in s.cache && s.cache[RemoteAddress(s.origins[sid])] == sid)
  }

  ghost predicate Inv(s: State) {
    Shape(s) && Addressed(s) && MutexOwned(s) && Closings(s) && Serving(s) && CacheExact(s)
  }

  lemma InitInv(targets: seq<Address>)
    ensures Inv(Init(targets))
  {}

  lemma ReceiveInv(s: State, step: Step)
    requires Inv(s) && Enabled(s, step) && (step.ClientReceive? || step.ClientReceiveError?)
    ensures Inv(Next(s, step))
  {}

  lemma {:induction false} FindInv(s: State)
    requires Inv(s) && Enabled(s, ManagerAdvance) && s.manager.Finding?
    ensures Inv(ManagerNext(s))
  {
    hide RemoteAddress, Ipv4Text, AddressOf, Destination;
    if Key(s) in s.cache {
      KeyInjective(s.origins[s.cache[Key(s)]], Last(s.datagrams).from);
    }
  }

  lemma {:induction false} ConstructInv(s: State)
    requires Inv(s) && Enabled(s, ManagerAdvance) && s.manager.Constructing?
    ensures Inv(ManagerNext(s))
  {
    hide RemoteAddress, Ipv4Text, AddressOf, Destination;
    KeyRoundTrip(Last(s.datagrams).from);
  }

  lemma {:induction false} EmplaceInv(s: State)
    requires Inv(s) && Enabled(s, ManagerAdvance) && s.manager.Emplacing?
    ensures Inv(ManagerNext(s))
  {
    hide RemoteAddress, Ipv4Text, AddressOf, Destination;
  }

  lemma LockInv(s: State)
    requires Inv(s) && Enabled(s, ManagerAdvance) && (s.manager.Locking? || s.manager.Unlocking?)
    ensures Inv(ManagerNext(s))
  {
    hide RemoteAddress, Ipv4Text, AddressOf, Destination;
  }

  lemma StartReceiveInv(s: State)
    requires Inv(s) && Enabled(s, ManagerAdvance) && s.manager.StartingReceive?
    ensures Inv(ManagerNext(s))
  {
    hide RemoteAddress, Ipv4Text, AddressOf, Destination;
  }

  lemma CheckInv(s: State)
    requires Inv(s) && Enabled(s, ManagerAdvance) && s.manager.Checking?
    ensures Inv(ManagerNext(s))
  {
    hide RemoteAddress, Ipv4Text, AddressOf, Destination;
  }

  lemma {:induction false} RearmInv(s: State)
    requires Inv(s) && Enabled(s, ManagerAdvance) && s.manager.Rearming?
    ensures Inv(ManagerNext(s))
  {
    hide RemoteAddress, Ipv4Text, AddressOf, Destination;
  }

  lemma {:induction false} SendInv(s: State)
    requires Inv(s) && Enabled(s, ManagerAdvance) && s.manager.Sending? && s.manager.next < |s.targets|
    ensures Inv(ManagerNext(s))
  {
    hide RemoteAddress, Ipv4Text, AddressOf, Destination;
  }

  lemma {:induction false} SentInv(s: State)
    requires Inv(s) && Enabled(s, ManagerAdvance) && s.manager.Sending? && s.manager.next >= |s.targets|
    ensures Inv(ManagerNext(s))
  {
    hide RemoteAddress, Ipv4Text, AddressOf, Destination;
  }

  lemma ReReceiveInv(s: State)
    requires Inv(s) && Enabled(s, ManagerAdvance) && s.manager.ReReceiving?
    ensures Inv(ManagerNext(s))
  {
    hide RemoteAddress, Ipv4Text, AddressOf, Destination;
  }

  lemma {:induction false} ManagerInv(s: State)
    requires Inv(s) && Enabled(s, ManagerAdvance)
    ensures Inv(ManagerNext(s))
  {
    hide Inv, ManagerNext;
    match s.manager
    case Locking => LockInv(s);
    case Finding => FindInv(s);
    case Constructing => ConstructInv(s);
    case StartingReceive(_) => StartReceiveInv(s);
    case Emplacing(_) => EmplaceInv(s);
    case Unlocking(_) => LockInv(s);
    case Checking(_) => CheckInv(s);
    case Rearming(_) => RearmInv(s);
    case Sending(_, next) => if next < |s.targets| { SendInv(s); } else { SentInv(s); }
    case ReReceiving => ReReceiveInv(s);
    case _ =>
  }

  /** The invariant does not look at the clock. */
  lemma TickInv(s: State, step: Step)
    requires Inv(s) && step.Tick?
    ensures Inv(Next(s, step))
  {
    hide RemoteAddress, Ipv4Text, AddressOf, Destination;
  }

  lemma ExpireInv(s: State, sid: nat)
    requires Inv(s) && Enabled(s, Expire(sid))
    ensures Inv(Next(s, Expire(sid)))
  {
    hide RemoteAddress, Ipv4Text, AddressOf, Destination;
  }

  lemma TimeOutInv(s: State, sid: nat, k: nat)
    requires Inv(s) && Enabled(s, RunWait(sid, k))
    requires !s.sessions[sid].closed && s.sessions[sid].waits[k].status.Expired?
    ensures Inv(SetSession(s, sid, TimeOut(s.sessions[sid], k, s.now)).(closing := s.closing[sid := Entered]))
  {
    hide RemoteAddress, Ipv4Text, AddressOf, Destination, Without;
  }

  lemma TakeWaitInv(s: State, sid: nat, k: nat)
    requires Inv(s) && Enabled(s, RunWait(sid, k))
    ensures Inv(SetSession(s, sid, TakeWait(s.sessions[sid], k)))
  {
    hide RemoteAddress, Ipv4Text, AddressOf, Destination, Without;
  }

  lemma {:induction false} RunWaitInv(s: State, sid: nat, k: nat)
    requires Inv(s) && Enabled(s, RunWait(sid, k))
    ensures Inv(Next(s, RunWait(sid, k)))
  {
    hide Inv, SetSession, TimeOut, TakeWait;
    if !s.sessions[sid].closed && s.sessions[sid].waits[k].status.Expired? { TimeOutInv(s, sid, k); }
    else { TakeWaitInv(s, sid, k); }
  }

  /** The invariant does not look at the outstanding receives or at the replies. */
  lemma {:induction false} ReceivingFrame(s: State, sid: nat, n: nat, replies: seq<Routed>)
    requires Inv(s) && sid < |s.sessions|
    ensures Inv(SetSession(s, sid, s.sessions[sid].(receiving := n)).(replies := replies))
  {
    hide RemoteAddress, Ipv4Text, AddressOf, Destination;
  }

  lemma {:induction false} TargetReceiveInv(s: State, sid: nat, data: Option<Payload>)
    requires Inv(s) && Enabled(s, TargetReceive(sid, data))
    ensures Inv(Next(s, TargetReceive(sid, data)))
  {
    hide Inv, Destination;
    var s' := Next(s, TargetReceive(sid, data));
    ReceivingFrame(s, sid, s'.sessions[sid].receiving, s'.replies);
    assert s' == SetSession(s, sid, s.sessions[sid].(receiving := s'.sessions[sid].receiving)).(replies := s'.replies);
  }

  /** A closing session that is not erased may change anything but its client. */
  lemma ClosingFrame(s: State, sid: nat, session: Session, pc: ClosePc)
    requires Inv(s) && sid < |s.sessions| && !s.closing[sid].Idle? && !pc.Idle?
    requires session.client == s.sessions[sid].client && ClosingOrdered(session, pc, sid in s.erased)
    requires !CloserHolds(s.closing[sid]) && !CloserHolds(pc)
    ensures Inv(SetSession(s, sid, session).(closing := s.closing[sid := pc]))
  {
    hide RemoteAddress, Ipv4Text, AddressOf, Destination;
  }

  lemma {:induction false} FlagInv(s: State, sid: nat)
    requires Inv(s) && Enabled(s, CloseAdvance(sid)) && s.closing[sid].Entered?
    ensures Inv(CloseNext(s, sid))
  {
    var session := s.sessions[sid];
    assert ClosingOrdered(session, Entered, sid in s.erased);
    hide Inv, SetSession;
    ClosingFrame(s, sid, FlagClosed(session), Flagged);
  }

  lemma {:induction false} CancelInv(s: State, sid: nat)
    requires Inv(s) && Enabled(s, CloseAdvance(sid)) && s.closing[sid].Flagged?
    ensures Inv(CloseNext(s, sid))
  {
    var session := s.sessions[sid];
    assert ClosingOrdered(session, Flagged, sid in s.erased);
    hide Inv, SetSession;
    ClosingFrame(s, sid, CancelTimer(session), TimerCancelled);
  }

  lemma {:induction false} ShutInv(s: State, sid: nat)
    requires Inv(s) && Enabled(s, CloseAdvance(sid)) && s.closing[sid].TimerCancelled?
    ensures Inv(CloseNext(s, sid))
  {
    var session := s.sessions[sid];
    assert ClosingOrdered(session, TimerCancelled, sid in s.erased);
    hide Inv, SetSession;
    ClosingFrame(s, sid, ShutSocket(session), SocketShut);
  }

  lemma {:induction false} EraseLockInv(s: State, sid: nat)
    requires Inv(s) && Enabled(s, CloseAdvance(sid)) && (s.closing[sid].SocketShut? || s.closing[sid].Erased?)
    ensures Inv(CloseNext(s, sid))
  {
    hide RemoteAddress, Ipv4Text, AddressOf, Destination;
  }

  lemma EraseCache(s: State, sid: nat)
    requires Inv(s) && Enabled(s, CloseAdvance(sid)) && s.closing[sid].Locked?
    ensures Shape(CloseNext(s, sid)) && CacheExact(CloseNext(s, sid))
  {
    hide RemoteAddress, Ipv4Text, AddressOf, Destination, Serving;
    KeyRoundTrip(s.origins[sid]);
  }

  lemma EraseServing(s: State, sid: nat)
    requires Inv(s) && Enabled(s, CloseAdvance(sid)) && s.closing[sid].Locked?
    ensures Shape(CloseNext(s, sid)) && Serving(CloseNext(s, sid))
  {
    hide RemoteAddress, Ipv4Text, AddressOf, Destination, CacheExact, Addressed;
  }

  lemma EraseRest(s: State, sid: nat)
    requires Inv(s) && Enabled(s, CloseAdvance(sid)) && s.closing[sid].Locked?
    ensures var s' := CloseNext(s, sid); Shape(s') && Addressed(s') && MutexOwned(s') && Closings(s')
  {
    hide RemoteAddress, Ipv4Text, AddressOf, Destination, CacheExact, Serving;
  }

  /** Erasing by address takes the session itself out of the cache, and keeps the rest. */
  lemma {:induction false} EraseInv(s: State, sid: nat)
    requires Inv(s) && Enabled(s, CloseAdvance(sid)) && s.closing[sid].Locked?
    ensures Inv(CloseNext(s, sid))
  {
    EraseCache(s, sid);
    EraseServing(s, sid);
    EraseRest(s, sid);
    hide CloseNext, Addressed, MutexOwned, Closings, CacheExact, Serving, Shape;
  }

  lemma {:induction false} CloseInv(s: State, sid: nat)
    requires Inv(s) && Enabled(s, CloseAdvance(sid))
    ensures Inv(CloseNext(s, sid))
  {
    hide Inv, CloseNext;
    match s.closing[sid]
    case Entered => FlagInv(s, sid);
    case Flagged => CancelInv(s, sid);
    case TimerCancelled => ShutInv(s, sid);
    case SocketShut => EraseLockInv(s, sid);
    case Locked => EraseInv(s, sid);
    case Erased => EraseLockInv(s, sid);
    case _ =>
  }

  /** Every enabled step keeps the invariant. */
  lemma {:induction false} StepInv(s: State, step: Step)
    requires Inv(s) && Enabled(s, step)
    ensures Inv(Next(s, step))
  {
    hide Inv, ManagerNext, CloseNext;
    match step
    case Tick(_) => TickInv(s, step);
    case ClientReceive(_) => ReceiveInv(s, step);
    case ClientReceiveError => ReceiveInv(s, step);
    case ManagerAdvance => ManagerInv(s);
    case Expire(sid) => ExpireInv(s, sid);
    case RunWait(sid, k) => RunWaitInv(s, sid, k);
    case CloseAdvance(sid) => CloseInv(s, sid);
    case TargetReceive(sid, data) => TargetReceiveInv(s, sid, data);
  }

  lemma {:induction false} InvFrom(s: State, steps: seq<Step>)
    requires Inv(s) && RunFrom(s, steps).Some?
    ensures Inv(RunFrom(s, steps).value)
  {
    hide Inv, Enabled, Next;
    if steps != [] {
      RunLast(s, steps);
      InvFrom(s, steps[..|steps| - 1]);
      StepInv(RunFrom(s, steps[..|steps| - 1]).value, Last(steps));
    }
  }

  lemma {:induction false} RunInv(targets: seq<Address>, steps: seq<Step>)
    requires Run(targets, steps).Some?
    ensures Inv(Run(targets, steps).value)
  {
    InitInv(targets);
    hide Inv, RunFrom, Init;
    InvFrom(Init(targets), steps);
  }
}
