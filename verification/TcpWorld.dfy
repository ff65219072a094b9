/** The TCP proxy: an accept loop and any number of sessions whose handlers run in any order the sockets,
    the timers and the clock allow.  One event is one handler; a session's `start` is one event too. */
module TcpWorld {
  import opened Sequences
  import opened Addresses
  import opened FlowStatistics
  import opened Keepalive
  import opened TcpSession
  import opened TcpStreams
  import IoServicePool

  /** `services[i]` is the io service given to session i. */
  datatype World = World(
    pool: nat,
    cursor: nat,
    addresses: seq<Address>,
    now: int,
    sessions: seq<Session>,
    services: seq<nat>,
    accepts: multiset<nat>,
    stats: Stats)

  datatype Event =
    | Tick(seconds: nat)
    | Accepted(i: nat, connects: seq<bool>)
    | AcceptFailed(i: nat)
    | ClientRead(i: nat, r: ReadResult, results: seq<WriteResult>)
    | TargetRead(i: nat, serial: nat, r: ReadResult, result: WriteResult)
    | TimerExpires(i: nat)
    | TimerRuns(i: nat, k: nat)
    | ReportRuns

  function StartAccept(w: World): World {
    w.(sessions := w.sessions + [FRESH],
       services := w.services + [w.cursor],
       cursor := IoServicePool.Successor(w.cursor, w.pool),
       accepts := w.accepts + multiset{|w.sessions|})
  }

  /** The acceptor takes the pool's first slot, then `run` starts the first accept. */
  function Init(pool: nat, addresses: seq<Address>): World {
    StartAccept(World(pool, IoServicePool.Successor(0, pool), addresses, 0, [], [], multiset{}, NO_STATS))
  }

  /** What the environment may do.  An aborted read is only reported on a socket closed at this end; the
      element of the target list a read handler refers to must still be there. */
  predicate Enabled(w: World, e: Event) {
    match e
    case Tick(_) => true
    case Accepted(i, connects) =>
      i in w.accepts && i < |w.sessions| && |connects| == |w.addresses|
    case AcceptFailed(i) => i in w.accepts
    case ClientRead(i, r, results) =>
      && i < |w.sessions|
      && var s := w.sessions[i];
      && ReadClient in s.pending && (r.Aborted? ==> s.closed) && |results| == |s.targets|
    case TargetRead(i, serial, r, _) =>
      && i < |w.sessions|
      && var s := w.sessions[i];
      && ReadTarget(serial) in s.pending && (r.Aborted? ==> s.closed) && (!s.closed ==> serial < |s.targets|)
    case TimerExpires(i) =>
      && i < |w.sessions|
      && w.now >= w.sessions[i].expiry
      && SomeWaiting(w.sessions[i].waits)
    case TimerRuns(i, k) =>
      && i < |w.sessions| && k < |w.sessions[i].waits| && !w.sessions[i].waits[k].status.Waiting?
    case ReportRuns => true
  }

  /** Whose handler an event runs, if any. */
  function HandlerOf(e: Event): Option<nat> {
    match e
    case Accepted(i, _) => Some(i)
    case ClientRead(i, _, _) => Some(i)
    case TargetRead(i, _, _, _) => Some(i)
    case TimerRuns(i, _) => Some(i)
    case _ => None
  }

  /** What the handler does to its session. */
  function Handle(w: World, e: Event): Outcome
    requires Enabled(w, e) && HandlerOf(e).Some?
  {
    match e
    case Accepted(i, connects) => Start(w.sessions[i], w.addresses, connects, w.now)
    case ClientRead(i, r, results) => OnReadClient(w.sessions[i], r, results, w.now)
    case TargetRead(i, serial, r, result) => OnReadTarget(w.sessions[i], serial, r, result)
    case TimerRuns(i, k) => OnTimer(w.sessions[i], k, w.now)
  }

  function Put(w: World, i: nat, o: Outcome): World
    requires i < |w.sessions|
  {
    w.(sessions := w.sessions[i := o.session], stats := ApplyAll(w.stats, o.effects))
  }

  function Next(w: World, e: Event): World
    requires Enabled(w, e)
  {
    match e
    case Tick(seconds) => w.(now := w.now + seconds)
    case Accepted(i, _) =>
      var w' := Put(w, i, Handle(w, e));
      StartAccept(w'.(accepts := w'.accepts - multiset{i}))
    case AcceptFailed(i) => StartAccept(w.(accepts := w.accepts - multiset{i}))
    case TimerExpires(i) => w.(sessions := w.sessions[i := Expire(w.sessions[i], w.now)])
    case ReportRuns => w.(stats := Report(w.stats))
    case _ => Put(w, HandlerOf(e).value, Handle(w, e))
  }

  /** The world after a sequence of events, if every event could happen. */
  function RunFrom(w: World, events: seq<Event>): Option<World> {
    if events == [] then Some(w)
    else
      match RunFrom(w, events[..|events| - 1])
      case None => None
      case Some(w') => if Enabled(w', Last(events)) then Some(Next(w', Last(events))) else None
  }

  function Run(pool: nat, addresses: seq<Address>, events: seq<Event>): Option<World> {
    RunFrom(Init(pool, addresses), events)
  }

  lemma RunLast(w: World, events: seq<Event>)
    requires events != [] && RunFrom(w, events).Some?
    ensures var before := RunFrom(w, events[..|events| - 1]);
            && before.Some? && Enabled(before.value, Last(events))
            && RunFrom(w, events).value == Next(before.value, Last(events))
  {
    hide Enabled, Next;
  }

  ghost predicate Reachable(pool: nat, addresses: seq<Address>, w: World) {
    exists events :: Run(pool, addresses, events) == Some(w)
  }

  lemma ReachInit(pool: nat, addresses: seq<Address>)
    ensures Reachable(pool, addresses, Init(pool, addresses))
  {
    assert Run(pool, addresses, []) == Some(Init(pool, addresses));
  }

  lemma ReachNext(pool: nat, addresses: seq<Address>, w: World, e: Event)
    requires Reachable(pool, addresses, w) && Enabled(w, e)
    ensures Reachable(pool, addresses, Next(w, e))
  {
    var events :| Run(pool, addresses, events) == Some(w);
    hide Enabled, Next;
    assert (events + [e])[..|events|] == events;
    assert Run(pool, addresses, events + [e]) == Some(Next(w, e));
  }

  // ---- What every handler keeps in its session ------------------------------------------------

  /** The outstanding operations agree with the sockets. */
  ghost predicate Operations(s: Session, addresses: seq<Address>) {
    && (!s.started ==> s == FRESH)
    && (s.started && !s.closed ==>
          s.clientOpen && s.targets == ConnectedTargets(addresses)
          && s.pending == ReadOperations(|addresses|) && s.cause.NotClosed?)
    && (s.closed ==>
          s.started && !s.clientOpen && s.targets == []
          && s.pending <= ReadOperations(|addresses|) && !s.cause.NotClosed?)
  }

  ghost predicate CauseSound(c: Cause, activity: seq<int>, now: int) {
    c.ByTimer? ==> TimeoutSound(c.timeout, activity, now)
  }

  /** An open session is kept by its timer; after close nothing waits any more. */
  ghost predicate Timing(s: Session, now: int) {
    && TimerSound(s.expiry, s.waits, s.activity, now)
    && (s.started <==> s.activity != [])
    && (s.started && !s.closed ==> Owned(s.waits, s.activity))
    && (s.closed ==> !SomeWaiting(s.waits))
    && CauseSound(s.cause, s.activity, now)
  }

  ghost predicate SessionInv(s: Session, addresses: seq<Address>, now: int) {
    Operations(s, addresses) && Timing(s, now) && Mirrored(s.events, |addresses|)
  }

  lemma {:induction false} TargetReadsExact(n: nat, t: nat)
    ensures TargetReads(n)[ReadClient] == 0
    ensures TargetReads(n)[ReadTarget(t)] == if t < n then 1 else 0
    ensures |TargetReads(n)| == n
  {
    if n > 0 { TargetReadsExact(n - 1, t); }
  }

  lemma FreshInv(addresses: seq<Address>, now: int)
    ensures SessionInv(FRESH, addresses, now)
  {
    MirroredStart(|addresses|);
  }

  lemma TickInv(s: Session, addresses: seq<Address>, now: int, later: int)
    requires SessionInv(s, addresses, now) && now <= later
    ensures SessionInv(s, addresses, later)
  {
    hide Mirrored, TimerSound;
    TickSound(s.expiry, s.waits, s.activity, now, later);
  }

  lemma ExpireInv(s: Session, addresses: seq<Address>, now: int)
    requires SessionInv(s, addresses, now) && now >= s.expiry && SomeWaiting(s.waits)
    ensures SessionInv(Expire(s, now), addresses, now)
  {
    FireSound(s.expiry, s.waits, s.activity, now);
    hide Mirrored, TimerSound, Owned, SomeWaiting, ExpireWaits;
  }

  lemma StartInv(s: Session, addresses: seq<Address>, connects: seq<bool>, now: int)
    requires SessionInv(s, addresses, now) && !s.started && |connects| == |addresses|
    ensures SessionInv(Start(s, addresses, connects, now).session, addresses, now)
  {
    NeverArmed(s.expiry, now);
    ArmSound(s.expiry, s.waits, s.activity, now);
    CancelSound(now + KEEPALIVE_SECONDS, Rearmed(s.waits, now), s.activity + [now], now);
    hide Mirrored, TimerSound, Owned, SomeWaiting, Rearmed, CancelWaits;
  }

  lemma CloseInv(s: Session, addresses: seq<Address>, now: int, cause: Cause)
    requires s.started && !s.closed && Mirrored(s.events, |addresses|) && s.pending <= ReadOperations(|addresses|)
    requires s.activity != [] && TimerSound(s.expiry, s.waits, s.activity, now)
    requires CauseSound(cause, s.activity, now) && !cause.NotClosed?
    ensures SessionInv(Close(s, cause).session, addresses, now)
  {
    CancelSound(s.expiry, s.waits, s.activity, now);
    hide Mirrored, TimerSound, SomeWaiting, CancelWaits, CauseSound;
  }

  lemma ReadClientInv(s: Session, addresses: seq<Address>, now: int, r: ReadResult, results: seq<WriteResult>)
    requires SessionInv(s, addresses, now)
    requires ReadClient in s.pending && (r.Aborted? ==> s.closed) && |results| == |s.targets|
    ensures SessionInv(OnReadClient(s, r, results, now).session, addresses, now)
  {
    hide Mirrored, FanOut, TimerSound, Owned, SomeWaiting, Rearmed, CancelWaits;
    var s' := s.(pending := s.pending - multiset{ReadClient});
    if !s.closed && r.Data? {
      ArmSound(s.expiry, s.waits, s.activity, now);
      MirroredBlock(s.events, |addresses|, r.bytes, results);
      assert s'.pending + multiset{ReadClient} == s.pending;
    } else if !s.closed && r.Error? {
      CloseInv(s', addresses, now, ByReadError);
    }
  }

  lemma {:induction false} ReadTargetInv(s: Session, addresses: seq<Address>, now: int, serial: nat,
                                         r: ReadResult, result: WriteResult)
    requires SessionInv(s, addresses, now)
    requires ReadTarget(serial) in s.pending && (r.Aborted? ==> s.closed) && (!s.closed ==> serial < |s.targets|)
    ensures SessionInv(OnReadTarget(s, serial, r, result).session, addresses, now)
  {
    hide Mirrored, TimerSound, Owned, SomeWaiting, CancelWaits;
    var s' := s.(pending := s.pending - multiset{ReadTarget(serial)});
    if !s.closed && r.Data? {
      MirroredReply(s.events, |addresses|, serial, r.bytes, result);
      assert s'.pending + multiset{ReadTarget(serial)} == s.pending;
    } else if !s.closed && r.Error? {
      CloseInv(s', addresses, now, ByReadError);
    }
  }

  lemma TimerRunsInv(s: Session, addresses: seq<Address>, now: int, k: nat)
    requires SessionInv(s, addresses, now) && k < |s.waits| && !s.waits[k].status.Waiting?
    ensures SessionInv(OnTimer(s, k, now).session, addresses, now)
  {
    TakeSound(s.expiry, s.waits, s.activity, now, k);
    hide Mirrored, TimerSound, Owned, SomeWaiting, CancelWaits, Without, TimeoutSound;
    var s' := s.(waits := Without(s.waits, k));
    if !s.closed && s.waits[k].status.Expired? {
      CloseInv(s', addresses, now, ByTimer(Timeout(s.waits[k].armedAt, s.waits[k].status.queuedAt, now)));
    }
  }

  lemma {:induction false} HandlerInv(w: World, e: Event)
    requires Enabled(w, e) && HandlerOf(e).Some?
    requires SessionInv(w.sessions[HandlerOf(e).value], w.addresses, w.now)
    requires e.Accepted? ==> !w.sessions[e.i].started
    ensures SessionInv(Handle(w, e).session, w.addresses, w.now)
  {
    hide SessionInv;
    match e
    case Accepted(i, connects) => StartInv(w.sessions[i], w.addresses, connects, w.now);
    case ClientRead(i, r, results) => ReadClientInv(w.sessions[i], w.addresses, w.now, r, results);
    case TargetRead(i, serial, r, result) => ReadTargetInv(w.sessions[i], w.addresses, w.now, serial, r, result);
    case TimerRuns(i, k) => TimerRunsInv(w.sessions[i], w.addresses, w.now, k);
  }
}
