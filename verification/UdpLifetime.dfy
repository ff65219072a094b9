/** One UDP session through every run: its keepalive timer, what happens after it is closed, and its target
    receives. */
module UdpLifetime {
  import opened Sequences
  import opened Addresses
  import opened Keepalive
  import opened UdpSession
  import opened UdpInterleaving
  import opened UdpTheorems

  // ---- What a step does to one session ---------------------------------------------------------

  /** One step of the close of an open session. */
  function Shutting(session: Session, pc: ClosePc): Session {
    match pc
    case Entered => FlagClosed(session)
    case Flagged => CancelTimer(session)
    case TimerCancelled => ShutSocket(session)
    case _ => session
  }

  function Following(pc: ClosePc): ClosePc {
    match pc
    case Entered => Flagged
    case Flagged => TimerCancelled
    case TimerCancelled => SocketShut
    case SocketShut => Locked
    case Locked => Erased
    case _ => Idle
  }

  /** The session after the step. */
  function SessionAfter(s: State, step: Step, sid: nat): Session
    requires Enabled(s, step) && sid < |s.sessions| && sid < |s.closing|
  {
    var session := s.sessions[sid];
    match step
    case ManagerAdvance =>
      if s.manager == StartingReceive(sid) then StartReceive(session)
      else if s.manager == Rearming(sid) then Rearm(session, s.now)
      else session
    case Expire(i) => if i == sid then Elapse(session, s.now) else session
    case RunWait(i, k) =>
      if i != sid then session
      else if !session.closed && session.waits[k].status.Expired? then TimeOut(session, k, s.now)
      else TakeWait(session, k)
    case CloseAdvance(i) => if i == sid then Shutting(session, s.closing[sid]) else session
    case TargetReceive(i, data) =>
      if i == sid && (session.closed || data.None?) then session.(receiving := session.receiving - 1) else session
    case _ => session
  }

  /** How far its closing has come after the step. */
  function ClosingAfter(s: State, step: Step, sid: nat): ClosePc
    requires Enabled(s, step) && sid < |s.sessions| && sid < |s.closing|
  {
    var pc := s.closing[sid];
    if step.RunWait? && step.sid == sid then
      if !s.sessions[sid].closed && s.sessions[sid].waits[step.k].status.Expired? then Entered else pc
    else if step.CloseAdvance? && step.sid == sid then Following(pc)
    else pc
  }

  lemma ConstructingKeeps(s: State)
    requires Enabled(s, ManagerAdvance) && s.manager.Constructing?
    ensures var s' := ManagerNext(s); s.sessions <= s'.sessions && s.closing <= s'.closing
  {
    hide ParseAddress, RemoteAddress, Ipv4Text;
  }

  lemma ManagerKeepsSessions(s: State)
    requires Enabled(s, ManagerAdvance)
    requires !s.manager.Constructing? && !s.manager.StartingReceive? && !s.manager.Rearming?
    ensures ManagerNext(s).sessions == s.sessions && ManagerNext(s).closing == s.closing
  {
    hide RemoteAddress;
  }

  lemma ManagerSetsSession(s: State, sid: nat)
    requires Enabled(s, ManagerAdvance) && sid < |s.sessions| && (s.manager.StartingReceive? || s.manager.Rearming?)
    ensures var s' := ManagerNext(s);
            && |s'.sessions| == |s.sessions| && s'.closing == s.closing
            && s'.sessions[sid] == (if s.manager == StartingReceive(sid) then StartReceive(s.sessions[sid])
                                    else if s.manager == Rearming(sid) then Rearm(s.sessions[sid], s.now)
                                    else s.sessions[sid])
  {
    hide StartReceive, Rearm, RemoteAddress;
  }

  lemma ManagerMovesSession(s: State, sid: nat)
    requires Enabled(s, ManagerAdvance) && sid < |s.sessions| == |s.closing|
    ensures var s' := ManagerNext(s);
            && sid < |s'.sessions| && sid < |s'.closing|
            && s'.sessions[sid] == SessionAfter(s, ManagerAdvance, sid) && s'.closing[sid] == s.closing[sid]
  {
    hide ManagerNext, Rearm, StartReceive;
    if s.manager.Constructing? { ConstructingKeeps(s); }
    else if s.manager.StartingReceive? || s.manager.Rearming? { ManagerSetsSession(s, sid); }
    else { ManagerKeepsSessions(s); }
  }

  lemma ShuttingMoves(s: State, sid: nat)
    requires Enabled(s, CloseAdvance(sid)) && |s.sessions| == |s.closing|
    requires s.closing[sid].Entered? ==> !s.sessions[sid].closed
    ensures CloseNext(s, sid).sessions == s.sessions[sid := Shutting(s.sessions[sid], s.closing[sid])]
  {
    hide FlagClosed, CancelTimer, ShutSocket;
  }

  lemma FollowingMoves(s: State, sid: nat)
    requires Enabled(s, CloseAdvance(sid)) && |s.sessions| == |s.closing|
    requires s.closing[sid].Entered? ==> !s.sessions[sid].closed
    ensures CloseNext(s, sid).closing == s.closing[sid := Following(s.closing[sid])]
  {
    hide FlagClosed, CancelTimer, ShutSocket, SetSession;
  }

  lemma CloseMovesSession(s: State, closer: nat, sid: nat)
    requires Enabled(s, CloseAdvance(closer)) && sid < |s.sessions| == |s.closing|
    requires s.closing[closer].Entered? ==> !s.sessions[closer].closed
    ensures var s' := CloseNext(s, closer);
            && |s'.sessions| == |s.sessions| && |s'.closing| == |s.closing|
            && s'.sessions[sid] == SessionAfter(s, CloseAdvance(closer), sid)
            && s'.closing[sid] == ClosingAfter(s, CloseAdvance(closer), sid)
  {
    hide CloseNext, Shutting, Following;
    ShuttingMoves(s, closer);
    FollowingMoves(s, closer);
  }

  /** A handler of the session itself is running: it is not closing. */
  lemma EnteredOpen(s: State, sid: nat)
    requires Inv(s) && sid < |s.sessions| && s.closing[sid].Entered?
    ensures !s.sessions[sid].closed
  {
    assert ClosingOrdered(s.sessions[sid], s.closing[sid], sid in s.erased);
    hide CacheExact, Addressed, Serving, MutexOwned;
  }

  lemma ShapeOf(s: State)
    requires Inv(s)
    ensures |s.sessions| == |s.closing|
  {}

  lemma HandlerMovesSession(s: State, step: Step, sid: nat)
    requires Enabled(s, step) && sid < |s.sessions| == |s.closing| && (step.RunWait? || step.TargetReceive?)
    ensures var s' := Next(s, step);
            && |s'.sessions| == |s.sessions| && |s'.closing| == |s.closing|
            && s'.sessions[sid] == SessionAfter(s, step, sid) && s'.closing[sid] == ClosingAfter(s, step, sid)
  {
    hide Destination, TimeOut, TakeWait;
  }

  lemma ClockMovesSession(s: State, step: Step, sid: nat)
    requires Enabled(s, step) && sid < |s.sessions| == |s.closing|
    requires step.Tick? || step.Expire? || step.ClientReceive? || step.ClientReceiveError?
    ensures var s' := Next(s, step);
            && |s'.sessions| == |s.sessions| && |s'.closing| == |s.closing|
            && s'.sessions[sid] == SessionAfter(s, step, sid) && s'.closing[sid] == ClosingAfter(s, step, sid)
  {
    hide Elapse;
  }

  lemma StepMovesSession(s: State, step: Step, sid: nat)
    requires Inv(s) && Enabled(s, step) && sid < |s.sessions|
    ensures var s' := Next(s, step);
            && |s.sessions| == |s.closing| && sid < |s'.sessions| && sid < |s'.closing|
            && s'.sessions[sid] == SessionAfter(s, step, sid) && s'.closing[sid] == ClosingAfter(s, step, sid)
  {
    ShapeOf(s);
    if step.CloseAdvance? && s.closing[step.sid].Entered? { EnteredOpen(s, step.sid); }
    hide Inv, ManagerNext, CloseNext;
    if step.ManagerAdvance? {
      ManagerMovesSession(s, sid);
    } else if step.CloseAdvance? {
      CloseMovesSession(s, step.sid, sid);
    } else {
      hide Next;
      if step.RunWait? || step.TargetReceive? { HandlerMovesSession(s, step, sid); }
      else { ClockMovesSession(s, step, sid); }
    }
  }

  lemma ConstructsFresh(s: State)
    requires Enabled(s, ManagerAdvance) && s.manager.Constructing?
    ensures var s' := ManagerNext(s);
            || |s'.sessions| == |s.sessions|
            || (exists client :: s'.sessions == s.sessions + [NewSession(client)]
                                 && s'.closing == s.closing + [Idle] && s'.manager == StartingReceive(|s.sessions|))
  {
    hide ParseAddress, RemoteAddress, Ipv4Text, NewSession;
  }

  lemma ManagerSameSessions(s: State)
    requires Enabled(s, ManagerAdvance) && !s.manager.Constructing?
    ensures |ManagerNext(s).sessions| == |s.sessions|
  {
    if !s.manager.StartingReceive? && !s.manager.Rearming? {
      ManagerKeepsSessions(s);
      hide ManagerNext;
    }
  }

  lemma CloseSameSessions(s: State, closer: nat)
    requires Enabled(s, CloseAdvance(closer))
    ensures |CloseNext(s, closer).sessions| == |s.sessions|
  {}

  lemma SameSessions(s: State, step: Step)
    requires Enabled(s, step) && !(step.ManagerAdvance? && s.manager.Constructing?)
    ensures |Next(s, step).sessions| == |s.sessions|
  {
    if step.ManagerAdvance? { ManagerSameSessions(s); }
    if step.CloseAdvance? { CloseSameSessions(s, step.sid); }
    hide ManagerNext, CloseNext, Destination, TimeOut, TakeWait, Elapse;
  }

  /** A new session is fresh. */
  lemma NewSessionIsFresh(s: State, step: Step, sid: nat)
    requires Inv(s) && Enabled(s, step) && |s.sessions| <= sid < |Next(s, step).sessions|
    ensures sid < |Next(s, step).closing| && Next(s, step).closing[sid].Idle?
    ensures exists client :: Next(s, step).sessions[sid] == NewSession(client)
    ensures step.ManagerAdvance? && Next(s, step).manager == StartingReceive(sid)
  {
    ShapeOf(s);
    hide Inv, ManagerNext, NewSession;
    if step.ManagerAdvance? && s.manager.Constructing? { ConstructsFresh(s); } else { SameSessions(s, step); }
  }

  // ---- Keepalive ------------------------------------------------------------------------------

  /** The timer of a session is sound; one that is open and not closing is kept by its newest wait, once it
      has been armed; and a session closes only after a timeout. */
  ghost predicate Timed(session: Session, pc: ClosePc, now: int) {
    && TimerSound(session.expiry, session.waits, session.activity, now)
    && (!session.closed && pc.Idle? && session.activity != [] ==> Owned(session.waits, session.activity))
    && (session.timeout.Some? ==> TimeoutSound(session.timeout.value, session.activity, now))
    && (session.closed || !pc.Idle? ==> session.timeout.Some?)
  }

  lemma TimedArm(session: Session, pc: ClosePc, now: int)
    requires Timed(session, pc, now)
    ensures Timed(Rearm(session, now), pc, now)
  {
    ArmSound(session.expiry, session.waits, session.activity, now);
    hide TimerSound, Owned, Rearmed;
  }

  lemma TimedTick(session: Session, pc: ClosePc, now: int, later: int)
    requires Timed(session, pc, now) && now <= later
    ensures Timed(session, pc, later)
  {
    TickSound(session.expiry, session.waits, session.activity, now, later);
    hide TimerSound, Owned;
  }

  lemma TimedElapse(session: Session, pc: ClosePc, now: int)
    requires Timed(session, pc, now) && now >= session.expiry
    ensures Timed(Elapse(session, now), pc, now)
  {
    FireSound(session.expiry, session.waits, session.activity, now);
    hide TimerSound, Owned, ExpireWaits;
  }

  lemma TimedTimeOut(session: Session, now: int, k: nat)
    requires Timed(session, Idle, now) && k < |session.waits| && session.waits[k].status.Expired?
    ensures Timed(TimeOut(session, k, now), Entered, now)
  {
    TakeSound(session.expiry, session.waits, session.activity, now, k);
    hide TimerSound, Owned, TimeoutSound, Without;
  }

  lemma TimedTake(session: Session, now: int, k: nat)
    requires Timed(session, Idle, now) && k < |session.waits|
    requires if session.closed then !session.waits[k].status.Waiting? else session.waits[k].status.Cancelled?
    ensures Timed(TakeWait(session, k), Idle, now)
  {
    TakeSound(session.expiry, session.waits, session.activity, now, k);
    hide TimerSound, Owned, TimeoutSound, Without;
  }

  lemma TimedShutting(session: Session, pc: ClosePc, now: int)
    requires Timed(session, pc, now) && !pc.Idle? && (pc.Erased? ==> session.closed)
    ensures Timed(Shutting(session, pc), Following(pc), now)
  {
    CancelSound(session.expiry, session.waits, session.activity, now);
    hide TimerSound, Owned, TimeoutSound, CancelWaits;
  }

  /** The timer does not look at the outstanding receives. */
  lemma TimedReceives(session: Session, pc: ClosePc, now: int, n: nat)
    requires Timed(session, pc, now)
    ensures Timed(session.(receiving := n), pc, now)
  {
    hide TimerSound, Owned, TimeoutSound;
  }

  lemma ErasedClosed(s: State, sid: nat)
    requires Inv(s) && sid < |s.sessions| && s.closing[sid].Erased?
    ensures s.sessions[sid].closed
  {
    assert ClosingOrdered(s.sessions[sid], s.closing[sid], sid in s.erased);
    hide CacheExact, Addressed, Serving, MutexOwned;
  }

  lemma Clock(s: State, step: Step)
    requires Enabled(s, step)
    ensures Next(s, step).now == s.now + if step.Tick? then step.seconds else 0
  {
    hide Destination, RemoteAddress, ParseAddress;
  }

  lemma TimedManager(s: State, sid: nat)
    requires Enabled(s, ManagerAdvance) && sid < |s.sessions| == |s.closing|
    requires Timed(s.sessions[sid], s.closing[sid], s.now)
    ensures Timed(SessionAfter(s, ManagerAdvance, sid), s.closing[sid], s.now)
  {
    hide Timed, Rearm;
    var session, pc := s.sessions[sid], s.closing[sid];
    if s.manager == StartingReceive(sid) { TimedReceives(session, pc, s.now, StartReceive(session).receiving); }
    else if s.manager == Rearming(sid) { TimedArm(session, pc, s.now); }
  }

  lemma TimedHandler(s: State, step: Step, sid: nat)
    requires Enabled(s, step) && sid < |s.sessions| == |s.closing| && (step.RunWait? || step.TargetReceive?)
    requires Timed(s.sessions[sid], s.closing[sid], s.now)
    ensures Timed(SessionAfter(s, step, sid), ClosingAfter(s, step, sid), s.now)
  {
    hide Timed, TimeOut, TakeWait;
    var session := s.sessions[sid];
    if step.TargetReceive? {
      TimedReceives(session, s.closing[sid], s.now, SessionAfter(s, step, sid).receiving);
    } else if step.sid == sid {
      if !session.closed && session.waits[step.k].status.Expired? { TimedTimeOut(session, s.now, step.k); }
      else { TimedTake(session, s.now, step.k); }
    }
  }

  lemma TimedStep(s: State, step: Step, sid: nat)
    requires Inv(s) && Enabled(s, step) && sid < |s.sessions| == |s.closing|
    requires Timed(s.sessions[sid], s.closing[sid], s.now)
    ensures Timed(SessionAfter(s, step, sid), ClosingAfter(s, step, sid), Next(s, step).now)
  {
    Clock(s, step);
    var session, pc := s.sessions[sid], s.closing[sid];
    if pc.Erased? { ErasedClosed(s, sid); }
    hide Inv, Next, Timed, Elapse, Shutting, Following;
    if step.ManagerAdvance? { TimedManager(s, sid); }
    else if step.RunWait? || step.TargetReceive? { TimedHandler(s, step, sid); }
    else if step.Tick? { TimedTick(session, pc, s.now, s.now + step.seconds); }
    else if step == Expire(sid) { TimedElapse(session, pc, s.now); }
    else if step == CloseAdvance(sid) { TimedShutting(session, pc, s.now); }
  }

  lemma FreshTimed(s: State, step: Step, sid: nat)
    requires Inv(s) && Enabled(s, step) && |s.sessions| <= sid < |Next(s, step).sessions|
    ensures sid < |Next(s, step).closing|
    ensures Timed(Next(s, step).sessions[sid], Next(s, step).closing[sid], Next(s, step).now)
  {
    NewSessionIsFresh(s, step, sid);
    hide Inv, Next, Enabled;
    var client :| Next(s, step).sessions[sid] == NewSession(client);
    NeverArmed(0, Next(s, step).now);
    hide TimerSound, Owned, TimeoutSound;
  }

  lemma {:induction false} TimedFrom(targets: seq<Address>, steps: seq<Step>, sid: nat)
    requires Run(targets, steps).Some? && sid < |Run(targets, steps).value.sessions|
    ensures var s := Run(targets, steps).value;
            sid < |s.closing| && Timed(s.sessions[sid], s.closing[sid], s.now)
  {
    if steps != [] {
      var before := steps[..|steps| - 1];
      RunLast(Init(targets), steps);
      hide RunFrom, Init, Inv, Enabled, Next, Timed, SessionAfter, ClosingAfter;
      RunInv(targets, before);
      var s := Run(targets, before).value;
      if sid < |s.sessions| {
        TimedFrom(targets, before, sid);
        StepMovesSession(s, Last(steps), sid);
        TimedStep(s, Last(steps), sid);
      } else {
        FreshTimed(s, Last(steps), sid);
      }
    }
  }

  /** In every interleaving the expiry is the last datagram served plus the keepalive time, and a session
      that has closed was closed by a wait whose full keepalive time passed without a datagram. */
  lemma {:induction false} KeepaliveSound(targets: seq<Address>, steps: seq<Step>, sid: nat)
    requires Run(targets, steps).Some?
    ensures var s := Run(targets, steps).value;
            sid < |s.sessions| ==>
            var session := s.sessions[sid];
            && (session.activity != [] ==> session.expiry == Last(session.activity) + KEEPALIVE_SECONDS)
            && (session.closed ==>
                  && session.timeout.Some?
                  && var t := session.timeout.value;
                  && t.armedAt + KEEPALIVE_SECONDS <= t.queuedAt <= t.at <= s.now
                  && Silent(session.activity, t.armedAt, t.queuedAt))
  {
    if sid < |Run(targets, steps).value.sessions| { TimedFrom(targets, steps, sid); }
    hide Run, Silent, Owned;
  }

  lemma ServedBy(s: State, sid: nat)
    requires Inv(s) && WireExact(s) && s.manager == Rearming(sid)
    ensures sid < |s.origins| && s.datagrams != [] && Last(s.datagrams).from == s.origins[sid]
    ensures s.verdicts != [] && Last(s.verdicts).passed && Last(s.verdicts).sid == sid
  {
    hide CacheExact, Addressed, MutexOwned, Closings, DueAll, Due;
  }

  lemma RearmedBy(s: State, step: Step, sid: nat)
    requires Enabled(s, step) && sid < |s.sessions| && sid < |s.closing|
    ensures var session, session' := s.sessions[sid], SessionAfter(s, step, sid);
            session'.expiry != session.expiry || session'.activity != session.activity ==>
              step.ManagerAdvance? && s.manager == Rearming(sid) && session'.activity == session.activity + [s.now]
  {}

  /** Only the manager, past the closed check of a datagram from the session's own client, moves the expiry. */
  lemma {:induction false} OnlyDatagramsRearm(targets: seq<Address>, steps: seq<Step>, step: Step, sid: nat)
    requires Run(targets, steps).Some?
    ensures var s := Run(targets, steps).value;
            Enabled(s, step) && sid < |s.sessions| ==>
            && sid < |Next(s, step).sessions|
            && var session, session' := s.sessions[sid], Next(s, step).sessions[sid];
            && (session'.expiry != session.expiry || session'.activity != session.activity ==>
                  && step.ManagerAdvance? && s.manager == Rearming(sid)
                  && s.verdicts != [] && Last(s.verdicts).passed && Last(s.verdicts).sid == sid
                  && sid < |s.origins| && s.datagrams != [] && Last(s.datagrams).from == s.origins[sid]
                  && session'.activity == session.activity + [s.now])
  {
    RunInv(targets, steps);
    RunWire(targets, steps);
    var s := Run(targets, steps).value;
    hide Run, Inv, WireExact, Next, SessionAfter, Enabled;
    if Enabled(s, step) && sid < |s.sessions| {
      StepMovesSession(s, step, sid);
      RearmedBy(s, step, sid);
      if s.manager == Rearming(sid) { ServedBy(s, sid); }
    }
  }

  lemma Armed(session: Session, pc: ClosePc, now: int)
    requires Timed(session, pc, now) && session.waits != []
    ensures session.activity != []
  {}

  /** What a timer close says about the client, in every interleaving.  If the wait is the session's newest,
      no datagram has been served for the whole keepalive time.  Otherwise one was served after the wait ran
      out, when re-arming could no longer cancel it; so, if queued handlers run before another keepalive
      time has passed, the client had been silent exactly when the wait is the newest. */
  lemma {:induction false} TimerCloseExact(targets: seq<Address>, steps: seq<Step>, sid: nat, k: nat)
    requires Run(targets, steps).Some?
    ensures var s := Run(targets, steps).value;
            Enabled(s, RunWait(sid, k)) && !s.sessions[sid].closed && s.sessions[sid].waits[k].status.Expired? ==>
            var session := s.sessions[sid];
            var wait := session.waits[k];
            var newest := k == |session.waits| - 1;
            && Next(s, RunWait(sid, k)).closing == s.closing[sid := Entered]
            && session.activity != []
            && (newest ==> s.now >= Last(session.activity) + KEEPALIVE_SECONDS)
            && (!newest ==> wait.armedAt + KEEPALIVE_SECONDS <= wait.status.queuedAt <= Last(session.activity))
            && (s.now < wait.status.queuedAt + KEEPALIVE_SECONDS ==>
                  (s.now >= Last(session.activity) + KEEPALIVE_SECONDS <==> newest))
  {
    var s := Run(targets, steps).value;
    hide Run;
    if Enabled(s, RunWait(sid, k)) {
      var session := s.sessions[sid];
      TimedFrom(targets, steps, sid);
      if !session.closed && session.waits[k].status.Expired? {
        Armed(session, s.closing[sid], s.now);
        hide TimerSound, Without;
        ExpiryMeans(session.expiry, session.waits, session.activity, s.now, k);
      }
    }
  }

  // ---- Close is final, and drains -------------------------------------------------------------

  lemma ClosedByManager(s: State, sid: nat)
    requires Enabled(s, ManagerAdvance) && sid < |s.sessions| && s.sessions[sid].closed
    ensures var s' := ManagerNext(s);
            && sid < |s'.sessions| && s'.sessions[sid].closed
            && s'.sessions[sid].receiving <= s.sessions[sid].receiving
  {
    if s.manager.Constructing? { ConstructingKeeps(s); }
    else if s.manager.StartingReceive? || s.manager.Rearming? { ManagerSetsSession(s, sid); }
    else { ManagerKeepsSessions(s); }
    hide ManagerNext;
  }

  lemma {:induction false} ClosedSessionKept(s: State, step: Step, sid: nat)
    requires Enabled(s, step) && sid < |s.sessions| && s.sessions[sid].closed
    ensures sid < |Next(s, step).sessions| && Next(s, step).sessions[sid].closed
    ensures Next(s, step).sessions[sid].receiving <= s.sessions[sid].receiving
  {
    hide ManagerNext, Destination;
    if step.ManagerAdvance? { ClosedByManager(s, sid); }
  }

  /** The replies of a session. */
  function By(sid: nat): Routed -> bool { (r: Routed) => r.sid == sid }

  /** A closed session stays closed, sends no reply, and starts no receive. */
  lemma {:induction false} ClosedIsFinal(s: State, step: Step, sid: nat)
    requires Enabled(s, step) && sid < |s.sessions| && s.sessions[sid].closed
    ensures var s' := Next(s, step);
            && sid < |s'.sessions| && s'.sessions[sid].closed
            && s'.sessions[sid].receiving <= s.sessions[sid].receiving
            && Filter(s'.replies, By(sid)) == Filter(s.replies, By(sid))
  {
    ClosedSessionKept(s, step, sid);
    hide ParseAddress, RemoteAddress, Destination;
    if step.TargetReceive? {
      var s' := Next(s, step);
      if s'.replies != s.replies {
        FilterSnoc(s.replies, By(sid), Last(s'.replies));
      }
    } else {
      assert Next(s, step).replies == s.replies;
    }
  }

  /** Handlers a session still has coming: its waits and its outstanding receives. */
  function Load(session: Session): nat { |session.waits| + session.receiving }

  /** The wait the manager is yet to arm, for a datagram that passed the closed check before the flag. */
  function Arming(m: ManagerPc, sid: nat): nat { if m == Rearming(sid) then 1 else 0 }

  /** The handlers of one session. */
  function HandlerOf(sid: nat): Step -> bool {
    (step: Step) => (step.RunWait? || step.TargetReceive?) && step.sid == sid
  }

  /** A closed session has armed nothing but what the manager owed it, and each of its handlers only uses
      itself up. */
  ghost predicate Drained(s: State, s': State, steps: seq<Step>, sid: nat) {
    && sid < |s.sessions| && sid < |s'.sessions|
    && var session, session' := s.sessions[sid], s'.sessions[sid];
    && session'.closed && session'.timeout == session.timeout
    && Load(session') + Arming(s'.manager, sid) + Count(steps, HandlerOf(sid))
       == Load(session) + Arming(s.manager, sid)
    && Arming(s'.manager, sid) <= Arming(s.manager, sid)
    && |session'.activity| + Arming(s'.manager, sid) == |session.activity| + Arming(s.manager, sid)
    && Filter(s'.replies, By(sid)) == Filter(s.replies, By(sid))
  }

  lemma ClosedMoves(s: State, step: Step, sid: nat)
    requires Enabled(s, step) && sid < |s.sessions| && sid < |s.closing| && s.sessions[sid].closed
    requires step.ManagerAdvance? ==> s.manager != Rearming(sid)
    ensures var session, session' := s.sessions[sid], SessionAfter(s, step, sid);
            && session'.closed && session'.timeout == session.timeout && session'.activity == session.activity
            && Load(session') + (if HandlerOf(sid)(step) then 1 else 0) == Load(session)
  {}

  lemma NeverRearmsClosed(s: State, step: Step, sid: nat)
    requires Enabled(s, step) && sid < |s.sessions| && s.sessions[sid].closed
    ensures Arming(Next(s, step).manager, sid)
            == if step.ManagerAdvance? then 0 else Arming(s.manager, sid)
  {
    if step.CloseAdvance? { CloseFrame(s, step.sid); }
    hide CloseNext, ParseAddress, RemoteAddress, Destination;
  }

  lemma ClosedStep(s: State, step: Step, sid: nat)
    requires Inv(s) && Enabled(s, step) && sid < |s.sessions| && s.sessions[sid].closed
    ensures Drained(s, Next(s, step), [step], sid)
  {
    ClosedIsFinal(s, step, sid);
    StepMovesSession(s, step, sid);
    NeverRearmsClosed(s, step, sid);
    CountSnoc([], HandlerOf(sid), step);
    assert [] + [step] == [step];
    hide Inv, Next, Count, Filter;
    if step.ManagerAdvance? && s.manager == Rearming(sid) {} else { ClosedMoves(s, step, sid); }
  }

  lemma DrainedMore(s: State, s': State, s'': State, steps: seq<Step>, step: Step, sid: nat)
    requires Drained(s, s', steps, sid) && Drained(s', s'', [step], sid)
    ensures Drained(s, s'', steps + [step], sid)
  {
    CountSnoc(steps, HandlerOf(sid), step);
    CountSnoc([], HandlerOf(sid), step);
    assert [] + [step] == [step];
    hide Count, Filter, Load, Arming;
  }

  lemma DrainedNone(s: State, sid: nat)
    requires sid < |s.sessions| && s.sessions[sid].closed
    ensures Drained(s, s, [], sid)
  {}

  lemma {:induction false} DrainedFrom(s: State, steps: seq<Step>, sid: nat)
    requires Inv(s) && RunFrom(s, steps).Some? && sid < |s.sessions| && s.sessions[sid].closed
    ensures Drained(s, RunFrom(s, steps).value, steps, sid)
  {
    hide Inv, Enabled, Next, Count, Filter, Load, Arming;
    if steps == [] {
      DrainedNone(s, sid);
    } else {
      var before := steps[..|steps| - 1];
      RunLast(s, steps);
      hide RunFrom;
      DrainedFrom(s, before, sid);
      InvFrom(s, before);
      var s' := RunFrom(s, before).value;
      ClosedStep(s', Last(steps), sid);
      DrainedMore(s, s', Next(s', Last(steps)), before, Last(steps), sid);
      assert steps == before + [Last(steps)];
    }
  }

  /** Close is final and drains.  However a run goes on after a session has set its flag, the flag stays, no
      reply of the session is sent, at most one more wait is armed, and its handlers are at most those then
      coming and that one. */
  lemma {:induction false} ClosedDrains(targets: seq<Address>, before: seq<Step>, after: seq<Step>, sid: nat)
    requires Run(targets, before).Some?
    ensures var s := Run(targets, before).value;
            sid < |s.sessions| && s.sessions[sid].closed && RunFrom(s, after).Some? ==>
            var s' := RunFrom(s, after).value;
            && sid < |s'.sessions|
            && var session, session' := s.sessions[sid], s'.sessions[sid];
            && session'.closed && session'.timeout == session.timeout
            && Filter(s'.replies, By(sid)) == Filter(s.replies, By(sid))
            && Arming(s'.manager, sid) <= Arming(s.manager, sid)
            && |session'.activity| + Arming(s'.manager, sid) == |session.activity| + Arming(s.manager, sid)
            && Load(session') + Count(after, HandlerOf(sid)) + Arming(s'.manager, sid)
               == Load(session) + Arming(s.manager, sid)
  {
    RunInv(targets, before);
    var s := Run(targets, before).value;
    hide Run, Inv, RunFrom, Count, Filter, Load;
    if sid < |s.sessions| && s.sessions[sid].closed && RunFrom(s, after).Some? { DrainedFrom(s, after, sid); }
  }

  // ---- Target receives ------------------------------------------------------------------------

  function Failed(sid: nat): Step { TargetReceive(sid, None) }

  /** The receives an open session should have outstanding, given the steps taken so far. */
  function Awaited(s: State, sid: nat, steps: seq<Step>): nat {
    if s.manager == StartingReceive(sid) || Failed(sid) in steps then 0 else 1
  }

  ghost predicate Listening(s: State, sid: nat, steps: seq<Step>) {
    && (Failed(sid) in steps ==> sid < |s.sessions| && s.manager != StartingReceive(sid))
    && (sid < |s.sessions| && !s.sessions[sid].closed ==> s.sessions[sid].receiving == Awaited(s, sid, steps))
  }

  lemma ListeningManager(s: State, sid: nat, steps: seq<Step>)
    requires Enabled(s, ManagerAdvance) && Shape(s) && Listening(s, sid, steps)
    ensures Listening(ManagerNext(s), sid, steps)
  {
    hide ParseAddress, RemoteAddress;
  }

  lemma CloseReceiving(s: State, sid: nat, closer: nat)
    requires Enabled(s, CloseAdvance(closer)) && sid < |s.sessions|
    ensures var s' := CloseNext(s, closer);
            && |s'.sessions| == |s.sessions| && s'.sessions[sid].receiving == s.sessions[sid].receiving
            && (s.sessions[sid].closed ==> s'.sessions[sid].closed)
  {}

  lemma ListeningClose(s: State, sid: nat, closer: nat, steps: seq<Step>)
    requires Enabled(s, CloseAdvance(closer)) && Listening(s, sid, steps)
    ensures Listening(CloseNext(s, closer), sid, steps)
  {
    CloseFrame(s, closer);
    if sid < |s.sessions| { CloseReceiving(s, sid, closer); }
    hide CloseNext, Enabled;
  }

  lemma ListeningTarget(s: State, step: Step, sid: nat, steps: seq<Step>)
    requires Enabled(s, step) && step.TargetReceive? && Listening(s, sid, steps)
    requires s.manager == StartingReceive(sid) ==> sid < |s.sessions| && !s.sessions[sid].closed
    ensures Listening(Next(s, step), sid, steps + [step])
  {
    assert Last(steps + [step]) == step;
    assert Failed(sid) in steps + [step] <==> Failed(sid) in steps || step == Failed(sid);
    hide Destination, ManagerNext, CloseNext;
  }

  lemma ListeningOthers(s: State, step: Step, sid: nat, steps: seq<Step>)
    requires Enabled(s, step) && Listening(s, sid, steps)
    requires !step.ManagerAdvance? && !step.CloseAdvance? && !step.TargetReceive?
    ensures Listening(Next(s, step), sid, steps)
  {
    hide Destination, ManagerNext, CloseNext;
  }

  lemma ListeningMore(s: State, sid: nat, steps: seq<Step>, step: Step)
    requires Listening(s, sid, steps) && step != Failed(sid)
    ensures Listening(s, sid, steps + [step])
  {
    assert Failed(sid) in steps + [step] <==> Failed(sid) in steps;
  }

  /** A session under construction is open. */
  lemma BuiltOpen(s: State, sid: nat)
    requires Inv(s) && s.manager == StartingReceive(sid)
    ensures sid < |s.sessions| && !s.sessions[sid].closed
  {
    hide CacheExact, Addressed;
  }

  lemma ListeningStep(s: State, step: Step, sid: nat, steps: seq<Step>)
    requires Enabled(s, step) && Inv(s) && Listening(s, sid, steps)
    ensures Listening(Next(s, step), sid, steps + [step])
  {
    assert Shape(s);
    hide Inv, Shape, Listening, ManagerNext, CloseNext;
    if step.TargetReceive? {
      if s.manager == StartingReceive(sid) { BuiltOpen(s, sid); }
      ListeningTarget(s, step, sid, steps);
    } else {
      if step.ManagerAdvance? { ListeningManager(s, sid, steps); }
      else if step.CloseAdvance? { ListeningClose(s, sid, step.sid, steps); }
      else { ListeningOthers(s, step, sid, steps); }
      ListeningMore(Next(s, step), sid, steps, step);
    }
  }

  lemma ListeningStart(targets: seq<Address>, sid: nat)
    ensures Listening(Init(targets), sid, [])
  {}

  lemma {:induction false} RunListening(targets: seq<Address>, steps: seq<Step>, sid: nat)
    requires Run(targets, steps).Some?
    ensures Listening(Run(targets, steps).value, sid, steps)
  {
    hide Inv, Enabled, Next, Listening;
    if steps == [] {
      ListeningStart(targets, sid);
    } else {
      var before := steps[..|steps| - 1];
      RunLast(Init(targets), steps);
      hide RunFrom, Init;
      RunListening(targets, before, sid);
      RunInv(targets, before);
      ListeningStep(Run(targets, before).value, Last(steps), sid, before);
      assert steps == before + [Last(steps)];
    }
  }

  /** An open session in the cache has exactly one target receive outstanding until its first receive
      error, and from then on none: it stays cached and goes on sending, and hears no target again. */
  lemma {:induction false} DeafAfterAnError(targets: seq<Address>, steps: seq<Step>, sid: nat)
    requires Run(targets, steps).Some?
    ensures var s := Run(targets, steps).value;
            Live(s, sid) && !s.sessions[sid].closed ==>
            s.sessions[sid].receiving == if Failed(sid) in steps then 0 else 1
  {
    RunListening(targets, steps, sid);
    hide Run;
  }
}
