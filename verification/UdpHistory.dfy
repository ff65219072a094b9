/** What a run's steps alone say about the UDP proxy: which replies were sent, when each session was re-armed,
    closed and shut, and what may happen next. */
module UdpHistory {
  import opened Sequences
  import opened Addresses
  import opened Keepalive
  import opened UdpSession
  import opened UdpInterleaving
  import opened UdpTheorems
  import opened UdpLifetime

  predicate Open(s: State, sid: nat) { sid < |s.sessions| && !s.sessions[sid].closed }

  // ---- Replies --------------------------------------------------------------------------------

  /** The reply a step owes the client that session `sid` was created for. */
  function Owed(s: State, step: Step): seq<Routed> {
    match step
    case TargetReceive(sid, Some(data)) =>
      if Open(s, sid) && sid < |s.origins| then [Routed(sid, Reply(s.origins[sid], data))] else []
    case _ => []
  }

  ghost function AllOwed(targets: seq<Address>, steps: seq<Step>): seq<Routed>
    requires Run(targets, steps).Some?
  {
    if steps == [] then []
    else
      var before := steps[..|steps| - 1];
      AllOwed(targets, before) + Owed(Run(targets, before).value, Last(steps))
  }

  lemma OriginOf(s: State, sid: nat)
    requires Inv(s) && sid < |s.sessions|
    ensures sid < |s.origins| && Destination(s.sessions[sid].client) == Some(s.origins[sid])
  {
    hide RemoteAddress, Ipv4Text, AddressOf, Destination, CacheExact, Closings, MutexOwned, Serving;
    KeyRoundTrip(s.origins[sid]);
  }

  lemma ManagerReplies(s: State)
    requires Enabled(s, ManagerAdvance)
    ensures ManagerNext(s).replies == s.replies
  {
    hide ParseAddress, RemoteAddress;
  }

  lemma CloseReplies(s: State, sid: nat)
    requires Enabled(s, CloseAdvance(sid))
    ensures CloseNext(s, sid).replies == s.replies
  {}

  lemma OtherReplies(s: State, step: Step)
    requires Enabled(s, step) && !step.TargetReceive?
    ensures Next(s, step).replies == s.replies
  {
    if step.ManagerAdvance? { ManagerReplies(s); }
    if step.CloseAdvance? { CloseReplies(s, step.sid); }
    hide ManagerNext, CloseNext;
  }

  lemma ReplyStep(s: State, step: Step)
    requires Inv(s) && Enabled(s, step)
    ensures Next(s, step).replies == s.replies + Owed(s, step)
  {
    if step.TargetReceive? {
      OriginOf(s, step.sid);
      hide Inv, Destination;
      assert s.replies + [] == s.replies;
    } else {
      OtherReplies(s, step);
      assert s.replies + [] == s.replies;
    }
  }

  /** Every reply and no other is sent: the replies of a run are, in order, the data of the target receives that
      found their session open, each to the endpoint whose datagram created the session. */
  lemma {:induction false} RepliesFollowTheRun(targets: seq<Address>, steps: seq<Step>)
    requires Run(targets, steps).Some?
    ensures Run(targets, steps).value.replies == AllOwed(targets, steps)
  {
    if steps != [] {
      var before := steps[..|steps| - 1];
      RunLast(Init(targets), steps);
      hide RunFrom, Init, Inv, Enabled, Next, Owed;
      RepliesFollowTheRun(targets, before);
      RunInv(targets, before);
      ReplyStep(Run(targets, before).value, Last(steps));
    }
  }

  // ---- Datagrams ------------------------------------------------------------------------------

  /** The datagrams that arrived, in order. */
  function Arrived(steps: seq<Step>): seq<Datagram> {
    if steps == [] then []
    else Arrived(steps[..|steps| - 1]) + if Last(steps).ClientReceive? then [Last(steps).datagram] else []
  }

  lemma ManagerDatagrams(s: State)
    requires Enabled(s, ManagerAdvance)
    ensures ManagerNext(s).datagrams == s.datagrams
  {
    hide ParseAddress, RemoteAddress;
  }

  lemma ArrivalStep(s: State, step: Step)
    requires Enabled(s, step)
    ensures Next(s, step).datagrams == s.datagrams + if step.ClientReceive? then [step.datagram] else []
  {
    assert s.datagrams + [] == s.datagrams;
    if step.ManagerAdvance? { ManagerDatagrams(s); } else { WireFrame(s, step); }
    hide ManagerNext, CloseNext, Destination;
  }

  lemma {:induction false} RunArrived(targets: seq<Address>, steps: seq<Step>)
    requires Run(targets, steps).Some?
    ensures Run(targets, steps).value.datagrams == Arrived(steps)
  {
    if steps != [] {
      RunLast(Init(targets), steps);
      hide RunFrom, Init, Enabled, Next;
      RunArrived(targets, steps[..|steps| - 1]);
      ArrivalStep(Run(targets, steps[..|steps| - 1]).value, Last(steps));
    }
  }

  /** Whenever the manager is between datagrams there is one verdict for each datagram that arrived, and what was
      attempted on the target sockets is, datagram by datagram in order of arrival, its own bytes to every target
      in list order, or nothing. */
  lemma {:induction false} WireFollowsTheRun(targets: seq<Address>, steps: seq<Step>)
    requires Run(targets, steps).Some?
    ensures var s := Run(targets, steps).value;
            s.manager.Receiving? || s.manager.Stopped? ==>
            |s.verdicts| == |Arrived(steps)| && s.wire == DueAll(targets, s.verdicts, Arrived(steps))
  {
    RunArrived(targets, steps);
    AllOrNone(targets, steps, Run(targets, steps).value);
    hide Run, DueAll;
  }

  // ---- When a session is closed ---------------------------------------------------------------

  /** The step sets the flag of session `sid`, whose timer has called `close`. */
  predicate Flags(s: State, step: Step, sid: nat) {
    step == CloseAdvance(sid) && sid < |s.closing| && s.closing[sid].Entered?
  }

  /** The step runs a wait of session `sid` that had run out, and finds the session open. */
  predicate Expires(s: State, step: Step, sid: nat) {
    step.RunWait? && step.sid == sid && Open(s, sid) && step.k < |s.sessions[sid].waits|
    && s.sessions[sid].waits[step.k].status.Expired?
  }

  ghost predicate Ever(targets: seq<Address>, steps: seq<Step>, sid: nat, p: (State, Step, nat) -> bool)
    requires Run(targets, steps).Some?
  {
    steps != [] &&
    (Ever(targets, steps[..|steps| - 1], sid, p) || p(Run(targets, steps[..|steps| - 1]).value, Last(steps), sid))
  }

  lemma FlagStep(s: State, step: Step, sid: nat)
    requires Enabled(s, step) && sid < |s.sessions| && sid < |s.closing|
    requires ClosingOrdered(s.sessions[sid], s.closing[sid], sid in s.erased)
    ensures SessionAfter(s, step, sid).closed <==> s.sessions[sid].closed || Flags(s, step, sid)
    ensures !s.closing[sid].Idle? || s.sessions[sid].closed || Expires(s, step, sid)
            <==> !ClosingAfter(s, step, sid).Idle? || SessionAfter(s, step, sid).closed
  {
    hide Rearmed, ExpireWaits, CancelWaits, Without;
  }

  /** The target socket is open until the closing session shuts it. */
  predicate SocketRight(session: Session, pc: ClosePc) {
    session.socketOpen <==> !session.closed || pc.Flagged? || pc.TimerCancelled?
  }

  lemma SocketStep(s: State, step: Step, sid: nat)
    requires Enabled(s, step) && sid < |s.sessions| && sid < |s.closing|
    requires SocketRight(s.sessions[sid], s.closing[sid])
    requires ClosingOrdered(s.sessions[sid], s.closing[sid], sid in s.erased)
    ensures SocketRight(SessionAfter(s, step, sid), ClosingAfter(s, step, sid))
  {
    hide Rearmed, ExpireWaits, CancelWaits, Without;
  }

  /** How far the session's closing is known to be, from the steps alone. */
  ghost predicate Lived(session: Session, pc: ClosePc, targets: seq<Address>, steps: seq<Step>, sid: nat)
    requires Run(targets, steps).Some?
  {
    && (session.closed <==> Ever(targets, steps, sid, Flags))
    && (!pc.Idle? || session.closed <==> Ever(targets, steps, sid, Expires))
    && SocketRight(session, pc)
  }

  lemma OrderOf(s: State, sid: nat)
    requires Inv(s) && sid < |s.sessions|
    ensures sid < |s.closing| && ClosingOrdered(s.sessions[sid], s.closing[sid], sid in s.erased)
  {
    hide CacheExact, Addressed, Serving, MutexOwned;
  }

  lemma LivedStep(targets: seq<Address>, steps: seq<Step>, sid: nat)
    requires Run(targets, steps).Some? && steps != []
    requires var s := Run(targets, steps[..|steps| - 1]).value;
             && sid < |s.sessions| && sid < |s.closing| && Enabled(s, Last(steps))
             && ClosingOrdered(s.sessions[sid], s.closing[sid], sid in s.erased)
             && Lived(s.sessions[sid], s.closing[sid], targets, steps[..|steps| - 1], sid)
    ensures var s := Run(targets, steps[..|steps| - 1]).value;
            Lived(SessionAfter(s, Last(steps), sid), ClosingAfter(s, Last(steps), sid), targets, steps, sid)
  {
    var s := Run(targets, steps[..|steps| - 1]).value;
    hide RunFrom, Enabled, Flags, Expires, SessionAfter, ClosingAfter, SocketRight, ClosingOrdered;
    FlagStep(s, Last(steps), sid);
    SocketStep(s, Last(steps), sid);
  }

  lemma NeverYet(s: State, step: Step, sid: nat)
    requires |s.sessions| <= sid && |s.sessions| == |s.closing|
    ensures !Flags(s, step, sid) && !Expires(s, step, sid)
  {}

  lemma FreshLived(s: State, step: Step, sid: nat)
    requires Inv(s) && Enabled(s, step) && |s.sessions| <= sid < |Next(s, step).sessions|
    ensures sid < |Next(s, step).closing|
    ensures !Next(s, step).sessions[sid].closed && Next(s, step).closing[sid].Idle?
    ensures SocketRight(Next(s, step).sessions[sid], Next(s, step).closing[sid])
  {
    NewSessionIsFresh(s, step, sid);
    hide Inv, Next, Enabled;
    var client :| Next(s, step).sessions[sid] == NewSession(client);
  }

  lemma {:induction false} LivedInRun(targets: seq<Address>, steps: seq<Step>, sid: nat)
    requires Run(targets, steps).Some?
    ensures var s := Run(targets, steps).value;
            if sid < |s.sessions| then
              sid < |s.closing| && Lived(s.sessions[sid], s.closing[sid], targets, steps, sid)
            else !Ever(targets, steps, sid, Flags) && !Ever(targets, steps, sid, Expires)
  {
    if steps != [] {
      var before := steps[..|steps| - 1];
      RunLast(Init(targets), steps);
      hide RunFrom, Init, Inv, Enabled, Next, SessionAfter, ClosingAfter, Flags, Expires, SocketRight;
      RunInv(targets, before);
      LivedInRun(targets, before, sid);
      var s, step := Run(targets, before).value, Last(steps);
      if sid < |s.sessions| {
        OrderOf(s, sid);
        StepMovesSession(s, step, sid);
        LivedStep(targets, steps, sid);
      } else {
        ShapeOf(s);
        NeverYet(s, step, sid);
        if sid < |Next(s, step).sessions| { FreshLived(s, step, sid); }
      }
    }
  }

  /** A session's flag is set by its own close and by nothing else, and a close begins when a wait that had run
      out finds the session open, and at no other time.  Its target socket is open until the close has shut it,
      which is before it erases the session: an erased session's socket is shut. */
  lemma {:induction false} SessionsClose(targets: seq<Address>, steps: seq<Step>, sid: nat)
    requires Run(targets, steps).Some?
    ensures var s := Run(targets, steps).value;
            sid < |s.sessions| ==>
            && sid < |s.closing|
            && (s.sessions[sid].closed <==> Ever(targets, steps, sid, Flags))
            && (!s.closing[sid].Idle? || s.sessions[sid].closed <==> Ever(targets, steps, sid, Expires))
            && (s.sessions[sid].socketOpen <==>
                  !s.sessions[sid].closed || s.closing[sid].Flagged? || s.closing[sid].TimerCancelled?)
            && (sid in s.erased ==> s.sessions[sid].closed && !s.sessions[sid].socketOpen)
  {
    LivedInRun(targets, steps, sid);
    RunInv(targets, steps);
    var s := Run(targets, steps).value;
    if sid < |s.sessions| { OrderOf(s, sid); }
    hide Run, Inv, Ever;
  }

  lemma FlaggedCancels(s: State, sid: nat)
    requires Enabled(s, CloseAdvance(sid)) && s.closing[sid].Flagged?
    ensures sid < |CloseNext(s, sid).sessions|
    ensures var was, now := s.sessions[sid].waits, CloseNext(s, sid).sessions[sid].waits;
            && |now| == |was|
            && forall k :: 0 <= k < |was| ==>
                 now[k] == if was[k].status.Waiting? then Wait(was[k].armedAt, Cancelled) else was[k]
  {}

  /** The close cancels the timer after setting the flag: the wait still on the expiry, and no other. */
  lemma {:induction false} CloseCancelsTheTimer(targets: seq<Address>, steps: seq<Step>, sid: nat)
    requires Run(targets, steps).Some?
    ensures var s := Run(targets, steps).value;
            sid < |s.sessions| && sid < |s.closing| && s.closing[sid].Flagged? ==>
            && s.sessions[sid].closed && Enabled(s, CloseAdvance(sid))
            && sid < |Next(s, CloseAdvance(sid)).sessions|
            && var was, now := s.sessions[sid].waits, Next(s, CloseAdvance(sid)).sessions[sid].waits;
            && |now| == |was|
            && forall k :: 0 <= k < |was| ==>
                 now[k] == if was[k].status.Waiting? then Wait(was[k].armedAt, Cancelled) else was[k]
  {
    RunInv(targets, steps);
    var s := Run(targets, steps).value;
    hide Run, CloseNext;
    if sid < |s.sessions| && sid < |s.closing| && s.closing[sid].Flagged? {
      OrderOf(s, sid);
      hide Inv;
      FlaggedCancels(s, sid);
    }
  }

  // ---- When a session is re-armed -------------------------------------------------------------

  /** The datagrams of a session that passed the closed check. */
  function PassedFor(sid: nat): Verdict -> bool { (v: Verdict) => v.sid == sid && v.passed }

  ghost predicate RearmedFor(activity: nat, m: ManagerPc, verdicts: seq<Verdict>, sid: nat) {
    activity + Arming(m, sid) == Count(verdicts, PassedFor(sid))
  }

  lemma ActivityOf(s: State, step: Step, sid: nat)
    requires Enabled(s, step) && sid < |s.sessions| && sid < |s.closing|
    ensures |SessionAfter(s, step, sid).activity| ==
            |s.sessions[sid].activity| + if step.ManagerAdvance? then Arming(s.manager, sid) else 0
  {}

  lemma VerdictsOf(s: State, step: Step)
    requires Enabled(s, step)
    ensures var s' := Next(s, step);
            if step.ManagerAdvance? && s.manager.Checking? then
              s'.verdicts == s.verdicts + [Verdict(s.manager.sid, s.creating, !s.sessions[s.manager.sid].closed)]
            else s'.verdicts == s.verdicts
  {
    if step.ManagerAdvance? && !s.manager.Checking? && !s.manager.Sending? { ManagerFrame(s); }
    if !step.ManagerAdvance? { WireFrame(s, step); }
  }

  lemma ArmingOf(s: State, step: Step, sid: nat)
    requires Enabled(s, step) && Inv(s)
    ensures Arming(Next(s, step).manager, sid) ==
            if !step.ManagerAdvance? then Arming(s.manager, sid)
            else if s.manager == Checking(sid) && Open(s, sid) then 1 else 0
  {
    ShapeOf(s);
    hide Inv;
    if step.ManagerAdvance? && !s.manager.Checking? && !s.manager.Sending? { ManagerMoves(s); }
    if !step.ManagerAdvance? { WireFrame(s, step); }
    hide Destination, RemoteAddress, ParseAddress, CloseNext;
  }

  lemma CountVerdict(verdicts: seq<Verdict>, v: Verdict, sid: nat)
    ensures Count(verdicts + [v], PassedFor(sid)) ==
            Count(verdicts, PassedFor(sid)) + if v.sid == sid && v.passed then 1 else 0
  {
    CountSnoc(verdicts, PassedFor(sid), v);
  }

  lemma RearmedStep(s: State, step: Step, sid: nat)
    requires Inv(s) && Enabled(s, step) && sid < |s.sessions| && sid < |s.closing|
    requires RearmedFor(|s.sessions[sid].activity|, s.manager, s.verdicts, sid)
    ensures var s' := Next(s, step);
            RearmedFor(|SessionAfter(s, step, sid).activity|, s'.manager, s'.verdicts, sid)
  {
    ActivityOf(s, step, sid);
    VerdictsOf(s, step);
    ArmingOf(s, step, sid);
    if step.ManagerAdvance? && s.manager.Checking? {
      CountVerdict(s.verdicts, Verdict(s.manager.sid, s.creating, !s.sessions[s.manager.sid].closed), sid);
    }
    hide Inv, Next, SessionAfter, Count;
  }

  lemma {:induction false} NoneFor(verdicts: seq<Verdict>, sid: nat)
    requires forall v :: 0 <= v < |verdicts| ==> verdicts[v].sid != sid
    ensures Count(verdicts, PassedFor(sid)) == 0
  {
    if verdicts != [] { NoneFor(verdicts[..|verdicts| - 1], sid); }
  }

  lemma FreshUnarmed(s: State, step: Step, sid: nat)
    requires Inv(s) && Routing(s) && Enabled(s, step) && |s.sessions| <= sid < |Next(s, step).sessions|
    ensures var s' := Next(s, step); RearmedFor(|s'.sessions[sid].activity|, s'.manager, s'.verdicts, sid)
  {
    NewSessionIsFresh(s, step, sid);
    ShapeOf(s);
    assert |s.origins| == |s.sessions|;
    hide Inv, Enabled;
    NoneFor(s.verdicts, sid);
    VerdictsOf(s, step);
    hide Next, Count, Routing;
    var client :| Next(s, step).sessions[sid] == NewSession(client);
  }

  /** Every datagram that passes the closed check of its session re-arms the session once, and nothing else
      does: a session has been re-armed as often as its datagrams have passed, but for the one whose re-arming
      the manager has yet to do. */
  lemma {:induction false} EveryDatagramRearms(targets: seq<Address>, steps: seq<Step>, sid: nat)
    requires Run(targets, steps).Some?
    ensures var s := Run(targets, steps).value;
            sid < |s.sessions| ==>
              |s.sessions[sid].activity| + Arming(s.manager, sid) == Count(s.verdicts, PassedFor(sid))
  {
    if steps != [] {
      var before := steps[..|steps| - 1];
      RunLast(Init(targets), steps);
      hide RunFrom, Init, Inv, Enabled, Next, SessionAfter, Routing, Count;
      RunInv(targets, before);
      RunRouting(targets, before);
      EveryDatagramRearms(targets, before, sid);
      var s, step := Run(targets, before).value, Last(steps);
      ShapeOf(s);
      if sid < |s.sessions| {
        StepMovesSession(s, step, sid);
        RearmedStep(s, step, sid);
      } else if sid < |Next(s, step).sessions| {
        FreshUnarmed(s, step, sid);
      }
    }
  }

  // ---- The mutex ------------------------------------------------------------------------------

  lemma ManagerCache(s: State)
    requires Enabled(s, ManagerAdvance) && !s.manager.Emplacing?
    ensures ManagerNext(s).cache == s.cache
  {
    hide ParseAddress, RemoteAddress;
  }

  lemma CloseCache(s: State, sid: nat)
    requires Enabled(s, CloseAdvance(sid)) && !s.closing[sid].Locked?
    ensures CloseNext(s, sid).cache == s.cache
  {}

  lemma OwnerOf(s: State)
    requires Inv(s)
    ensures s.manager.Emplacing? || s.manager.Finding? ==> s.mutex.Manager?
    ensures forall sid :: 0 <= sid < |s.closing| && s.closing[sid].Locked? ==> s.mutex == Closer(sid)
  {
    hide CacheExact, Addressed, Closings, Serving;
  }

  lemma CacheMoves(s: State, step: Step)
    requires Enabled(s, step) && Next(s, step).cache != s.cache
    ensures (step.ManagerAdvance? && s.manager.Emplacing?)
            || (step.CloseAdvance? && step.sid < |s.closing| && s.closing[step.sid].Locked?)
  {
    hide ManagerNext, CloseNext, Destination;
    if step.ManagerAdvance? && !s.manager.Emplacing? { ManagerCache(s); }
    if step.CloseAdvance? && !s.closing[step.sid].Locked? { CloseCache(s, step.sid); }
  }

  /** The cache is read and changed only by the thread that holds the mutex. */
  lemma {:induction false} CacheIsGuarded(targets: seq<Address>, steps: seq<Step>, step: Step)
    requires Run(targets, steps).Some?
    ensures var s := Run(targets, steps).value;
            && (s.manager.Finding? ==> s.mutex.Manager?)
            && (Enabled(s, step) && Next(s, step).cache != s.cache ==>
                  || (step.ManagerAdvance? && s.mutex.Manager?)
                  || (step.CloseAdvance? && s.mutex == Closer(step.sid)))
  {
    RunInv(targets, steps);
    var s := Run(targets, steps).value;
    OwnerOf(s);
    hide Run, Inv, Next, Enabled;
    if Enabled(s, step) && Next(s, step).cache != s.cache { CacheMoves(s, step); }
  }

  // ---- Which datagram creates a session -------------------------------------------------------

  /** The session the manager is creating, before the verdict on the datagram that created it. */
  function Coming(s: State): Option<nat> {
    if !s.creating then None
    else
      match s.manager
      case StartingReceive(sid) => Some(sid)
      case Emplacing(sid) => Some(sid)
      case Unlocking(sid) => Some(sid)
      case Checking(sid) => Some(sid)
      case _ => None
  }

  ghost predicate Seen(verdicts: seq<Verdict>, sid: nat) { exists v :: 0 <= v < |verdicts| && verdicts[v].sid == sid }

  /** Every session but the one coming has had its first datagram, and only first datagrams create. */
  ghost predicate Introduced(s: State) {
    && (forall sid :: 0 <= sid < |s.sessions| ==> (Seen(s.verdicts, sid) <==> Coming(s) != Some(sid)))
    && forall v :: 0 <= v < |s.verdicts| ==>
         (s.verdicts[v].created <==> !Seen(s.verdicts[..v], s.verdicts[v].sid))
  }

  lemma SeenMore(verdicts: seq<Verdict>, v: Verdict, sid: nat)
    ensures Seen(verdicts + [v], sid) <==> Seen(verdicts, sid) || v.sid == sid
  {
    var more := verdicts + [v];
    assert more[|verdicts|] == v && forall k :: 0 <= k < |verdicts| ==> more[k] == verdicts[k];
  }

  /** One more verdict, on a datagram that was looked up to session `v.sid`. */
  lemma IntroducedMore(verdicts: seq<Verdict>, v: Verdict)
    requires forall k :: 0 <= k < |verdicts| ==> (verdicts[k].created <==> !Seen(verdicts[..k], verdicts[k].sid))
    requires v.created <==> !Seen(verdicts, v.sid)
    ensures var more := verdicts + [v];
            forall k :: 0 <= k < |more| ==> (more[k].created <==> !Seen(more[..k], more[k].sid))
  {
    var more := verdicts + [v];
    hide Seen;
    forall k | 0 <= k < |more|
      ensures more[k].created <==> !Seen(more[..k], more[k].sid)
    {
      assert more[..k] == verdicts[..k];
      if k == |verdicts| { assert verdicts[..k] == verdicts; }
    }
  }

  lemma CheckingNext(s: State)
    requires Enabled(s, ManagerAdvance) && s.manager.Checking?
    ensures var s' := ManagerNext(s);
            && s'.sessions == s.sessions && Coming(s') == None
            && s'.verdicts == s.verdicts + [Verdict(s.manager.sid, s.creating, !s.sessions[s.manager.sid].closed)]
  {}

  lemma IntroducedCheck(s: State)
    requires Introduced(s) && Enabled(s, ManagerAdvance) && s.manager.Checking?
    ensures Introduced(ManagerNext(s))
  {
    var sid := s.manager.sid;
    var v := Verdict(sid, s.creating, !s.sessions[sid].closed);
    CheckingNext(s);
    assert sid < |s.sessions| && Coming(s) == if s.creating then Some(sid) else None;
    hide Seen, ManagerNext, Enabled, Coming;
    IntroducedMore(s.verdicts, v);
    forall k: nat
      ensures Seen(s.verdicts + [v], k) <==> Seen(s.verdicts, k) || v.sid == k
    {
      SeenMore(s.verdicts, v, k);
    }
  }

  lemma ComingMoves(s: State)
    requires Enabled(s, ManagerAdvance) && !s.manager.Checking? && (s.manager.Constructing? ==> s.creating)
    ensures var s' := ManagerNext(s);
            && s'.verdicts == s.verdicts
            && if |s'.sessions| == |s.sessions| then Coming(s') == Coming(s)
               else |s'.sessions| == |s.sessions| + 1 && Coming(s) == None && Coming(s') == Some(|s.sessions|)
  {
    hide ParseAddress, RemoteAddress, Rearm, StartReceive, NewSession;
  }

  lemma CloseCreating(s: State, sid: nat)
    requires Enabled(s, CloseAdvance(sid))
    ensures CloseNext(s, sid).creating == s.creating
  {}

  lemma CreatingKept(s: State, step: Step)
    requires Enabled(s, step) && !step.ManagerAdvance?
    ensures Next(s, step).creating == s.creating
  {
    if step.CloseAdvance? { CloseCreating(s, step.sid); }
    hide CloseNext, Destination, TimeOut, TakeWait, Elapse;
  }

  lemma ComingKept(s: State, step: Step)
    requires Enabled(s, step) && !step.ManagerAdvance?
    ensures var s' := Next(s, step);
            s'.verdicts == s.verdicts && |s'.sessions| == |s.sessions| && Coming(s') == Coming(s)
  {
    SameSessions(s, step);
    WireFrame(s, step);
    CreatingKept(s, step);
    hide Next;
  }

  lemma IntroducedOther(s: State, s': State)
    requires Introduced(s) && s'.verdicts == s.verdicts
    requires if |s'.sessions| == |s.sessions| then Coming(s') == Coming(s)
             else |s'.sessions| == |s.sessions| + 1 && Coming(s) == None && Coming(s') == Some(|s.sessions|)
    requires !Seen(s.verdicts, |s.sessions|)
    ensures Introduced(s')
  {
    hide Seen, Coming;
  }

  lemma UnseenNext(s: State)
    requires Inv(s) && Routing(s)
    ensures !Seen(s.verdicts, |s.sessions|)
  {
    ShapeOf(s);
    assert |s.origins| == |s.sessions|;
    hide Inv;
  }

  lemma ConstructingCreates(s: State)
    requires Inv(s)
    ensures s.manager.Constructing? ==> s.creating
  {
    hide CacheExact, Addressed, Closings, MutexOwned;
  }

  lemma IntroducedStep(s: State, step: Step)
    requires Inv(s) && Routing(s) && Enabled(s, step) && Introduced(s)
    ensures Introduced(Next(s, step))
  {
    UnseenNext(s);
    ConstructingCreates(s);
    hide Inv, Routing, Introduced, ManagerNext, Coming, Seen;
    if step.ManagerAdvance? {
      if s.manager.Checking? {
        IntroducedCheck(s);
      } else {
        ComingMoves(s);
        IntroducedOther(s, ManagerNext(s));
      }
    } else {
      ComingKept(s, step);
      IntroducedOther(s, Next(s, step));
    }
  }

  lemma {:induction false} RunIntroduced(targets: seq<Address>, steps: seq<Step>)
    requires Run(targets, steps).Some?
    ensures Introduced(Run(targets, steps).value)
  {
    if steps != [] {
      var before := steps[..|steps| - 1];
      RunLast(Init(targets), steps);
      hide RunFrom, Init, Inv, Enabled, Next, Routing, Introduced;
      RunInv(targets, before);
      RunRouting(targets, before);
      RunIntroduced(targets, before);
      IntroducedStep(Run(targets, before).value, Last(steps));
    }
  }

  /** A datagram creates its session exactly when it is the first one looked up to it, and every session but the
      one being created has had one. */
  lemma {:induction false} FirstDatagramsCreate(targets: seq<Address>, steps: seq<Step>, v: nat)
    requires Run(targets, steps).Some?
    ensures var s := Run(targets, steps).value;
            && (v < |s.verdicts| ==>
                  (s.verdicts[v].created <==> forall u :: 0 <= u < v ==> s.verdicts[u].sid != s.verdicts[v].sid))
            && (forall sid :: 0 <= sid < |s.sessions| ==>
                  ((exists u :: 0 <= u < |s.verdicts| && s.verdicts[u].sid == sid) <==> Coming(s) != Some(sid)))
  {
    RunIntroduced(targets, steps);
    var s := Run(targets, steps).value;
    hide Run, Coming;
    if v < |s.verdicts| {
      assert forall u :: 0 <= u < v ==> s.verdicts[..v][u] == s.verdicts[u];
    }
    assert forall sid :: Seen(s.verdicts, sid) <==> exists u :: 0 <= u < |s.verdicts| && s.verdicts[u].sid == sid;
  }

  // ---- What may happen next -------------------------------------------------------------------

  /** Nothing is kept from a running proxy: while the manager waits, any datagram or an error may come, and an open
      session with a receive outstanding and no close under way may be handed anything. */
  lemma {:induction false} AnythingCanArrive(targets: seq<Address>, steps: seq<Step>, d: Datagram, sid: nat,
                                             data: Option<Payload>)
    requires Run(targets, steps).Some?
    ensures var s := Run(targets, steps).value;
            && (s.manager.Receiving? ==> Enabled(s, ClientReceive(d)) && Enabled(s, ClientReceiveError))
            && (sid < |s.sessions| && sid < |s.closing| && s.closing[sid].Idle? && s.sessions[sid].receiving > 0 ==>
                  Enabled(s, TargetReceive(sid, data)))
  {
    RunInv(targets, steps);
    hide Run, CacheExact, Addressed, MutexOwned, Closings, Serving;
  }

  /** The handler of the session's newest wait may run, and begins the close. */
  ghost predicate NewestCloses(s: State, sid: nat) {
    && sid < |s.sessions| && s.sessions[sid].waits != []
    && var step := RunWait(sid, |s.sessions[sid].waits| - 1);
    && Enabled(s, step) && sid < |Next(s, step).closing| && Next(s, step).closing[sid].Entered?
  }

  lemma NewestRuns(s: State, sid: nat)
    requires sid < |s.sessions| && sid < |s.closing| && !s.sessions[sid].closed && s.closing[sid].Idle?
    requires s.sessions[sid].waits != [] && Last(s.sessions[sid].waits).status.Expired?
    ensures NewestCloses(s, sid)
  {
    hide Without;
  }

  lemma ExpiryQueues(s: State, sid: nat)
    requires sid < |s.sessions| && sid < |s.closing| && s.now >= s.sessions[sid].expiry
    requires s.sessions[sid].waits != [] && Last(s.sessions[sid].waits).status.Waiting?
    ensures Enabled(s, Expire(sid))
    ensures var s' := Next(s, Expire(sid));
            && sid < |s'.sessions| && s'.closing == s.closing && s'.sessions[sid].closed == s.sessions[sid].closed
            && s'.sessions[sid].waits != [] && Last(s'.sessions[sid].waits).status.Expired?
  {
    assert s.sessions[sid].waits[|s.sessions[sid].waits| - 1].status.Waiting?;
  }

  lemma OwnedByNewest(session: Session, pc: ClosePc, now: int)
    requires Timed(session, pc, now) && !session.closed && pc.Idle? && session.activity != []
    ensures session.waits != [] && !Last(session.waits).status.Cancelled?
  {
    hide TimerSound, TimeoutSound;
  }

  /** A client that stays silent loses its session: from every state in which an open session's expiry has passed,
      the handler of its newest wait can be queued, if it is not, and then run, and it begins the close. */
  lemma {:induction false} SilentSessionCanBeClosed(targets: seq<Address>, steps: seq<Step>, sid: nat)
    requires Run(targets, steps).Some?
    ensures var s := Run(targets, steps).value;
            sid < |s.sessions| && sid < |s.closing| && !s.sessions[sid].closed && s.closing[sid].Idle?
            && s.sessions[sid].activity != [] && s.now >= s.sessions[sid].expiry ==>
            || NewestCloses(s, sid)
            || (Enabled(s, Expire(sid)) && NewestCloses(Next(s, Expire(sid)), sid))
  {
    var s := Run(targets, steps).value;
    if sid < |s.sessions| {
      TimedFrom(targets, steps, sid);
      hide Run, Timed, Next, Enabled, NewestCloses;
      var session := s.sessions[sid];
      if !session.closed && s.closing[sid].Idle? && session.activity != [] && s.now >= session.expiry {
        OwnedByNewest(session, s.closing[sid], s.now);
        if Last(session.waits).status.Expired? {
          NewestRuns(s, sid);
        } else {
          ExpiryQueues(s, sid);
          NewestRuns(Next(s, Expire(sid)), sid);
        }
      }
    }
  }
}
