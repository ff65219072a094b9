/** How TCP sessions end: the keepalive timer, close, and what runs after it. */
module TcpClosing {
  import opened Sequences
  import opened Addresses
  import opened FlowStatistics
  import opened Keepalive
  import opened TcpSession
  import opened TcpStreams
  import opened TcpWorld
  import opened TcpTheorems
  import IoServicePool

  // ---- Keepalive ------------------------------------------------------------------------------

  /** The armed expiry is the last client activity plus the keepalive time, and a session the timer
      closed had been without client data for that long while the wait that closed it was running. */
  lemma {:induction false} KeepaliveSound(pool: nat, addresses: seq<Address>, events: seq<Event>, i: nat)
    requires Run(pool, addresses, events).Some?
    requires i < |Run(pool, addresses, events).value.sessions|
    ensures var s := Run(pool, addresses, events).value.sessions[i];
            && (s.started ==> s.activity != [] && s.expiry == Last(s.activity) + KEEPALIVE_SECONDS)
            && (s.cause.ByTimer? ==>
                  && var t := s.cause.timeout;
                  && t.armedAt + KEEPALIVE_SECONDS <= t.queuedAt <= t.at && Silent(s.activity, t.armedAt, t.queuedAt))
  {
    RunSessions(pool, addresses, events);
    var w := Run(pool, addresses, events).value;
    assert SessionInv(w.sessions[i], w.addresses, w.now);
    hide Mirrored, Operations, Run, WorldInv;
  }

  /** Nothing but the session's start and its own client's data moves the expiry; target traffic and
      other sessions do not. */
  lemma {:induction false} OnlyClientDataRearms(w: World, e: Event, i: nat)
    requires Enabled(w, e) && i < |w.sessions|
    requires Next(w, e).sessions[i].expiry != w.sessions[i].expiry
    ensures e.Accepted? || (e.ClientRead? && e.r.Data?)
    ensures HandlerOf(e) == Some(i)
  {
    hide ApplyAll;
  }

  /** What a timer close says about the client.  If the wait is the session's newest, the client has
      been silent for the whole keepalive time.  Otherwise client data was processed after the wait ran
      out, when re-arming could no longer cancel it; so, if queued handlers run before another keepalive
      time has passed, the client had been silent exactly when the wait is the newest. */
  lemma {:induction false} TimerCloseExact(pool: nat, addresses: seq<Address>, events: seq<Event>, i: nat, k: nat)
    requires Run(pool, addresses, events).Some?
    ensures var w := Run(pool, addresses, events).value;
            Enabled(w, TimerRuns(i, k)) && !w.sessions[i].closed && w.sessions[i].waits[k].status.Expired? ==>
            var s := w.sessions[i];
            var wait := s.waits[k];
            var newest := k == |s.waits| - 1;
            && Next(w, TimerRuns(i, k)).sessions[i].closed
            && s.activity != []
            && (newest ==> w.now >= Last(s.activity) + KEEPALIVE_SECONDS)
            && (!newest ==> wait.armedAt + KEEPALIVE_SECONDS <= wait.status.queuedAt <= Last(s.activity))
            && (w.now < wait.status.queuedAt + KEEPALIVE_SECONDS ==>
                  (w.now >= Last(s.activity) + KEEPALIVE_SECONDS <==> newest))
  {
    RunSessions(pool, addresses, events);
    var w := Run(pool, addresses, events).value;
    hide Run;
    if Enabled(w, TimerRuns(i, k)) {
      var s := w.sessions[i];
      assert SessionInv(s, w.addresses, w.now);
      hide Mirrored, ApplyAll, WorldInv, CancelWaits, Without, TimerSound;
      if !s.closed && s.waits[k].status.Expired? { ExpiryMeans(s.expiry, s.waits, s.activity, w.now, k); }
    }
  }

  /** A proxy without targets whose only client has connected. */
  function Solo(now: int, s: Session, stats: Stats): World {
    World(1, 0, [], now, [s, FRESH], [0, 0], multiset{1}, stats)
  }

  /** The client's session after its one datum at `KEEPALIVE_SECONDS`, with the given waits. */
  function Served(waits: seq<Wait>): Session {
    Session(true, false, true, [], 2 * KEEPALIVE_SECONDS, waits, multiset{ReadClient}, [FromClient([7])],
            [0, KEEPALIVE_SECONDS], NotClosed)
  }

  function Waited(waits: seq<Wait>): Session {
    Session(true, false, true, [], KEEPALIVE_SECONDS, waits, multiset{ReadClient}, [], [0], NotClosed)
  }

  lemma BusyClient()
    ensures Start(FRESH, [], [], 0) == Outcome(Waited([Wait(0, Waiting)]), [Connected])
  {
    var s := Start(FRESH, [], [], 0).session;
    assert s.waits == [Wait(0, Waiting)] && s.activity == [0] && s.targets == [];
    assert s.pending == multiset{ReadClient};
  }

  lemma BusyStart()
    ensures Enabled(Init(1, []), Accepted(0, []))
    ensures var w := Next(Init(1, []), Accepted(0, []));
            w == Solo(0, Waited([Wait(0, Waiting)]), w.stats)
  {
    BusyClient();
    hide Start, Waited, ApplyAll;
    assert Init(1, []).sessions == [FRESH] && Init(1, []).services == [0];
    var w := Next(Init(1, []), Accepted(0, []));
    assert w.sessions == [Waited([Wait(0, Waiting)]), FRESH];
    assert w.services == [0, 0] && w.accepts == multiset{1};
  }

  lemma BusyExpiry(stats: Stats)
    ensures var w := Solo(KEEPALIVE_SECONDS, Waited([Wait(0, Waiting)]), stats);
            && Enabled(w, TimerExpires(0))
            && Next(w, TimerExpires(0)) == w.(sessions := [Waited([Wait(0, Expired(KEEPALIVE_SECONDS))]), FRESH])
  {
    var s := Waited([Wait(0, Waiting)]);
    assert s.waits[0].status.Waiting?;
    assert Expire(s, KEEPALIVE_SECONDS).waits == [Wait(0, Expired(KEEPALIVE_SECONDS))];
    assert Expire(s, KEEPALIVE_SECONDS) == Waited([Wait(0, Expired(KEEPALIVE_SECONDS))]);
  }

  lemma BusyRead(stats: Stats)
    ensures var w := Solo(KEEPALIVE_SECONDS, Waited([Wait(0, Expired(KEEPALIVE_SECONDS))]), stats);
            var e := ClientRead(0, Data([7]), []);
            && Enabled(w, e)
            && Next(w, e).sessions ==
               [Served([Wait(0, Expired(KEEPALIVE_SECONDS)), Wait(KEEPALIVE_SECONDS, Waiting)]), FRESH]
            && Next(w, e).now == KEEPALIVE_SECONDS
  {
    hide ApplyAll, Describe;
    var w := Solo(KEEPALIVE_SECONDS, Waited([Wait(0, Expired(KEEPALIVE_SECONDS))]), stats);
    var s := Next(w, ClientRead(0, Data([7]), [])).sessions[0];
    assert s.waits == [Wait(0, Expired(KEEPALIVE_SECONDS)), Wait(KEEPALIVE_SECONDS, Waiting)];
    assert s.events == [FromClient([7])] && s.activity == [0, KEEPALIVE_SECONDS];
    assert s == Served(s.waits);
  }

  /** The timer closed session 0 at the very second its client's data was processed. */
  ghost predicate ClosedWhileBusy(w: World) {
    && |w.sessions| > 0
    && var s := w.sessions[0];
    && s.closed && s.cause.ByTimer? && s.activity != [] && Last(s.activity) == s.cause.timeout.at == w.now
  }

  lemma BusyClose(w: World)
    requires w.sessions == [Served([Wait(0, Expired(KEEPALIVE_SECONDS)), Wait(KEEPALIVE_SECONDS, Waiting)]), FRESH]
    requires w.now == KEEPALIVE_SECONDS
    ensures Enabled(w, TimerRuns(0, 0)) && ClosedWhileBusy(Next(w, TimerRuns(0, 0)))
  {
    hide ApplyAll;
  }

  /** The client connects, and the keepalive time passes. */
  lemma BusyWaiting() returns (stats: Stats)
    ensures Reachable(1, [], Solo(KEEPALIVE_SECONDS, Waited([Wait(0, Waiting)]), stats))
  {
    var w0 := Init(1, []);
    BusyStart();
    var w1 := Next(w0, Accepted(0, []));
    stats := w1.stats;
    var s := Waited([Wait(0, Waiting)]);
    assert Next(Solo(0, s, stats), Tick(KEEPALIVE_SECONDS)) == Solo(KEEPALIVE_SECONDS, s, stats);
    hide Reachable, Waited, Init;
    ReachInit(1, []);
    ReachNext(1, [], w0, Accepted(0, []));
    ReachNext(1, [], w1, Tick(KEEPALIVE_SECONDS));
  }

  /** A run in which the timer closes a busy session: the client connects, the keepalive time passes and
      the wait's handler is queued, the client's data is processed and re-arms the timer, and then the
      queued handler runs. */
  lemma TimerCanCloseABusySession()
    ensures exists w :: Reachable(1, [], w) && ClosedWhileBusy(w)
  {
    hide Next, Enabled, Reachable, Waited, Served;
    var stats := BusyWaiting();
    var w2 := Solo(KEEPALIVE_SECONDS, Waited([Wait(0, Waiting)]), stats);
    BusyExpiry(stats);
    ReachNext(1, [], w2, TimerExpires(0));
    var w3 := Next(w2, TimerExpires(0));
    BusyRead(stats);
    ReachNext(1, [], w3, ClientRead(0, Data([7]), []));
    var w4 := Next(w3, ClientRead(0, Data([7]), []));
    BusyClose(w4);
    ReachNext(1, [], w4, TimerRuns(0, 0));
  }

  // ---- Close is final, and drains -------------------------------------------------------------

  /** Handlers a session still has coming. */
  function Load(s: Session): nat { |s.waits| + |s.pending| }

  lemma ClosedOwnHandler(w: World, e: Event)
    requires Enabled(w, e) && HandlerOf(e).Some? && !e.Accepted? && w.sessions[HandlerOf(e).value].closed
    ensures var s, o := w.sessions[HandlerOf(e).value], Handle(w, e);
            && Load(o.session) == Load(s) - 1 && o.effects == []
            && o.session == s.(waits := o.session.waits, pending := o.session.pending)
  {}

  lemma ClosedOtherEvent(w: World, e: Event, i: nat)
    requires Enabled(w, e) && i < |w.sessions| && HandlerOf(e) != Some(i)
    requires forall k :: 0 <= k < |w.sessions[i].waits| ==> !w.sessions[i].waits[k].status.Waiting?
    ensures Next(w, e).sessions[i] == w.sessions[i]
  {
    hide Handle, ApplyAll;
  }

  /** After close, a handler of the session only uses itself up: it moves no bytes, arms no timer,
      starts no read, and counts nothing; no other event touches the session. */
  lemma {:induction false} ClosedHandler(w: World, e: Event, i: nat)
    requires WorldInv(w) && Enabled(w, e) && i < |w.sessions| && w.sessions[i].closed
    ensures var s, s' := w.sessions[i], Next(w, e).sessions[i];
            if HandlerOf(e) == Some(i) then
              && Load(s') == Load(s) - 1 && s' == s.(waits := s'.waits, pending := s'.pending)
              && Handle(w, e).effects == []
            else s' == s
  {
    assert SessionInv(w.sessions[i], w.addresses, w.now);
    if HandlerOf(e) == Some(i) {
      StartedOnceHandled(w, e);
      ClosedOwnHandler(w, e);
      hide Handle, ApplyAll, WorldInv, SessionInv;
    } else {
      hide Mirrored, Operations, WorldInv;
      ClosedOtherEvent(w, e, i);
    }
  }

  /** The handlers of session i among the events. */
  function Handlers(i: nat): Event -> bool { (e: Event) => HandlerOf(e) == Some(i) }

  lemma SessionsOnlyGrow(w: World, e: Event)
    requires Enabled(w, e)
    ensures |w.sessions| <= |Next(w, e).sessions|
  {
    hide Handle, ApplyAll;
  }

  lemma {:induction false} DrainsFrom(w: World, events: seq<Event>, i: nat)
    requires WorldInv(w) && i < |w.sessions| && w.sessions[i].closed && RunFrom(w, events).Some?
    ensures var w' := RunFrom(w, events).value;
            && WorldInv(w') && i < |w'.sessions|
            && var s, s' := w.sessions[i], w'.sessions[i];
            && s' == s.(waits := s'.waits, pending := s'.pending)
            && Load(s') + Count(events, Handlers(i)) == Load(s)
  {
    hide WorldInv, Enabled, Next, Handle;
    if events != [] {
      var n := |events| - 1;
      RunLast(w, events);
      DrainsFrom(w, events[..n], i);
      var w' := RunFrom(w, events[..n]).value;
      StepSessions(w', events[n]);
      ClosedHandler(w', events[n], i);
      SessionsOnlyGrow(w', events[n]);
    }
  }

  /** Close is final and drains.  However a run goes on after a session closed, the session's streams,
      timer and counts stay as close left them, and it has at most as many handlers as were pending. */
  lemma {:induction false} ClosedDrains(pool: nat, addresses: seq<Address>, before: seq<Event>, after: seq<Event>,
                                        i: nat)
    requires Run(pool, addresses, before).Some?
    ensures var w := Run(pool, addresses, before).value;
            i < |w.sessions| && w.sessions[i].closed && RunFrom(w, after).Some? ==>
            var w' := RunFrom(w, after).value;
            && i < |w'.sessions|
            && var s, s' := w.sessions[i], w'.sessions[i];
            && s' == s.(waits := s'.waits, pending := s'.pending)
            && Load(s') + Count(after, Handlers(i)) == Load(s)
  {
    RunSessions(pool, addresses, before);
    var w := Run(pool, addresses, before).value;
    hide Run, WorldInv, RunFrom, Count, Load;
    if i < |w.sessions| && w.sessions[i].closed && RunFrom(w, after).Some? { DrainsFrom(w, after, i); }
  }

  // ---- Threads --------------------------------------------------------------------------------

  lemma ServiceStep(w: World, e: Event)
    requires Enabled(w, e) && |w.services| == |w.sessions|
    ensures Next(w, e).pool == w.pool && |Next(w, e).services| == |Next(w, e).sessions|
    ensures if e.Accepted? || e.AcceptFailed? then
              && Next(w, e).services == w.services + [w.cursor]
              && Next(w, e).cursor == IoServicePool.Successor(w.cursor, w.pool)
            else Next(w, e).services == w.services && Next(w, e).cursor == w.cursor
  {
    hide Handle, ApplyAll;
  }

  /** The services handed to sessions so far are in turn from the second, and the cursor stands at the next. */
  ghost predicate InTurnSoFar(w: World) {
    && |w.services| == |w.sessions|
    && w.cursor == IoServicePool.Cursor(IoServicePool.Successor(0, w.pool), w.pool, |w.services|)
    && IoServicePool.InTurn(w.services, IoServicePool.Successor(0, w.pool), w.pool)
  }

  lemma InTurnStep(w: World, e: Event)
    requires Enabled(w, e) && InTurnSoFar(w)
    ensures InTurnSoFar(Next(w, e)) && Next(w, e).pool == w.pool
  {
    ServiceStep(w, e);
    hide Enabled, Next;
  }

  lemma InTurnStart(pool: nat, addresses: seq<Address>)
    ensures InTurnSoFar(Init(pool, addresses)) && Init(pool, addresses).pool == pool
  {
    var start := IoServicePool.Successor(0, pool);
    assert IoServicePool.Cursor(start, pool, 0) == start;
  }

  /** Sessions are given to the io services in turn, starting after the acceptor's. */
  lemma {:induction false} ServicesInTurn(pool: nat, addresses: seq<Address>, events: seq<Event>)
    requires Run(pool, addresses, events).Some?
    ensures var w := Run(pool, addresses, events).value; InTurnSoFar(w) && w.pool == pool
  {
    InTurnStart(pool, addresses);
    if events != [] {
      var before := events[..|events| - 1];
      RunLast(Init(pool, addresses), events);
      hide RunFrom, Enabled, Next, Init, InTurnSoFar;
      ServicesInTurn(pool, addresses, before);
      InTurnStep(Run(pool, addresses, before).value, Last(events));
    }
  }

  /** No thread is ever given two more sessions than another, counting those whose accept failed and those
      that have closed since. */
  lemma ThreadsAreBalanced(pool: nat, addresses: seq<Address>, events: seq<Event>, a: nat, b: nat)
    requires Run(pool, addresses, events).Some? && a < pool && b < pool
    ensures var w := Run(pool, addresses, events).value;
            Count(w.services, IoServicePool.IsService(a)) <= Count(w.services, IoServicePool.IsService(b)) + 1
  {
    ServicesInTurn(pool, addresses, events);
    hide Run;
    IoServicePool.Balanced(Run(pool, addresses, events).value.services, IoServicePool.Successor(0, pool), pool, a, b);
  }
}
