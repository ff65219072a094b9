/** What a run's events alone say about each TCP session: when it is open, what its streams hold, when its
    timer was armed, and what may happen to it next. */
module TcpHistory {
  import opened Sequences
  import opened Addresses
  import opened FlowStatistics
  import opened Keepalive
  import opened TcpSession
  import opened TcpStreams
  import opened TcpWorld
  import opened TcpTheorems
  import opened TcpTraffic
  import opened Trimming

  /** Session i has been started and not closed. */
  predicate Open(w: World, i: nat) { i < |w.sessions| && w.sessions[i].started && !w.sessions[i].closed }

  // ---- What a step does to one session ---------------------------------------------------------

  /** The socket events that an event brings to an open session. */
  function Brought(e: Event, i: nat): seq<IoEvent> {
    match e
    case ClientRead(j, Data(bytes), results) =>
      if j == i then
        [FromClient(bytes)]
        + seq(|results|, t requires 0 <= t < |results| => ToTarget(t, bytes, results[t]))
      else []
    case TargetRead(j, t, Data(bytes), result) =>
      if j == i then [FromTarget(t, bytes), ToClient(t, bytes, result)] else []
    case _ => []
  }

  lemma OwnEvents(w: World, e: Event)
    requires Enabled(w, e) && HandlerOf(e).Some? && (e.Accepted? ==> !w.sessions[e.i].started)
    requires !e.Accepted? ==> w.sessions[HandlerOf(e).value].started
    ensures var i := HandlerOf(e).value;
            Handle(w, e).session.events == w.sessions[i].events + if Open(w, i) then Brought(e, i) else []
  {
    hide Rearmed, CancelWaits, FanOutEffects, Describe;
    var io := w.sessions[HandlerOf(e).value].events;
    assert io + [] == io;
    if e.ClientRead? && e.r.Data? {
      assert io + [FromClient(e.r.bytes)] + FanOut(e.r.bytes, e.results) == io + Brought(e, e.i);
    }
  }

  lemma OtherSession(w: World, e: Event, i: nat)
    requires Enabled(w, e) && i < |w.sessions| && HandlerOf(e) != Some(i)
    ensures i < |Next(w, e).sessions|
    ensures Next(w, e).sessions[i] ==
            if e == TimerExpires(i) then Expire(w.sessions[i], w.now) else w.sessions[i]
  {
    hide Handle, ApplyAll, Expire;
  }

  lemma OwnSession(w: World, e: Event)
    requires Enabled(w, e) && HandlerOf(e).Some?
    ensures var i := HandlerOf(e).value;
            i < |w.sessions| && i < |Next(w, e).sessions| && Next(w, e).sessions[i] == Handle(w, e).session
  {
    hide Handle, ApplyAll;
  }

  lemma NewSession(w: World, e: Event, i: nat)
    requires Enabled(w, e) && |w.sessions| <= i < |Next(w, e).sessions|
    ensures Next(w, e).sessions[i] == FRESH
  {
    hide Handle, ApplyAll;
  }

  lemma EventsStep(w: World, e: Event, i: nat)
    requires WorldInv(w) && Enabled(w, e) && i < |w.sessions|
    ensures i < |Next(w, e).sessions|
    ensures Next(w, e).sessions[i].events ==
            if Open(w, i) then w.sessions[i].events + Brought(e, i) else w.sessions[i].events
  {
    assert w.sessions[i].events + [] == w.sessions[i].events;
    if HandlerOf(e) == Some(i) {
      StartedOnceHandled(w, e);
      OwnSession(w, e);
      hide WorldInv, Handle, Brought, Next;
      OwnEvents(w, e);
    } else {
      OtherSession(w, e, i);
      assert Brought(e, i) == [];
      hide WorldInv, Brought, Next;
    }
  }

  // ---- The streams of a run -------------------------------------------------------------------

  /** What the events that found session i open show to a picker, in order. */
  ghost function Handled<T>(pool: nat, addresses: seq<Address>, events: seq<Event>, i: nat,
                            pick: Event -> Option<T>): seq<T>
    requires Run(pool, addresses, events).Some?
  {
    if events == [] then []
    else
      var before, e := events[..|events| - 1], Last(events);
      Handled(pool, addresses, before, i, pick)
      + if Open(Run(pool, addresses, before).value, i) && pick(e).Some? then [pick(e).value] else []
  }

  /** The chunk read from the client, and the write of it to target `t`. */
  function ClientChunk(i: nat): Event -> Option<Bytes> {
    (e: Event) => if e.ClientRead? && e.i == i && e.r.Data? then Some(e.r.bytes) else None
  }

  function ClientWrite(i: nat, t: nat): Event -> Option<Write> {
    (e: Event) =>
      if e.ClientRead? && e.i == i && e.r.Data? && t < |e.results| then Some(Write(e.r.bytes, e.results[t])) else None
  }

  /** The chunk read from target `t`, and the write of it to the client. */
  function TargetChunk(i: nat, t: nat): Event -> Option<Bytes> {
    (e: Event) => if e.TargetRead? && e.i == i && e.serial == t && e.r.Data? then Some(e.r.bytes) else None
  }

  function TargetReply(i: nat, t: nat): Event -> Option<Write> {
    (e: Event) =>
      if e.TargetRead? && e.i == i && e.serial == t && e.r.Data? then Some(Write(e.r.bytes, e.result)) else None
  }

  /** Which target was read, and the write to the client, whichever it was. */
  function ReadFrom(i: nat): Event -> Option<nat> {
    (e: Event) => if e.TargetRead? && e.i == i && e.r.Data? then Some(e.serial) else None
  }

  function Reply(i: nat): Event -> Option<Write> {
    (e: Event) => if e.TargetRead? && e.i == i && e.r.Data? then Some(Write(e.r.bytes, e.result)) else None
  }

  function Opt<T>(x: Option<T>): seq<T> { if x.Some? then [x.value] else [] }

  /** The event brings no socket events. */
  lemma Silent<T>(io: seq<IoEvent>, e: Event, i: nat, pick: IoEvent -> Option<T>)
    requires !(e.ClientRead? && e.i == i && e.r.Data?) && !(e.TargetRead? && e.i == i && e.r.Data?)
    ensures Collect(io + Brought(e, i), pick) == Collect(io, pick) + []
  {
    assert Brought(e, i) == [];
    assert io + [] == io && Collect(io, pick) + [] == Collect(io, pick);
  }

  lemma ClientBrought(e: Event, i: nat)
    requires e.ClientRead? && e.i == i && e.r.Data?
    ensures Brought(e, i) == [FromClient(e.r.bytes)] + FanOut(e.r.bytes, e.results)
  {}

  lemma ClientChunkView(io: seq<IoEvent>, e: Event, i: nat)
    ensures Collect(io + Brought(e, i), OfClient()) == Collect(io, OfClient()) + Opt(ClientChunk(i)(e))
  {
    if e.ClientRead? && e.i == i && e.r.Data? {
      ClientBrought(e, i);
      assert io + Brought(e, i) == io + [FromClient(e.r.bytes)] + FanOut(e.r.bytes, e.results);
      CollectSnoc(io, FromClient(e.r.bytes), OfClient());
      FanOutQuiet(io + [FromClient(e.r.bytes)], e.r.bytes, e.results, OfClient());
    } else if e.TargetRead? && e.i == i && e.r.Data? {
      ReplyCollects(io, e.serial, e.r.bytes, e.result, OfClient());
    } else {
      Silent(io, e, i, OfClient());
    }
  }

  lemma ClientWriteView(io: seq<IoEvent>, e: Event, i: nat, t: nat)
    ensures Collect(io + Brought(e, i), To(t)) == Collect(io, To(t)) + Opt(ClientWrite(i, t)(e))
  {
    if e.ClientRead? && e.i == i && e.r.Data? {
      ClientBrought(e, i);
      assert io + Brought(e, i) == io + [FromClient(e.r.bytes)] + FanOut(e.r.bytes, e.results);
      CollectSnoc(io, FromClient(e.r.bytes), To(t));
      FanOutWrites(io + [FromClient(e.r.bytes)], e.r.bytes, e.results, t);
    } else if e.TargetRead? && e.i == i && e.r.Data? {
      ReplyCollects(io, e.serial, e.r.bytes, e.result, To(t));
    } else {
      Silent(io, e, i, To(t));
    }
  }

  /** What shows only a target read and its reply. */
  lemma ReplyView<T>(io: seq<IoEvent>, e: Event, i: nat, pick: IoEvent -> Option<T>)
    requires forall f: IoEvent :: f.ToTarget? || f.FromClient? ==> pick(f) == None
    requires e.TargetRead? && e.r.Data? ==>
               pick(FromTarget(e.serial, e.r.bytes)).None? || pick(ToClient(e.serial, e.r.bytes, e.result)).None?
    ensures Collect(io + Brought(e, i), pick) == Collect(io, pick) +
            if e.TargetRead? && e.i == i && e.r.Data? then
              Opt(pick(FromTarget(e.serial, e.r.bytes))) + Opt(pick(ToClient(e.serial, e.r.bytes, e.result)))
            else []
  {
    if e.ClientRead? && e.i == i && e.r.Data? {
      ClientBrought(e, i);
      assert io + Brought(e, i) == io + [FromClient(e.r.bytes)] + FanOut(e.r.bytes, e.results);
      BlockQuiet(io, e.r.bytes, e.results, pick);
    } else if e.TargetRead? && e.i == i && e.r.Data? {
      ReplyCollects(io, e.serial, e.r.bytes, e.result, pick);
    } else {
      Silent(io, e, i, pick);
    }
  }

  /** Every stream of the session's log, one event later. */
  lemma ViewStep(io: seq<IoEvent>, e: Event, i: nat, t: nat)
    ensures var io' := io + Brought(e, i);
            && Collect(io', OfClient()) == Collect(io, OfClient()) + Opt(ClientChunk(i)(e))
            && Collect(io', To(t)) == Collect(io, To(t)) + Opt(ClientWrite(i, t)(e))
            && Collect(io', From(t)) == Collect(io, From(t)) + Opt(TargetChunk(i, t)(e))
            && Collect(io', ReplyFor(t)) == Collect(io, ReplyFor(t)) + Opt(TargetReply(i, t)(e))
            && Collect(io', AnySerial()) == Collect(io, AnySerial()) + Opt(ReadFrom(i)(e))
            && Collect(io', AnyReply()) == Collect(io, AnyReply()) + Opt(Reply(i)(e))
  {
    hide Collect, Brought;
    ClientChunkView(io, e, i);
    ClientWriteView(io, e, i, t);
    ReplyView(io, e, i, From(t));
    ReplyView(io, e, i, ReplyFor(t));
    ReplyView(io, e, i, AnySerial());
    ReplyView(io, e, i, AnyReply());
  }

  /** The streams of the log are those of the run's events. */
  ghost predicate StreamsAre(io: seq<IoEvent>, pool: nat, addresses: seq<Address>, events: seq<Event>, i: nat, t: nat)
    requires Run(pool, addresses, events).Some?
  {
    && ClientChunks(io) == Handled(pool, addresses, events, i, ClientChunk(i))
    && Collect(io, To(t)) == Handled(pool, addresses, events, i, ClientWrite(i, t))
    && Chunks(io, t) == Handled(pool, addresses, events, i, TargetChunk(i, t))
    && Collect(io, ReplyFor(t)) == Handled(pool, addresses, events, i, TargetReply(i, t))
    && ReadOrder(io) == Handled(pool, addresses, events, i, ReadFrom(i))
    && Collect(io, AnyReply()) == Handled(pool, addresses, events, i, Reply(i))
  }

  lemma HandledStep<T>(pool: nat, addresses: seq<Address>, events: seq<Event>, i: nat, pick: Event -> Option<T>,
                       was: seq<T>, more: seq<T>)
    requires events != [] && Run(pool, addresses, events).Some?
    requires was == Handled(pool, addresses, events[..|events| - 1], i, pick)
    requires more == if Open(Run(pool, addresses, events[..|events| - 1]).value, i) then was + Opt(pick(Last(events)))
                     else was
    ensures more == Handled(pool, addresses, events, i, pick)
  {
    hide RunFrom;
    assert was + [] == was;
  }

  lemma {:induction false} StreamsStep(pool: nat, addresses: seq<Address>, events: seq<Event>, i: nat, t: nat,
                                       io: seq<IoEvent>, io': seq<IoEvent>)
    requires events != [] && Run(pool, addresses, events).Some?
    requires StreamsAre(io, pool, addresses, events[..|events| - 1], i, t)
    requires var w := Run(pool, addresses, events[..|events| - 1]).value;
             io' == if Open(w, i) then io + Brought(Last(events), i) else io
    ensures StreamsAre(io', pool, addresses, events, i, t)
  {
    hide RunFrom, Handled, Collect, Brought, Open, Opt, ClientChunk, ClientWrite, TargetChunk, TargetReply, ReadFrom,
         Reply, To, From, ReplyFor, OfClient, AnySerial, AnyReply;
    ViewStep(io, Last(events), i, t);
    HandledStep(pool, addresses, events, i, ClientChunk(i), ClientChunks(io), ClientChunks(io'));
    HandledStep(pool, addresses, events, i, ClientWrite(i, t), Collect(io, To(t)), Collect(io', To(t)));
    HandledStep(pool, addresses, events, i, TargetChunk(i, t), Chunks(io, t), Chunks(io', t));
    HandledStep(pool, addresses, events, i, TargetReply(i, t), Collect(io, ReplyFor(t)), Collect(io', ReplyFor(t)));
    HandledStep(pool, addresses, events, i, ReadFrom(i), ReadOrder(io), ReadOrder(io'));
    HandledStep(pool, addresses, events, i, Reply(i), Collect(io, AnyReply()), Collect(io', AnyReply()));
  }

  lemma NoStreams(pool: nat, addresses: seq<Address>, i: nat, t: nat)
    ensures StreamsAre([], pool, addresses, [], i, t)
  {}

  /** The streams of a session are those of the run: the client's chunks are, in order, the bytes of the client
      reads that found the session open; each target was written exactly those, with the results of those
      very writes; its own chunks are the bytes of its reads that found the session open, and the client was
      written exactly those, in that order, with those results. */
  lemma {:induction false} StreamsFollowTheRun(pool: nat, addresses: seq<Address>, events: seq<Event>, i: nat, t: nat)
    requires Run(pool, addresses, events).Some?
    ensures var w := Run(pool, addresses, events).value;
            StreamsAre(if i < |w.sessions| then w.sessions[i].events else [], pool, addresses, events, i, t)
  {
    if events == [] {
      NoStreams(pool, addresses, i, t);
    } else {
      var before, e := events[..|events| - 1], Last(events);
      RunLast(Init(pool, addresses), events);
      StreamsFollowTheRun(pool, addresses, before, i, t);
      RunSessions(pool, addresses, before);
      var w := Run(pool, addresses, before).value;
      hide WorldInv, RunFrom, Init, Next, Enabled, StreamsAre, Brought;
      var io := if i < |w.sessions| then w.sessions[i].events else [];
      if i < |w.sessions| {
        EventsStep(w, e, i);
        StreamsStep(pool, addresses, events, i, t, io, Next(w, e).sessions[i].events);
      } else {
        if i < |Next(w, e).sessions| { NewSession(w, e, i); }
        StreamsStep(pool, addresses, events, i, t, io, []);
      }
    }
  }

  lemma {:induction false} WholeWrites(pool: nat, addresses: seq<Address>, events: seq<Event>, i: nat,
                                       pick: Event -> Option<Write>)
    requires Run(pool, addresses, events).Some?
    requires forall k :: 0 <= k < |events| && pick(events[k]).Some? ==> pick(events[k]).value.result.Full?
    ensures Whole(Handled(pool, addresses, events, i, pick))
  {
    if events != [] {
      var before := events[..|events| - 1];
      hide Open, RunFrom;
      WholeWrites(pool, addresses, before, i, pick);
      var was := Handled(pool, addresses, before, i, pick);
      if pick(Last(events)).Some? { WholeSnoc(was, pick(Last(events)).value); }
      assert was + [] == was;
      hide Whole;
    }
  }

  /** When every write of a client's chunk to target `t` succeeds, the target has been given exactly the bytes of
      the client reads that found the session open, in order. */
  lemma {:induction false} WholeWritesCopyTheClient(pool: nat, addresses: seq<Address>, events: seq<Event>, i: nat,
                                                    t: nat)
    requires Run(pool, addresses, events).Some? && i < |Run(pool, addresses, events).value.sessions|
    requires t < |addresses|
    requires forall k :: 0 <= k < |events| && ClientWrite(i, t)(events[k]).Some? ==> events[k].results[t].Full?
    ensures Delivered(Run(pool, addresses, events).value.sessions[i].events, t)
            == Concat(Handled(pool, addresses, events, i, ClientChunk(i)))
  {
    StreamsFollowTheRun(pool, addresses, events, i, t);
    FanOutCopiesTheClient(pool, addresses, events, i, t);
    WholeWrites(pool, addresses, events, i, ClientWrite(i, t));
    hide RunFrom, Handled, Collect, Concat, Trims, Places, Embeds, Whole;
  }

  /** When every reply write succeeds, the client has been given exactly the bytes of the target reads that found
      the session open, in the order of the reads. */
  lemma {:induction false} WholeWritesMergeTheTargets(pool: nat, addresses: seq<Address>, events: seq<Event>, i: nat)
    requires Run(pool, addresses, events).Some? && i < |Run(pool, addresses, events).value.sessions|
    requires forall k :: 0 <= k < |events| && Reply(i)(events[k]).Some? ==> events[k].result.Full?
    ensures Replied(Run(pool, addresses, events).value.sessions[i].events)
            == Concat(Offered(Handled(pool, addresses, events, i, Reply(i))))
  {
    StreamsFollowTheRun(pool, addresses, events, i, 0);
    WholeWrites(pool, addresses, events, i, Reply(i));
    TransferredTrims(Handled(pool, addresses, events, i, Reply(i)));
    hide RunFrom, Handled, Collect, Concat, Trims, Whole;
  }

  // ---- When a session is open -----------------------------------------------------------------

  /** The event ends session i: a connect to a target failed, a read failed, or a wait that had run out was
      handled. */
  predicate Ends(w: World, e: Event, i: nat) {
    match e
    case Accepted(j, connects) => j == i && false in connects
    case ClientRead(j, r, _) => j == i && r.Error?
    case TargetRead(j, _, r, _) => j == i && r.Error?
    case TimerRuns(j, k) =>
      j == i && i < |w.sessions| && k < |w.sessions[i].waits| && w.sessions[i].waits[k].status.Expired?
    case _ => false
  }

  ghost predicate Begun(events: seq<Event>, i: nat) { exists connects :: Accepted(i, connects) in events }

  ghost predicate Ended(pool: nat, addresses: seq<Address>, events: seq<Event>, i: nat)
    requires Run(pool, addresses, events).Some?
  {
    events != [] &&
    (Ended(pool, addresses, events[..|events| - 1], i)
     || Ends(Run(pool, addresses, events[..|events| - 1]).value, Last(events), i))
  }

  lemma OwnFlags(w: World, e: Event)
    requires Enabled(w, e) && HandlerOf(e).Some?
    ensures var i := HandlerOf(e).value;
            var s, s' := w.sessions[i], Handle(w, e).session;
            && (s'.started <==> s.started || e.Accepted?)
            && (s'.closed <==> s.closed || Ends(w, e, i))
            && (!s.closed && s'.closed && !e.Accepted? ==>
                  (s'.cause.ByTimer? <==> e.TimerRuns?) && (s'.cause.ByReadError? <==> !e.TimerRuns?))
  {
    hide Rearmed, FanOut, FanOutEffects, Describe, CancelWaits, Without;
  }

  lemma FlagsStep(w: World, e: Event, i: nat)
    requires WorldInv(w) && Enabled(w, e) && i < |w.sessions|
    ensures i < |Next(w, e).sessions|
    ensures Next(w, e).sessions[i].started <==> w.sessions[i].started || (e.Accepted? && e.i == i)
    ensures Next(w, e).sessions[i].closed <==> w.sessions[i].closed || Ends(w, e, i)
  {
    if HandlerOf(e) == Some(i) {
      OwnSession(w, e);
      OwnFlags(w, e);
      hide WorldInv, Handle, Next, Enabled;
    } else {
      OtherSession(w, e, i);
      hide WorldInv, Next, Enabled;
    }
  }

  lemma SocketsOf(s: Session, addresses: seq<Address>, now: int)
    requires SessionInv(s, addresses, now) && s.started
    ensures s.clientOpen == !s.closed
    ensures s.targets == if s.closed then [] else ConnectedTargets(addresses)
    ensures s.closed ==> !SomeWaiting(s.waits)
  {
    hide Mirrored, TimerSound, Owned, SomeWaiting;
  }

  lemma BegunMore(events: seq<Event>, i: nat)
    requires events != []
    ensures Begun(events, i) <==>
              Begun(events[..|events| - 1], i) || (Last(events).Accepted? && Last(events).i == i)
  {
    var before, e := events[..|events| - 1], Last(events);
    assert events == before + [e];
    if e.Accepted? && e.i == i { assert Accepted(i, e.connects) in events; }
  }

  lemma NoneYet(w: World, e: Event, i: nat)
    requires Enabled(w, e) && |w.sessions| <= i && WorldInv(w)
    ensures !Ends(w, e, i) && !(e.Accepted? && e.i == i)
  {
    hide SessionInv;
  }

  lemma {:induction false} FlagsFollowTheRun(pool: nat, addresses: seq<Address>, events: seq<Event>, i: nat)
    requires Run(pool, addresses, events).Some?
    ensures var w := Run(pool, addresses, events).value;
            if i < |w.sessions| then
              && (w.sessions[i].started <==> Begun(events, i))
              && (w.sessions[i].closed <==> Ended(pool, addresses, events, i))
            else !Begun(events, i) && !Ended(pool, addresses, events, i)
  {
    if events != [] {
      var before, e := events[..|events| - 1], Last(events);
      RunLast(Init(pool, addresses), events);
      FlagsFollowTheRun(pool, addresses, before, i);
      RunSessions(pool, addresses, before);
      BegunMore(events, i);
      var w := Run(pool, addresses, before).value;
      hide WorldInv, RunFrom, Init, Next, Enabled, Ends, Begun;
      if i < |w.sessions| {
        FlagsStep(w, e, i);
      } else {
        NoneYet(w, e, i);
        if i < |Next(w, e).sessions| { NewSession(w, e, i); }
      }
    } else {
      assert Init(pool, addresses).sessions == [FRESH];
    }
  }

  /** A session has started once its client was accepted, and has closed once a connect or a read of it failed or
      its timer ran out, and not before.  Its sockets and its timer go with it. */
  lemma {:induction false} SessionsOpenAndClose(pool: nat, addresses: seq<Address>, events: seq<Event>, i: nat)
    requires Run(pool, addresses, events).Some?
    ensures var w := Run(pool, addresses, events).value;
            if i < |w.sessions| then
              && (w.sessions[i].started <==> Begun(events, i))
              && (w.sessions[i].closed <==> Ended(pool, addresses, events, i))
              && (Begun(events, i) ==>
                    && w.sessions[i].clientOpen == !w.sessions[i].closed
                    && w.sessions[i].targets == (if w.sessions[i].closed then [] else ConnectedTargets(addresses))
                    && (w.sessions[i].closed ==> !SomeWaiting(w.sessions[i].waits)))
            else !Begun(events, i) && !Ended(pool, addresses, events, i)
  {
    RunSessions(pool, addresses, events);
    var w := Run(pool, addresses, events).value;
    if i < |w.sessions| {
      assert SessionInv(w.sessions[i], addresses, w.now);
    }
    FlagsFollowTheRun(pool, addresses, events, i);
    hide RunFrom, WorldInv, SessionInv, Ended, Begun, SomeWaiting;
    if i < |w.sessions| && w.sessions[i].started { SocketsOf(w.sessions[i], addresses, w.now); }
  }

  // ---- When its timer was armed ---------------------------------------------------------------

  /** Seconds on the clock. */
  function Clock(events: seq<Event>): nat {
    if events == [] then 0
    else Clock(events[..|events| - 1]) + if Last(events).Tick? then Last(events).seconds else 0
  }

  predicate Active(w: World, e: Event, i: nat) {
    (e.Accepted? && e.i == i) || (e.ClientRead? && e.i == i && e.r.Data? && Open(w, i))
  }

  /** The times at which session i was started or, being open, was sent data by its client. */
  ghost function Activity(pool: nat, addresses: seq<Address>, events: seq<Event>, i: nat): seq<int>
    requires Run(pool, addresses, events).Some?
  {
    if events == [] then []
    else
      var before, e := events[..|events| - 1], Last(events);
      Activity(pool, addresses, before, i)
      + if Active(Run(pool, addresses, before).value, e, i) then [Clock(before)] else []
  }

  lemma ClockStep(w: World, e: Event)
    requires Enabled(w, e)
    ensures Next(w, e).now == w.now + if e.Tick? then e.seconds else 0
  {
    hide Handle, ApplyAll;
  }

  lemma OwnActivity(w: World, e: Event)
    requires Enabled(w, e) && HandlerOf(e).Some?
    requires !e.Accepted? ==> w.sessions[HandlerOf(e).value].started
    ensures var i := HandlerOf(e).value;
            Handle(w, e).session.activity ==
            if Active(w, e, i) then w.sessions[i].activity + [w.now] else w.sessions[i].activity
  {
    hide Rearmed, FanOut, FanOutEffects, Describe, CancelWaits, Without;
  }

  lemma ActivityStep(w: World, e: Event, i: nat)
    requires WorldInv(w) && Enabled(w, e) && i < |w.sessions|
    ensures i < |Next(w, e).sessions|
    ensures Next(w, e).sessions[i].activity ==
            if Active(w, e, i) then w.sessions[i].activity + [w.now] else w.sessions[i].activity
  {
    if HandlerOf(e) == Some(i) {
      StartedOnceHandled(w, e);
      OwnSession(w, e);
      OwnActivity(w, e);
      hide WorldInv, Handle, Next, Enabled, Active;
    } else {
      OtherSession(w, e, i);
      hide WorldInv, Next, Enabled;
    }
  }

  lemma {:induction false} ActivityFollowsTheRun(pool: nat, addresses: seq<Address>, events: seq<Event>, i: nat)
    requires Run(pool, addresses, events).Some?
    ensures var w := Run(pool, addresses, events).value;
            && w.now == Clock(events)
            && (if i < |w.sessions| then w.sessions[i].activity else []) == Activity(pool, addresses, events, i)
  {
    if events != [] {
      var before, e := events[..|events| - 1], Last(events);
      RunLast(Init(pool, addresses), events);
      ActivityFollowsTheRun(pool, addresses, before, i);
      RunSessions(pool, addresses, before);
      var w := Run(pool, addresses, before).value;
      ClockStep(w, e);
      assert Activity(pool, addresses, before, i) + [] == Activity(pool, addresses, before, i);
      if i >= |w.sessions| { NoneYet(w, e, i); }
      hide WorldInv, RunFrom, Init, Next, Enabled;
      if i < |w.sessions| {
        ActivityStep(w, e, i);
      } else if i < |Next(w, e).sessions| {
        NewSession(w, e, i);
      }
    } else {
      assert Init(pool, addresses).sessions == [FRESH];
    }
  }

  lemma SessionOf(w: World, i: nat)
    requires WorldInv(w) && i < |w.sessions|
    ensures SessionInv(w.sessions[i], w.addresses, w.now)
  {}

  /** A session's timer stands 480 seconds after the last time at which its client, while it was open, connected
      or sent data: each of them re-arms it, and nothing else does. */
  lemma {:induction false} EveryChunkRearms(pool: nat, addresses: seq<Address>, events: seq<Event>, i: nat)
    requires Run(pool, addresses, events).Some?
    ensures var w := Run(pool, addresses, events).value;
            && w.now == Clock(events)
            && (i < |w.sessions| && w.sessions[i].started ==>
                  && Activity(pool, addresses, events, i) != []
                  && w.sessions[i].expiry == Last(Activity(pool, addresses, events, i)) + 480)
  {
    ActivityFollowsTheRun(pool, addresses, events, i);
    RunSessions(pool, addresses, events);
    var w := Run(pool, addresses, events).value;
    hide RunFrom, Activity, WorldInv;
    if i < |w.sessions| {
      SessionOf(w, i);
    }
    hide Mirrored, Operations, Owned;
  }

  // ---- What may happen next -------------------------------------------------------------------

  lemma AcceptsArrive(w: World, connects: seq<bool>)
    requires w.sessions != [] && |w.sessions| - 1 in w.accepts && |connects| == |w.addresses|
    ensures Enabled(w, Accepted(|w.sessions| - 1, connects)) && Enabled(w, AcceptFailed(|w.sessions| - 1))
  {}

  lemma ReadsArrive(w: World, i: nat, r: ReadResult, results: seq<WriteResult>, t: nat)
    requires Open(w, i) && |w.sessions[i].targets| == |w.addresses| == |results| && t < |results| && !r.Aborted?
    requires w.sessions[i].pending[ReadClient] == 1 && w.sessions[i].pending[ReadTarget(t)] == 1
    ensures Enabled(w, ClientRead(i, r, results)) && Enabled(w, TargetRead(i, t, r, results[t]))
  {}

  /** Nothing is kept from a running proxy: the acceptor can be handed a client or a failure, and an open session
      a chunk or an error from its client and from each of its targets, whatever the outcome of its writes. */
  lemma {:induction false} AnythingCanArrive(pool: nat, addresses: seq<Address>, events: seq<Event>, i: nat,
                                             connects: seq<bool>, r: ReadResult, results: seq<WriteResult>, t: nat)
    requires Run(pool, addresses, events).Some?
    requires |connects| == |results| == |addresses| && t < |addresses| && !r.Aborted?
    ensures var w := Run(pool, addresses, events).value;
            && |w.sessions| > 0
            && Enabled(w, Accepted(|w.sessions| - 1, connects)) && Enabled(w, AcceptFailed(|w.sessions| - 1))
            && (Open(w, i) ==> Enabled(w, ClientRead(i, r, results)) && Enabled(w, TargetRead(i, t, r, results[t])))
  {
    RunSessions(pool, addresses, events);
    OneAcceptOutstanding(pool, addresses, events);
    var w := Run(pool, addresses, events).value;
    hide RunFrom, WorldInv, Init, Enabled;
    AcceptsArrive(w, connects);
    if Open(w, i) {
      OutstandingOperations(pool, addresses, events, i, t);
      ReadsArrive(w, i, r, results, t);
    }
  }

  /** The handler of the session's newest wait may run, and closes the session. */
  ghost predicate NewestCloses(w: World, i: nat) {
    && i < |w.sessions| && w.sessions[i].waits != []
    && var e := TimerRuns(i, |w.sessions[i].waits| - 1);
    && Enabled(w, e) && i < |Next(w, e).sessions| && Next(w, e).sessions[i].closed
  }

  lemma NewestRuns(w: World, i: nat)
    requires Open(w, i) && w.sessions[i].waits != [] && Last(w.sessions[i].waits).status.Expired?
    ensures var e := TimerRuns(i, |w.sessions[i].waits| - 1); Enabled(w, e) && Ends(w, e, i)
  {}

  lemma TimerCloses(w: World, i: nat)
    requires WorldInv(w) && Open(w, i) && w.sessions[i].waits != [] && Last(w.sessions[i].waits).status.Expired?
    ensures NewestCloses(w, i)
  {
    hide WorldInv, Next, Enabled, Ends;
    NewestRuns(w, i);
    FlagsStep(w, TimerRuns(i, |w.sessions[i].waits| - 1), i);
  }

  lemma OwnedByNewest(s: Session, addresses: seq<Address>, now: int)
    requires SessionInv(s, addresses, now) && s.started && !s.closed
    ensures s.waits != [] && !Last(s.waits).status.Cancelled?
    ensures Last(s.waits).status.Waiting? ==> SomeWaiting(s.waits)
  {
    hide Mirrored, Operations, TimerSound;
    if Last(s.waits).status.Waiting? { assert s.waits[|s.waits| - 1].status.Waiting?; }
  }

  lemma ExpiryQueues(w: World, i: nat)
    requires WorldInv(w) && Open(w, i) && w.now >= w.sessions[i].expiry
    requires w.sessions[i].waits != [] && Last(w.sessions[i].waits).status.Waiting?
    ensures Enabled(w, TimerExpires(i))
    ensures var w' := Next(w, TimerExpires(i));
            Open(w', i) && w'.sessions[i].waits != [] && Last(w'.sessions[i].waits).status == Expired(w.now)
  {
    hide WorldInv;
    var s := w.sessions[i];
    assert s.waits[|s.waits| - 1].status.Waiting?;
  }

  /** A client that stays silent loses its session: from every state in which an open session's expiry has passed,
      the handler of its newest wait can be queued, if it is not, and then run, and it closes the session. */
  lemma {:induction false} SilentSessionCanBeClosed(pool: nat, addresses: seq<Address>, events: seq<Event>, i: nat)
    requires Run(pool, addresses, events).Some?
    ensures var w := Run(pool, addresses, events).value;
            Open(w, i) && w.now >= w.sessions[i].expiry ==>
            || NewestCloses(w, i)
            || (Enabled(w, TimerExpires(i)) && NewestCloses(Next(w, TimerExpires(i)), i))
  {
    RunSessions(pool, addresses, events);
    var w := Run(pool, addresses, events).value;
    hide RunFrom, WorldInv, Next, Enabled, SessionInv, NewestCloses;
    if Open(w, i) && w.now >= w.sessions[i].expiry {
      SessionOf(w, i);
      OwnedByNewest(w.sessions[i], w.addresses, w.now);
      if Last(w.sessions[i].waits).status.Expired? {
        TimerCloses(w, i);
      } else {
        ExpiryQueues(w, i);
        StepSessions(w, TimerExpires(i));
        TimerCloses(Next(w, TimerExpires(i)), i);
      }
    }
  }

  // ---- Report windows -------------------------------------------------------------------------

  lemma WindowStep(w: World, e: Event)
    requires Enabled(w, e)
    ensures Next(w, e).stats.printed ==
            if e.ReportRuns? then w.stats.printed + [w.stats.packets] else w.stats.printed
  {
    if HandlerOf(e).Some? { EffectsAreCounted(w.stats, Handle(w, e).effects, ""); }
    hide Handle, ApplyAll, Total;
  }

  lemma {:induction false} WindowsFrom(w: World, events: seq<Event>)
    requires RunFrom(w, events).Some? && ReportRuns !in events
    ensures RunFrom(w, events).value.stats.printed == w.stats.printed
  {
    if events != [] {
      RunLast(w, events);
      WindowsFrom(w, events[..|events| - 1]);
      WindowStep(RunFrom(w, events[..|events| - 1]).value, Last(events));
    }
  }

  lemma {:induction false} RunTwice(w: World, a: seq<Event>, b: seq<Event>)
    requires RunFrom(w, a + b).Some?
    ensures RunFrom(w, a).Some? && RunFrom(RunFrom(w, a).value, b) == RunFrom(w, a + b)
  {
    hide Enabled, Next;
    if b == [] {
      assert a + b == a;
    } else {
      assert (a + b)[..|a + b| - 1] == a + b[..|b| - 1];
      RunTwice(w, a, b[..|b| - 1]);
    }
  }

  lemma OneEvent(w: World, e: Event)
    requires RunFrom(w, [e]).Some?
    ensures Enabled(w, e) && RunFrom(w, [e]).value == Next(w, e)
  {
    assert [e][..0] == [];
    hide Enabled, Next;
  }

  lemma LastWindow(s: Stats, t: Stats, k: string)
    requires t.printed == s.printed + [s.packets]
    ensures Total(t, k) == Total(s, k) + At(t.packets, k)
  {
    ReportKeepsTotals(s, k);
    assert t.printed == Report(s).printed;
  }

  /** Each report covers its own window: after one, the counters start again from zero, so what they show is the
      traffic of all sessions since. */
  lemma {:induction false} CountersShowTheWindow(pool: nat, addresses: seq<Address>, before: seq<Event>,
                                                 after: seq<Event>, l: Label)
    requires Run(pool, addresses, before + [ReportRuns] + after).Some? && ReportRuns !in after
    ensures Run(pool, addresses, before).Some?
    ensures var w, w' := Run(pool, addresses, before).value, Run(pool, addresses, before + [ReportRuns] + after).value;
            && w'.stats.printed == w.stats.printed + [w.stats.packets]
            && At(w'.stats.packets, Describe(l)) + Sum(Tallies(w.sessions, l)) == Sum(Tallies(w'.sessions, l))
  {
    var w0 := Init(pool, addresses);
    RunTwice(w0, before + [ReportRuns], after);
    RunTwice(w0, before, [ReportRuns]);
    var w := RunFrom(w0, before).value;
    OneEvent(w, ReportRuns);
    WindowStep(w, ReportRuns);
    WindowsFrom(Next(w, ReportRuns), after);
    PacketsAreConserved(pool, addresses, before, l);
    PacketsAreConserved(pool, addresses, before + [ReportRuns] + after, l);
    hide Total, Tallies, Sum, RunFrom, Next, Enabled, Describe, Init;
    LastWindow(w.stats, Run(pool, addresses, before + [ReportRuns] + after).value.stats, Describe(l));
  }
}
