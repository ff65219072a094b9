/** What holds in every run of the TCP proxy. */
module TcpTheorems {
  import opened Sequences
  import opened Addresses
  import opened FlowStatistics
  import opened Keepalive
  import opened TcpSession
  import opened TcpStreams
  import opened TcpWorld
  import opened Trimming
  import IoServicePool

  function IsLive(): Session -> bool { (s: Session) => s.started && !s.closed }

  /** Exactly one accept is outstanding, on the newest session, which is untouched. */
  ghost predicate Accepting(w: World) {
    && |w.sessions| > 0 && w.sessions[|w.sessions| - 1] == FRESH
    && w.accepts == multiset{|w.sessions| - 1}
  }

  ghost predicate WorldInv(w: World) {
    && Accepting(w)
    && forall i :: 0 <= i < |w.sessions| ==> SessionInv(w.sessions[i], w.addresses, w.now)
  }

  lemma {:induction false} AcceptStep(w: World, e: Event)
    requires WorldInv(w) && Enabled(w, e) && (e.Accepted? || e.AcceptFailed?)
    ensures WorldInv(Next(w, e))
  {
    hide SessionInv, Handle;
    FreshInv(w.addresses, w.now);
    assert e.i == |w.sessions| - 1;
    if e.Accepted? { HandlerInv(w, e); }
  }

  lemma {:induction false} SetKeeps(w: World, i: nat, s: Session, stats: Stats)
    requires WorldInv(w) && i < |w.sessions| - 1 && SessionInv(s, w.addresses, w.now)
    ensures WorldInv(w.(sessions := w.sessions[i := s], stats := stats))
  {
    hide SessionInv;
  }

  /** A session not yet accepted has no handler to run. */
  lemma FreshIdle(w: World, e: Event)
    requires WorldInv(w) && Enabled(w, e) && HandlerOf(e).Some? && !e.Accepted?
    ensures HandlerOf(e).value < |w.sessions| - 1
  {
    hide SessionInv;
  }

  lemma {:induction false} HandlerStep(w: World, e: Event)
    requires WorldInv(w) && Enabled(w, e) && HandlerOf(e).Some? && !e.Accepted?
    ensures WorldInv(Next(w, e))
  {
    FreshIdle(w, e);
    assert SessionInv(w.sessions[HandlerOf(e).value], w.addresses, w.now);
    HandlerInv(w, e);
    hide WorldInv, SessionInv, Handle, Enabled, ApplyAll;
    SetKeeps(w, HandlerOf(e).value, Handle(w, e).session, Next(w, e).stats);
  }

  lemma TickStep(w: World, seconds: nat)
    requires WorldInv(w)
    ensures WorldInv(w.(now := w.now + seconds))
  {
    hide SessionInv;
    forall i | 0 <= i < |w.sessions|
      ensures SessionInv(w.sessions[i], w.addresses, w.now + seconds)
    {
      TickInv(w.sessions[i], w.addresses, w.now, w.now + seconds);
    }
  }

  lemma TickIs(w: World, e: Event)
    requires Enabled(w, e) && e.Tick?
    ensures Next(w, e) == w.(now := w.now + e.seconds)
  {}

  /** A session not yet accepted has no timer to expire. */
  lemma ExpireKeepsFresh(w: World, i: nat)
    requires WorldInv(w) && Enabled(w, TimerExpires(i))
    ensures i < |w.sessions| - 1
  {
    hide SessionInv;
  }

  lemma {:induction false} ExpireStep(w: World, i: nat)
    requires WorldInv(w) && Enabled(w, TimerExpires(i))
    ensures WorldInv(Next(w, TimerExpires(i)))
  {
    ExpireKeepsFresh(w, i);
    ExpireInv(w.sessions[i], w.addresses, w.now);
    hide WorldInv, SessionInv, Expire;
    SetKeeps(w, i, Expire(w.sessions[i], w.now), w.stats);
  }

  lemma ReportStep(w: World, e: Event)
    requires WorldInv(w) && Enabled(w, e) && e.ReportRuns?
    ensures WorldInv(Next(w, e))
  {
    hide SessionInv, Report;
  }

  /** Every event keeps every session's invariant and the single outstanding accept. */
  lemma {:induction false} StepSessions(w: World, e: Event)
    requires WorldInv(w) && Enabled(w, e)
    ensures WorldInv(Next(w, e))
  {
    hide WorldInv, Enabled, Next;
    if e.Accepted? || e.AcceptFailed? { AcceptStep(w, e); }
    else if HandlerOf(e).Some? { HandlerStep(w, e); }
    else if e.TimerExpires? { ExpireStep(w, e.i); }
    else if e.Tick? { TickStep(w, e.seconds); TickIs(w, e); }
    else { ReportStep(w, e); }
  }

  lemma StepFixed(w: World, e: Event)
    requires Enabled(w, e)
    ensures Next(w, e).addresses == w.addresses && Next(w, e).pool == w.pool
  {
    hide Handle;
  }

  lemma {:induction false} SessionsFrom(w: World, events: seq<Event>)
    requires WorldInv(w) && RunFrom(w, events).Some?
    ensures var w' := RunFrom(w, events).value;
            WorldInv(w') && w'.addresses == w.addresses && w'.pool == w.pool
  {
    hide WorldInv, Enabled, Next;
    if events != [] {
      RunLast(w, events);
      var before := events[..|events| - 1];
      SessionsFrom(w, before);
      StepSessions(RunFrom(w, before).value, Last(events));
      StepFixed(RunFrom(w, before).value, Last(events));
    }
  }

  lemma InitSessions(pool: nat, addresses: seq<Address>)
    ensures WorldInv(Init(pool, addresses)) && Init(pool, addresses).addresses == addresses
    ensures Init(pool, addresses).pool == pool
  {
    hide SessionInv;
    FreshInv(addresses, 0);
  }

  lemma {:induction false} RunSessions(pool: nat, addresses: seq<Address>, events: seq<Event>)
    requires Run(pool, addresses, events).Some?
    ensures WorldInv(Run(pool, addresses, events).value)
    ensures Run(pool, addresses, events).value.addresses == addresses
    ensures Run(pool, addresses, events).value.pool == pool
  {
    InitSessions(pool, addresses);
    hide WorldInv, RunFrom, Init;
    SessionsFrom(Init(pool, addresses), events);
  }

  // ---- Outstanding operations -----------------------------------------------------------------

  lemma SessionOperations(s: Session, addresses: seq<Address>, now: int, t: nat)
    requires SessionInv(s, addresses, now) && s.started && !s.closed
    ensures |s.pending| == |addresses| + 1 && s.pending[ReadClient] == 1
    ensures s.pending[ReadTarget(t)] == if t < |addresses| then 1 else 0
    ensures s.targets == ConnectedTargets(addresses)
    ensures exists k :: 0 <= k < |s.waits| && !s.waits[k].status.Cancelled?
  {
    hide Mirrored, TimerSound, CauseSound;
    TargetReadsExact(|addresses|, t);
    assert !s.waits[|s.waits| - 1].status.Cancelled?;
  }

  /** Between handlers, an open session has exactly one outstanding client read and exactly one per
      target, each naming an element of its target list, and a pending keepalive wait that owns it and
      has not been cancelled. */
  lemma {:induction false} OutstandingOperations(pool: nat, addresses: seq<Address>, events: seq<Event>, i: nat, t: nat)
    requires Run(pool, addresses, events).Some?
    requires i < |Run(pool, addresses, events).value.sessions|
    ensures var s := Run(pool, addresses, events).value.sessions[i];
            s.started && !s.closed ==>
              && |s.pending| == |addresses| + 1
              && s.pending[ReadClient] == 1
              && s.pending[ReadTarget(t)] == (if t < |addresses| then 1 else 0)
              && s.targets == ConnectedTargets(addresses)
              && (exists k :: 0 <= k < |s.waits| && !s.waits[k].status.Cancelled?)
  {
    RunSessions(pool, addresses, events);
    var w := Run(pool, addresses, events).value;
    assert SessionInv(w.sessions[i], addresses, w.now);
    hide WorldInv, Run, SessionInv;
    var s := w.sessions[i];
    if s.started && !s.closed { SessionOperations(s, addresses, w.now, t); }
  }

  /** The conditions `Enabled` puts on target reads shut out nothing that can happen: an open session's
      outstanding target read always names an element that is there. */
  lemma {:induction false} TargetReadsAreLive(pool: nat, addresses: seq<Address>, events: seq<Event>, i: nat, t: nat)
    requires Run(pool, addresses, events).Some?
    requires i < |Run(pool, addresses, events).value.sessions|
    requires ReadTarget(t) in Run(pool, addresses, events).value.sessions[i].pending
    ensures var s := Run(pool, addresses, events).value.sessions[i];
            !s.closed ==> t < |s.targets| && t < |addresses| && s.targets[t] == Target(t, addresses[t], true)
  {
    OutstandingOperations(pool, addresses, events, i, t);
    RunSessions(pool, addresses, events);
  }

  /** One accept is outstanding at every moment, whatever came of the earlier ones. */
  lemma {:induction false} OneAcceptOutstanding(pool: nat, addresses: seq<Address>, events: seq<Event>)
    requires Run(pool, addresses, events).Some?
    ensures var w := Run(pool, addresses, events).value;
            |w.accepts| == 1 && |w.sessions| - 1 in w.accepts && !w.sessions[|w.sessions| - 1].started
  {
    RunSessions(pool, addresses, events);
  }

  // ---- Streams --------------------------------------------------------------------------------

  lemma SessionStreams(w: World, i: nat)
    requires WorldInv(w) && i < |w.sessions|
    ensures forall t: nat :: t < |w.addresses| ==> CopyOf(w.sessions[i].events, t)
    ensures MergeOf(w.sessions[i].events, |w.addresses|)
  {
    hide CopyOf, MergeOf;
  }

  /** Fan-out is stream copy.  Each target is written every client chunk once, whole, in order, so what it
      has been given is the client's stream without the untransferred ends of chunks: each element at the
      place where it was sent.  It is the client's stream exactly when every write to that target
      transferred its whole chunk, whatever happened at the other targets. */
  lemma {:induction false} FanOutCopiesTheClient(pool: nat, addresses: seq<Address>, events: seq<Event>, i: nat, t: nat)
    requires Run(pool, addresses, events).Some?
    requires i < |Run(pool, addresses, events).value.sessions| && t < |addresses|
    ensures var io := Run(pool, addresses, events).value.sessions[i].events;
            && Offered(Collect(io, To(t))) == ClientChunks(io)
            && Trims(Pieces(io, t), ClientChunks(io))
            && Embeds(Places(Pieces(io, t), ClientChunks(io)), Delivered(io, t), Received(io))
            && (Delivered(io, t) == Received(io) <==> WrittenInFull(io, t))
  {
    RunSessions(pool, addresses, events);
    var w := Run(pool, addresses, events).value;
    hide WorldInv, Run, RunFrom;
    SessionStreams(w, i);
    CopyMeans(w.sessions[i].events, t);
    hide Collect, Offered, Pieces;
    PlacesEmbed(Pieces(w.sessions[i].events, t), ClientChunks(w.sessions[i].events));
  }

  /** A target has been given the first bytes the client sent, and no later ones, exactly when every write
      after a short one transferred nothing.  Then its stream is a prefix of the client's; when the
      client's stream repeats no byte, that is the only way for it to be one. */
  lemma {:induction false} CopyIsAPrefix(pool: nat, addresses: seq<Address>, events: seq<Event>, i: nat, t: nat)
    requires Run(pool, addresses, events).Some?
    requires i < |Run(pool, addresses, events).value.sessions| && t < |addresses|
    ensures var io := Run(pool, addresses, events).value.sessions[i].events;
            && |Pieces(io, t)| == |ClientChunks(io)|
            && (InPlace(Places(Pieces(io, t), ClientChunks(io))) <==> StopsAfterShort(Collect(io, To(t))))
            && (StopsAfterShort(Collect(io, To(t))) ==> Delivered(io, t) <= Received(io))
            && (Distinct(Received(io)) ==>
                  (Delivered(io, t) <= Received(io) <==> StopsAfterShort(Collect(io, To(t)))))
  {
    RunSessions(pool, addresses, events);
    var w := Run(pool, addresses, events).value;
    var io := w.sessions[i].events;
    hide WorldInv, Run, RunFrom;
    SessionStreams(w, i);
    CopyMeans(io, t);
    StopsIs(io, t);
    hide Collect, Offered, Pieces, StopsAfterShort, StopsShort, Trims, Places;
    InPlaceIffStops(Pieces(io, t), ClientChunks(io));
    PrefixIffStops(Pieces(io, t), ClientChunks(io));
  }

  /** Fan-in is a chunk merge.  In every run the client has been given the targets' chunks, in the order
      in which they were read, each without the untransferred end of its one reply write; each target's
      chunks are all there, in its own order.  With every reply write whole it is a merge of the chunks
      themselves, and only then has the client been given everything that was read. */
  lemma {:induction false} FanInMergesTheTargets(pool: nat, addresses: seq<Address>, events: seq<Event>, i: nat)
    requires Run(pool, addresses, events).Some?
    requires i < |Run(pool, addresses, events).value.sessions|
    ensures var io := Run(pool, addresses, events).value.sessions[i].events;
            && Play(ReadOrder(io), GivenLists(io, |addresses|)) == Some(Replied(io))
            && (forall t: nat :: t < |addresses| ==> Trims(Given(io, t), Chunks(io, t)))
            && (RepliedInFull(io) ==> Play(ReadOrder(io), ChunkLists(io, |addresses|)) == Some(Replied(io)))
            && (Replied(io) == ReadAll(io) <==> RepliedInFull(io))
  {
    RunSessions(pool, addresses, events);
    var w := Run(pool, addresses, events).value;
    hide WorldInv, Run, RunFrom;
    SessionStreams(w, i);
    MergeMeans(w.sessions[i].events, |addresses|);
    hide Play, Replied, ReadAll, Trims, Given, Chunks, GivenLists, ChunkLists, RepliedInFull, ReadOrder;
  }

  /** The chunks of a merge in the order they appear, each with the list it came from. */
  ghost function Tagged(schedule: seq<nat>, lists: seq<seq<Bytes>>): seq<(nat, Bytes)>
    requires Play(schedule, lists).Some?
  {
    if schedule == [] then []
    else
      var i := schedule[|schedule| - 1];
      var n := |lists[i]| - 1;
      Tagged(schedule[..|schedule| - 1], lists[i := lists[i][..n]]) + [(i, lists[i][n])]
  }

  ghost function Untagged(tagged: seq<(nat, Bytes)>): Bytes {
    if tagged == [] then [] else Untagged(tagged[..|tagged| - 1]) + tagged[|tagged| - 1].1
  }

  ghost function OfList(tagged: seq<(nat, Bytes)>, i: nat): seq<Bytes> {
    if tagged == [] then []
    else OfList(tagged[..|tagged| - 1], i) + if tagged[|tagged| - 1].0 == i then [tagged[|tagged| - 1].1] else []
  }

  lemma TaggedSnoc(tagged: seq<(nat, Bytes)>, last: (nat, Bytes), i: nat)
    ensures Untagged(tagged + [last]) == Untagged(tagged) + last.1
    ensures OfList(tagged + [last], i) == if last.0 == i then OfList(tagged, i) + [last.1] else OfList(tagged, i)
  {
    assert (tagged + [last])[..|tagged|] == tagged;
    assert OfList(tagged, i) + [] == OfList(tagged, i);
  }

  lemma TaggedStep(schedule: seq<nat>, lists: seq<seq<Bytes>>)
    requires schedule != [] && Play(schedule, lists).Some?
    ensures var j, rest := Last(schedule), schedule[..|schedule| - 1];
            && j < |lists| && lists[j] != []
            && var n := |lists[j]| - 1;
            && var fewer := lists[j := lists[j][..n]];
            && Play(rest, fewer).Some? && Play(schedule, lists).value == Play(rest, fewer).value + lists[j][n]
            && Tagged(schedule, lists) == Tagged(rest, fewer) + [(j, lists[j][n])]
  {}

  /** What a merge is: its chunks in order spell the output, and those that came from list i are
      exactly list i. */
  lemma {:induction false} MergeProjects(schedule: seq<nat>, lists: seq<seq<Bytes>>, i: nat)
    requires Play(schedule, lists).Some? && i < |lists|
    ensures Untagged(Tagged(schedule, lists)) == Play(schedule, lists).value
    ensures OfList(Tagged(schedule, lists), i) == lists[i]
  {
    if schedule != [] {
      TaggedStep(schedule, lists);
      hide Tagged, Play;
      var j := Last(schedule);
      var n := |lists[j]| - 1;
      var rest, fewer, chunk := schedule[..|schedule| - 1], lists[j := lists[j][..n]], lists[j][n];
      MergeProjects(rest, fewer, i);
      TaggedSnoc(Tagged(rest, fewer), (j, chunk), i);
      hide Untagged, OfList;
      assert lists[j] == fewer[j] + [chunk];
    }
  }

  /** A world of one target whose only client is connected. */
  ghost predicate Serving(w: World) {
    && |w.sessions| == 2
    && var s := w.sessions[0];
    && s.started && !s.closed && |s.targets| == 1 && ReadClient in s.pending
  }

  lemma ServingStart(address: Address)
    ensures var w := Init(1, [address]);
            && Enabled(w, Accepted(0, [true])) && Serving(Next(w, Accepted(0, [true])))
            && Next(w, Accepted(0, [true])).sessions[0].events == []
  {
    hide ApplyAll, CancelWaits, TargetReads;
    assert Init(1, [address]).sessions == [FRESH];
    var w := Next(Init(1, [address]), Accepted(0, [true]));
    assert w.sessions == [Start(FRESH, [address], [true], 0).session, FRESH];
  }

  lemma ServingRead(w: World, bytes: Bytes, r: WriteResult)
    requires Serving(w)
    ensures var e := ClientRead(0, Data(bytes), [r]);
            && Enabled(w, e) && Serving(Next(w, e))
            && Next(w, e).sessions[0].events == w.sessions[0].events + [FromClient(bytes)] + FanOut(bytes, [r])
  {
    hide ApplyAll, FanOut, FanOutEffects;
  }

  /** The target has been given what the client sent, less a byte in the middle. */
  ghost predicate HasGap(w: World) {
    && Serving(w)
    && var io := w.sessions[0].events;
    && Received(io) == [1, 2, 3] && Delivered(io, 0) == [1, 3] && !(Delivered(io, 0) <= Received(io))
  }

  lemma GapStreams()
    ensures var io := [] + [FromClient([1, 2])] + FanOut([1, 2], [Failed(1)]) + [FromClient([3])] + FanOut([3], [Full]);
            Received(io) == [1, 2, 3] && Delivered(io, 0) == [1, 3]
  {
    BlockStreams([], [1, 2], [Failed(1)], 0);
    var io := [] + [FromClient([1, 2])] + FanOut([1, 2], [Failed(1)]);
    BlockStreams(io, [3], [Full], 0);
    assert Went([1, 2], Failed(1)) == [1] && Received([]) == [] && Delivered([], 0) == [];
    hide Received, Delivered, FanOut;
    assert Delivered(io, 0) == [] + [1] && [] + [1] + [3] == [1, 3];
  }

  /** A run in which the copy has a gap, not an end: after a short write the session goes on writing. */
  lemma ShortWriteLeavesAGap(address: Address)
    ensures exists w :: Reachable(1, [address], w) && HasGap(w)
  {
    var w0 := Init(1, [address]);
    ServingStart(address);
    var w1 := Next(w0, Accepted(0, [true]));
    hide Init, Next, Enabled, Reachable, Serving, FanOut, Received, Delivered;
    ReachInit(1, [address]);
    ReachNext(1, [address], w0, Accepted(0, [true]));
    ServingRead(w1, [1, 2], Failed(1));
    ReachNext(1, [address], w1, ClientRead(0, Data([1, 2]), [Failed(1)]));
    var w2 := Next(w1, ClientRead(0, Data([1, 2]), [Failed(1)]));
    ServingRead(w2, [3], Full);
    ReachNext(1, [address], w2, ClientRead(0, Data([3]), [Full]));
    var w3 := Next(w2, ClientRead(0, Data([3]), [Full]));
    GapStreams();
    assert [1, 3][1] != [1, 2, 3][1];
    assert HasGap(w3);
  }

  // ---- Connection count -----------------------------------------------------------------------

  function One<T>(p: T -> bool, x: T): int { if p(x) then 1 else 0 }

  lemma {:induction false} FanOutConnects(results: seq<WriteResult>, e: Effect)
    requires !e.Packet?
    ensures Count(FanOutEffects(results), Is(e)) == 0
  {
    if results != [] {
      var n := |results| - 1;
      FanOutConnects(results[..n], e);
      if results[n].Full? {
        CountSnoc(FanOutEffects(results[..n]), Is(e), Packet(Describe(SentToTarget(n))));
      } else {
        assert FanOutEffects(results) == FanOutEffects(results[..n]);
      }
    }
  }

  lemma CountPair(a: Effect, b: Effect, p: Effect -> bool)
    ensures Count([a], p) == One(p, a)
    ensures Count([a, b], p) == One(p, a) + One(p, b)
  {
    assert [a, b][..1] == [a];
    assert [a][..0] == [];
  }

  lemma ReadClientCounts(s: Session, r: ReadResult, results: seq<WriteResult>, now: int)
    requires s.started
    ensures var o := OnReadClient(s, r, results, now);
            Count(o.effects, Is(Connected)) - Count(o.effects, Is(Disconnected))
            == One(IsLive(), o.session) - One(IsLive(), s)
  {
    var first := Packet(Describe(ReceivedFromClient));
    FanOutConnects(results, Connected);
    FanOutConnects(results, Disconnected);
    CountAppend([first], FanOutEffects(results), Is(Connected));
    CountAppend([first], FanOutEffects(results), Is(Disconnected));
    CountPair(first, first, Is(Connected));
    CountPair(first, first, Is(Disconnected));
    CountPair(Disconnected, Disconnected, Is(Connected));
    CountPair(Disconnected, Disconnected, Is(Disconnected));
    hide Count, FanOutEffects, FanOut, Describe;
  }

  lemma ReadTargetCounts(s: Session, serial: nat, r: ReadResult, result: WriteResult)
    requires s.started
    ensures var o := OnReadTarget(s, serial, r, result);
            Count(o.effects, Is(Connected)) - Count(o.effects, Is(Disconnected))
            == One(IsLive(), o.session) - One(IsLive(), s)
  {
    var first, second := Packet(Describe(ReceivedFromTarget(serial))), Packet(Describe(SentToClient));
    CountPair(first, second, Is(Connected));
    CountPair(first, second, Is(Disconnected));
    CountPair(Disconnected, Disconnected, Is(Connected));
    CountPair(Disconnected, Disconnected, Is(Disconnected));
    assert [first] + [second] == [first, second] && [first] + [] == [first];
    hide Count, Describe;
  }

  lemma StartCounts(s: Session, addresses: seq<Address>, connects: seq<bool>, now: int)
    requires !s.started && !s.closed && |connects| == |addresses|
    ensures var o := Start(s, addresses, connects, now);
            Count(o.effects, Is(Connected)) - Count(o.effects, Is(Disconnected))
            == One(IsLive(), o.session) - One(IsLive(), s)
  {
    CountPair(Connected, Disconnected, Is(Connected));
    CountPair(Connected, Disconnected, Is(Disconnected));
    assert [Connected] + [Disconnected] == [Connected, Disconnected];
    hide Count;
  }

  lemma CountNone<T>(p: T -> bool)
    ensures Count<T>([], p) == 0
  {}

  /** A handler emits a connection when its session goes live and a disconnection when it stops. */
  lemma HandlerCounts(w: World, e: Event)
    requires Enabled(w, e) && HandlerOf(e).Some?
    requires e.Accepted? ==> !w.sessions[e.i].started && !w.sessions[e.i].closed
    requires !e.Accepted? ==> w.sessions[HandlerOf(e).value].started
    ensures var o := Handle(w, e);
            Count(o.effects, Is(Connected)) - Count(o.effects, Is(Disconnected))
            == One(IsLive(), o.session) - One(IsLive(), w.sessions[HandlerOf(e).value])
  {
    hide Start, OnReadClient, OnReadTarget, Count;
    match e
    case Accepted(i, connects) => StartCounts(w.sessions[i], w.addresses, connects, w.now);
    case ClientRead(i, r, results) => ReadClientCounts(w.sessions[i], r, results, w.now);
    case TargetRead(i, serial, r, result) => ReadTargetCounts(w.sessions[i], serial, r, result);
    case TimerRuns(i, k) =>
      CountPair(Disconnected, Disconnected, Is(Connected));
      CountPair(Disconnected, Disconnected, Is(Disconnected));
      CountNone(Is(Connected));
      CountNone(Is(Disconnected));
  }

  ghost predicate Counted(w: World) {
    w.stats.count == Count(w.sessions, IsLive())
  }

  lemma StartAcceptCount(w: World)
    ensures Count(StartAccept(w).sessions, IsLive()) == Count(w.sessions, IsLive())
  {
    CountSnoc(w.sessions, IsLive(), FRESH);
  }

  lemma PutCount(w: World, i: nat, o: Outcome)
    requires i < |w.sessions| && Counted(w)
    requires Count(o.effects, Is(Connected)) - Count(o.effects, Is(Disconnected))
             == One(IsLive(), o.session) - One(IsLive(), w.sessions[i])
    ensures Counted(Put(w, i, o))
  {
    EffectsAreCounted(w.stats, o.effects, "");
    CountUpdate(w.sessions, IsLive(), i, o.session);
    hide Count, ApplyAll, Total;
  }

  lemma BusyIsStarted(s: Session, addresses: seq<Address>, now: int)
    requires SessionInv(s, addresses, now)
    ensures s.started || s == FRESH
  {
    hide Mirrored, Timing;
  }

  lemma StartedOnceHandled(w: World, e: Event)
    requires WorldInv(w) && Enabled(w, e) && HandlerOf(e).Some?
    ensures if e.Accepted? then !w.sessions[e.i].started && !w.sessions[e.i].closed
            else w.sessions[HandlerOf(e).value].started
  {
    if !e.Accepted? {
      assert SessionInv(w.sessions[HandlerOf(e).value], w.addresses, w.now);
      hide WorldInv, SessionInv;
      BusyIsStarted(w.sessions[HandlerOf(e).value], w.addresses, w.now);
    } else {
      hide SessionInv;
    }
  }

  lemma {:induction false} StepCount(w: World, e: Event)
    requires WorldInv(w) && Enabled(w, e) && Counted(w)
    ensures Counted(Next(w, e))
  {
    if HandlerOf(e).Some? {
      StartedOnceHandled(w, e);
      HandlerCounts(w, e);
      PutCount(w, HandlerOf(e).value, Handle(w, e));
    } else if e.TimerExpires? {
      CountUpdate(w.sessions, IsLive(), e.i, Expire(w.sessions[e.i], w.now));
    }
    if e.Accepted? || e.AcceptFailed? {
      hide WorldInv, Handle, Count, Put;
      StartAcceptCount(if e.Accepted? then Put(w, e.i, Handle(w, e)) else w);
    } else {
      hide WorldInv, Handle, Count, Put, Expire;
    }
  }

  /** The connection count is the number of sessions started and not yet closed, so it is never
      negative, whatever connects failed and however often close was called. */
  lemma {:induction false} ConnectionCount(pool: nat, addresses: seq<Address>, events: seq<Event>)
    requires Run(pool, addresses, events).Some?
    ensures var w := Run(pool, addresses, events).value;
            w.stats.count == Count(w.sessions, IsLive()) && w.stats.count >= 0
  {
    if events != [] {
      var before := events[..|events| - 1];
      RunLast(Init(pool, addresses), events);
      hide RunFrom, WorldInv, Enabled, Next, Init;
      ConnectionCount(pool, addresses, before);
      RunSessions(pool, addresses, before);
      StepCount(Run(pool, addresses, before).value, Last(events));
    } else {
      StartAcceptCount(World(pool, IoServicePool.Successor(0, pool), addresses, 0, [], [], multiset{}, NO_STATS));
    }
  }
}
