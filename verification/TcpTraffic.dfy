/** The packet counters of the TCP proxy against the traffic of all its sessions. */
module TcpTraffic {
  import opened Sequences
  import opened Addresses
  import opened FlowStatistics
  import opened TcpSession
  import opened TcpWorld
  import opened TcpTheorems

  /** The socket events a description counts: reads that brought data and writes that succeeded. */
  function Counts(l: Label): IoEvent -> bool {
    (e: IoEvent) =>
      match e
      case FromClient(_) => l.ReceivedFromClient?
      case ToTarget(i, _, r) => r.Full? && l == SentToTarget(i)
      case FromTarget(i, _) => l == ReceivedFromTarget(i)
      case ToClient(_, _, r) => r.Full? && l.SentToClient?
  }

  function Tally(s: Session, l: Label): nat { Count(s.events, Counts(l)) }

  function Tallies(sessions: seq<Session>, l: Label): seq<nat> {
    seq(|sessions|, i requires 0 <= i < |sessions| => Tally(sessions[i], l))
  }

  lemma PacketIs(l: Label, m: Label)
    ensures Is(Packet(Describe(l)))(Packet(Describe(m))) <==> l == m
  {
    if Describe(l) == Describe(m) { DescribeInjective(l, m); }
  }

  /** One packet is counted for each successful write of a fan-out. */
  lemma {:induction false} FanOutTally(bytes: Bytes, results: seq<WriteResult>, l: Label)
    ensures Count(FanOutEffects(results), Is(Packet(Describe(l)))) == Count(FanOut(bytes, results), Counts(l))
  {
    if results != [] {
      var n := |results| - 1;
      FanOutTally(bytes, results[..n], l);
      assert FanOut(bytes, results) == FanOut(bytes, results[..n]) + [ToTarget(n, bytes, results[n])];
      CountSnoc(FanOut(bytes, results[..n]), Counts(l), ToTarget(n, bytes, results[n]));
      PacketIs(l, SentToTarget(n));
      if results[n].Full? {
        CountSnoc(FanOutEffects(results[..n]), Is(Packet(Describe(l))), Packet(Describe(SentToTarget(n))));
      } else {
        assert FanOutEffects(results) == FanOutEffects(results[..n]);
      }
      hide FanOut, FanOutEffects, Describe, Count;
    }
  }

  lemma ReadClientTally(s: Session, r: ReadResult, results: seq<WriteResult>, now: int, l: Label)
    ensures var o := OnReadClient(s, r, results, now);
            Tally(o.session, l) == Tally(s, l) + Count(o.effects, Is(Packet(Describe(l))))
  {
    if !s.closed && r.Data? {
      var first := Packet(Describe(ReceivedFromClient));
      FanOutTally(r.bytes, results, l);
      CountAppend([first], FanOutEffects(results), Is(Packet(Describe(l))));
      CountPair(first, first, Is(Packet(Describe(l))));
      PacketIs(l, ReceivedFromClient);
      CountSnoc(s.events, Counts(l), FromClient(r.bytes));
      CountAppend(s.events + [FromClient(r.bytes)], FanOut(r.bytes, results), Counts(l));
      hide FanOut, FanOutEffects, Describe, Count;
    } else {
      CountPair(Disconnected, Disconnected, Is(Packet(Describe(l))));
      CountNone(Is(Packet(Describe(l))));
      hide Describe, Count;
    }
  }

  lemma ReplyTally(events: seq<IoEvent>, serial: nat, bytes: Bytes, result: WriteResult, l: Label)
    ensures Count(events + [FromTarget(serial, bytes), ToClient(serial, bytes, result)], Counts(l))
            == Count(events, Counts(l)) + (if l == ReceivedFromTarget(serial) then 1 else 0)
               + (if result.Full? && l.SentToClient? then 1 else 0)
  {
    var one := events + [FromTarget(serial, bytes)];
    assert events + [FromTarget(serial, bytes), ToClient(serial, bytes, result)]
           == one + [ToClient(serial, bytes, result)];
    CountSnoc(events, Counts(l), FromTarget(serial, bytes));
    CountSnoc(one, Counts(l), ToClient(serial, bytes, result));
    hide Count;
  }

  lemma ReplyEffects(serial: nat, full: bool, l: Label)
    ensures var first, second := Packet(Describe(ReceivedFromTarget(serial))), Packet(Describe(SentToClient));
            Count([first] + (if full then [second] else []), Is(Packet(Describe(l))))
            == (if l == ReceivedFromTarget(serial) then 1 else 0) + (if full && l.SentToClient? then 1 else 0)
  {
    var first, second := Packet(Describe(ReceivedFromTarget(serial))), Packet(Describe(SentToClient));
    CountPair(first, second, Is(Packet(Describe(l))));
    assert [first] + [second] == [first, second] && [first] + [] == [first];
    PacketIs(l, ReceivedFromTarget(serial));
    PacketIs(l, SentToClient);
    hide Describe, Count, Is;
  }

  lemma ReadTargetTally(s: Session, serial: nat, r: ReadResult, result: WriteResult, l: Label)
    ensures var o := OnReadTarget(s, serial, r, result);
            Tally(o.session, l) == Tally(s, l) + Count(o.effects, Is(Packet(Describe(l))))
  {
    hide Describe, Count, Counts;
    if !s.closed && r.Data? {
      ReplyEffects(serial, result.Full?, l);
      ReplyTally(s.events, serial, r.bytes, result, l);
    } else {
      CountPair(Disconnected, Disconnected, Is(Packet(Describe(l))));
      CountNone(Is(Packet(Describe(l))));
    }
  }

  /** A handler counts exactly the packets it moves. */
  lemma HandlerTally(w: World, e: Event, l: Label)
    requires Enabled(w, e) && HandlerOf(e).Some?
    ensures var o := Handle(w, e);
            Tally(o.session, l) == Tally(w.sessions[HandlerOf(e).value], l) + Count(o.effects, Is(Packet(Describe(l))))
  {
    CountPair(Connected, Disconnected, Is(Packet(Describe(l))));
    CountPair(Disconnected, Disconnected, Is(Packet(Describe(l))));
    CountNone(Is(Packet(Describe(l))));
    assert [Connected] + [Disconnected] == [Connected, Disconnected];
    hide OnReadClient, OnReadTarget, Count, Describe;
    match e
    case Accepted(i, connects) =>
    case ClientRead(i, r, results) => ReadClientTally(w.sessions[i], r, results, w.now, l);
    case TargetRead(i, serial, r, result) => ReadTargetTally(w.sessions[i], serial, r, result, l);
    case TimerRuns(i, k) =>
  }

  ghost predicate Tallied(w: World, l: Label) {
    Total(w.stats, Describe(l)) == Sum(Tallies(w.sessions, l))
  }

  lemma TallyUpdate(sessions: seq<Session>, i: nat, s: Session, l: Label)
    requires i < |sessions|
    ensures Sum(Tallies(sessions[i := s], l)) + Tally(sessions[i], l) == Sum(Tallies(sessions, l)) + Tally(s, l)
  {
    assert Tallies(sessions[i := s], l) == Tallies(sessions, l)[i := Tally(s, l)];
    SumUpdate(Tallies(sessions, l), i, Tally(s, l));
  }

  lemma TallyFresh(sessions: seq<Session>, l: Label)
    ensures Sum(Tallies(sessions + [FRESH], l)) == Sum(Tallies(sessions, l))
  {
    assert Tallies(sessions + [FRESH], l) == Tallies(sessions, l) + [0];
    SumSnoc(Tallies(sessions, l), 0);
  }

  lemma StepTally(w: World, e: Event, l: Label)
    requires Enabled(w, e) && Tallied(w, l)
    ensures Tallied(Next(w, e), l)
  {
    var w1 := w;
    if HandlerOf(e).Some? {
      var i, o := HandlerOf(e).value, Handle(w, e);
      HandlerTally(w, e, l);
      EffectsAreCounted(w.stats, o.effects, Describe(l));
      TallyUpdate(w.sessions, i, o.session, l);
      w1 := Put(w, i, o);
    } else if e.TimerExpires? {
      TallyUpdate(w.sessions, e.i, Expire(w.sessions[e.i], w.now), l);
    } else if e.ReportRuns? {
      ReportKeepsTotals(w.stats, Describe(l));
    }
    TallyFresh(w1.sessions, l);
    hide Handle, Total, Sum, Tallies, Describe, ApplyAll, Tally, Report, Count;
  }

  /** Statistics are conserved.  Under every description of a packet, the packets in all printed windows and the
      current one are exactly the reads and the successful writes it stands for, summed over all
      sessions, whenever the reports ran. */
  lemma {:induction false} PacketsAreConserved(pool: nat, addresses: seq<Address>, events: seq<Event>, l: Label)
    requires Run(pool, addresses, events).Some?
    ensures var w := Run(pool, addresses, events).value;
            Total(w.stats, Describe(l)) == Sum(Tallies(w.sessions, l))
  {
    if events != [] {
      var before := events[..|events| - 1];
      RunLast(Init(pool, addresses), events);
      hide RunFrom, Enabled, Next, Init, Total, Tallies;
      PacketsAreConserved(pool, addresses, before, l);
      StepTally(Run(pool, addresses, before).value, Last(events), l);
    } else {
      TallyFresh([], l);
    }
  }

  // ---- Other descriptions ---------------------------------------------------------------------

  /** A description the code counts packets under. */
  ghost predicate IsDescription(k: string) { exists l :: Describe(l) == k }

  ghost predicate Described(es: seq<Effect>) {
    forall i :: 0 <= i < |es| && es[i].Packet? ==> IsDescription(es[i].description)
  }

  lemma {:induction false} FanOutDescribed(results: seq<WriteResult>)
    ensures Described(FanOutEffects(results))
  {
    if results != [] {
      var n := |results| - 1;
      FanOutDescribed(results[..n]);
      assert IsDescription(Describe(SentToTarget(n)));
      hide Describe;
    }
  }

  lemma HandlerDescribed(w: World, e: Event)
    requires Enabled(w, e) && HandlerOf(e).Some?
    ensures Described(Handle(w, e).effects)
  {
    assert IsDescription(Describe(ReceivedFromClient)) && IsDescription(Describe(SentToClient));
    if e.ClientRead? { FanOutDescribed(e.results); }
    if e.TargetRead? { assert IsDescription(Describe(ReceivedFromTarget(e.serial))); }
    hide Describe, FanOutEffects, FanOut, Rearm, IsDescription;
  }

  lemma {:induction false} NoneUnder(es: seq<Effect>, k: string)
    requires Described(es) && !IsDescription(k)
    ensures Count(es, Is(Packet(k))) == 0
  {
    if es != [] {
      hide IsDescription;
      NoneUnder(es[..|es| - 1], k);
    }
  }

  lemma StepUndescribed(w: World, e: Event, k: string)
    requires Enabled(w, e) && Total(w.stats, k) == 0 && !IsDescription(k)
    ensures Total(Next(w, e).stats, k) == 0
  {
    if HandlerOf(e).Some? {
      HandlerDescribed(w, e);
      NoneUnder(Handle(w, e).effects, k);
      EffectsAreCounted(w.stats, Handle(w, e).effects, k);
    }
    if e.ReportRuns? { ReportKeepsTotals(w.stats, k); }
    hide Handle, Total, Count, IsDescription, Described, ApplyAll, Report;
  }

  /** Nothing is ever counted under any other description. */
  lemma {:induction false} NothingElseIsCounted(pool: nat, addresses: seq<Address>, events: seq<Event>, k: string)
    requires Run(pool, addresses, events).Some? && forall l :: Describe(l) != k
    ensures Total(Run(pool, addresses, events).value.stats, k) == 0
  {
    if events != [] {
      var before := events[..|events| - 1];
      RunLast(Init(pool, addresses), events);
      NothingElseIsCounted(pool, addresses, before, k);
      hide RunFrom, Enabled, Next, Init, Total, Describe;
      StepUndescribed(Run(pool, addresses, before).value, Last(events), k);
    }
  }
}
