/** What holds in every run of the UDP proxy. */
module UdpTheorems {
  import opened Sequences
  import opened Addresses
  import opened UdpSession
  import opened UdpInterleaving

  // ---- The session cache ----------------------------------------------------------------------

  /** The sessions that have been published and not yet erased. */
  ghost function LiveSessions(s: State): set<nat> {
    set sid: nat | 0 <= sid < |s.sessions| && Live(s, sid)
  }

  /** The cache is exactly the set of live sessions, each under the key of its own client. */
  lemma {:induction false} CacheHoldsTheLiveSessions(targets: seq<Address>, steps: seq<Step>)
    requires Run(targets, steps).Some?
    ensures var s := Run(targets, steps).value;
            && s.cache.Values == LiveSessions(s)
            && |s.origins| == |s.sessions|
            && (forall k :: k in s.cache ==> s.cache[k] < |s.sessions| && RemoteAddress(s.origins[s.cache[k]]) == k)
  {
    RunInv(targets, steps);
    var s := Run(targets, steps).value;
    hide RemoteAddress;
    forall sid | sid in LiveSessions(s)
      ensures sid in s.cache.Values
    {
      assert s.cache[RemoteAddress(s.origins[sid])] == sid;
    }
  }

  /** No client has two live sessions. */
  lemma {:induction false} OneLiveSessionPerClient(targets: seq<Address>, steps: seq<Step>, a: nat, b: nat)
    requires Run(targets, steps).Some?
    ensures var s := Run(targets, steps).value;
            && |s.origins| == |s.sessions|
            && (Live(s, a) && Live(s, b) && s.origins[a] == s.origins[b] ==> a == b)
  {
    RunInv(targets, steps);
    hide RemoteAddress;
  }

  lemma EraseInState(s: State, sid: nat)
    requires Inv(s) && Enabled(s, CloseAdvance(sid)) && s.closing[sid].Locked?
    ensures sid !in s.erased && Live(s, sid)
    ensures s.sessions[sid].client.addr in s.cache && s.cache[s.sessions[sid].client.addr] == sid
  {
    hide RemoteAddress, Ipv4Text, AddressOf;
    KeyRoundTrip(s.origins[sid]);
  }

  /** Whatever ran in between, a session that reaches its erase step is still the one cached under its
      address; the step removes that entry and no other, and no session takes it twice. */
  lemma {:induction false} EraseRemovesExactlyItself(targets: seq<Address>, steps: seq<Step>, sid: nat)
    requires Run(targets, steps).Some?
    ensures var s := Run(targets, steps).value;
            Enabled(s, CloseAdvance(sid)) && s.closing[sid].Locked? ==>
            var s' := Next(s, CloseAdvance(sid));
            && sid !in s.erased
            && s.sessions[sid].client.addr in s.cache
            && s.cache[s.sessions[sid].client.addr] == sid
            && s'.cache == s.cache - {s.sessions[sid].client.addr}
            && LiveSessions(s') == LiveSessions(s) - {sid}
  {
    hide Inv, Run;
    RunInv(targets, steps);
    var s := Run(targets, steps).value;
    if Enabled(s, CloseAdvance(sid)) && s.closing[sid].Locked? { EraseInState(s, sid); }
  }

  /** The mutex never blocks for good: whoever holds it can move, and the manager waits only while a
      closing session holds it. */
  lemma {:induction false} MutexHolderCanMove(targets: seq<Address>, steps: seq<Step>)
    requires Run(targets, steps).Some?
    ensures var s := Run(targets, steps).value;
            && (s.mutex.Manager? ==> Enabled(s, ManagerAdvance))
            && (s.mutex.Closer? ==> Enabled(s, CloseAdvance(s.mutex.sid)))
            && (s.manager.Receiving? || s.manager.Stopped? || Enabled(s, ManagerAdvance) || s.mutex.Closer?)
  {
    RunInv(targets, steps);
    hide RemoteAddress, Ipv4Text, AddressOf;
  }

  // ---- Routing --------------------------------------------------------------------------------

  ghost predicate Routing(s: State) {
    && |s.verdicts| <= |s.datagrams|
    && (forall r :: 0 <= r < |s.replies| ==>
          s.replies[r].sid < |s.origins| && s.replies[r].reply.to == s.origins[s.replies[r].sid])
    && (forall v :: 0 <= v < |s.verdicts| ==>
          && s.verdicts[v].sid < |s.origins|
          && s.origins[s.verdicts[v].sid] == s.datagrams[v].from
          && (s.verdicts[v].created ==> s.verdicts[v].passed))
  }

  lemma {:induction false} RoutingReply(s: State, sid: nat, data: Option<Payload>)
    requires Inv(s) && Enabled(s, TargetReceive(sid, data)) && Routing(s)
    ensures Routing(Next(s, TargetReceive(sid, data)))
  {
    hide RemoteAddress, Ipv4Text, AddressOf, Destination, CacheExact, Closings, MutexOwned, Serving;
    hide ManagerNext, CloseNext, ParseAddress;
    KeyRoundTrip(s.origins[sid]);
  }

  lemma {:induction false} RoutingManager(s: State)
    requires Inv(s) && Enabled(s, ManagerAdvance) && Routing(s)
    ensures Routing(Next(s, ManagerAdvance))
  {
    hide RemoteAddress, Ipv4Text, AddressOf, ParseAddress, CacheExact, Closings, MutexOwned, Addressed;
  }

  lemma RoutingFrame(s: State, step: Step)
    requires Enabled(s, step) && Routing(s) && !step.ManagerAdvance? && !step.TargetReceive?
    ensures Routing(Next(s, step))
  {
    var s' := Next(s, step);
    assert s'.origins == s.origins && s'.verdicts == s.verdicts && s'.replies == s.replies;
    assert s.datagrams <= s'.datagrams;
  }

  lemma {:induction false} RoutingStep(s: State, step: Step)
    requires Inv(s) && Enabled(s, step) && Routing(s)
    ensures Routing(Next(s, step))
  {
    hide Inv, Routing, ManagerNext;
    match step
    case ManagerAdvance => RoutingManager(s);
    case TargetReceive(sid, data) => RoutingReply(s, sid, data);
    case _ => RoutingFrame(s, step);
  }

  lemma {:induction false} RunRouting(targets: seq<Address>, steps: seq<Step>)
    requires Run(targets, steps).Some?
    ensures Routing(Run(targets, steps).value)
  {
    if steps != [] {
      var before := steps[..|steps| - 1];
      RunLast(Init(targets), steps);
      hide Routing, Inv, Enabled, Next, RunFrom, Init;
      RunInv(targets, before);
      RunRouting(targets, before);
      RoutingStep(Run(targets, before).value, Last(steps));
    }
  }

  /** Every reply goes to the endpoint whose datagram created the replying session, and every datagram
      is given to a session its own sender created, so no two clients ever share a session.  The
      datagram that creates a session is never dropped. */
  lemma {:induction false} RepliesReachTheirClient(targets: seq<Address>, steps: seq<Step>)
    requires Run(targets, steps).Some?
    ensures var s := Run(targets, steps).value;
            && Routing(s)
            && forall r, v :: 0 <= r < |s.replies| && 0 <= v < |s.verdicts| && s.verdicts[v].sid == s.replies[r].sid ==>
                 s.replies[r].reply.to == s.datagrams[v].from
  {
    RunRouting(targets, steps);
    hide Run;
  }

  // ---- All or none ----------------------------------------------------------------------------

  /** The attempts one datagram is due: one per target in list order if it passed the check, else none. */
  function Due(targets: seq<Address>, v: Verdict, data: Payload): seq<Tagged> {
    if v.passed then seq(|targets|, i requires 0 <= i < |targets| => Tagged(v.sid, targets[i], data)) else []
  }

  function DueAll(targets: seq<Address>, verdicts: seq<Verdict>, datagrams: seq<Datagram>): seq<Tagged>
    requires |verdicts| <= |datagrams|
  {
    if verdicts == [] then []
    else
      var n := |verdicts| - 1;
      DueAll(targets, verdicts[..n], datagrams) + Due(targets, verdicts[n], datagrams[n].data)
  }

  lemma {:induction false} DueAllLonger(targets: seq<Address>, verdicts: seq<Verdict>, datagrams: seq<Datagram>,
                                        d: Datagram)
    requires |verdicts| <= |datagrams|
    ensures DueAll(targets, verdicts, datagrams + [d]) == DueAll(targets, verdicts, datagrams)
  {
    if verdicts != [] { DueAllLonger(targets, verdicts[..|verdicts| - 1], datagrams, d); }
  }

  /** How many of the current datagram's attempts are made, while it is being fanned out. */
  function Made(m: ManagerPc): nat {
    if m.Sending? then m.next else 0
  }

  ghost predicate WireExact(s: State) {
    && |s.verdicts| <= |s.datagrams|
    && (s.manager.Rearming? || s.manager.Sending? ==>
          && |s.verdicts| == |s.datagrams| > 0 && Last(s.verdicts).passed && Last(s.verdicts).sid == s.manager.sid
          && Made(s.manager) <= |s.targets|
          && s.wire == DueAll(s.targets, s.verdicts[..|s.verdicts| - 1], s.datagrams)
                       + Due(s.targets, Last(s.verdicts), Last(s.datagrams).data)[..Made(s.manager)])
    && (!s.manager.Rearming? && !s.manager.Sending? ==> s.wire == DueAll(s.targets, s.verdicts, s.datagrams))
  }

  /** One more verdict, with or without attempts. */
  lemma WireVerdict(targets: seq<Address>, verdicts: seq<Verdict>, v: Verdict, datagrams: seq<Datagram>)
    requires |verdicts| < |datagrams|
    ensures DueAll(targets, verdicts + [v], datagrams)
            == DueAll(targets, verdicts, datagrams) + Due(targets, v, datagrams[|verdicts|].data)
    ensures !v.passed ==> DueAll(targets, verdicts + [v], datagrams) == DueAll(targets, verdicts, datagrams)
  {
    assert (verdicts + [v])[..|verdicts|] == verdicts;
  }

  lemma CheckFrame(s: State)
    requires Enabled(s, ManagerAdvance) && s.manager.Checking?
    ensures var s', sid := ManagerNext(s), s.manager.sid;
            var v := Verdict(sid, s.creating, !s.sessions[sid].closed);
            && s'.wire == s.wire && s'.datagrams == s.datagrams && s'.targets == s.targets
            && s'.verdicts == s.verdicts + [v]
            && s'.manager == if v.passed then Rearming(sid) else ReReceiving
  {}

  lemma WireCheck(s: State)
    requires Inv(s) && Enabled(s, ManagerAdvance) && WireExact(s) && s.manager.Checking?
    ensures WireExact(ManagerNext(s))
  {
    CheckFrame(s);
    var s' := ManagerNext(s);
    assert |s.verdicts| + 1 == |s.datagrams|;
    hide Inv, Enabled, ManagerNext, DueAll;
    assert s'.verdicts[..|s.verdicts|] == s.verdicts;
    WireVerdict(s.targets, s.verdicts, Last(s'.verdicts), s.datagrams);
  }

  lemma WireSend(s: State)
    requires Inv(s) && Enabled(s, ManagerAdvance) && WireExact(s) && s.manager.Sending?
    ensures WireExact(ManagerNext(s))
  {
    hide Inv;
    assert s.datagrams != [];
    var due := Due(s.targets, Last(s.verdicts), Last(s.datagrams).data);
    var next := s.manager.next;
    if next < |s.targets| {
      assert due[..next + 1] == due[..next] + [due[next]];
    } else {
      assert due[..next] == due;
    }
  }

  lemma ManagerFrame(s: State)
    requires Enabled(s, ManagerAdvance) && !s.manager.Checking? && !s.manager.Sending?
    ensures var s' := ManagerNext(s);
            s'.wire == s.wire && s'.verdicts == s.verdicts && s'.datagrams == s.datagrams && s'.targets == s.targets
  {
    hide ParseAddress, RemoteAddress;
  }

  lemma ManagerMoves(s: State)
    requires Enabled(s, ManagerAdvance) && !s.manager.Checking? && !s.manager.Sending?
    ensures var m, m' := s.manager, ManagerNext(s).manager;
            !m'.Rearming? && if m.Rearming? then m' == Sending(m.sid, 0) else !m'.Sending?
  {
    hide ParseAddress, RemoteAddress;
  }

  lemma WireKept(s: State)
    requires Enabled(s, ManagerAdvance) && WireExact(s) && !s.manager.Checking? && !s.manager.Sending?
    ensures WireExact(ManagerNext(s))
  {
    ManagerFrame(s);
    ManagerMoves(s);
    hide ManagerNext, Enabled, Due, DueAll;
  }

  lemma {:induction false} WireManager(s: State)
    requires Inv(s) && Enabled(s, ManagerAdvance) && WireExact(s)
    ensures WireExact(ManagerNext(s))
  {
    hide Inv, WireExact, ManagerNext;
    if s.manager.Checking? {
      WireCheck(s);
    } else if s.manager.Sending? {
      WireSend(s);
    } else {
      WireKept(s);
    }
  }

  /** Closing a session leaves the manager alone. */
  lemma CloseFrame(s: State, sid: nat)
    requires Enabled(s, CloseAdvance(sid))
    ensures var s' := CloseNext(s, sid);
            && s'.wire == s.wire && s'.verdicts == s.verdicts && s'.targets == s.targets
            && s'.datagrams == s.datagrams && s'.manager == s.manager
  {}

  /** The other steps leave the manager's attempts alone. */
  lemma WireFrame(s: State, step: Step)
    requires Enabled(s, step) && !step.ManagerAdvance?
    ensures var s' := Next(s, step);
            && s'.wire == s.wire && s'.verdicts == s.verdicts && s'.targets == s.targets
            && (if step.ClientReceive? then
                  s'.datagrams == s.datagrams + [step.datagram] && s'.manager.Locking? && s.manager.Receiving?
                else s'.datagrams == s.datagrams
                     && (s'.manager == s.manager || (s.manager.Receiving? && s'.manager.Stopped?)))
  {
    if step.CloseAdvance? { CloseFrame(s, step.sid); }
    hide CloseNext, Destination;
  }

  lemma {:induction false} WireOthers(s: State, step: Step)
    requires Enabled(s, step) && WireExact(s) && !step.ManagerAdvance?
    ensures WireExact(Next(s, step))
  {
    WireFrame(s, step);
    if step.ClientReceive? { DueAllLonger(s.targets, s.verdicts, s.datagrams, step.datagram); }
    hide Next, Enabled, DueAll, Due;
  }

  lemma {:induction false} WireStep(s: State, step: Step)
    requires Inv(s) && Enabled(s, step) && WireExact(s)
    ensures WireExact(Next(s, step))
  {
    hide Inv, ManagerNext, WireExact;
    match step
    case ManagerAdvance => WireManager(s);
    case _ => WireOthers(s, step);
  }

  lemma TargetsFixed(s: State, step: Step)
    requires Enabled(s, step)
    ensures Next(s, step).targets == s.targets
  {
    if step.CloseAdvance? { CloseFrame(s, step.sid); }
    hide ParseAddress, RemoteAddress, Destination, CloseNext;
  }

  lemma {:induction false} RunWire(targets: seq<Address>, steps: seq<Step>)
    requires Run(targets, steps).Some?
    ensures WireExact(Run(targets, steps).value) && Run(targets, steps).value.targets == targets
  {
    if steps == [] {
    } else {
      var before := steps[..|steps| - 1];
      RunLast(Init(targets), steps);
      hide Inv, WireExact, Next, Enabled, RunFrom, Init;
      RunInv(targets, before);
      RunWire(targets, before);
      WireStep(Run(targets, before).value, Last(steps));
      TargetsFixed(Run(targets, before).value, Last(steps));
    }
  }

  /** Whenever the manager waits for the next datagram or has stopped, everything ever attempted on the
      target sockets is, datagram by datagram in order of arrival, one attempt at every target in list
      order with that datagram's own bytes, or nothing at all. */
  lemma {:induction false} AllOrNone(targets: seq<Address>, steps: seq<Step>, s: State)
    requires Run(targets, steps) == Some(s)
    ensures s.manager.Receiving? || s.manager.Stopped? ==>
              |s.verdicts| == |s.datagrams| && s.wire == DueAll(targets, s.verdicts, s.datagrams)
  {
    RunInv(targets, steps);
    RunWire(targets, steps);
  }

  lemma DroppedInState(s: State)
    requires Inv(s)
    ensures s.manager.Unlocking? ==>
              s.datagrams != [] && Live(s, s.manager.sid) && s.origins[s.manager.sid] == Last(s.datagrams).from
    ensures s.manager.Checking? ==>
              && Enabled(s, ManagerAdvance) && s.manager.sid < |s.closing|
              && (Last(ManagerNext(s).verdicts).passed <==>
                  s.manager.sid !in s.erased && (s.closing[s.manager.sid].Idle? || s.closing[s.manager.sid].Entered?))
  {
    hide RemoteAddress, Ipv4Text, AddressOf, CacheExact, Addressed;
  }

  /** A datagram is dropped only when its session is inside its closing window at the check, or left the
      cache after the lookup; it was live when the manager looked it up. */
  lemma {:induction false} DroppedOnlyWhileClosing(targets: seq<Address>, steps: seq<Step>)
    requires Run(targets, steps).Some?
    ensures var s := Run(targets, steps).value;
            && (s.manager.Unlocking? ==>
                  s.datagrams != [] && s.manager.sid < |s.origins| &&
                  Live(s, s.manager.sid) && s.origins[s.manager.sid] == Last(s.datagrams).from)
            && (s.manager.Checking? ==>
                  && Enabled(s, ManagerAdvance) && s.manager.sid < |s.closing|
                  && (Last(ManagerNext(s).verdicts).passed <==>
                      s.manager.sid !in s.erased
                      && (s.closing[s.manager.sid].Idle? || s.closing[s.manager.sid].Entered?)))
  {
    RunInv(targets, steps);
    DroppedInState(Run(targets, steps).value);
  }

  /** A handler is running, as opposed to a receive outstanding. */
  predicate Handling(m: ManagerPc) {
    !m.Receiving? && !m.Stopped?
  }

  lemma NotStoppedByManager(s: State)
    requires Enabled(s, ManagerAdvance)
    ensures !ManagerNext(s).manager.Stopped?
  {
    hide ParseAddress, RemoteAddress;
  }

  lemma StoppedByError(s: State, step: Step)
    requires Enabled(s, step)
    ensures Next(s, step).manager.Stopped? <==> s.manager.Stopped? || step.ClientReceiveError?
  {
    if step.ManagerAdvance? { NotStoppedByManager(s); }
    if step.CloseAdvance? { CloseFrame(s, step.sid); }
    hide ManagerNext, CloseNext, Destination;
  }

  lemma {:induction false} RunStopped(targets: seq<Address>, steps: seq<Step>)
    requires Run(targets, steps).Some?
    ensures Run(targets, steps).value.manager.Stopped? <==> ClientReceiveError in steps
  {
    if steps != [] {
      var before := steps[..|steps| - 1];
      RunLast(Init(targets), steps);
      hide RunFrom, Init, Enabled, Next;
      RunStopped(targets, before);
      StoppedByError(Run(targets, before).value, Last(steps));
      assert steps == before + [Last(steps)];
    }
  }

  /** Until the first receive error exactly one client receive is outstanding or being handled;
      afterwards none is. */
  lemma {:induction false} OneClientReceive(targets: seq<Address>, steps: seq<Step>)
    requires Run(targets, steps).Some?
    ensures var s := Run(targets, steps).value;
            && (s.manager.Stopped? <==> ClientReceiveError in steps)
            && s.receives + (if Handling(s.manager) then 1 else 0) == if ClientReceiveError in steps then 0 else 1
  {
    RunInv(targets, steps);
    RunStopped(targets, steps);
    hide Run, CacheExact, Addressed;
  }
}
