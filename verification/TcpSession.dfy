/** One TCP proxy session as a value: what its handlers do to its sockets, its timer, and its outstanding
    operations.  `events` and `activity` record the run; the code does not read them. */
module TcpSession {
  import opened Sequences
  import opened Decimal
  import opened Addresses
  import opened FlowStatistics
  import opened Keepalive

  type Bytes = seq<nat>

  /** How a blocking `write` ended: everything went out, or an error stopped it after some bytes. */
  datatype WriteResult = Full | Failed(sent: nat)

  /** How an `async_read_some` ended. */
  datatype ReadResult = Data(bytes: Bytes) | Error | Aborted

  datatype Operation = ReadClient | ReadTarget(serial: nat)

  datatype Target = Target(serial: nat, address: Address, open: bool)

  datatype IoEvent =
    | FromClient(bytes: Bytes)
    | ToTarget(serial: nat, bytes: Bytes, result: WriteResult)
    | FromTarget(serial: nat, bytes: Bytes)
    | ToClient(serial: nat, bytes: Bytes, result: WriteResult)

  datatype Cause = NotClosed | ByTimer(timeout: Timeout) | ByReadError | ByConnectError

  datatype Session = Session(
    started: bool,
    closed: bool,
    clientOpen: bool,
    targets: seq<Target>,
    expiry: int,
    waits: seq<Wait>,
    pending: multiset<Operation>,
    events: seq<IoEvent>,
    activity: seq<int>,
    cause: Cause)

  datatype Outcome = Outcome(session: Session, effects: seq<Effect>)

  const FRESH := Session(false, false, true, [], 0, [], multiset{}, [], [], NotClosed)

  // ---- Descriptions under which packets are counted -------------------------------------------

  datatype Label = ReceivedFromClient | SentToClient | ReceivedFromTarget(serial: nat) | SentToTarget(serial: nat)

  function Describe(l: Label): string {
    match l
    case ReceivedFromClient => "receive_from_client"
    case SentToClient => "send_to_client"
    case ReceivedFromTarget(n) => "receive_from_target" + ToDecimal(n)
    case SentToTarget(n) => "send_to_target" + ToDecimal(n)
  }

  /** Different kinds of packet, and packets of different targets, are never counted together. */
  lemma DescribeInjective(l: Label, m: Label)
    requires Describe(l) == Describe(m)
    ensures l == m
  {
    var d := Describe(l);
    match l
    case ReceivedFromClient => assert d[0] == 'r' && d[13] == 'c';
    case SentToClient => assert d[0] == 's' && d[8] == 'c';
    case ReceivedFromTarget(n) =>
      assert d[0] == 'r' && d[13] == 't';
      assert m.ReceivedFromTarget?;
      assert d[19..] == ToDecimal(n) && d[19..] == ToDecimal(m.serial);
      DecimalInjective(n, m.serial);
    case SentToTarget(n) =>
      assert d[0] == 's' && d[8] == 't';
      assert m.SentToTarget?;
      assert d[14..] == ToDecimal(n) && d[14..] == ToDecimal(m.serial);
      DecimalInjective(n, m.serial);
  }

  // ---- Handlers -------------------------------------------------------------------------------

  function Rearm(s: Session, now: int): Session {
    s.(expiry := now + KEEPALIVE_SECONDS, waits := Rearmed(s.waits, now))
  }

  function Close(s: Session, cause: Cause): Outcome {
    if s.closed then Outcome(s, [])
    else
      Outcome(s.(closed := true, clientOpen := false, targets := [], waits := CancelWaits(s.waits), cause := cause),
              [Disconnected])
  }

  /** One outstanding read per target. */
  function TargetReads(n: nat): multiset<Operation> {
    if n == 0 then multiset{} else TargetReads(n - 1) + multiset{ReadTarget(n - 1)}
  }

  function ReadOperations(n: nat): multiset<Operation> { multiset{ReadClient} + TargetReads(n) }

  function ConnectedTargets(addresses: seq<Address>): seq<Target> {
    seq(|addresses|, i requires 0 <= i < |addresses| => Target(i, addresses[i], true))
  }

  /** The whole of `start`, on a client that was just accepted.  `connects` says which targets accept. */
  function Start(s: Session, addresses: seq<Address>, connects: seq<bool>, now: int): Outcome
    requires |connects| == |addresses|
  {
    var armed := Rearm(s.(started := true, activity := s.activity + [now]), now);
    if false in connects then
      var closed := Close(armed, ByConnectError);
      Outcome(closed.session, [Connected] + closed.effects)
    else
      Outcome(armed.(targets := ConnectedTargets(addresses), pending := s.pending + ReadOperations(|addresses|)),
              [Connected])
  }

  function Went(bytes: Bytes, r: WriteResult): Bytes {
    match r
    case Full => bytes
    case Failed(sent) => if sent < |bytes| then bytes[..sent] else bytes
  }

  /** One write to every target, in list order, whatever the earlier results were. */
  function FanOut(bytes: Bytes, results: seq<WriteResult>): seq<IoEvent> {
    seq(|results|, i requires 0 <= i < |results| => ToTarget(i, bytes, results[i]))
  }

  function FanOutEffects(results: seq<WriteResult>): seq<Effect> {
    if results == [] then []
    else
      var n := |results| - 1;
      FanOutEffects(results[..n]) + if results[n].Full? then [Packet(Describe(SentToTarget(n)))] else []
  }

  /** One more target. */
  lemma FanOutMore(bytes: Bytes, results: seq<WriteResult>, i: nat)
    requires i < |results|
    ensures FanOut(bytes, results[..i + 1]) == FanOut(bytes, results[..i]) + [ToTarget(i, bytes, results[i])]
    ensures FanOutEffects(results[..i + 1]) ==
            if results[i].Full? then FanOutEffects(results[..i]) + [Packet(Describe(SentToTarget(i)))]
            else FanOutEffects(results[..i])
  {
    hide Describe;
    assert results[..i + 1][..i] == results[..i];
    assert FanOutEffects(results[..i]) + [] == FanOutEffects(results[..i]);
  }

  function OnReadClient(s: Session, r: ReadResult, results: seq<WriteResult>, now: int): Outcome {
    var s' := s.(pending := s.pending - multiset{ReadClient});
    if s.closed then Outcome(s', [])
    else
      match r
      case Data(bytes) =>
        Outcome(Rearm(s', now).(events := s.events + [FromClient(bytes)] + FanOut(bytes, results),
                                activity := s.activity + [now],
                                pending := s'.pending + multiset{ReadClient}),
                [Packet(Describe(ReceivedFromClient))] + FanOutEffects(results))
      case Error => Close(s', ByReadError)
      case Aborted => Outcome(s', [])
  }

  function OnReadTarget(s: Session, serial: nat, r: ReadResult, result: WriteResult): Outcome {
    var s' := s.(pending := s.pending - multiset{ReadTarget(serial)});
    if s.closed then Outcome(s', [])
    else
      match r
      case Data(bytes) =>
        Outcome(s'.(events := s.events + [FromTarget(serial, bytes), ToClient(serial, bytes, result)],
                    pending := s'.pending + multiset{ReadTarget(serial)}),
                [Packet(Describe(ReceivedFromTarget(serial)))]
                + if result.Full? then [Packet(Describe(SentToClient))] else [])
      case Error => Close(s', ByReadError)
      case Aborted => Outcome(s', [])
  }

  function Expire(s: Session, now: int): Session { s.(waits := ExpireWaits(s.waits, now)) }

  function OnTimer(s: Session, k: nat, now: int): Outcome
    requires k < |s.waits|
  {
    var s' := s.(waits := Without(s.waits, k));
    var w := s.waits[k];
    if !s.closed && w.status.Expired? then Close(s', ByTimer(Timeout(w.armedAt, w.status.queuedAt, now)))
    else Outcome(s', [])
  }
}
