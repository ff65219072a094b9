/** The byte streams of a TCP session, read off its socket events: what came from the client, what each
    target was given, what each target sent, and what the client was given. */
module TcpStreams {
  import opened Sequences
  import opened TcpSession
  import opened Trimming

  /** A blocking write: what it was asked to send and how it ended. */
  datatype Write = Write(bytes: Bytes, result: WriteResult)

  /** What the events show to a picker, in order. */
  function Collect<T>(events: seq<IoEvent>, pick: IoEvent -> Option<T>): seq<T> {
    if events == [] then []
    else
      var n := |events| - 1;
      Collect(events[..n], pick) + match pick(events[n])
                                   case Some(x) => [x]
                                   case None => []
  }

  function OfClient(): IoEvent -> Option<Bytes> {
    (e: IoEvent) => if e.FromClient? then Some(e.bytes) else None
  }

  function To(serial: nat): IoEvent -> Option<Write> {
    (e: IoEvent) => if e.ToTarget? && e.serial == serial then Some(Write(e.bytes, e.result)) else None
  }

  function From(serial: nat): IoEvent -> Option<Bytes> {
    (e: IoEvent) => if e.FromTarget? && e.serial == serial then Some(e.bytes) else None
  }

  function ReplyFor(serial: nat): IoEvent -> Option<Write> {
    (e: IoEvent) => if e.ToClient? && e.serial == serial then Some(Write(e.bytes, e.result)) else None
  }

  /** Any target's chunk, its serial, and any reply. */
  function AnyChunk(): IoEvent -> Option<Bytes> {
    (e: IoEvent) => if e.FromTarget? then Some(e.bytes) else None
  }

  function AnySerial(): IoEvent -> Option<nat> {
    (e: IoEvent) => if e.FromTarget? then Some(e.serial) else None
  }

  function AnyReply(): IoEvent -> Option<Write> {
    (e: IoEvent) => if e.ToClient? then Some(Write(e.bytes, e.result)) else None
  }

  function Offered(writes: seq<Write>): seq<Bytes> {
    seq(|writes|, k requires 0 <= k < |writes| => writes[k].bytes)
  }

  function Transferred(writes: seq<Write>): seq<Bytes> {
    seq(|writes|, k requires 0 <= k < |writes| => Went(writes[k].bytes, writes[k].result))
  }

  // ---- The streams ----------------------------------------------------------------------------

  /** The chunks the client sent, and what each write to target `t` transferred. */
  function ClientChunks(events: seq<IoEvent>): seq<Bytes> { Collect(events, OfClient()) }

  function Pieces(events: seq<IoEvent>, t: nat): seq<Bytes> { Transferred(Collect(events, To(t))) }

  function Received(events: seq<IoEvent>): Bytes { Concat(ClientChunks(events)) }

  function Delivered(events: seq<IoEvent>, t: nat): Bytes { Concat(Pieces(events, t)) }

  /** The chunks target `i` sent, and what each reply write for it transferred. */
  function Chunks(events: seq<IoEvent>, i: nat): seq<Bytes> { Collect(events, From(i)) }

  function Given(events: seq<IoEvent>, i: nat): seq<Bytes> { Transferred(Collect(events, ReplyFor(i))) }

  function ChunkLists(events: seq<IoEvent>, n: nat): seq<seq<Bytes>> {
    seq(n, i requires 0 <= i < n => Chunks(events, i))
  }

  function GivenLists(events: seq<IoEvent>, n: nat): seq<seq<Bytes>> {
    seq(n, i requires 0 <= i < n => Given(events, i))
  }

  /** The targets' serials in the order in which their chunks were read. */
  function ReadOrder(events: seq<IoEvent>): seq<nat> { Collect(events, AnySerial()) }

  function ReadAll(events: seq<IoEvent>): Bytes { Concat(Collect(events, AnyChunk())) }

  function Replied(events: seq<IoEvent>): Bytes { Concat(Transferred(Collect(events, AnyReply()))) }

  /** Play the chunk lists back: the schedule names, for each chunk of the output, the list it ends. */
  function Play(schedule: seq<nat>, lists: seq<seq<Bytes>>): Option<Bytes> {
    if schedule == [] then
      if forall i :: 0 <= i < |lists| ==> lists[i] == [] then Some([]) else None
    else
      var i := schedule[|schedule| - 1];
      if i >= |lists| || lists[i] == [] then None
      else
        var n := |lists[i]| - 1;
        match Play(schedule[..|schedule| - 1], lists[i := lists[i][..n]])
        case None => None
        case Some(out) => Some(out + lists[i][n])
  }

  // ---- What the handlers keep -----------------------------------------------------------------

  /** Target `t` has been offered the client's chunks: each once, whole, in order. */
  ghost predicate CopyOf(events: seq<IoEvent>, t: nat) { Offered(Collect(events, To(t))) == ClientChunks(events) }

  /** The client has been offered what each target sent, and has been given the pieces in reading order. */
  ghost predicate MergeOf(events: seq<IoEvent>, n: nat) {
    && (forall i: nat :: i < n ==> Offered(Collect(events, ReplyFor(i))) == Chunks(events, i))
    && Offered(Collect(events, AnyReply())) == Collect(events, AnyChunk())
    && Play(ReadOrder(events), GivenLists(events, n)) == Some(Replied(events))
  }

  // ---- Appending events -----------------------------------------------------------------------

  lemma CollectSnoc<T>(events: seq<IoEvent>, e: IoEvent, pick: IoEvent -> Option<T>)
    ensures Collect(events + [e], pick) ==
            if pick(e).Some? then Collect(events, pick) + [pick(e).value] else Collect(events, pick)
  {
    assert (events + [e])[..|events|] == events;
    assert Collect(events, pick) + [] == Collect(events, pick);
  }

  lemma FanOutSnoc(events: seq<IoEvent>, bytes: Bytes, results: seq<WriteResult>)
    requires results != []
    ensures var n := |results| - 1;
            events + FanOut(bytes, results) ==
            (events + FanOut(bytes, results[..n])) + [ToTarget(n, bytes, results[n])]
  {
    var n := |results| - 1;
    assert FanOut(bytes, results) == FanOut(bytes, results[..n]) + [ToTarget(n, bytes, results[n])];
  }

  /** A fan-out writes the bytes once to each target, and nothing else. */
  lemma {:induction false} FanOutWrites(events: seq<IoEvent>, bytes: Bytes, results: seq<WriteResult>, t: nat)
    ensures Collect(events + FanOut(bytes, results), To(t)) ==
            Collect(events, To(t)) + if t < |results| then [Write(bytes, results[t])] else []
  {
    if results == [] {
      assert events + FanOut(bytes, results) == events;
      assert Collect(events, To(t)) + [] == Collect(events, To(t));
    } else {
      var n := |results| - 1;
      FanOutWrites(events, bytes, results[..n], t);
      FanOutSnoc(events, bytes, results);
      var e := ToTarget(n, bytes, results[n]);
      CollectSnoc(events + FanOut(bytes, results[..n]), e, To(t));
      assert To(t)(e) == if n == t then Some(Write(bytes, results[n])) else None;
      hide Collect, FanOut, To;
      assert Collect(events, To(t)) + [] == Collect(events, To(t));
    }
  }

  lemma {:induction false} FanOutQuiet<T>(events: seq<IoEvent>, bytes: Bytes, results: seq<WriteResult>,
                                          pick: IoEvent -> Option<T>)
    requires forall e: IoEvent :: e.ToTarget? ==> pick(e) == None
    ensures Collect(events + FanOut(bytes, results), pick) == Collect(events, pick)
  {
    if results == [] {
      assert events + FanOut(bytes, results) == events;
    } else {
      var n := |results| - 1;
      FanOutQuiet(events, bytes, results[..n], pick);
      FanOutSnoc(events, bytes, results);
      CollectSnoc(events + FanOut(bytes, results[..n]), ToTarget(n, bytes, results[n]), pick);
    }
  }

  /** A client read followed by its fan-out. */
  lemma BlockQuiet<T>(events: seq<IoEvent>, bytes: Bytes, results: seq<WriteResult>, pick: IoEvent -> Option<T>)
    requires forall e: IoEvent :: e.ToTarget? || e.FromClient? ==> pick(e) == None
    ensures Collect(events + [FromClient(bytes)] + FanOut(bytes, results), pick) == Collect(events, pick)
  {
    CollectSnoc(events, FromClient(bytes), pick);
    FanOutQuiet(events + [FromClient(bytes)], bytes, results, pick);
  }

  lemma ReplyCollects<T>(events: seq<IoEvent>, i: nat, bytes: Bytes, r: WriteResult, pick: IoEvent -> Option<T>)
    requires pick(FromTarget(i, bytes)).None? || pick(ToClient(i, bytes, r)).None?
    ensures var e, f := FromTarget(i, bytes), ToClient(i, bytes, r);
            Collect(events + [e, f], pick) ==
            if pick(e).Some? then Collect(events, pick) + [pick(e).value]
            else if pick(f).Some? then Collect(events, pick) + [pick(f).value] else Collect(events, pick)
  {
    var e, f := FromTarget(i, bytes), ToClient(i, bytes, r);
    CollectSnoc(events, e, pick);
    CollectSnoc(events + [e], f, pick);
    assert events + [e, f] == events + [e] + [f];
  }

  lemma WritesSnoc(writes: seq<Write>, w: Write)
    ensures Offered(writes + [w]) == Offered(writes) + [w.bytes]
    ensures Transferred(writes + [w]) == Transferred(writes) + [Went(w.bytes, w.result)]
  {}

  // ---- Fan-out --------------------------------------------------------------------------------

  /** A client read and its fan-out add the chunk to the client's stream, and to each target's what its own
      write transferred. */
  lemma BlockStreams(events: seq<IoEvent>, bytes: Bytes, results: seq<WriteResult>, t: nat)
    requires t < |results|
    ensures var more := events + [FromClient(bytes)] + FanOut(bytes, results);
            && Received(more) == Received(events) + bytes
            && Delivered(more, t) == Delivered(events, t) + Went(bytes, results[t])
  {
    var read := events + [FromClient(bytes)];
    CollectSnoc(events, FromClient(bytes), To(t));
    CollectSnoc(events, FromClient(bytes), OfClient());
    FanOutWrites(read, bytes, results, t);
    FanOutQuiet(read, bytes, results, OfClient());
    WritesSnoc(Collect(events, To(t)), Write(bytes, results[t]));
    ConcatSnoc(Collect(events, OfClient()), bytes);
    ConcatSnoc(Pieces(events, t), Went(bytes, results[t]));
    hide Collect, Transferred, FanOut, Concat, Went;
  }

  /** A client read and its fan-out extend every target's copy by the chunk, whatever the results. */
  lemma CopyStep(events: seq<IoEvent>, bytes: Bytes, results: seq<WriteResult>, t: nat)
    requires t < |results| && CopyOf(events, t)
    ensures CopyOf(events + [FromClient(bytes)] + FanOut(bytes, results), t)
  {
    var read := events + [FromClient(bytes)];
    CollectSnoc(events, FromClient(bytes), To(t));
    CollectSnoc(events, FromClient(bytes), OfClient());
    FanOutWrites(read, bytes, results, t);
    FanOutQuiet(read, bytes, results, OfClient());
    WritesSnoc(Collect(events, To(t)), Write(bytes, results[t]));
    hide Collect, Offered, FanOut;
  }

  lemma CopyKept(events: seq<IoEvent>, i: nat, bytes: Bytes, r: WriteResult, t: nat)
    requires CopyOf(events, t)
    ensures CopyOf(events + [FromTarget(i, bytes), ToClient(i, bytes, r)], t)
  {
    ReplyCollects(events, i, bytes, r, To(t));
    ReplyCollects(events, i, bytes, r, OfClient());
  }

  // ---- Fan-in ---------------------------------------------------------------------------------

  lemma MergeStart(n: nat)
    ensures MergeOf([], n)
  {}

  lemma PlayExtend(schedule: seq<nat>, lists: seq<seq<Bytes>>, out: Bytes, i: nat, chunk: Bytes)
    requires Play(schedule, lists) == Some(out) && i < |lists|
    ensures Play(schedule + [i], lists[i := lists[i] + [chunk]]) == Some(out + chunk)
  {
    var longer := lists[i := lists[i] + [chunk]];
    assert (schedule + [i])[..|schedule|] == schedule;
    assert longer[i := longer[i][..|lists[i]|]] == lists;
  }

  lemma GivenStep(events: seq<IoEvent>, n: nat, i: nat, bytes: Bytes, r: WriteResult)
    requires i < n
    ensures GivenLists(events + [FromTarget(i, bytes), ToClient(i, bytes, r)], n)
            == GivenLists(events, n)[i := Given(events, i) + [Went(bytes, r)]]
  {
    forall j | 0 <= j < n
      ensures Given(events + [FromTarget(i, bytes), ToClient(i, bytes, r)], j)
              == if j == i then Given(events, i) + [Went(bytes, r)] else Given(events, j)
    {
      ReplyCollects(events, i, bytes, r, ReplyFor(j));
      WritesSnoc(Collect(events, ReplyFor(j)), Write(bytes, r));
      hide Collect, Transferred;
    }
    hide Given;
  }

  lemma OfferStep(events: seq<IoEvent>, i: nat, bytes: Bytes, r: WriteResult, j: nat)
    requires Offered(Collect(events, ReplyFor(j))) == Chunks(events, j)
    ensures var more := events + [FromTarget(i, bytes), ToClient(i, bytes, r)];
            Offered(Collect(more, ReplyFor(j))) == Chunks(more, j)
  {
    ReplyCollects(events, i, bytes, r, ReplyFor(j));
    ReplyCollects(events, i, bytes, r, From(j));
    WritesSnoc(Collect(events, ReplyFor(j)), Write(bytes, r));
    hide Collect, Offered;
  }

  /** What a reply adds to the streams. */
  lemma ReplyStep(events: seq<IoEvent>, i: nat, bytes: Bytes, r: WriteResult)
    ensures var more := events + [FromTarget(i, bytes), ToClient(i, bytes, r)];
            && ReadOrder(more) == ReadOrder(events) + [i]
            && Collect(more, AnyChunk()) == Collect(events, AnyChunk()) + [bytes]
            && Collect(more, AnyReply()) == Collect(events, AnyReply()) + [Write(bytes, r)]
            && Replied(more) == Replied(events) + Went(bytes, r)
  {
    ReplyCollects(events, i, bytes, r, AnySerial());
    ReplyCollects(events, i, bytes, r, AnyChunk());
    ReplyCollects(events, i, bytes, r, AnyReply());
    WritesSnoc(Collect(events, AnyReply()), Write(bytes, r));
    ConcatSnoc(Transferred(Collect(events, AnyReply())), Went(bytes, r));
    hide Collect, Transferred, Concat, Went;
  }

  /** A target read and its reply extend the merge by one chunk of that target. */
  lemma MergeStep(events: seq<IoEvent>, n: nat, i: nat, bytes: Bytes, r: WriteResult)
    requires i < n && MergeOf(events, n)
    ensures MergeOf(events + [FromTarget(i, bytes), ToClient(i, bytes, r)], n)
  {
    forall j: nat | j < n
      ensures var more := events + [FromTarget(i, bytes), ToClient(i, bytes, r)];
              Offered(Collect(more, ReplyFor(j))) == Chunks(more, j)
    {
      OfferStep(events, i, bytes, r, j);
    }
    ReplyStep(events, i, bytes, r);
    WritesSnoc(Collect(events, AnyReply()), Write(bytes, r));
    GivenStep(events, n, i, bytes, r);
    PlayExtend(ReadOrder(events), GivenLists(events, n), Replied(events), i, Went(bytes, r));
    assert GivenLists(events, n)[i] == Given(events, i);
    hide Collect, Offered, Given, GivenLists, Chunks, ReadOrder, Replied, Play, Went;
  }

  lemma GivenKept(events: seq<IoEvent>, n: nat, bytes: Bytes, results: seq<WriteResult>)
    ensures var more := events + [FromClient(bytes)] + FanOut(bytes, results);
            && GivenLists(more, n) == GivenLists(events, n)
            && forall i: nat :: i < n ==> Collect(more, ReplyFor(i)) == Collect(events, ReplyFor(i))
  {
    var more := events + [FromClient(bytes)] + FanOut(bytes, results);
    forall i: nat | i < n
      ensures Collect(more, ReplyFor(i)) == Collect(events, ReplyFor(i))
    {
      BlockQuiet(events, bytes, results, ReplyFor(i));
    }
    hide Collect, Transferred, FanOut;
  }

  lemma MergeKept(events: seq<IoEvent>, n: nat, bytes: Bytes, results: seq<WriteResult>)
    requires MergeOf(events, n)
    ensures MergeOf(events + [FromClient(bytes)] + FanOut(bytes, results), n)
  {
    var more := events + [FromClient(bytes)] + FanOut(bytes, results);
    BlockQuiet(events, bytes, results, AnySerial());
    BlockQuiet(events, bytes, results, AnyChunk());
    BlockQuiet(events, bytes, results, AnyReply());
    GivenKept(events, n, bytes, results);
    forall i: nat | i < n
      ensures Chunks(more, i) == Chunks(events, i)
    {
      BlockQuiet(events, bytes, results, From(i));
    }
    hide Collect, Chunks, Given, GivenLists, Play, Concat, Transferred, Offered, FanOut;
  }

  // ---- Both -----------------------------------------------------------------------------------

  /** Everything a session keeps about its streams. */
  ghost predicate Mirrored(events: seq<IoEvent>, n: nat) {
    (forall t: nat :: t < n ==> CopyOf(events, t)) && MergeOf(events, n)
  }

  lemma MirroredStart(n: nat)
    ensures Mirrored([], n)
  {
    MergeStart(n);
  }

  lemma MirroredBlock(events: seq<IoEvent>, n: nat, bytes: Bytes, results: seq<WriteResult>)
    requires Mirrored(events, n) && |results| == n
    ensures Mirrored(events + [FromClient(bytes)] + FanOut(bytes, results), n)
  {
    hide CopyOf, MergeOf, FanOut;
    forall t: nat | t < n
      ensures CopyOf(events + [FromClient(bytes)] + FanOut(bytes, results), t)
    {
      CopyStep(events, bytes, results, t);
    }
    MergeKept(events, n, bytes, results);
  }

  lemma MirroredReply(events: seq<IoEvent>, n: nat, i: nat, bytes: Bytes, r: WriteResult)
    requires Mirrored(events, n) && i < n
    ensures Mirrored(events + [FromTarget(i, bytes), ToClient(i, bytes, r)], n)
  {
    hide CopyOf, MergeOf;
    forall t: nat | t < n
      ensures CopyOf(events + [FromTarget(i, bytes), ToClient(i, bytes, r)], t)
    {
      CopyKept(events, i, bytes, r, t);
    }
    MergeStep(events, n, i, bytes, r);
  }

  // ---- What the relations mean ----------------------------------------------------------------

  predicate Whole(writes: seq<Write>) {
    forall k :: 0 <= k < |writes| ==> Went(writes[k].bytes, writes[k].result) == writes[k].bytes
  }

  /** Every write to the target transferred its whole chunk. */
  predicate WrittenInFull(events: seq<IoEvent>, t: nat) { Whole(Collect(events, To(t))) }

  predicate RepliedInFull(events: seq<IoEvent>) { Whole(Collect(events, AnyReply())) }

  /** Once a write fell short, every later one transferred nothing. */
  predicate StopsAfterShort(writes: seq<Write>) {
    forall j, k :: 0 <= j < k < |writes| && Went(writes[j].bytes, writes[j].result) != writes[j].bytes ==>
      Went(writes[k].bytes, writes[k].result) == []
  }

  lemma StopsIs(events: seq<IoEvent>, t: nat)
    requires CopyOf(events, t)
    ensures |Pieces(events, t)| == |ClientChunks(events)|
    ensures StopsAfterShort(Collect(events, To(t))) <==> StopsShort(Pieces(events, t), ClientChunks(events))
  {
    var writes := Collect(events, To(t));
    hide Collect, Went;
    var given, sent := Pieces(events, t), ClientChunks(events);
    assert |given| == |sent| == |writes|;
    assert forall k :: 0 <= k < |writes| ==> sent[k] == Offered(writes)[k] == writes[k].bytes;
    assert forall k :: 0 <= k < |writes| ==> given[k] == Went(writes[k].bytes, writes[k].result);
    hide Pieces, ClientChunks, Offered;
  }

  lemma TransferredTrims(writes: seq<Write>)
    ensures Trims(Transferred(writes), Offered(writes))
    ensures Transferred(writes) == Offered(writes) <==> Whole(writes)
  {
    var given, asked := Transferred(writes), Offered(writes);
    forall k | 0 <= k < |writes|
      ensures given[k] == Went(writes[k].bytes, writes[k].result) && asked[k] == writes[k].bytes && given[k] <= asked[k]
    {}
    hide Went;
    if Whole(writes) { assert given == asked; }
  }

  lemma WholeSnoc(writes: seq<Write>, w: Write)
    ensures Whole(writes + [w]) <==> Whole(writes) && Went(w.bytes, w.result) == w.bytes
  {
    hide Went;
    assert (writes + [w])[|writes|] == w;
    assert forall k :: 0 <= k < |writes| ==> (writes + [w])[k] == writes[k];
  }

  /** A copy is the client's stream without the untransferred ends of its chunks. */
  lemma CopyMeans(events: seq<IoEvent>, t: nat)
    requires CopyOf(events, t)
    ensures Trims(Pieces(events, t), ClientChunks(events))
    ensures Delivered(events, t) == Received(events) <==> WrittenInFull(events, t)
  {
    TransferredTrims(Collect(events, To(t)));
    TrimsLength(Pieces(events, t), ClientChunks(events));
    hide Collect, Transferred, Offered, Whole, Trims, Concat;
  }

  lemma {:induction false} WholePart(events: seq<IoEvent>, i: nat)
    requires Whole(Collect(events, AnyReply()))
    ensures Whole(Collect(events, ReplyFor(i)))
  {
    if events != [] {
      var n := |events| - 1;
      var e := events[n];
      assert events == events[..n] + [e];
      CollectSnoc(events[..n], e, AnyReply());
      CollectSnoc(events[..n], e, ReplyFor(i));
      if e.ToClient? {
        WholeSnoc(Collect(events[..n], AnyReply()), Write(e.bytes, e.result));
        WholeSnoc(Collect(events[..n], ReplyFor(i)), Write(e.bytes, e.result));
      }
      hide Collect, Whole, Went;
      WholePart(events[..n], i);
    }
  }

  /** Each target's part of the merge is its chunks without their untransferred ends; with every reply
      write whole, the merge is of the chunks themselves. */
  lemma MergeMeans(events: seq<IoEvent>, n: nat)
    requires MergeOf(events, n)
    ensures forall i: nat :: i < n ==> Trims(Given(events, i), Chunks(events, i))
    ensures RepliedInFull(events) ==> GivenLists(events, n) == ChunkLists(events, n)
    ensures Replied(events) == ReadAll(events) <==> RepliedInFull(events)
  {
    forall i: nat | i < n
      ensures Trims(Given(events, i), Chunks(events, i))
      ensures RepliedInFull(events) ==> Given(events, i) == Chunks(events, i)
    {
      TransferredTrims(Collect(events, ReplyFor(i)));
      if RepliedInFull(events) { WholePart(events, i); }
    }
    TransferredTrims(Collect(events, AnyReply()));
    TrimsLength(Transferred(Collect(events, AnyReply())), Collect(events, AnyChunk()));
    hide Collect, Transferred, Offered, Whole, Trims, Concat, Given, Chunks, Play;
  }
}
