/** What holds in every interleaving of threads writing one rotating log. */
module ConcurrentLogTheorems {
  import opened Sequences
  import opened LogFile
  import opened ConcurrentLog

  function By(t: nat): Entry -> bool { (e: Entry) => e.thread == t }

  // ---- The mutex ------------------------------------------------------------------------------

  lemma OwnDescriptors(s: State)
    requires Descriptors(s) && s.lock.None?
    ensures s.table.Keys == if s.fd > 0 then {s.fd} else {}
  {
    forall d
      ensures d in s.table.Keys <==> d == s.fd && s.fd > 0
    {}
  }

  /** Outside the critical sections the log owns one descriptor, or none before the first open. */
  lemma NoDescriptorLeaks(max: nat, programs: seq<seq<Record>>, steps: seq<ConcurrentLog.Step>)
    requires ConcurrentLog.Run(max, programs, steps).Some?
    requires ConcurrentLog.Run(max, programs, steps).value.lock.None?
    ensures var s := ConcurrentLog.Run(max, programs, steps).value;
            s.table.Keys == if s.fd > 0 then {s.fd} else {}
  {
    RunInv(max, programs, steps);
    OwnDescriptors(ConcurrentLog.Run(max, programs, steps).value);
  }

  /** Descriptors are opened, moved and closed only by the thread that holds the mutex. */
  lemma DescriptorsAreGuarded(max: nat, programs: seq<seq<Record>>, steps: seq<ConcurrentLog.Step>,
                              step: ConcurrentLog.Step)
    requires ConcurrentLog.Run(max, programs, steps).Some?
    ensures var s := ConcurrentLog.Run(max, programs, steps).value;
            Enabled(s, step) && s.lock != Some(step.t) ==>
              var s' := Next(s, step); s'.fd == s.fd && s'.table == s.table && s'.currents == s.currents
  {
    RunInv(max, programs, steps);
    var s := ConcurrentLog.Run(max, programs, steps).value;
    hide ConcurrentLog.Run, Effect, NextThread, Descriptors, FilesInOrder, Resolved;
    if Enabled(s, step) && s.lock != Some(step.t) {
      SharedDescriptors(s, step);
      OtherDescriptors(s, step);
    }
  }

  /** A thread past the start of a call has a record to write. */
  ghost predicate Busy(s: State) {
    forall t :: 0 <= t < |s.threads| ==>
      s.threads[t].done <= |s.threads[t].program|
      && (!s.threads[t].pc.TestOpen? ==> s.threads[t].done < |s.threads[t].program|)
  }

  lemma BusyStep(s: State, step: ConcurrentLog.Step)
    requires Enabled(s, step) && Busy(s)
    ensures Busy(Next(s, step))
  {
    hide Effect, Piece, Current;
    assert Next(s, step).threads[step.t] == NextThread(s, step);
  }

  lemma {:induction false} RunBusy(max: nat, programs: seq<seq<Record>>, steps: seq<ConcurrentLog.Step>)
    requires ConcurrentLog.Run(max, programs, steps).Some?
    ensures Busy(ConcurrentLog.Run(max, programs, steps).value)
  {
    if steps != [] {
      hide Busy, Enabled, Next;
      RunBusy(max, programs, steps[..|steps| - 1]);
      BusyStep(ConcurrentLog.Run(max, programs, steps[..|steps| - 1]).value, steps[|steps| - 1]);
    }
  }

  /** No deadlock: the thread that holds the mutex can always take its next step. */
  lemma HolderCanMove(max: nat, programs: seq<seq<Record>>, steps: seq<ConcurrentLog.Step>)
    requires ConcurrentLog.Run(max, programs, steps).Some?
    requires ConcurrentLog.Run(max, programs, steps).value.lock.Some?
    ensures var s := ConcurrentLog.Run(max, programs, steps).value;
            Enabled(s, Step(s.lock.value, None, None))
  {
    RunInv(max, programs, steps);
    RunBusy(max, programs, steps);
    hide ConcurrentLog.Run, Descriptors, FilesInOrder;
  }

  // ---- Each thread's records ------------------------------------------------------------------

  /** A thread's writes: in submission order, at most one per record, each the start of its record. */
  ghost predicate InProgramOrder(own: seq<Entry>, th: Thread, t: nat) {
    && (forall j, k :: 0 <= j < k < |own| ==> own[j].index < own[k].index)
    && forall j :: 0 <= j < |own| ==>
         && own[j].thread == t && own[j].index < |th.program| && own[j].piece <= th.program[own[j].index]
         && (own[j].index < th.done || (own[j].index == th.done && th.pc.AddSize?))
  }

  /** Records written so far when nothing fails. */
  function Reached(th: Thread): nat { th.done + if th.pc.AddSize? then 1 else 0 }

  /** Thread `t` has written its first `n` records, each once and whole. */
  ghost predicate Complete(own: seq<Entry>, program: seq<Record>, n: nat, t: nat) {
    && |own| == n <= |program|
    && forall i :: 0 <= i < |own| ==> own[i].thread == t && own[i].index == i && own[i].piece == program[i]
  }

  ghost predicate Ordered(s: State) {
    forall t :: 0 <= t < |s.threads| ==>
      && InProgramOrder(Filter(s.written, By(t)), s.threads[t], t)
      && (!s.faulty ==> Complete(Filter(s.written, By(t)), s.threads[t].program, Reached(s.threads[t]), t))
  }

  /** While nothing has failed, every thread past the opening test finds the log open. */
  ghost predicate Ready(s: State) {
    !s.faulty ==>
      forall t :: 0 <= t < |s.threads| ==>
        && (s.threads[t].pc.StoreFirst? ==> s.threads[t].pc.fd > 0)
        && (s.threads[t].pc.TestOpen? || s.threads[t].pc.WaitFirst? || s.threads[t].pc.RetestOpen?
            || s.threads[t].pc.OpenFirst? || s.threads[t].pc.ResetFirst? || s.threads[t].pc.StoreFirst? || s.fd > 0)
  }

  /** Only a failed or short call makes a run faulty, and only a store changes the descriptor. */
  lemma SharedStep(s: State, step: ConcurrentLog.Step)
    requires Enabled(s, step)
    ensures var s', pc := Effect(s, step), s.threads[step.t].pc;
            && (s.faulty ==> s'.faulty)
            && s'.fd == (if pc.StoreFirst? then pc.fd else s.fd)
            && s'.written == (if pc.Appending? && step.wrote.Some?
                              then s.written + [Entry(step.t, s.threads[step.t].done,
                                                      Piece(Current(s.threads[step.t]), step.wrote.value))]
                              else s.written)
            && (!s'.faulty && pc.WriteRecord? ==> s.fd in s.table)
            && (!s'.faulty && pc.Appending? ==>
                  step.wrote.Some? && Piece(Current(s.threads[step.t]), step.wrote.value) == Current(s.threads[step.t]))
            && (!s'.faulty && (pc.OpenFirst? || pc.OpenNext?) ==> step.opens.Some?)
  {
    hide Piece, Current;
  }

  lemma FirstDescriptors(s: State, t: nat)
    requires Inv(s) && t < |s.threads|
    ensures var pc := s.threads[t].pc;
            && (pc.OpenFirst? || pc.ResetFirst? || pc.StoreFirst? ==> s.fd == -1)
            && (pc.ResetFirst? ==> pc.fd > 0)
  {
    assert Holds(s.threads[t].pc) ==> HolderPc(s) == Some(s.threads[t].pc);
    hide FilesInOrder, HolderPc;
  }

  lemma ReadyStep(s: State, step: ConcurrentLog.Step)
    requires Enabled(s, step) && Inv(s) && Ready(s)
    ensures Ready(Next(s, step))
  {
    SharedStep(s, step);
    ExclusiveStep(s, step);
    hide Effect, Piece, Current, FilesInOrder, HolderPc, Spare, Upcoming;
    var s' := Next(s, step);
    assert s'.fd == Effect(s, step).fd && s'.faulty == Effect(s, step).faulty;
    assert s'.threads[step.t] == NextThread(s, step);
    assert forall t :: 0 <= t < |s.threads| && t != step.t ==> s'.threads[t] == s.threads[t];
    assert s.threads[step.t].pc.ResetFirst? ==> s.threads[step.t].pc.fd > 0 by { FirstDescriptors(s, step.t); }
    assert s.threads[step.t].pc.StoreFirst? ==> s.fd == -1 by { FirstDescriptors(s, step.t); }
  }

  lemma OwnUnchanged(written: seq<Entry>, e: Entry, t: nat)
    requires e.thread != t
    ensures Filter(written + [e], By(t)) == Filter(written, By(t))
  {
    FilterSnoc(written, By(t), e);
    assert Filter(written, By(t)) + [] == Filter(written, By(t));
  }

  lemma PiecePrefix(log: Record, n: nat)
    ensures Piece(log, n) <= log
  {}

  /** A step that writes nothing finishes the call, or keeps the thread on the same record. */
  lemma ThreadStep(s: State, step: ConcurrentLog.Step)
    requires Enabled(s, step)
    ensures var th, th' := s.threads[step.t], NextThread(s, step);
            && th' == th.(pc := th'.pc, done := th'.done)
            && (th.pc.Appending? && step.wrote.Some? ==>
                  (th'.pc.AddSize? && th'.done == th.done) || (th'.pc.TestOpen? && th'.done == th.done + 1))
            && (th.pc.Appending? && step.wrote.None? ==> th'.pc.TestOpen? && th'.done == th.done + 1)
            && (th.pc.AddSize? || (th.pc.WriteRecord? && s.fd !in s.table) ==>
                  th'.pc.TestOpen? && th'.done == th.done + 1)
            && (!th.pc.Appending? && !th.pc.AddSize? && (th.pc.WriteRecord? ==> s.fd in s.table) ==>
                  th'.done == th.done && !th'.pc.AddSize?)
  {
    hide Piece, Current;
  }

  lemma OwnKept(own: seq<Entry>, th: Thread, t: nat, th': Thread)
    requires InProgramOrder(own, th, t) && th' == th.(pc := th'.pc, done := th'.done)
    requires (th'.done == th.done && !th.pc.AddSize?) || th'.done == th.done + 1
    ensures InProgramOrder(own, th', t)
    ensures Complete(own, th.program, Reached(th), t) && Reached(th') == Reached(th) ==>
              Complete(own, th'.program, Reached(th'), t)
  {}

  lemma OwnWrite(own: seq<Entry>, th: Thread, t: nat, e: Entry, th': Thread)
    requires InProgramOrder(own, th, t) && th.pc.Appending? && th.done < |th.program|
    requires e.thread == t && e.index == th.done && e.piece <= th.program[th.done]
    requires th' == th.(pc := th'.pc, done := th'.done)
    requires (th'.pc.AddSize? && th'.done == th.done) || (th'.pc.TestOpen? && th'.done == th.done + 1)
    ensures InProgramOrder(own + [e], th', t)
    ensures Complete(own, th.program, Reached(th), t) && e.piece == th.program[th.done] ==>
              Complete(own + [e], th'.program, Reached(th'), t)
  {}

  lemma {:induction false} OwnStep(s: State, step: ConcurrentLog.Step)
    requires Enabled(s, step) && Ordered(s)
    ensures var t, th', s' := step.t, NextThread(s, step), Effect(s, step);
            && InProgramOrder(Filter(s'.written, By(t)), th', t)
            && (!s'.faulty ==> Complete(Filter(s'.written, By(t)), th'.program, Reached(th'), t))
  {
    var t, th := step.t, s.threads[step.t];
    SharedStep(s, step);
    ThreadStep(s, step);
    if th.pc.Appending? && step.wrote.Some? {
      var e := Entry(t, th.done, Piece(Current(th), step.wrote.value));
      FilterSnoc(s.written, By(t), e);
      PiecePrefix(Current(th), step.wrote.value);
      hide Filter, Effect, Piece, Enabled, NextThread, InProgramOrder, Complete;
      OwnWrite(Filter(s.written, By(t)), th, t, e, NextThread(s, step));
    } else {
      hide Filter, Effect, Piece, NextThread, InProgramOrder, Complete;
      OwnKept(Filter(s.written, By(t)), th, t, NextThread(s, step));
    }
  }

  lemma {:induction false} OrderedStep(s: State, step: ConcurrentLog.Step)
    requires Enabled(s, step) && Ordered(s)
    ensures Ordered(Next(s, step))
  {
    OwnStep(s, step);
    SharedStep(s, step);
    var s' := Next(s, step);
    hide InProgramOrder, Complete, Filter, Effect, NextThread, Piece, Current;
    forall t | 0 <= t < |s.threads| && t != step.t
      ensures Filter(s'.written, By(t)) == Filter(s.written, By(t)) && s'.threads[t] == s.threads[t]
    {
      if s'.written != s.written { OwnUnchanged(s.written, s'.written[|s.written|], t); }
    }
  }

  lemma InitOrdered(max: nat, programs: seq<seq<Record>>)
    ensures Ordered(Init(max, programs)) && Ready(Init(max, programs))
  {}

  lemma {:induction false} RunOrdered(max: nat, programs: seq<seq<Record>>, steps: seq<ConcurrentLog.Step>)
    requires ConcurrentLog.Run(max, programs, steps).Some?
    ensures Ordered(ConcurrentLog.Run(max, programs, steps).value)
    ensures Ready(ConcurrentLog.Run(max, programs, steps).value)
  {
    if steps == [] {
      InitOrdered(max, programs);
    } else {
      hide Ordered, Ready, Inv, Enabled, Next;
      RunOrdered(max, programs, steps[..|steps| - 1]);
      RunInv(max, programs, steps[..|steps| - 1]);
      OrderedStep(ConcurrentLog.Run(max, programs, steps[..|steps| - 1]).value, steps[|steps| - 1]);
      ReadyStep(ConcurrentLog.Run(max, programs, steps[..|steps| - 1]).value, steps[|steps| - 1]);
    }
  }

  lemma {:induction false} ProgramsFixed(max: nat, programs: seq<seq<Record>>, steps: seq<ConcurrentLog.Step>)
    requires ConcurrentLog.Run(max, programs, steps).Some?
    ensures var s := ConcurrentLog.Run(max, programs, steps).value;
            |s.threads| == |programs| && forall t :: 0 <= t < |programs| ==> s.threads[t].program == programs[t]
  {
    if steps != [] {
      var before, step := ConcurrentLog.Run(max, programs, steps[..|steps| - 1]).value, steps[|steps| - 1];
      ProgramsFixed(max, programs, steps[..|steps| - 1]);
      ThreadStep(before, step);
      hide Enabled, Effect, NextThread;
    }
  }

  /** Every thread's records keep their submission order in the log.  As long as no open and no write
      has failed or fallen short, none is missing and each is whole, and no thread finds the log
      unopened when it writes. */
  lemma {:induction false} RecordsKeepTheirOrder(max: nat, programs: seq<seq<Record>>, steps: seq<ConcurrentLog.Step>,
                                                 t: nat)
    requires ConcurrentLog.Run(max, programs, steps).Some?
    requires t < |programs|
    ensures var s := ConcurrentLog.Run(max, programs, steps).value;
            && t < |s.threads| && s.threads[t].program == programs[t]
            && InProgramOrder(Filter(s.written, By(t)), s.threads[t], t)
            && (!s.faulty ==> Complete(Filter(s.written, By(t)), s.threads[t].program, Reached(s.threads[t]), t))
            && (!s.faulty && (s.threads[t].pc.WriteRecord? || s.threads[t].pc.Appending?) ==> s.fd > 0)
  {
    RunOrdered(max, programs, steps);
    ProgramsFixed(max, programs, steps);
    hide ConcurrentLog.Run, Filter, InProgramOrder, Complete;
  }

  // ---- The first file -------------------------------------------------------------------------

  /** The first file has been opened, stored or about to be. */
  predicate FirstTaken(s: State) {
    || s.fd > 0
    || (HolderPc(s).Some?
        && (HolderPc(s).value.ResetFirst? || (HolderPc(s).value.StoreFirst? && HolderPc(s).value.fd > 0)))
  }

  lemma FirstEffect(s: State, step: ConcurrentLog.Step)
    requires Enabled(s, step)
    ensures var s', pc := Effect(s, step), s.threads[step.t].pc;
            && s'.firstOpens == s.firstOpens + (if pc.OpenFirst? && step.opens.Some? then 1 else 0)
            && s'.fd == (if pc.StoreFirst? then pc.fd else s.fd)
  {
    hide Overtakes, Piece, Current;
  }

  lemma FirstThread(s: State, step: ConcurrentLog.Step)
    requires Enabled(s, step)
    ensures var pc, pc' := s.threads[step.t].pc, NextThread(s, step).pc;
            && (pc'.ResetFirst? <==> pc.OpenFirst? && step.opens.Some?)
            && (pc'.StoreFirst? <==> pc.ResetFirst? || (pc.OpenFirst? && step.opens.None?))
            && (pc'.StoreFirst? ==> pc'.fd == if pc.ResetFirst? then pc.fd else -1)
  {
    hide Piece, Current;
  }

  lemma FirstStep(s: State, step: ConcurrentLog.Step)
    requires Enabled(s, step) && Inv(s) && s.firstOpens == (if FirstTaken(s) then 1 else 0)
    ensures Next(s, step).firstOpens == (if FirstTaken(Next(s, step)) then 1 else 0)
  {
    ExclusiveStep(s, step);
    FirstEffect(s, step);
    FirstThread(s, step);
    FirstDescriptors(s, step.t);
    assert Next(s, step).threads[step.t] == NextThread(s, step);
    assert Next(s, step).firstOpens == Effect(s, step).firstOpens && Next(s, step).fd == Effect(s, step).fd;
    hide Inv, HolderPc, Next, Enabled, Effect, NextThread;
  }

  lemma OpenIsTaken(s: State)
    ensures s.fd > 0 ==> FirstTaken(s)
  {}

  /** The double check works: in every interleaving the initial file is opened with success at most
      once, and exactly once if the log is open. */
  lemma {:induction false} InitialFileOpenedOnce(max: nat, programs: seq<seq<Record>>, steps: seq<ConcurrentLog.Step>)
    requires ConcurrentLog.Run(max, programs, steps).Some?
    ensures var s := ConcurrentLog.Run(max, programs, steps).value;
            && s.firstOpens == (if FirstTaken(s) then 1 else 0)
            && (s.fd > 0 ==> s.firstOpens == 1)
  {
    if steps != [] {
      hide FirstTaken, Inv, Enabled, Next;
      InitialFileOpenedOnce(max, programs, steps[..|steps| - 1]);
      RunInv(max, programs, steps[..|steps| - 1]);
      FirstStep(ConcurrentLog.Run(max, programs, steps[..|steps| - 1]).value, steps[|steps| - 1]);
      OpenIsTaken(ConcurrentLog.Run(max, programs, steps).value);
    }
  }

  // ---- The counter ----------------------------------------------------------------------------

  function FileSize(file: seq<Entry>): nat {
    if file == [] then 0 else FileSize(file[..|file| - 1]) + |file[|file| - 1].piece|
  }

  /** Bytes a thread has written and not yet added to the counter. */
  function InFlight(th: Thread): nat { if th.pc.AddSize? then th.pc.n else 0 }

  function AllInFlight(threads: seq<Thread>): seq<nat> {
    seq(|threads|, t requires 0 <= t < |threads| => InFlight(threads[t]))
  }

  /** Between the reset of a rotation and its `dup2` the counter already belongs to the next file. */
  ghost predicate Counted(s: State) {
    s.currents == [] || (HolderPc(s).Some? && HolderPc(s).value.Duplicate?)
    || (s.currents[|s.currents| - 1] < |s.files|
        && FileSize(s.files[s.currents[|s.currents| - 1]]) <= s.size + Sum(AllInFlight(s.threads)))
  }

  lemma FlightUpdate(threads: seq<Thread>, t: nat, th: Thread)
    requires t < |threads|
    ensures Sum(AllInFlight(threads[t := th])) + InFlight(threads[t]) == Sum(AllInFlight(threads)) + InFlight(th)
  {
    assert AllInFlight(threads[t := th]) == AllInFlight(threads)[t := InFlight(th)];
    SumUpdate(AllInFlight(threads), t, InFlight(th));
  }

  lemma FileSizeSnoc(file: seq<Entry>, e: Entry)
    ensures FileSize(file + [e]) == FileSize(file) + |e.piece|
  {
    assert (file + [e])[..|file|] == file;
  }

  /** Size of the current file. */
  ghost function CurrentSize(s: State): nat {
    if s.currents != [] && s.currents[|s.currents| - 1] < |s.files| then FileSize(s.files[s.currents[|s.currents| - 1]])
    else 0
  }

  lemma SameSize(s: State, s': State)
    requires s'.files == s.files && s'.currents == s.currents
    ensures CurrentSize(s') == CurrentSize(s)
  {}

  /** An append adds its bytes to its own file, which may be the current one. */
  lemma AppendSizes(s: State, s': State, f: nat, e: Entry)
    requires FilesInOrder(s) && f < |s.files|
    requires s'.files == s.files[f := s.files[f] + [e]] && s'.currents == s.currents
    ensures CurrentSize(s') <= CurrentSize(s) + |e.piece|
  {
    FileSizeSnoc(s.files[f], e);
    hide FileSize;
  }

  /** The counter, the current file's size and the bytes in flight change together. */
  lemma SizesStep(s: State, step: ConcurrentLog.Step)
    requires Enabled(s, step) && Inv(s)
    ensures var s', th, th' := Effect(s, step), s.threads[step.t], NextThread(s, step);
            && (th.pc.Appending? ==> s'.size == s.size && CurrentSize(s') <= CurrentSize(s) + InFlight(th'))
            && (th.pc.AddSize? ==>
                  s'.size == s.size + InFlight(th) && CurrentSize(s') == CurrentSize(s) && InFlight(th') == 0)
            && (!th.pc.Appending? && !th.pc.AddSize? ==> InFlight(th) == 0 && InFlight(th') == 0)
            && (!th.pc.AddSize? ==> InFlight(th) == 0)
  {
    hide Exclusive, Descriptors, Resolved, HolderPc, CurrentSize, Piece, Current, Overtakes;
    if s.threads[step.t].pc.Appending? && step.wrote.Some? {
      AppendSizes(s, Effect(s, step), s.threads[step.t].pc.file, Effect(s, step).written[|s.written|]);
    }
    if s.threads[step.t].pc.AddSize? { SameSize(s, Effect(s, step)); }
    if s.threads[step.t].pc.Appending? && step.wrote.None? { SameSize(s, Effect(s, step)); }
  }

  lemma SizeKept(s: State, step: ConcurrentLog.Step)
    requires Enabled(s, step)
    ensures var s', pc := Effect(s, step), s.threads[step.t].pc;
            s'.size == s.size || pc.AddSize? || pc.ResetFirst? || pc.ResetNext?
  {
    hide Overtakes, Piece, Current;
  }

  lemma CurrentKept(s: State, step: ConcurrentLog.Step)
    requires Enabled(s, step) && FilesInOrder(s)
    requires !s.threads[step.t].pc.Appending? && !s.threads[step.t].pc.StoreFirst? && !s.threads[step.t].pc.Duplicate?
    ensures var s', pc := Effect(s, step), s.threads[step.t].pc;
            && s'.currents == s.currents && CurrentSize(s') == CurrentSize(s)
            && (s'.size == s.size || pc.AddSize? || pc.ResetFirst? || pc.ResetNext?)
  {
    SizeKept(s, step);
    ChangeStep(s, step);
    hide Effect, FileSize, NextThread, Overtakes;
  }

  /** A file just made current is empty. */
  lemma PromotedEmpty(s: State, step: ConcurrentLog.Step)
    requires Enabled(s, step) && Inv(s)
    requires s.threads[step.t].pc.StoreFirst? || s.threads[step.t].pc.Duplicate?
    ensures CurrentSize(Effect(s, step)) == 0
  {
    ExclusiveStep(s, step);
    hide Exclusive, HolderPc;
  }

  lemma ResetFirstUnopened(s: State, t: nat)
    requires Inv(s) && t < |s.threads| && s.threads[t].pc.ResetFirst?
    ensures s.currents == []
  {
    assert HolderPc(s) == Some(s.threads[t].pc);
    hide FilesInOrder, HolderPc, Exclusive;
  }

  ghost predicate Behind(s: State) {
    CurrentSize(s) <= s.size + Sum(AllInFlight(s.threads))
  }

  lemma BehindIs(s: State)
    requires FilesInOrder(s)
    ensures Counted(s) <==> Behind(s) || (HolderPc(s).Some? && HolderPc(s).value.Duplicate?)
  {
    hide Sum, FileSize, AllInFlight, HolderPc;
  }

  lemma NextSizes(s: State, step: ConcurrentLog.Step)
    requires Enabled(s, step)
    ensures var s', e := Next(s, step), Effect(s, step);
            && CurrentSize(s') == CurrentSize(e) && s'.size == e.size
            && Sum(AllInFlight(s'.threads)) + InFlight(s.threads[step.t])
               == Sum(AllInFlight(s.threads)) + InFlight(NextThread(s, step))
  {
    FlightUpdate(s.threads, step.t, NextThread(s, step));
    hide Effect, NextThread, Sum, AllInFlight, InFlight, FileSize;
  }

  lemma InvInOrder(s: State)
    requires Inv(s)
    ensures FilesInOrder(s)
  {}

  lemma BehindStep(s: State, step: ConcurrentLog.Step)
    requires Enabled(s, step) && Inv(s)
    requires Behind(s) || s.threads[step.t].pc.StoreFirst? || s.threads[step.t].pc.Duplicate?
    requires !s.threads[step.t].pc.ResetNext?
    ensures Behind(Next(s, step))
  {
    var pc := s.threads[step.t].pc;
    NextSizes(s, step);
    SizesStep(s, step);
    hide Inv, Sum, AllInFlight, Effect, NextThread, InFlight, Enabled, Next;
    if pc.StoreFirst? || pc.Duplicate? {
      PromotedEmpty(s, step);
    } else if !pc.Appending? && !pc.AddSize? {
      assert FilesInOrder(s) by { InvInOrder(s); }
      CurrentKept(s, step);
      if pc.ResetFirst? { ResetFirstUnopened(s, step.t); }
    }
    hide CurrentSize;
  }

  lemma RotationWindow(s: State, step: ConcurrentLog.Step)
    requires Enabled(s, step)
    ensures s.threads[step.t].pc.ResetNext? ==> Next(s, step).threads[step.t].pc.Duplicate?
    ensures s.threads[step.t].pc.WaitFirst? || s.threads[step.t].pc.TryLock? ==>
              !Next(s, step).threads[step.t].pc.Duplicate?
  {
    hide Effect, Piece, Current;
    assert Next(s, step).threads[step.t] == NextThread(s, step);
  }

  lemma CountedStep(s: State, step: ConcurrentLog.Step)
    requires Enabled(s, step) && Inv(s) && Counted(s)
    ensures Counted(Next(s, step))
  {
    var pc := s.threads[step.t].pc;
    ExclusiveStep(s, step);
    StepInv(s, step);
    RotationWindow(s, step);
    BehindIs(s);
    BehindIs(Next(s, step));
    hide Counted, Behind, Descriptors, FilesInOrder, Exclusive, HolderPc, Next, Enabled;
    if HolderPc(s).Some? && HolderPc(s).value.Duplicate? && !Holds(pc) {
      assert HolderPc(Next(s, step)) == HolderPc(s);
    } else if !pc.ResetNext? {
      BehindStep(s, step);
    }
  }

  lemma {:induction false} RunCounted(max: nat, programs: seq<seq<Record>>, steps: seq<ConcurrentLog.Step>)
    requires ConcurrentLog.Run(max, programs, steps).Some?
    ensures Counted(ConcurrentLog.Run(max, programs, steps).value)
  {
    if steps != [] {
      hide Counted, Inv, Enabled, Next;
      RunCounted(max, programs, steps[..|steps| - 1]);
      RunInv(max, programs, steps[..|steps| - 1]);
      CountedStep(ConcurrentLog.Run(max, programs, steps[..|steps| - 1]).value, steps[|steps| - 1]);
    }
  }

  lemma {:induction false} NoneInFlight(threads: seq<Thread>)
    requires forall t :: 0 <= t < |threads| ==> threads[t].pc.TestOpen?
    ensures Sum(AllInFlight(threads)) == 0
  {
    if threads != [] {
      var n := |threads| - 1;
      NoneInFlight(threads[..n]);
      assert AllInFlight(threads)[..n] == AllInFlight(threads[..n]);
    }
  }

  /** The shared counter never falls behind the current file by more than the writes whose bytes are not
      yet added, except inside the short window of a rotation.  So once all writers have returned, a
      file that reached the limit is seen to have reached it. */
  lemma CounterNeverFallsBehind(max: nat, programs: seq<seq<Record>>, steps: seq<ConcurrentLog.Step>)
    requires ConcurrentLog.Run(max, programs, steps).Some?
    ensures var s := ConcurrentLog.Run(max, programs, steps).value;
            && Counted(s)
            && (s.currents != [] && (forall t :: 0 <= t < |s.threads| ==> s.threads[t].pc.TestOpen?) ==>
                  s.currents[|s.currents| - 1] < |s.files| && FileSize(s.files[s.currents[|s.currents| - 1]]) <= s.size)
  {
    RunCounted(max, programs, steps);
    var s := ConcurrentLog.Run(max, programs, steps).value;
    if forall t :: 0 <= t < |s.threads| ==> s.threads[t].pc.TestOpen? {
      NoneInFlight(s.threads);
    }
    hide ConcurrentLog.Run, Sum, FileSize;
  }

  // ---- Progress -------------------------------------------------------------------------------

  /** Own steps from the start of a call, at least, to each place in it. */
  function Passed(pc: Pc): nat {
    match pc
    case TestOpen => 0
    case WaitFirst => 1
    case RetestOpen => 2
    case OpenFirst => 3
    case ResetFirst(_) => 4
    case StoreFirst(_) => 5
    case UnlockFirst => 6
    case TestSize => 7
    case TryLock => 8
    case OpenNext => 9
    case ResetNext(_) => 10
    case Duplicate(_) => 11
    case CloseTemp(_) => 12
    case UnlockNext => 13
    case WriteRecord => 14
    case Appending(_) => 15
    case AddSize(_) => 16
  }

  /** No call takes more than 17 steps of its thread. */
  const LONGEST_CALL := 17

  function Progress(th: Thread): nat { LONGEST_CALL * th.done + Passed(th.pc) }

  lemma StepProgresses(s: State, step: ConcurrentLog.Step)
    requires Enabled(s, step)
    ensures Progress(NextThread(s, step)) > Progress(s.threads[step.t])
  {
    hide Piece, Current;
  }

  function Steps(t: nat): ConcurrentLog.Step -> bool { (step: ConcurrentLog.Step) => step.t == t }

  lemma {:induction false} RunProgresses(max: nat, programs: seq<seq<Record>>, before: seq<ConcurrentLog.Step>,
                                         after: seq<ConcurrentLog.Step>, t: nat)
    requires ConcurrentLog.Run(max, programs, before + after).Some? && t < |programs|
    ensures ConcurrentLog.Run(max, programs, before).Some?
    ensures var s, s' := ConcurrentLog.Run(max, programs, before).value,
                         ConcurrentLog.Run(max, programs, before + after).value;
            && t < |s.threads| && t < |s'.threads|
            && Progress(s'.threads[t]) >= Progress(s.threads[t]) + Count(after, Steps(t))
  {
    if after == [] {
      assert before + after == before;
      ProgramsFixed(max, programs, before);
    } else {
      var init, step := after[..|after| - 1], after[|after| - 1];
      assert (before + after)[..|before + after| - 1] == before + init;
      RunProgresses(max, programs, before, init, t);
      var w := ConcurrentLog.Run(max, programs, before + init).value;
      StepProgresses(w, step);
      hide Enabled, NextThread, Effect, Progress;
    }
  }

  lemma CallFinished(th: Thread, th': Thread)
    requires Progress(th') >= Progress(th) + LONGEST_CALL
    ensures th'.done > th.done
  {}

  /** No call is endless: whatever the other threads do, and whoever holds the mutex, a thread that has taken 17
      steps since has finished the call it was in; a failed `try_lock` does not make it try again. */
  lemma CallsAreBounded(max: nat, programs: seq<seq<Record>>, before: seq<ConcurrentLog.Step>,
                        after: seq<ConcurrentLog.Step>, t: nat)
    requires ConcurrentLog.Run(max, programs, before + after).Some? && t < |programs|
    requires Count(after, Steps(t)) >= LONGEST_CALL
    ensures ConcurrentLog.Run(max, programs, before).Some?
    ensures var s, s' := ConcurrentLog.Run(max, programs, before).value,
                         ConcurrentLog.Run(max, programs, before + after).value;
            t < |s.threads| && t < |s'.threads| && s'.threads[t].done > s.threads[t].done
  {
    hide Count, Progress;
    RunProgresses(max, programs, before, after, t);
    hide ConcurrentLog.Run;
    CallFinished(ConcurrentLog.Run(max, programs, before).value.threads[t],
                 ConcurrentLog.Run(max, programs, before + after).value.threads[t]);
  }

  /** A thread with a call to make or to finish can take a step, whatever the outcome of its system call, unless it
      waits to open the first file while another thread holds the mutex; once the log is open, a thread that
      starts a call never comes to wait. */
  lemma {:induction false} WritersNeverWait(max: nat, programs: seq<seq<Record>>, steps: seq<ConcurrentLog.Step>,
                                            t: nat, wrote: Option<nat>)
    requires ConcurrentLog.Run(max, programs, steps).Some? && t < |programs|
    ensures var s := ConcurrentLog.Run(max, programs, steps).value;
            && t < |s.threads|
            && var th := s.threads[t];
            && (th.done < |th.program| && !(th.pc.WaitFirst? && s.lock.Some?) ==> Enabled(s, Step(t, None, wrote)))
            && (th.done < |th.program| && th.pc.TestOpen? && s.fd > 0 ==>
                  Next(s, Step(t, None, wrote)).threads[t].pc.TestSize?)
  {
    RunInv(max, programs, steps);
    ProgramsFixed(max, programs, steps);
    hide ConcurrentLog.Run, Descriptors, Exclusive, Effect;
  }
}
