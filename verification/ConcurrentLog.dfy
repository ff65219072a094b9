/** The rotating log file shared by many threads.  Each thread is a program counter inside `write_log`;
    threads interleave at every access to the shared descriptor, counter, mutex and file table; a write
    first looks its descriptor up and then appends to the file it found.  Opens and writes may fail, and
    writes may be short. */
module ConcurrentLog {
  import opened Sequences
  import opened LogFile

  datatype Pc =
    | TestOpen
    | WaitFirst
    | RetestOpen
    | OpenFirst
    | ResetFirst(fd: int)
    | StoreFirst(fd: int)
    | UnlockFirst
    | TestSize
    | TryLock
    | OpenNext
    | ResetNext(fd: int)
    | Duplicate(fd: int)
    | CloseTemp(fd: int)
    | UnlockNext
    | WriteRecord
    | Appending(file: nat)
    | AddSize(n: nat)

  /** A thread's records in submission order, how many calls are done, and where it is in the next. */
  datatype Thread = Thread(program: seq<Record>, done: nat, pc: Pc)

  /** One successful write: whose, which of its records, and the bytes that went out. */
  datatype Entry = Entry(thread: nat, index: nat, piece: Record)

  /** `currents` lists the files in the order they became the log's current file and `written` is the
      global order of successful writes; the fields from `firstOpens` on record the run. */
  datatype State = State(
    max: nat,
    threads: seq<Thread>,
    lock: Option<nat>,
    fd: int,
    size: nat,
    table: map<int, nat>,
    files: seq<seq<Entry>>,
    currents: seq<nat>,
    written: seq<Entry>,
    firstOpens: nat,
    faulty: bool,
    overtaken: bool)

  /** Thread `t` takes one step; `opens` and `wrote` are the results of its system call, if it makes one. */
  datatype Step = Step(t: nat, opens: Option<int>, wrote: Option<nat>)

  function Init(max: nat, programs: seq<seq<Record>>): State {
    State(max, seq(|programs|, t requires 0 <= t < |programs| => Thread(programs[t], 0, TestOpen)),
          None, -1, 0, map[], [], [], [], 0, false, false)
  }

  /** The record of the call in progress. */
  function Current(th: Thread): Record { if th.done < |th.program| then th.program[th.done] else "" }

  predicate Enabled(s: State, step: Step) {
    && step.t < |s.threads|
    && var th := s.threads[step.t];
    && th.done < |th.program|
    && (th.pc.WaitFirst? ==> s.lock.None?)
    && ((th.pc.OpenFirst? || th.pc.OpenNext?) && step.opens.Some? ==>
          step.opens.value > 0 && step.opens.value !in s.table)
    && (th.pc.Appending? ==> th.pc.file < |s.files|)
  }

  function Create(s: State, fd: int): State {
    s.(files := s.files + [[]], table := s.table[fd := |s.files|])
  }

  /** Where the step leaves its thread. */
  function NextThread(s: State, step: Step): Thread
    requires Enabled(s, step)
  {
    var th := s.threads[step.t];
    var finished := th.(pc := TestOpen, done := th.done + 1);
    match th.pc
    case TestOpen => th.(pc := if s.fd > 0 then TestSize else WaitFirst)
    case WaitFirst => th.(pc := RetestOpen)
    case RetestOpen => th.(pc := if s.fd > 0 then UnlockFirst else OpenFirst)
    case OpenFirst => th.(pc := if step.opens.Some? then ResetFirst(step.opens.value) else StoreFirst(-1))
    case ResetFirst(fd) => th.(pc := StoreFirst(fd))
    case StoreFirst(_) => th.(pc := UnlockFirst)
    case UnlockFirst => th.(pc := TestSize)
    case TestSize => th.(pc := if s.size >= s.max then TryLock else WriteRecord)
    case TryLock => th.(pc := if s.lock.None? then OpenNext else WriteRecord)
    case OpenNext => th.(pc := if step.opens.Some? then ResetNext(step.opens.value) else UnlockNext)
    case ResetNext(fd) => th.(pc := Duplicate(fd))
    case Duplicate(fd) => th.(pc := CloseTemp(fd))
    case CloseTemp(_) => th.(pc := UnlockNext)
    case UnlockNext => th.(pc := WriteRecord)
    case WriteRecord => if s.fd in s.table then th.(pc := Appending(s.table[s.fd])) else finished
    case Appending(_) =>
      if step.wrote.Some? && Piece(Current(th), step.wrote.value) != "" then
        th.(pc := AddSize(|Piece(Current(th), step.wrote.value)|))
      else finished
    case AddSize(_) => finished
  }

  predicate NonEmpty(s: State, f: nat) { f < |s.files| && s.files[f] != [] }

  /** A file that became current after `f` has already been written to. */
  predicate Overtakes(s: State, f: nat) {
    exists j, k :: 0 <= j < k < |s.currents| && s.currents[j] == f && NonEmpty(s, s.currents[k])
  }

  /** What the step does to everything shared. */
  function Effect(s: State, step: Step): State
    requires Enabled(s, step)
  {
    var th := s.threads[step.t];
    match th.pc
    case WaitFirst => s.(lock := Some(step.t))
    case OpenFirst =>
      if step.opens.Some? then Create(s, step.opens.value).(firstOpens := s.firstOpens + 1) else s.(faulty := true)
    case ResetFirst(_) => s.(size := 0)
    case StoreFirst(fd) =>
      s.(fd := fd, currents := if fd in s.table then s.currents + [s.table[fd]] else s.currents)
    case UnlockFirst => s.(lock := None)
    case TryLock => if s.lock.None? then s.(lock := Some(step.t)) else s
    case OpenNext => if step.opens.Some? then Create(s, step.opens.value) else s.(faulty := true)
    case ResetNext(_) => s.(size := 0)
    case Duplicate(fd) =>
      if fd in s.table && s.fd >= 0 then
        s.(table := s.table[s.fd := s.table[fd]], currents := s.currents + [s.table[fd]])
      else s
    case CloseTemp(fd) => s.(table := s.table - {fd})
    case UnlockNext => s.(lock := None)
    case WriteRecord => if s.fd in s.table then s else s.(faulty := true)
    case Appending(f) =>
      (match step.wrote
       case None => s.(faulty := true)
       case Some(n) =>
         var e := Entry(step.t, th.done, Piece(Current(th), n));
         s.(files := s.files[f := s.files[f] + [e]],
            written := s.written + [e],
            faulty := s.faulty || e.piece != Current(th),
            overtaken := s.overtaken || Overtakes(s, f)))
    case AddSize(n) => s.(size := s.size + n)
    case _ => s
  }

  function Next(s: State, step: Step): State
    requires Enabled(s, step)
  {
    Effect(s, step).(threads := s.threads[step.t := NextThread(s, step)])
  }

  function Run(max: nat, programs: seq<seq<Record>>, steps: seq<Step>): Option<State> {
    if steps == [] then Some(Init(max, programs))
    else
      match Run(max, programs, steps[..|steps| - 1])
      case None => None
      case Some(s) =>
        var step := steps[|steps| - 1];
        if Enabled(s, step) then Some(Next(s, step)) else None
  }

  // ---- What every step keeps ------------------------------------------------------------------

  /** Inside a critical section. */
  predicate Holds(pc: Pc) {
    pc.RetestOpen? || pc.OpenFirst? || pc.ResetFirst? || pc.StoreFirst? || pc.UnlockFirst?
    || pc.OpenNext? || pc.ResetNext? || pc.Duplicate? || pc.CloseTemp? || pc.UnlockNext?
  }

  /** The lock belongs to the one thread inside a critical section. */
  ghost predicate Exclusive(s: State) {
    && (s.lock.Some? ==> s.lock.value < |s.threads|)
    && forall t :: 0 <= t < |s.threads| ==> (Holds(s.threads[t].pc) <==> s.lock == Some(t))
  }

  /** The program counter of the lock's holder. */
  function HolderPc(s: State): Option<Pc> {
    if s.lock.Some? && s.lock.value < |s.threads| then Some(s.threads[s.lock.value].pc) else None
  }

  /** The descriptor a critical section has opened and not yet handed over or closed. */
  function Spare(pc: Option<Pc>): Option<int> {
    match pc
    case Some(ResetFirst(fd)) => Some(fd)
    case Some(StoreFirst(fd)) => if fd > 0 then Some(fd) else None
    case Some(ResetNext(fd)) => Some(fd)
    case Some(Duplicate(fd)) => Some(fd)
    case Some(CloseTemp(fd)) => Some(fd)
    case _ => None
  }

  /** A file has been created that may yet become current. */
  predicate Upcoming(pc: Option<Pc>) {
    && pc.Some?
    && (pc.value.ResetFirst? || (pc.value.StoreFirst? && pc.value.fd > 0) || pc.value.ResetNext?
        || pc.value.Duplicate?)
  }

  /** The descriptors in use are the log's own and the spare one, and the log's own refers to the file
      that became current last. */
  ghost predicate DescriptorsOf(fd: int, table: map<int, nat>, files: nat, currents: seq<nat>, pc: Option<Pc>) {
    && (fd == -1 || fd > 0)
    && (fd > 0 <==> currents != [])
    && (fd > 0 ==> fd in table && table[fd] == currents[|currents| - 1])
    && (Spare(pc).Some? ==> Spare(pc).value > 0 && Spare(pc).value in table && Spare(pc).value != fd)
    && (forall d :: d in table ==> d > 0 && (d == fd || Spare(pc) == Some(d)))
    && (Upcoming(pc) ==> Spare(pc).Some? && files > 0 && table[Spare(pc).value] == files - 1 && files - 1 !in currents)
    && (pc.Some? && (pc.value.OpenFirst? || pc.value.ResetFirst? || pc.value.StoreFirst?) ==> fd == -1)
    && (pc.Some? && pc.value.StoreFirst? ==> pc.value.fd > 0 || pc.value.fd == -1)
  }

  ghost predicate Descriptors(s: State) {
    DescriptorsOf(s.fd, s.table, |s.files|, s.currents, HolderPc(s))
  }

  ghost predicate FilesInOrder(s: State) {
    && (forall k :: 0 <= k < |s.currents| ==> s.currents[k] < |s.files|)
    && (forall j, k :: 0 <= j < k < |s.currents| ==> s.currents[j] != s.currents[k])
    && (forall f :: 0 <= f < |s.files| && f !in s.currents ==> s.files[f] == [])
  }

  /** The files that were current, in the order they became so. */
  function CurrentFiles(s: State): seq<seq<Entry>>
    requires forall k :: 0 <= k < |s.currents| ==> s.currents[k] < |s.files|
  {
    seq(|s.currents|, k requires 0 <= k < |s.currents| => s.files[s.currents[k]])
  }

  /** A write in progress goes to a file that is or was current. */
  ghost predicate Resolved(s: State) {
    forall t :: 0 <= t < |s.threads| && s.threads[t].pc.Appending? ==> s.threads[t].pc.file in s.currents
  }

  ghost predicate Inv(s: State) {
    Exclusive(s) && Descriptors(s) && FilesInOrder(s) && Resolved(s)
  }

  lemma InitInv(max: nat, programs: seq<seq<Record>>)
    ensures Inv(Init(max, programs))
  {}

  /** The mutex changes hands only at its own steps. */
  predicate Acquires(s: State, pc: Pc) { pc.WaitFirst? || (pc.TryLock? && s.lock.None?) }

  predicate Releases(pc: Pc) { pc.UnlockFirst? || pc.UnlockNext? }

  lemma LockStep(s: State, step: Step)
    requires Enabled(s, step)
    ensures var pc, pc' := s.threads[step.t].pc, Next(s, step).threads[step.t].pc;
            && |Next(s, step).threads| == |s.threads|
            && (forall t :: 0 <= t < |s.threads| && t != step.t ==> Next(s, step).threads[t] == s.threads[t])
            && Next(s, step).lock == (if Acquires(s, pc) then Some(step.t) else if Releases(pc) then None else s.lock)
            && (Holds(pc') <==> Acquires(s, pc) || (Holds(pc) && !Releases(pc)))
  {
    hide Current, Piece;
  }

  lemma ExclusiveStep(s: State, step: Step)
    requires Enabled(s, step) && Exclusive(s)
    ensures Exclusive(Next(s, step))
    ensures var pc, pc' := s.threads[step.t].pc, Next(s, step).threads[step.t].pc;
            && (Holds(pc) ==> HolderPc(s) == Some(pc))
            && (Acquires(s, pc) ==> HolderPc(s) == None)
            && HolderPc(Next(s, step)) ==
               if Acquires(s, pc) || (Holds(pc) && !Releases(pc)) then Some(pc')
               else if Releases(pc) then None
               else HolderPc(s)
  {
    LockStep(s, step);
    hide Next;
  }

  lemma SharedDescriptors(s: State, step: Step)
    requires Enabled(s, step)
    ensures var s', e := Next(s, step), Effect(s, step);
            s'.fd == e.fd && s'.table == e.table && s'.files == e.files && s'.currents == e.currents
  {
    hide Effect, NextThread;
  }

  lemma LockDescriptors(s: State, step: Step)
    requires Enabled(s, step) && FilesInOrder(s)
    requires var pc := s.threads[step.t].pc;
             (pc.RetestOpen? || Releases(pc)) && DescriptorsOf(s.fd, s.table, |s.files|, s.currents, Some(pc))
    ensures var e, pc := Effect(s, step), s.threads[step.t].pc;
            DescriptorsOf(e.fd, e.table, |e.files|, e.currents,
                          if Releases(pc) then None else Some(NextThread(s, step).pc))
  {
    hide Piece, Current;
  }

  lemma OpenDescriptors(s: State, step: Step)
    requires Enabled(s, step) && FilesInOrder(s)
    requires var pc := s.threads[step.t].pc;
             (pc.OpenFirst? || pc.OpenNext?) && DescriptorsOf(s.fd, s.table, |s.files|, s.currents, Some(pc))
    ensures var e, pc := Effect(s, step), s.threads[step.t].pc;
            DescriptorsOf(e.fd, e.table, |e.files|, e.currents,
                          if Releases(pc) then None else Some(NextThread(s, step).pc))
  {
    hide Piece, Current;
  }

  lemma HandOverDescriptors(s: State, step: Step)
    requires Enabled(s, step) && FilesInOrder(s)
    requires var pc := s.threads[step.t].pc;
             && (pc.ResetFirst? || pc.StoreFirst? || pc.ResetNext?)
             && DescriptorsOf(s.fd, s.table, |s.files|, s.currents, Some(pc))
    ensures var e, pc := Effect(s, step), s.threads[step.t].pc;
            DescriptorsOf(e.fd, e.table, |e.files|, e.currents,
                          if Releases(pc) then None else Some(NextThread(s, step).pc))
  {
    hide Piece, Current;
  }

  lemma ReplaceDescriptors(s: State, step: Step)
    requires Enabled(s, step) && FilesInOrder(s)
    requires var pc := s.threads[step.t].pc;
             (pc.Duplicate? || pc.CloseTemp?) && DescriptorsOf(s.fd, s.table, |s.files|, s.currents, Some(pc))
    ensures var e, pc := Effect(s, step), s.threads[step.t].pc;
            DescriptorsOf(e.fd, e.table, |e.files|, e.currents,
                          if Releases(pc) then None else Some(NextThread(s, step).pc))
  {
    hide Piece, Current;
  }

  /** What a step inside a critical section does to the descriptors. */
  lemma {:induction false} HeldDescriptors(s: State, step: Step)
    requires Enabled(s, step) && FilesInOrder(s)
    requires var pc := s.threads[step.t].pc;
             Holds(pc) && DescriptorsOf(s.fd, s.table, |s.files|, s.currents, Some(pc))
    ensures var e, pc := Effect(s, step), s.threads[step.t].pc;
            DescriptorsOf(e.fd, e.table, |e.files|, e.currents,
                          if Releases(pc) then None else Some(NextThread(s, step).pc))
  {
    var pc := s.threads[step.t].pc;
    hide Effect, NextThread, DescriptorsOf, FilesInOrder, Enabled;
    if pc.RetestOpen? || Releases(pc) { LockDescriptors(s, step); }
    else if pc.OpenFirst? || pc.OpenNext? { OpenDescriptors(s, step); }
    else if pc.Duplicate? || pc.CloseTemp? { ReplaceDescriptors(s, step); }
    else { HandOverDescriptors(s, step); }
  }

  /** A step outside leaves them alone, entering or not. */
  lemma OtherDescriptors(s: State, step: Step)
    requires Enabled(s, step) && !Holds(s.threads[step.t].pc)
    ensures var e := Effect(s, step);
            e.fd == s.fd && e.table == s.table && |e.files| == |s.files| && e.currents == s.currents
    ensures var pc, pc' := s.threads[step.t].pc, NextThread(s, step).pc;
            Acquires(s, pc) ==> Spare(Some(pc')).None? && !Upcoming(Some(pc')) && (pc'.RetestOpen? || pc'.OpenNext?)
  {
    hide Piece, Current;
  }

  lemma {:induction false} DescriptorsStep(s: State, step: Step)
    requires Enabled(s, step) && Exclusive(s) && Descriptors(s) && FilesInOrder(s)
    ensures Descriptors(Next(s, step))
  {
    ExclusiveStep(s, step);
    SharedDescriptors(s, step);
    assert Next(s, step).threads[step.t] == NextThread(s, step);
    hide Exclusive, HolderPc, Next, Effect, NextThread, Enabled, FilesInOrder;
    if Holds(s.threads[step.t].pc) {
      hide DescriptorsOf;
      HeldDescriptors(s, step);
    } else {
      OtherDescriptors(s, step);
    }
  }

  // ---- The files ------------------------------------------------------------------------------

  /** What a step does to the files. */
  datatype Change = Same | Created | Promoted(file: nat) | Appended(file: nat, entry: Entry)

  function ChangeOf(s: State, step: Step): Change
    requires Enabled(s, step)
  {
    var th := s.threads[step.t];
    match th.pc
    case OpenFirst => if step.opens.Some? then Created else Same
    case OpenNext => if step.opens.Some? then Created else Same
    case StoreFirst(fd) => if fd in s.table then Promoted(s.table[fd]) else Same
    case Duplicate(fd) => if fd in s.table && s.fd >= 0 then Promoted(s.table[fd]) else Same
    case Appending(f) =>
      if step.wrote.Some? then Appended(f, Entry(step.t, th.done, Piece(Current(th), step.wrote.value))) else Same
    case _ => Same
  }

  ghost predicate Changed(s: State, s': State, c: Change) {
    match c
    case Same => s'.files == s.files && s'.currents == s.currents && s'.written == s.written
                 && s'.overtaken == s.overtaken
    case Created => s'.files == s.files + [[]] && s'.currents == s.currents && s'.written == s.written
                    && s'.overtaken == s.overtaken
    case Promoted(f) => s'.files == s.files && s'.currents == s.currents + [f] && s'.written == s.written
                        && s'.overtaken == s.overtaken
    case Appended(f, e) => f < |s.files| && s'.files == s.files[f := s.files[f] + [e]] && s'.currents == s.currents
                           && s'.written == s.written + [e] && s'.overtaken == (s.overtaken || Overtakes(s, f))
  }

  /** A file is promoted once, and only a file that has been promoted is appended to. */
  ghost predicate Orderly(s: State, c: Change) {
    && (c.Promoted? ==> c.file < |s.files| && c.file !in s.currents)
    && (c.Appended? ==> c.file < |s.files| && c.file in s.currents)
  }

  lemma AppendChange(s: State, step: Step)
    requires Enabled(s, step) && s.threads[step.t].pc.Appending?
    ensures Changed(s, Effect(s, step), ChangeOf(s, step))
  {
    hide Piece, Current, Overtakes;
  }

  lemma OtherChange(s: State, step: Step)
    requires Enabled(s, step) && !s.threads[step.t].pc.Appending?
    ensures Changed(s, Effect(s, step), ChangeOf(s, step))
  {
    hide Piece, Current, Overtakes;
  }

  lemma ChangeStep(s: State, step: Step)
    requires Enabled(s, step)
    ensures Changed(s, Next(s, step), ChangeOf(s, step))
  {
    if s.threads[step.t].pc.Appending? { AppendChange(s, step); } else { OtherChange(s, step); }
    hide Effect, ChangeOf, Overtakes, NextThread;
  }

  lemma OrderlyStep(s: State, step: Step)
    requires Enabled(s, step) && Inv(s)
    ensures Orderly(s, ChangeOf(s, step))
  {
    ExclusiveStep(s, step);
    hide Exclusive, HolderPc, Piece, Current, Next;
  }

  lemma InOrderKept(s: State, s': State, c: Change)
    requires FilesInOrder(s) && Changed(s, s', c) && Orderly(s, c)
    ensures FilesInOrder(s')
  {}

  /** A write looks up the current file. */
  lemma Resolves(s: State, step: Step)
    requires Enabled(s, step) && Descriptors(s) && Next(s, step).threads[step.t].pc.Appending?
    ensures s.threads[step.t].pc.WriteRecord? && s.currents != []
    ensures Next(s, step).threads[step.t].pc.file == Last(s.currents)
  {
    hide Piece, Current, Effect, HolderPc, Spare, Upcoming;
    assert Next(s, step).threads[step.t] == NextThread(s, step);
  }

  lemma ResolvedStep(s: State, step: Step)
    requires Enabled(s, step) && Inv(s)
    ensures Resolved(Next(s, step))
  {
    var s' := Next(s, step);
    LockStep(s, step);
    ChangeStep(s, step);
    if s'.threads[step.t].pc.Appending? { Resolves(s, step); }
    hide Exclusive, Descriptors, FilesInOrder, ChangeOf, Next, Enabled;
    assert forall f :: f in s.currents ==> f in s'.currents;
  }

  /** Every step of every thread keeps the invariant. */
  lemma {:induction false} StepInv(s: State, step: Step)
    requires Enabled(s, step) && Inv(s)
    ensures Inv(Next(s, step))
  {
    ExclusiveStep(s, step);
    DescriptorsStep(s, step);
    ChangeStep(s, step);
    OrderlyStep(s, step);
    ResolvedStep(s, step);
    hide Exclusive, Descriptors, FilesInOrder, Resolved, Next, Changed, Orderly;
    InOrderKept(s, Next(s, step), ChangeOf(s, step));
  }

  lemma {:induction false} RunInv(max: nat, programs: seq<seq<Record>>, steps: seq<Step>)
    requires Run(max, programs, steps).Some?
    ensures Inv(Run(max, programs, steps).value)
  {
    if steps == [] {
      InitInv(max, programs);
    } else {
      hide Inv, Enabled, Next;
      RunInv(max, programs, steps[..|steps| - 1]);
      StepInv(Run(max, programs, steps[..|steps| - 1]).value, steps[|steps| - 1]);
    }
  }
}
