/** One thread alone: the steps of `write_log` in `ConcurrentLog`, run without interruption, do what
    `LogFile.WriteLogged` says, which is what the proxy object does.  Interrupted between its lookup and its
    append, a write is overtaken by a rotation. */
module SoloLog {
  import opened Sequences
  import opened LogFile
  import opened ConcurrentLog
  import LogOrder

  function Pieces(file: seq<Entry>): seq<Record> {
    seq(|file|, k requires 0 <= k < |file| => file[k].piece)
  }

  /** The shared state as one thread's proxy sees it. */
  function ToDisk(s: State): Disk {
    Disk(seq(|s.files|, f requires 0 <= f < |s.files| => Pieces(s.files[f])),
         if s.fd > 0 && s.fd in s.table then Some(s.table[s.fd]) else None,
         s.size)
  }

  /** The thread's next step when its calls end as given; `d` holds the descriptors the opens return. */
  function Own(s: State, t: nat, calls: Calls, d: (int, int)): ConcurrentLog.Step
    requires t < |s.threads|
  {
    var opens := if s.threads[t].pc.OpenFirst? then (if calls.firstOpens then Some(d.0) else None)
                 else if calls.nextOpens then Some(d.1) else None;
    Step(t, opens, if s.fd in s.table then calls.wrote else None)
  }

  function Solo(s: State, t: nat, calls: Calls, d: (int, int), n: nat): Option<State>
    decreases n
  {
    if n == 0 then Some(s)
    else if t < |s.threads| && Enabled(s, Own(s, t, calls, d)) then
      Solo(Next(s, Own(s, t, calls, d)), t, calls, d, n - 1)
    else None
  }

  lemma {:induction false} SoloMore(s: State, t: nat, calls: Calls, d: (int, int), m: nat, n: nat)
    requires Solo(s, t, calls, d, m).Some?
    ensures Solo(s, t, calls, d, m + n) == Solo(Solo(s, t, calls, d, m).value, t, calls, d, n)
    decreases m
  {
    hide Enabled, Next, Own;
    if m > 0 { SoloMore(Next(s, Own(s, t, calls, d)), t, calls, d, m - 1, n); }
  }

  ghost predicate Reaches(s: State, t: nat, calls: Calls, d: (int, int), s': State) {
    exists n: nat :: Solo(s, t, calls, d, n) == Some(s')
  }

  lemma ReachesHere(s: State, t: nat, calls: Calls, d: (int, int))
    ensures Reaches(s, t, calls, d, s)
  {
    assert Solo(s, t, calls, d, 0) == Some(s);
  }

  lemma ReachesStep(s: State, t: nat, calls: Calls, d: (int, int), s1: State)
    requires Reaches(s, t, calls, d, s1) && t < |s1.threads| && Enabled(s1, Own(s1, t, calls, d))
    ensures Reaches(s, t, calls, d, Next(s1, Own(s1, t, calls, d)))
  {
    hide Enabled, Next, Own;
    var n: nat :| Solo(s, t, calls, d, n) == Some(s1);
    SoloMore(s, t, calls, d, n, 1);
    var s2 := Next(s1, Own(s1, t, calls, d));
    assert Solo(s1, t, calls, d, 1) == Solo(s2, t, calls, d, 0) == Some(s2);
    assert Solo(s, t, calls, d, n + 1) == Some(s2);
  }

  lemma ReachesTrans(s: State, t: nat, calls: Calls, d: (int, int), s1: State, s2: State)
    requires Reaches(s, t, calls, d, s1) && Reaches(s1, t, calls, d, s2)
    ensures Reaches(s, t, calls, d, s2)
  {
    var m: nat :| Solo(s, t, calls, d, m) == Some(s1);
    var n: nat :| Solo(s1, t, calls, d, n) == Some(s2);
    SoloMore(s, t, calls, d, m, n);
    assert Solo(s, t, calls, d, m + n) == Some(s2);
  }

  /** The same state with thread `t` at another place in its call. */
  function Moved(s: State, t: nat, pc: Pc): State
    requires t < |s.threads|
  {
    s.(threads := s.threads[t := s.threads[t].(pc := pc)])
  }

  ghost predicate Calling(s: State, t: nat) {
    t < |s.threads| && s.threads[t].done < |s.threads[t].program|
  }

  /** The first test and, if the log is not open, the mutex and the second test. */
  lemma SoloEnter(s: State, t: nat, calls: Calls, d: (int, int))
    requires Calling(s, t) && s.threads[t].pc.TestOpen? && s.lock.None?
    ensures s.fd > 0 ==> Reaches(s, t, calls, d, Moved(s, t, TestSize))
    ensures s.fd <= 0 ==> Reaches(s, t, calls, d, Moved(s.(lock := Some(t)), t, OpenFirst))
  {
    var s1 := Next(s, Own(s, t, calls, d));
    ReachesHere(s, t, calls, d);
    hide Reaches, Solo, Piece;
    ReachesStep(s, t, calls, d, s);
    if s.fd > 0 {
      assert s1 == Moved(s, t, TestSize);
    } else {
      assert s1 == Moved(s, t, WaitFirst);
      ReachesStep(s, t, calls, d, s1);
      var s2 := Next(s1, Own(s1, t, calls, d));
      assert s2 == Moved(s.(lock := Some(t)), t, RetestOpen);
      ReachesStep(s, t, calls, d, s2);
      assert Next(s2, Own(s2, t, calls, d)) == Moved(s.(lock := Some(t)), t, OpenFirst);
    }
  }

  lemma SoloOpenFails(s: State, t: nat, calls: Calls, d: (int, int))
    requires Calling(s, t) && s.threads[t].pc.OpenFirst? && s.fd == -1 && -1 !in s.table && !calls.firstOpens
    ensures Reaches(s, t, calls, d, Moved(s.(lock := None, faulty := true), t, TestSize))
  {
    var s1 := Next(s, Own(s, t, calls, d));
    ReachesHere(s, t, calls, d);
    hide Reaches, Solo, Piece;
    ReachesStep(s, t, calls, d, s);
    assert s1 == Moved(s.(faulty := true), t, StoreFirst(-1));
    ReachesStep(s, t, calls, d, s1);
    var s2 := Next(s1, Own(s1, t, calls, d));
    assert s2 == Moved(s.(faulty := true), t, UnlockFirst);
    ReachesStep(s, t, calls, d, s2);
    assert Next(s2, Own(s2, t, calls, d)) == Moved(s.(lock := None, faulty := true), t, TestSize);
  }

  /** The first open, the reset, the store and the release of the mutex. */
  lemma SoloOpen(s: State, t: nat, calls: Calls, d: (int, int))
    requires Calling(s, t) && s.threads[t].pc.OpenFirst? && s.fd == -1 && calls.firstOpens
    requires d.0 > 0 && d.0 !in s.table
    ensures Reaches(s, t, calls, d,
                    Moved(Create(s, d.0).(lock := None, fd := d.0, size := 0, currents := s.currents + [|s.files|],
                                        firstOpens := s.firstOpens + 1), t, TestSize))
  {
    var s1 := Next(s, Own(s, t, calls, d));
    ReachesHere(s, t, calls, d);
    hide Reaches, Solo, Piece;
    ReachesStep(s, t, calls, d, s);
    var made := Create(s, d.0).(firstOpens := s.firstOpens + 1);
    assert s1 == Moved(made, t, ResetFirst(d.0));
    ReachesStep(s, t, calls, d, s1);
    var s2 := Next(s1, Own(s1, t, calls, d));
    assert s2 == Moved(made.(size := 0), t, StoreFirst(d.0));
    ReachesStep(s, t, calls, d, s2);
    var s3 := Next(s2, Own(s2, t, calls, d));
    assert s3 == Moved(made.(size := 0, fd := d.0, currents := s.currents + [|s.files|]), t, UnlockFirst);
    ReachesStep(s, t, calls, d, s3);
    assert Next(s3, Own(s3, t, calls, d)) ==
           Moved(made.(lock := None, size := 0, fd := d.0, currents := s.currents + [|s.files|]), t, TestSize);
  }

  /** The size test and, at the limit, a rotation nobody contends for. */
  lemma SoloRotate(s: State, t: nat, calls: Calls, d: (int, int))
    requires Calling(s, t) && s.threads[t].pc.TestSize? && s.lock.None?
    requires (s.fd == -1 || (s.fd > 0 && s.fd in s.table)) && d.1 > 0 && d.1 !in s.table
    ensures s.size < s.max ==> Reaches(s, t, calls, d, Moved(s, t, WriteRecord))
    ensures s.size >= s.max ==> Reaches(s, t, calls, d, Moved(s.(lock := Some(t)), t, OpenNext))
  {
    var s1 := Next(s, Own(s, t, calls, d));
    ReachesHere(s, t, calls, d);
    hide Reaches, Solo, Piece;
    ReachesStep(s, t, calls, d, s);
    if s.size < s.max {
      assert s1 == Moved(s, t, WriteRecord);
    } else {
      assert s1 == Moved(s, t, TryLock);
      ReachesStep(s, t, calls, d, s1);
      assert Next(s1, Own(s1, t, calls, d)) == Moved(s.(lock := Some(t)), t, OpenNext);
    }
  }

  /** What a whole rotation leaves behind. */
  function Replaced(s: State, d: int): State {
    var next := s.(lock := None, files := s.files + [[]], size := 0);
    if s.fd >= 0 then
      next.(table := s.table[d := |s.files|][s.fd := |s.files|] - {d}, currents := s.currents + [|s.files|])
    else next.(table := s.table[d := |s.files|] - {d})
  }

  /** The open of a rotation and, if it succeeds, the reset of the counter. */
  lemma SoloCreate(s: State, t: nat, calls: Calls, d: (int, int))
    requires Calling(s, t) && s.threads[t].pc.OpenNext? && s.lock == Some(t) && d.1 > 0 && d.1 !in s.table
    ensures calls.nextOpens ==> Reaches(s, t, calls, d, Moved(Create(s, d.1).(size := 0), t, Duplicate(d.1)))
    ensures !calls.nextOpens ==> Reaches(s, t, calls, d, Moved(s.(lock := None, faulty := true), t, WriteRecord))
  {
    var s1 := Next(s, Own(s, t, calls, d));
    ReachesHere(s, t, calls, d);
    hide Reaches, Solo, Piece;
    ReachesStep(s, t, calls, d, s);
    if calls.nextOpens {
      assert s1 == Moved(Create(s, d.1), t, ResetNext(d.1));
      ReachesStep(s, t, calls, d, s1);
      assert Next(s1, Own(s1, t, calls, d)) == Moved(Create(s, d.1).(size := 0), t, Duplicate(d.1));
    } else {
      assert s1 == Moved(s.(faulty := true), t, UnlockNext);
      ReachesStep(s, t, calls, d, s1);
      assert Next(s1, Own(s1, t, calls, d)) == Moved(s.(lock := None, faulty := true), t, WriteRecord);
    }
  }

  lemma SoloTidy(s: State, t: nat, calls: Calls, d: (int, int), w: State)
    requires Calling(w, t) && Reaches(s, t, calls, d, Moved(w, t, CloseTemp(d.1)))
    ensures Reaches(s, t, calls, d, Moved(w.(table := w.table - {d.1}, lock := None), t, WriteRecord))
  {
    hide Reaches, Solo, Piece;
    var s1 := Moved(w, t, CloseTemp(d.1));
    ReachesStep(s, t, calls, d, s1);
    var s2 := Next(s1, Own(s1, t, calls, d));
    assert s2 == Moved(w.(table := w.table - {d.1}), t, UnlockNext);
    ReachesStep(s, t, calls, d, s2);
    assert Next(s2, Own(s2, t, calls, d)) == Moved(w.(table := w.table - {d.1}, lock := None), t, WriteRecord);
  }

  lemma SoloReplace(s: State, t: nat, calls: Calls, d: (int, int))
    requires Calling(s, t) && s.threads[t].pc.OpenNext? && s.lock == Some(t)
    requires (s.fd == -1 || s.fd > 0) && d.1 > 0 && d.1 !in s.table && d.1 != s.fd
    ensures calls.nextOpens ==> Reaches(s, t, calls, d, Moved(Replaced(s, d.1), t, WriteRecord))
    ensures !calls.nextOpens ==> Reaches(s, t, calls, d, Moved(s.(lock := None, faulty := true), t, WriteRecord))
  {
    SoloCreate(s, t, calls, d);
    hide Reaches, Solo, Piece;
    if calls.nextOpens {
      var made := Create(s, d.1).(size := 0);
      var s2 := Moved(made, t, Duplicate(d.1));
      ReachesStep(s, t, calls, d, s2);
      var swapped := if s.fd >= 0 then
                       made.(table := made.table[s.fd := |s.files|], currents := s.currents + [|s.files|])
                     else made;
      assert Next(s2, Own(s2, t, calls, d)) == Moved(swapped, t, CloseTemp(d.1));
      SoloTidy(s, t, calls, d, swapped);
      assert swapped.(table := swapped.table - {d.1}, lock := None) == Replaced(s, d.1);
    }
  }

  lemma PieceWhole(log: Record)
    ensures Piece(log, |log|) == log
  {}

  /** The lookup, the append and, if bytes went out, the addition to the counter. */
  lemma SoloWrite(s: State, t: nat, calls: Calls, d: (int, int)) returns (s': State)
    requires Calling(s, t) && s.threads[t].pc.WriteRecord?
    requires s.fd in s.table ==> s.table[s.fd] < |s.files|
    ensures Reaches(s, t, calls, d, s')
    ensures s'.threads == s.threads[t := s.threads[t].(pc := TestOpen, done := s.threads[t].done + 1)]
    ensures s'.lock == s.lock && s'.max == s.max
    ensures var log := s.threads[t].program[s.threads[t].done];
            if s.fd in s.table && calls.wrote.Some? then
              && var piece := Piece(log, calls.wrote.value);
              && s'.files == s.files[s.table[s.fd] := s.files[s.table[s.fd]] + [Entry(t, s.threads[t].done, piece)]]
              && s'.size == s.size + |piece| && s'.fd == s.fd && s'.table == s.table
            else s'.files == s.files && s'.size == s.size && s'.fd == s.fd && s'.table == s.table
    ensures s.fd in s.table && calls.wrote == Some(|s.threads[t].program[s.threads[t].done]|) ==> s'.faulty == s.faulty
  {
    PieceWhole(s.threads[t].program[s.threads[t].done]);
    ReachesHere(s, t, calls, d);
    hide Reaches, Solo, Piece, Overtakes;
    ReachesStep(s, t, calls, d, s);
    s' := Next(s, Own(s, t, calls, d));
    if s.fd in s.table {
      assert s' == Moved(s, t, Appending(s.table[s.fd]));
      ReachesStep(s, t, calls, d, s');
      s' := Next(s', Own(s', t, calls, d));
    }
    if s'.threads[t].pc.AddSize? {
      ReachesStep(s, t, calls, d, s');
      s' := Next(s', Own(s', t, calls, d));
    }
  }

  // ---- As seen by the proxy -------------------------------------------------------------------

  lemma DiskOfCreated(s: State)
    ensures ToDisk(s.(files := s.files + [[]])).files == ToDisk(s).files + [[]]
  {
    var a, b := ToDisk(s.(files := s.files + [[]])).files, ToDisk(s).files + [[]];
    assert Pieces([]) == [];
    forall f | 0 <= f < |a|
      ensures a[f] == b[f]
    {}
  }

  lemma DiskOfWritten(s: State, f: nat, e: Entry)
    requires f < |s.files|
    ensures ToDisk(s.(files := s.files[f := s.files[f] + [e]])).files
            == ToDisk(s).files[f := ToDisk(s).files[f] + [e.piece]]
  {
    assert Pieces(s.files[f] + [e]) == Pieces(s.files[f]) + [e.piece];
  }

  /** The descriptors of a calm state. */
  ghost predicate Calm(s: State) {
    && s.lock.None?
    && (s.fd == -1 || (s.fd > 0 && s.fd in s.table && s.table[s.fd] < |s.files|))
    && (forall x :: x in s.table ==> x == s.fd && x > 0)
  }

  lemma SoloFirst(s: State, t: nat, calls: Calls, d: (int, int)) returns (s': State)
    requires Calling(s, t) && s.threads[t].pc.TestOpen? && Calm(s) && d.0 > 0 && d.0 !in s.table
    ensures Reaches(s, t, calls, d, s') && Calm(s') && s'.max == s.max
    ensures s'.threads == s.threads[t := s.threads[t].(pc := TestSize)]
    ensures ToDisk(s') == FirstOpened(ToDisk(s), calls.firstOpens)
    ensures s'.fd == s.fd || s'.fd == d.0
    ensures calls.firstOpens ==> s'.faulty == s.faulty && s'.fd in s'.table
  {
    SoloEnter(s, t, calls, d);
    hide Reaches;
    if s.fd > 0 {
      s' := Moved(s, t, TestSize);
      assert ToDisk(s').files == ToDisk(s).files;
    } else {
      var s1 := Moved(s.(lock := Some(t)), t, OpenFirst);
      if calls.firstOpens { SoloOpen(s1, t, calls, d); } else { SoloOpenFails(s1, t, calls, d); }
      DiskOfCreated(s);
      if calls.firstOpens {
        s' := Moved(Create(s1, d.0).(lock := None, fd := d.0, size := 0, currents := s1.currents + [|s1.files|],
                                     firstOpens := s1.firstOpens + 1), t, TestSize);
        assert ToDisk(s').files == ToDisk(s.(files := s.files + [[]])).files;
      } else {
        s' := Moved(s1.(lock := None, faulty := true), t, TestSize);
        assert ToDisk(s').files == ToDisk(s).files;
      }
      ReachesTrans(s, t, calls, d, s1, s');
    }
  }

  lemma SoloNext(s: State, t: nat, calls: Calls, d: (int, int)) returns (s': State)
    requires Calling(s, t) && s.threads[t].pc.TestSize? && Calm(s) && d.1 > 0 && d.1 !in s.table
    ensures Reaches(s, t, calls, d, s') && Calm(s') && s'.max == s.max
    ensures s'.threads == s.threads[t := s.threads[t].(pc := WriteRecord)]
    ensures ToDisk(s') == Rotated(ToDisk(s), s.max, calls.nextOpens)
    ensures calls.nextOpens ==> s'.faulty == s.faulty && (s.fd in s.table ==> s'.fd in s'.table)
  {
    SoloRotate(s, t, calls, d);
    hide Reaches;
    if s.size < s.max {
      s' := Moved(s, t, WriteRecord);
      assert ToDisk(s').files == ToDisk(s).files;
    } else {
      var s1 := Moved(s.(lock := Some(t)), t, OpenNext);
      SoloReplace(s1, t, calls, d);
      DiskOfCreated(s);
      if calls.nextOpens {
        s' := Moved(Replaced(s1, d.1), t, WriteRecord);
        assert ToDisk(s').files == ToDisk(s.(files := s.files + [[]])).files;
      } else {
        s' := Moved(s1.(lock := None, faulty := true), t, WriteRecord);
        assert ToDisk(s').files == ToDisk(s).files;
      }
      ReachesTrans(s, t, calls, d, s1, s');
    }
  }

  lemma NotInTable(s: State, s': State, d: (int, int))
    requires Calm(s) && Calm(s') && (s'.fd == s.fd || s'.fd == d.0) && d.0 != d.1 && d.1 > 0 && d.1 !in s.table
    ensures d.1 !in s'.table
  {}

  /** The write as the proxy sees it. */
  lemma SoloLast(s: State, t: nat, calls: Calls, d: (int, int)) returns (s': State)
    requires Calling(s, t) && s.threads[t].pc.WriteRecord? && Calm(s)
    ensures Reaches(s, t, calls, d, s') && Calm(s') && s'.max == s.max
    ensures s'.threads == s.threads[t := s.threads[t].(pc := TestOpen, done := s.threads[t].done + 1)]
    ensures ToDisk(s') == Written(ToDisk(s), s.threads[t].program[s.threads[t].done], calls.wrote)
    ensures s.fd in s.table && calls.wrote == Some(|s.threads[t].program[s.threads[t].done]|) ==> s'.faulty == s.faulty
  {
    s' := SoloWrite(s, t, calls, d);
    hide Reaches, Piece;
    if s.fd in s.table && calls.wrote.Some? {
      var e := Entry(t, s.threads[t].done, Piece(s.threads[t].program[s.threads[t].done], calls.wrote.value));
      DiskOfWritten(s, s.table[s.fd], e);
      assert ToDisk(s').files == ToDisk(s.(files := s'.files)).files;
    } else {
      assert ToDisk(s').files == ToDisk(s).files;
    }
  }

  /** A call that no other thread interrupts returns, with the files, the current file and the counter
      the one-thread model gives. */
  lemma UninterruptedCall(s: State, t: nat, calls: Calls, d: (int, int)) returns (s': State)
    requires Calling(s, t) && s.threads[t].pc.TestOpen? && Calm(s)
    requires d.0 > 0 && d.1 > 0 && d.0 != d.1 && d.0 !in s.table && d.1 !in s.table
    ensures Reaches(s, t, calls, d, s') && Calm(s') && s'.max == s.max
    ensures s'.threads == s.threads[t := s.threads[t].(done := s.threads[t].done + 1)]
    ensures ToDisk(s') == WriteLogged(ToDisk(s), s.max, s.threads[t].program[s.threads[t].done], calls)
    ensures calls == Calls(true, true, Some(|s.threads[t].program[s.threads[t].done]|)) ==> s'.faulty == s.faulty
  {
    var s1 := SoloFirst(s, t, calls, d);
    NotInTable(s, s1, d);
    var s2 := SoloNext(s1, t, calls, d);
    s' := SoloLast(s2, t, calls, d);
    hide Reaches, FirstOpened, Rotated, Written, ToDisk, Calm;
    ReachesTrans(s, t, calls, d, s1, s2);
    ReachesTrans(s, t, calls, d, s2, s');
  }

  // ---- A write overtaken ----------------------------------------------------------------------

  ghost predicate Reachable(max: nat, programs: seq<seq<Record>>, s: State) {
    exists steps :: ConcurrentLog.Run(max, programs, steps) == Some(s)
  }

  lemma ReachNext(max: nat, programs: seq<seq<Record>>, s: State, step: ConcurrentLog.Step)
    requires Reachable(max, programs, s) && Enabled(s, step)
    ensures Reachable(max, programs, Next(s, step))
  {
    var steps :| ConcurrentLog.Run(max, programs, steps) == Some(s);
    hide Enabled, Next;
    assert (steps + [step])[..|steps|] == steps;
    assert ConcurrentLog.Run(max, programs, steps + [step]) == Some(Next(s, step));
  }

  lemma {:induction false} ReachSolo(max: nat, programs: seq<seq<Record>>, s: State, t: nat, calls: Calls,
                                     d: (int, int), n: nat)
    requires Reachable(max, programs, s) && Solo(s, t, calls, d, n).Some?
    ensures Reachable(max, programs, Solo(s, t, calls, d, n).value)
    decreases n
  {
    hide Reachable, Enabled, Next, Own;
    if n > 0 {
      ReachNext(max, programs, s, Own(s, t, calls, d));
      ReachSolo(max, programs, Next(s, Own(s, t, calls, d)), t, calls, d, n - 1);
    }
  }

  lemma ReachAlone(max: nat, programs: seq<seq<Record>>, s: State, t: nat, calls: Calls, d: (int, int), s': State)
    requires Reachable(max, programs, s) && Reaches(s, t, calls, d, s')
    ensures Reachable(max, programs, s')
  {
    var n: nat :| Solo(s, t, calls, d, n) == Some(s');
    hide Reachable;
    ReachSolo(max, programs, s, t, calls, d, n);
  }

  /** Every call succeeds and writes one byte. */
  const ONE_BYTE := Calls(true, true, Some(1))

  const PROGRAMS: seq<seq<Record>> := [["a"], ["b", "c"]]

  /** Two unused descriptors. */
  function Unused(s: State): (int, int) { if s.fd > 0 then (s.fd + 1, s.fd + 2) else (1, 2) }

  /** Thread 0 has looked its descriptor up and found file 0; no call has failed. */
  ghost predicate LookedUp(s: State, done: nat) {
    && s.max == 1 && Calm(s) && !s.faulty
    && s.threads == [Thread(PROGRAMS[0], 0, Appending(0)), Thread(PROGRAMS[1], done, TestOpen)]
  }

  lemma LookUp() returns (s: State)
    ensures Reachable(1, PROGRAMS, s) && LookedUp(s, 0) && ToDisk(s) == Disk([[]], Some(0), 0)
  {
    var s0 := Init(1, PROGRAMS);
    assert ConcurrentLog.Run(1, PROGRAMS, []) == Some(s0);
    assert s0.threads == [Thread(PROGRAMS[0], 0, TestOpen), Thread(PROGRAMS[1], 0, TestOpen)];
    assert ToDisk(s0) == EMPTY_DISK;
    var s1 := SoloFirst(s0, 0, ONE_BYTE, Unused(s0));
    var s2 := SoloNext(s1, 0, ONE_BYTE, Unused(s1));
    hide Reachable, Reaches, ConcurrentLog.Run;
    ReachAlone(1, PROGRAMS, s0, 0, ONE_BYTE, Unused(s0), s1);
    ReachAlone(1, PROGRAMS, s1, 0, ONE_BYTE, Unused(s1), s2);
    ReachNext(1, PROGRAMS, s2, Step(0, None, None));
    s := Next(s2, Step(0, None, None));
    assert ToDisk(s) == ToDisk(s2);
  }

  lemma DisksOfOvertake()
    ensures WriteLogged(Disk([[]], Some(0), 0), 1, "b", ONE_BYTE) == Disk([["b"]], Some(0), 1)
    ensures WriteLogged(Disk([["b"]], Some(0), 1), 1, "c", ONE_BYTE) == Disk([["b"], ["c"]], Some(1), 1)
  {
    assert Piece("b", 1) == "b" && Piece("c", 1) == "c";
    var first := WriteLogged(Disk([[]], Some(0), 0), 1, "b", ONE_BYTE);
    assert |first.files| == 1 && first.files[0] == ["b"];
    var second := WriteLogged(Disk([["b"]], Some(0), 1), 1, "c", ONE_BYTE);
    assert |second.files| == 2 && second.files[0] == ["b"] && second.files[1] == ["c"];
  }

  /** Thread 1 then writes a record that fills file 0, and one that goes to the next file. */
  lemma Overtake() returns (s: State)
    ensures Reachable(1, PROGRAMS, s) && LookedUp(s, 2) && ToDisk(s) == Disk([["b"], ["c"]], Some(1), 1)
  {
    var s1 := LookUp();
    var s2 := UninterruptedCall(s1, 1, ONE_BYTE, Unused(s1));
    DisksOfOvertake();
    s := UninterruptedCall(s2, 1, ONE_BYTE, Unused(s2));
    hide Reachable, Reaches, ToDisk, WriteLogged;
    ReachAlone(1, PROGRAMS, s1, 1, ONE_BYTE, Unused(s1), s2);
    ReachAlone(1, PROGRAMS, s2, 1, ONE_BYTE, Unused(s2), s);
  }

  lemma OvertakenInState(s: State)
    requires Inv(s) && ToDisk(s) == Disk([["b"], ["c"]], Some(1), 1)
    ensures |s.files| == 2 && Overtakes(s, 0)
  {
    assert Pieces(s.files[0]) == ToDisk(s).files[0] && Pieces(s.files[1]) == ToDisk(s).files[1];
    var j :| 0 <= j < |s.currents| && s.currents[j] == 0;
    assert Last(s.currents) == 1 && NonEmpty(s, Last(s.currents));
  }

  lemma NotLinear(s: State)
    requires Reachable(1, PROGRAMS, s) && s.overtaken
    ensures FilesInOrder(s) && Concat(CurrentFiles(s)) != s.written
  {
    var steps :| ConcurrentLog.Run(1, PROGRAMS, steps) == Some(s);
    LogOrder.RotationIsLinear(1, PROGRAMS, steps);
    hide ConcurrentLog.Run, Concat;
  }

  /** A run without a failed call in which the files end to end are not the order of the writes: a thread
      looks the current file up, another fills it, rotates and writes to the next one, and only then does the
      first append. */
  lemma ARotationCanOvertakeAWrite()
    ensures exists s :: Reachable(1, PROGRAMS, s) && !s.faulty && FilesInOrder(s) &&
                        Concat(CurrentFiles(s)) != s.written
  {
    var s := Overtake();
    var steps :| ConcurrentLog.Run(1, PROGRAMS, steps) == Some(s);
    RunInv(1, PROGRAMS, steps);
    OvertakenInState(s);
    hide Reachable, ConcurrentLog.Run, Concat, Overtakes;
    var step := Step(0, None, Some(1));
    ReachNext(1, PROGRAMS, s, step);
    var s' := Next(s, step);
    PieceWhole("a");
    assert s'.overtaken && !s'.faulty;
    NotLinear(s');
  }
}
