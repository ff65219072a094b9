/** The rotating log file used by one thread: what a call writes where, and how large files get. */
module LogFile {
  import opened Sequences

  type Record = string

  /** How the system calls of one `write_log` end: the first open, the open of a rotation, and the write,
      which returns a byte count or fails. */
  datatype Calls = Calls(firstOpens: bool, nextOpens: bool, wrote: Option<nat>)

  /** Every file created, as the pieces written to it, and the one the log descriptor refers to. */
  datatype Disk = Disk(files: seq<seq<Record>>, current: Option<nat>, size: nat)

  const EMPTY_DISK := Disk([], None, 0)

  function FirstOpened(d: Disk, ok: bool): Disk {
    if d.current.None? && ok then Disk(d.files + [[]], Some(|d.files|), 0) else d
  }

  /** A rotation without a log descriptor still creates its file and resets the counter, but `dup2` has
      nothing to replace. */
  function Rotated(d: Disk, max: nat, ok: bool): Disk {
    if d.size >= max && ok then
      Disk(d.files + [[]], if d.current.Some? then Some(|d.files|) else None, 0)
    else d
  }

  /** What a `write` that returned `wrote` put out: the first bytes of the record. */
  function Piece(log: Record, wrote: nat): (piece: Record)
    ensures piece <= log && |piece| == if wrote < |log| then wrote else |log|
  {
    if wrote <= |log| then log[..wrote] else log
  }

  function Written(d: Disk, log: Record, wrote: Option<nat>): Disk {
    match (d.current, wrote)
    case (Some(c), Some(n)) =>
      if c < |d.files| then
        Disk(d.files[c := d.files[c] + [Piece(log, n)]], d.current, d.size + |Piece(log, n)|)
      else d
    case _ => d
  }

  function WriteLogged(d: Disk, max: nat, log: Record, calls: Calls): Disk {
    Written(Rotated(FirstOpened(d, calls.firstOpens), max, calls.nextOpens), log, calls.wrote)
  }

  function Bytes(pieces: seq<Record>): nat {
    if pieces == [] then 0 else Bytes(pieces[..|pieces| - 1]) + |pieces[|pieces| - 1]|
  }

  // ---- Runs of one thread ---------------------------------------------------------------------

  datatype Call = Call(log: Record, calls: Calls)

  function Run(max: nat, history: seq<Call>): Disk {
    if history == [] then EMPTY_DISK
    else
      var c := history[|history| - 1];
      WriteLogged(Run(max, history[..|history| - 1]), max, c.log, c.calls)
  }

  /** What one call puts into a file: the piece that was written, if there was a file to write to. */
  function Landing(d: Disk, log: Record, calls: Calls): seq<Record> {
    if FirstOpened(d, calls.firstOpens).current.Some? && calls.wrote.Some? then [Piece(log, calls.wrote.value)] else []
  }

  /** The pieces that reached a file, in call order. */
  function Landed(max: nat, history: seq<Call>): seq<Record> {
    if history == [] then []
    else
      var before, c := history[..|history| - 1], history[|history| - 1];
      Landed(max, before) + Landing(Run(max, before), c.log, c.calls)
  }

  /** The newest file is the current one; the counter is its size; every older one is full. */
  ghost predicate Sound(d: Disk, max: nat) {
    && (d.current.None? ==> d.files == [] && d.size == 0)
    && (d.current.Some? ==> d.current.value == |d.files| - 1 && d.size == Bytes(d.files[|d.files| - 1]))
    && forall i :: 0 <= i < |d.files| - 1 ==> Bytes(d.files[i]) >= max
  }

  /** The file was below the limit before its last piece. */
  ghost predicate TightFile(file: seq<Record>, max: nat) {
    file == [] || Bytes(file) < max + |file[|file| - 1]|
  }

  ghost predicate Tight(d: Disk, max: nat) {
    forall i :: 0 <= i < |d.files| ==> TightFile(d.files[i], max)
  }

  /** The file is full, the rotation's open fails, and the record goes into the full file. */
  predicate Overshoots(d: Disk, max: nat, calls: Calls) {
    d.current.Some? && d.size >= max && !calls.nextOpens && calls.wrote.Some?
  }

  lemma BytesSnoc(pieces: seq<Record>, piece: Record)
    ensures Bytes(pieces + [piece]) == Bytes(pieces) + |piece|
  {
    assert (pieces + [piece])[..|pieces|] == pieces;
  }

  lemma FirstOpenedSound(d: Disk, max: nat, ok: bool)
    requires Sound(d, max)
    ensures Sound(FirstOpened(d, ok), max)
  {}

  lemma RotatedSound(d: Disk, max: nat, ok: bool)
    requires Sound(d, max) && (max > 0 || d.current.Some?)
    ensures Sound(Rotated(d, max, ok), max)
  {}

  lemma WrittenSound(d: Disk, max: nat, log: Record, wrote: Option<nat>)
    requires Sound(d, max)
    ensures Sound(Written(d, log, wrote), max)
  {
    hide Piece, Bytes;
    if d.current.Some? && wrote.Some? {
      BytesSnoc(d.files[d.current.value], Piece(log, wrote.value));
    }
  }

  lemma SoundStep(d: Disk, max: nat, log: Record, calls: Calls)
    requires Sound(d, max) && (max > 0 || calls.firstOpens)
    ensures Sound(WriteLogged(d, max, log, calls), max)
  {
    var f := FirstOpened(d, calls.firstOpens);
    assert max > 0 || f.current.Some?;
    hide Sound, FirstOpened, Rotated, Written;
    FirstOpenedSound(d, max, calls.firstOpens);
    RotatedSound(f, max, calls.nextOpens);
    WrittenSound(Rotated(f, max, calls.nextOpens), max, log, calls.wrote);
  }

  /** A new file is empty. */
  lemma NewFileTight(d: Disk, max: nat, d': Disk)
    requires d'.files == d.files || d'.files == d.files + [[]]
    ensures Tight(d', max) <==> Tight(d, max)
  {
    assert TightFile([], max);
    hide TightFile;
    assert forall i :: 0 <= i < |d.files| ==> d'.files[i] == d.files[i];
  }

  lemma WrittenTight(d: Disk, max: nat, log: Record, wrote: Option<nat>)
    requires Sound(d, max)
    ensures Tight(Written(d, log, wrote), max)
            <==> Tight(d, max) && (d.current.None? || wrote.None? || d.size < max)
  {
    if d.current.Some? && wrote.Some? {
      var c, piece := d.current.value, Piece(log, wrote.value);
      BytesSnoc(d.files[c], piece);
      hide Piece, Bytes;
      var d' := Written(d, log, wrote);
      assert d'.files[c] == d.files[c] + [piece];
      assert TightFile(d'.files[c], max) <==> d.size < max;
      assert !TightFile(d.files[c], max) ==> d.size >= max;
      hide TightFile;
      assert forall i :: 0 <= i < |d.files| && i != c ==> d'.files[i] == d.files[i];
    }
  }

  lemma TightStep(d: Disk, max: nat, log: Record, calls: Calls)
    requires Sound(d, max) && max > 0
    ensures Tight(WriteLogged(d, max, log, calls), max) <==> Tight(d, max) && !Overshoots(d, max, calls)
  {
    var f := FirstOpened(d, calls.firstOpens);
    var r := Rotated(f, max, calls.nextOpens);
    FirstOpenedSound(d, max, calls.firstOpens);
    RotatedSound(f, max, calls.nextOpens);
    NewFileTight(d, max, f);
    NewFileTight(f, max, r);
    WrittenTight(r, max, log, calls.wrote);
    hide Sound, Tight, Written;
  }

  /** No call of the run wrote to a full file after its rotation's open had failed. */
  ghost predicate NeverOvershoots(max: nat, history: seq<Call>) {
    history == [] ||
    (NeverOvershoots(max, history[..|history| - 1])
     && !Overshoots(Run(max, history[..|history| - 1]), max, history[|history| - 1].calls))
  }

  /** Used by one thread with a positive limit, the counter is the current file's size and every retired
      file reached the limit, however the system calls end.  Every file was below the limit before its
      last piece exactly when no call wrote to a full file after its rotation's open had failed. */
  lemma {:induction false} SizesBounded(max: nat, history: seq<Call>)
    requires max > 0
    ensures Sound(Run(max, history), max)
    ensures Tight(Run(max, history), max) <==> NeverOvershoots(max, history)
  {
    if history != [] {
      var n := |history| - 1;
      SizesBounded(max, history[..n]);
      SoundStep(Run(max, history[..n]), max, history[n].log, history[n].calls);
      TightStep(Run(max, history[..n]), max, history[n].log, history[n].calls);
      hide Sound, Tight, Overshoots, WriteLogged;
    }
  }

  lemma FirstWrite()
    ensures WriteLogged(EMPTY_DISK, 1, "a", Calls(true, true, Some(1))) == Disk([["a"]], Some(0), 1)
  {
    var d := WriteLogged(EMPTY_DISK, 1, "a", Calls(true, true, Some(1)));
    assert Piece("a", 1) == "a";
    assert |d.files| == 1 && d.files[0] == ["a"];
  }

  /** A run in which a file passes the limit by more than its last record: the rotation's open fails. */
  lemma FailedRotationOvershoots()
    ensures var history := [Call("a", Calls(true, true, Some(1))), Call("b", Calls(true, false, Some(1)))];
            !Tight(Run(1, history), 1)
  {
    var first, second := Call("a", Calls(true, true, Some(1))), Call("b", Calls(true, false, Some(1)));
    var history := [first, second];
    SizesBounded(1, history);
    FirstWrite();
    assert history[..1] == [first] && [first][..0] == [];
    hide Tight, WriteLogged;
    assert Run(1, [first]) == WriteLogged(EMPTY_DISK, 1, "a", first.calls);
    assert Overshoots(Run(1, [first]), 1, second.calls);
  }

  lemma OneMore(n: nat, max: nat)
    ensures (n + 1) * max == n * max + max
  {}

  lemma {:induction false} BytesAppend(a: seq<Record>, b: seq<Record>)
    ensures Bytes(a + b) == Bytes(a) + Bytes(b)
  {
    if b == [] {
      assert a + b == a;
    } else {
      BytesAppend(a, b[..|b| - 1]);
      assert (a + b)[..|a + b| - 1] == a + b[..|b| - 1];
    }
  }

  lemma {:induction false} BytesOfFull(files: seq<seq<Record>>, max: nat)
    requires forall i :: 0 <= i < |files| ==> Bytes(files[i]) >= max
    ensures Bytes(Concat(files)) >= |files| * max
  {
    if files != [] {
      var n := |files| - 1;
      BytesOfFull(files[..n], max);
      BytesAppend(Concat(files[..n]), files[n]);
      OneMore(n, max);
      hide Bytes, Concat;
    }
  }

  /** The log writes to the file created last. */
  predicate Newest(d: Disk) { d.current.Some? ==> d.current.value == |d.files| - 1 }

  lemma NewestStart()
    ensures Newest(EMPTY_DISK)
  {}

  lemma NewestStep(d: Disk, max: nat, log: Record, calls: Calls)
    requires Newest(d)
    ensures Newest(WriteLogged(d, max, log, calls))
  {}

  /** Creating a file adds nothing. */
  lemma NewFileEmpty(files: seq<seq<Record>>)
    ensures Concat(files + [[]]) == Concat(files)
  {
    ConcatSnoc<Record>(files, []);
    assert Concat(files) + [] == Concat(files);
  }

  lemma PreparedKeeps(d: Disk, max: nat, calls: Calls)
    ensures Concat(Rotated(FirstOpened(d, calls.firstOpens), max, calls.nextOpens).files) == Concat(d.files)
  {
    hide Concat;
    NewFileEmpty(d.files);
    NewFileEmpty(FirstOpened(d, calls.firstOpens).files);
  }

  lemma NothingLostStep(d: Disk, max: nat, log: Record, calls: Calls)
    requires Newest(d)
    ensures Concat(WriteLogged(d, max, log, calls).files) == Concat(d.files) + Landing(d, log, calls)
  {
    hide Concat, Bytes, Piece;
    var f := FirstOpened(d, calls.firstOpens);
    var r := Rotated(f, max, calls.nextOpens);
    PreparedKeeps(d, max, calls);
    if r.current.Some? && calls.wrote.Some? {
      assert r.current.value == |r.files| - 1;
      ConcatExtend(r.files, r.current.value, [Piece(log, calls.wrote.value)]);
    } else {
      assert Concat(d.files) + [] == Concat(d.files);
    }
  }

  /** Rotation loses and reorders nothing: the files in order of creation, end to end, are the pieces
      written, in the order of the calls. */
  lemma {:induction false} NothingLost(max: nat, history: seq<Call>)
    ensures Concat(Run(max, history).files) == Landed(max, history) && Newest(Run(max, history))
  {
    if history != [] {
      hide Concat, WriteLogged, Landing, Newest;
      var n := |history| - 1;
      var d, c := Run(max, history[..n]), history[n];
      NothingLost(max, history[..n]);
      NothingLostStep(d, max, c.log, c.calls);
      assert Newest(WriteLogged(d, max, c.log, c.calls)) by { NewestStep(d, max, c.log, c.calls); }
    } else {
      NewestStart();
    }
  }

  /** Full files pay for their number. */
  lemma {:induction false} FilesArePaidFor(max: nat, history: seq<Call>)
    requires max > 0 && Run(max, history).files != []
    ensures (|Run(max, history).files| - 1) * max <= Bytes(Landed(max, history))
  {
    SizesBounded(max, history);
    NothingLost(max, history);
    var files := Run(max, history).files;
    var n := |files| - 1;
    BytesOfFull(files[..n], max);
    BytesAppend(Concat(files[..n]), files[n]);
  }

  // ---- The proxy object -----------------------------------------------------------------------

  /** The files and descriptors of the system, as far as one log uses them. */
  class FileSystem {
    var files: seq<seq<Record>>
    var table: map<int, nat>

    constructor ()
      ensures files == [] && table == map[]
    {
      files, table := [], map[];
    }

    /** A fresh file under a fresh descriptor, or -1. */
    method Open(ok: bool) returns (fd: int)
      modifies this
      ensures !ok ==> fd == -1 && files == old(files) && table == old(table)
      ensures ok ==> fd > 0 && fd !in old(table)
      ensures ok ==> files == old(files) + [[]] && table == old(table)[fd := |old(files)|]
    {
      if !ok {
        return -1;
      }
      fd := Unused(table.Keys);
      files, table := files + [[]], table[fd := |files|];
    }

    method Unused(taken: set<int>) returns (fd: int)
      ensures fd > 0 && fd !in taken
    {
      fd := 1;
      var rest := taken;
      while fd in taken
        invariant fd > 0 && forall x :: x in taken && x !in rest ==> x < fd
        invariant rest <= taken
        decreases rest
      {
        rest := set x | x in rest && x != fd;
        assert fd !in rest;
        fd := fd + 1;
      }
    }

    method Dup2(from: int, to: int)
      modifies `table
      ensures table == if from in old(table) && to >= 0 then old(table)[to := old(table)[from]] else old(table)
    {
      if from in table && to >= 0 {
        table := table[to := table[from]];
      }
    }

    method Close(fd: int)
      modifies `table
      ensures table == old(table) - {fd}
    {
      table := table - {fd};
    }

    /** `write`: the pieces go to the end of the file; a bad descriptor or a failure returns -1. */
    method Write(fd: int, log: Record, wrote: Option<nat>) returns (size: int)
      modifies `files
      ensures fd in table && table[fd] < |old(files)| && wrote.Some? ==>
                && size == |Piece(log, wrote.value)|
                && files == old(files)[table[fd] := old(files)[table[fd]] + [Piece(log, wrote.value)]]
      ensures !(fd in table && table[fd] < |old(files)| && wrote.Some?) ==> size == -1 && files == old(files)
    {
      if fd in table && table[fd] < |files| && wrote.Some? {
        var piece := Piece(log, wrote.value);
        files := files[table[fd] := files[table[fd]] + [piece]];
        return |piece|;
      }
      return -1;
    }
  }

  class LogFileProxy {
    const system: FileSystem
    const maxFileSize: nat
    var currFileSize: nat
    var fd: int

    /** The log holds one descriptor, or none before the first successful open. */
    ghost predicate Valid()
      reads this, system
    {
      && (fd == -1 || fd > 0)
      && system.table.Keys == (if fd > 0 then {fd} else {})
      && (fd > 0 ==> system.table[fd] < |system.files|)
    }

    ghost function View(): Disk
      reads this, system
      requires Valid()
    {
      Disk(system.files, if fd > 0 then Some(system.table[fd]) else None, currFileSize)
    }

    constructor (maxFileSize: nat)
      ensures Valid() && View() == EMPTY_DISK && fresh(system) && this.maxFileSize == maxFileSize
    {
      this.maxFileSize := maxFileSize;
      system := new FileSystem();
      currFileSize, fd := 0, -1;
    }

    predicate IsOpened()
      reads this
    {
      fd > 0
    }

    method WriteLog(log: Record, calls: Calls)
      requires Valid()
      modifies this, system
      ensures Valid() && View() == WriteLogged(old(View()), maxFileSize, log, calls)
    {
      if !IsOpened() {
        fd := CreateFile(calls.firstOpens);
      }
      assert Valid() && View() == FirstOpened(old(View()), calls.firstOpens);
      if currFileSize >= maxFileSize {
        var next := CreateFile(calls.nextOpens);
        if next > 0 {
          system.Dup2(next, fd);
          system.Close(next);
        }
      }
      assert Valid() && View() == Rotated(FirstOpened(old(View()), calls.firstOpens), maxFileSize, calls.nextOpens);
      WriteFile(log, calls.wrote);
    }

    method CreateFile(ok: bool) returns (created: int)
      modifies `currFileSize, system
      ensures !ok ==> created == -1 && system.files == old(system.files) && system.table == old(system.table)
                      && currFileSize == old(currFileSize)
      ensures ok ==>
                && created > 0 && created !in old(system.table) && currFileSize == 0
                && system.files == old(system.files) + [[]]
                && system.table == old(system.table)[created := |old(system.files)|]
    {
      created := system.Open(ok);
      if created > 0 {
        currFileSize := 0;
      }
    }

    method WriteFile(log: Record, wrote: Option<nat>)
      requires Valid()
      modifies `currFileSize, system
      ensures Valid() && View() == Written(old(View()), log, wrote)
    {
      var size := system.Write(fd, log, wrote);
      if size > 0 {
        currFileSize := currFileSize + size;
      }
    }

    method CloseFile()
      requires Valid()
      modifies this, system
      ensures Valid() && fd == -1 && system.table == map[] && system.files == old(system.files)
    {
      if fd > 0 {
        system.Close(fd);
        fd := -1;
      }
    }
  }
}
