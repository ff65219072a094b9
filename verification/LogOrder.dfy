/** The order in which the records of many threads lie in the files: every thread's own order always, the
    global order exactly when no rotation overtook a write between its lookup and its append. */
module LogOrder {
  import opened Sequences
  import opened LogFile
  import opened ConcurrentLog
  import opened ConcurrentLogTheorems

  // ---- Every thread's own order ---------------------------------------------------------------

  /** What thread `t` has written to each file that was current. */
  ghost function OwnFiles(s: State, t: nat): seq<seq<Entry>>
    requires FilesInOrder(s)
  {
    seq(|s.currents|, k requires 0 <= k < |s.currents| => Filter(s.files[s.currents[k]], By(t)))
  }

  /** Thread `t` has written to no file that became current after `f`. */
  ghost predicate NoneAfter(s: State, t: nat, f: nat)
    requires FilesInOrder(s)
  {
    forall j, k :: 0 <= j < k < |s.currents| && s.currents[j] == f ==> OwnFiles(s, t)[k] == []
  }

  /** A thread's writes lie in the files in the order in which it made them; the file it is about to append
      to is not overtaken by one of its own. */
  ghost predicate OwnOrder(s: State, t: nat) {
    && FilesInOrder(s)
    && Concat(OwnFiles(s, t)) == Filter(s.written, By(t))
    && (t < |s.threads| && s.threads[t].pc.Appending? ==> NoneAfter(s, t, s.threads[t].pc.file))
  }

  /** The files of thread `t` after a change. */
  lemma OwnAppended(s: State, s': State, c: Change, t: nat, k: nat)
    requires FilesInOrder(s) && FilesInOrder(s') && Changed(s, s', c) && c.Appended?
    requires k < |s.currents| && s.currents[k] == c.file
    ensures OwnFiles(s', t)
            == OwnFiles(s, t)[k := OwnFiles(s, t)[k] + if c.entry.thread == t then [c.entry] else []]
  {
    FilterSnoc(s.files[c.file], By(t), c.entry);
    hide Filter, Overtakes;
  }

  lemma OwnPromoted(s: State, s': State, c: Change, t: nat)
    requires FilesInOrder(s) && FilesInOrder(s') && Changed(s, s', c) && Orderly(s, c) && c.Promoted?
    ensures OwnFiles(s', t) == OwnFiles(s, t) + [[]]
  {
    assert Filter([], By(t)) == [];
    hide Filter;
  }

  lemma OwnSame(s: State, s': State, c: Change, t: nat)
    requires FilesInOrder(s) && FilesInOrder(s') && Changed(s, s', c) && (c.Same? || c.Created?)
    ensures OwnFiles(s', t) == OwnFiles(s, t)
  {
    hide Filter;
  }

  lemma {:induction false} OwnConcat(s: State, s': State, c: Change, t: nat)
    requires FilesInOrder(s) && FilesInOrder(s') && Changed(s, s', c) && Orderly(s, c)
    requires Concat(OwnFiles(s, t)) == Filter(s.written, By(t))
    requires c.Appended? && c.entry.thread == t ==> NoneAfter(s, t, c.file)
    ensures Concat(OwnFiles(s', t)) == Filter(s'.written, By(t))
  {
    match c
    case Appended(f, e) =>
      var k :| 0 <= k < |s.currents| && s.currents[k] == f;
      OwnAppended(s, s', c, t, k);
      FilterSnoc(s.written, By(t), e);
      if e.thread == t {
        ConcatExtend(OwnFiles(s, t), k, [e]);
      } else {
        assert OwnFiles(s, t)[k] + [] == OwnFiles(s, t)[k];
        assert OwnFiles(s', t) == OwnFiles(s, t);
      }
    case Promoted(_) =>
      OwnPromoted(s, s', c, t);
      ConcatSnoc(OwnFiles(s, t), []);
    case _ =>
      OwnSame(s, s', c, t);
  }

  lemma NoneAfterKept(s: State, s': State, c: Change, t: nat, f: nat)
    requires FilesInOrder(s) && FilesInOrder(s') && Changed(s, s', c) && Orderly(s, c)
    requires NoneAfter(s, t, f) && f in s.currents && (c.Appended? ==> c.entry.thread != t)
    ensures NoneAfter(s', t, f)
  {
    hide Filter, Overtakes;
    match c
    case Appended(g, e) =>
      var k :| 0 <= k < |s.currents| && s.currents[k] == g;
      OwnAppended(s, s', c, t, k);
      assert OwnFiles(s, t)[k] + [] == OwnFiles(s, t)[k];
      assert OwnFiles(s', t) == OwnFiles(s, t);
    case Promoted(_) => OwnPromoted(s, s', c, t);
    case _ => OwnSame(s, s', c, t);
  }

  /** Nothing is after the current file. */
  lemma NoneAfterLast(s: State, t: nat)
    requires FilesInOrder(s) && s.currents != []
    ensures NoneAfter(s, t, Last(s.currents))
  {}

  lemma AppendOf(s: State, step: ConcurrentLog.Step)
    requires Enabled(s, step)
    ensures var c := ChangeOf(s, step);
            c.Appended? ==> c.entry.thread == step.t
                            && s.threads[step.t].pc == Appending(c.file) && !Next(s, step).threads[step.t].pc.Appending?
  {
    hide Effect, Piece, Current;
    assert Next(s, step).threads[step.t] == NextThread(s, step);
  }

  /** Looking a descriptor up writes nothing. */
  lemma LookupChanges(s: State, step: ConcurrentLog.Step)
    requires Enabled(s, step) && s.threads[step.t].pc.WriteRecord?
    ensures ChangeOf(s, step).Same?
  {}

  /** The lookup of a thread's next write, if it has made one. */
  lemma LookupKept(s: State, step: ConcurrentLog.Step, t: nat)
    requires Enabled(s, step) && Inv(s) && Inv(Next(s, step)) && OwnOrder(s, t)
    requires t < |s.threads| && t < |Next(s, step).threads| && Next(s, step).threads[t].pc.Appending?
    ensures NoneAfter(Next(s, step), t, Next(s, step).threads[t].pc.file)
  {
    var s', c := Next(s, step), ChangeOf(s, step);
    ChangeStep(s, step);
    OrderlyStep(s, step);
    LockStep(s, step);
    AppendOf(s, step);
    if t == step.t {
      Resolves(s, step);
      NoneAfterLast(s, t);
      LookupChanges(s, step);
    }
    hide Next, Enabled, ChangeOf, Changed, Orderly, Exclusive, Descriptors, NoneAfter, Concat, Filter;
    NoneAfterKept(s, s', c, t, s'.threads[t].pc.file);
  }

  lemma {:induction false} OwnOrderStep(s: State, step: ConcurrentLog.Step, t: nat)
    requires Enabled(s, step) && Inv(s) && OwnOrder(s, t)
    ensures OwnOrder(Next(s, step), t)
  {
    var s', c := Next(s, step), ChangeOf(s, step);
    ChangeStep(s, step);
    OrderlyStep(s, step);
    AppendOf(s, step);
    StepInv(s, step);
    LockStep(s, step);
    if t < |s'.threads| && s'.threads[t].pc.Appending? { LookupKept(s, step, t); }
    hide Next, ChangeOf, Changed, Orderly, Exclusive, Descriptors, NoneAfter, Concat, Filter;
    OwnConcat(s, s', c, t);
  }

  lemma {:induction false} RunOwnOrder(max: nat, programs: seq<seq<Record>>, steps: seq<ConcurrentLog.Step>, t: nat)
    requires ConcurrentLog.Run(max, programs, steps).Some?
    ensures OwnOrder(ConcurrentLog.Run(max, programs, steps).value, t)
  {
    if steps == [] {
      assert OwnFiles(Init(max, programs), t) == [];
    } else {
      hide OwnOrder, Inv, Enabled, Next;
      RunOwnOrder(max, programs, steps[..|steps| - 1], t);
      RunInv(max, programs, steps[..|steps| - 1]);
      OwnOrderStep(ConcurrentLog.Run(max, programs, steps[..|steps| - 1]).value, steps[|steps| - 1], t);
    }
  }

  lemma {:induction false} FilterAppend(a: seq<Entry>, b: seq<Entry>, p: Entry -> bool)
    ensures Filter(a + b, p) == Filter(a, p) + Filter(b, p)
  {
    if b == [] {
      assert a + b == a;
    } else {
      var n := |b| - 1;
      FilterAppend(a, b[..n], p);
      assert a + b == (a + b[..n]) + [b[n]];
      assert b == b[..n] + [b[n]];
      FilterSnoc(a + b[..n], p, b[n]);
      FilterSnoc(b[..n], p, b[n]);
    }
  }

  /** The elements of a concatenation that satisfy `p`, part by part. */
  lemma {:induction false} FilterConcat(parts: seq<seq<Entry>>, filtered: seq<seq<Entry>>, p: Entry -> bool)
    requires |filtered| == |parts| && forall k :: 0 <= k < |parts| ==> filtered[k] == Filter(parts[k], p)
    ensures Filter(Concat(parts), p) == Concat(filtered)
  {
    if parts != [] {
      var n := |parts| - 1;
      FilterConcat(parts[..n], filtered[..n], p);
      FilterAppend(Concat(parts[..n]), parts[n], p);
    }
  }

  /** In every interleaving each thread's records lie in the files, end to end, in the order in which it wrote
      them, which is its submission order; as long as nothing has failed or fallen short none is missing and
      each is whole. */
  lemma {:induction false} FilesKeepProgramOrder(max: nat, programs: seq<seq<Record>>, steps: seq<ConcurrentLog.Step>,
                                                 t: nat)
    requires ConcurrentLog.Run(max, programs, steps).Some? && t < |programs|
    ensures var s := ConcurrentLog.Run(max, programs, steps).value;
            && (forall k :: 0 <= k < |s.currents| ==> s.currents[k] < |s.files|)
            && t < |s.threads| && s.threads[t].program == programs[t]
            && var own := Filter(Concat(CurrentFiles(s)), By(t));
            && own == Filter(s.written, By(t))
            && InProgramOrder(own, s.threads[t], t)
            && (!s.faulty ==> Complete(own, s.threads[t].program, Reached(s.threads[t]), t))
  {
    RunOwnOrder(max, programs, steps, t);
    RecordsKeepTheirOrder(max, programs, steps, t);
    var s := ConcurrentLog.Run(max, programs, steps).value;
    hide ConcurrentLog.Run, Filter, Concat, InProgramOrder, Complete, NoneAfter;
    FilterConcat(CurrentFiles(s), OwnFiles(s, t), By(t));
  }

  // ---- No write is lost -----------------------------------------------------------------------

  lemma {:induction false} CountByThread(w: seq<Entry>, e: Entry)
    ensures multiset(w)[e] == multiset(Filter(w, By(e.thread)))[e]
  {
    if w != [] {
      var n := |w| - 1;
      CountByThread(w[..n], e);
      assert w == w[..n] + [w[n]];
    }
  }

  /** Two sequences with the same writes of every thread have the same writes. */
  lemma SameByThread(a: seq<Entry>, b: seq<Entry>)
    requires forall t: nat :: Filter(a, By(t)) == Filter(b, By(t))
    ensures multiset(a) == multiset(b)
  {
    forall e: Entry
      ensures multiset(a)[e] == multiset(b)[e]
    {
      CountByThread(a, e);
      CountByThread(b, e);
    }
  }

  lemma {:induction false} RunSameWrites(max: nat, programs: seq<seq<Record>>, steps: seq<ConcurrentLog.Step>)
    requires ConcurrentLog.Run(max, programs, steps).Some?
    ensures var s := ConcurrentLog.Run(max, programs, steps).value;
            FilesInOrder(s) && multiset(Concat(CurrentFiles(s))) == multiset(s.written)
  {
    var s := ConcurrentLog.Run(max, programs, steps).value;
    RunInv(max, programs, steps);
    forall t: nat
      ensures Filter(Concat(CurrentFiles(s)), By(t)) == Filter(s.written, By(t))
    {
      RunOwnOrder(max, programs, steps, t);
      FilterConcat(CurrentFiles(s), OwnFiles(s, t), By(t));
    }
    hide ConcurrentLog.Run, Filter, Concat;
    SameByThread(Concat(CurrentFiles(s)), s.written);
  }

  // ---- The global order -----------------------------------------------------------------------

  lemma CurrentAppended(s: State, s': State, c: Change, k: nat)
    requires FilesInOrder(s) && FilesInOrder(s') && Changed(s, s', c) && c.Appended?
    requires k < |s.currents| && s.currents[k] == c.file
    ensures CurrentFiles(s') == CurrentFiles(s)[k := CurrentFiles(s)[k] + [c.entry]]
  {
    hide Overtakes;
  }

  /** The files end to end are the global order. */
  ghost predicate Linear(s: State) {
    FilesInOrder(s) && Concat(CurrentFiles(s)) == s.written
  }

  /** A write that no rotation overtakes lands at the end of the whole log, and other steps add nothing. */
  lemma {:induction false} LinearKept(s: State, s': State, c: Change)
    requires Linear(s) && FilesInOrder(s') && Changed(s, s', c) && Orderly(s, c) && !s'.overtaken
    ensures Linear(s')
  {
    match c
    case Appended(f, e) =>
      var k :| 0 <= k < |s.currents| && s.currents[k] == f;
      CurrentAppended(s, s', c, k);
      assert forall j :: k < j < |s.currents| ==> !NonEmpty(s, s.currents[j]);
      ConcatExtend(CurrentFiles(s), k, [e]);
    case Promoted(_) =>
      assert CurrentFiles(s') == CurrentFiles(s) + [[]];
      ConcatSnoc(CurrentFiles(s), []);
    case _ =>
      assert CurrentFiles(s') == CurrentFiles(s);
  }

  /** `x` comes before `y`. */
  ghost predicate Before(w: seq<Entry>, x: Entry, y: Entry) {
    exists i, j :: 0 <= i < j < |w| && w[i] == x && w[j] == y
  }

  /** `x` lies in a file that became current before the file of `y`. */
  ghost predicate FiledBefore(s: State, x: Entry, y: Entry)
    requires FilesInOrder(s)
  {
    exists j, k :: 0 <= j < k < |s.currents| && x in s.files[s.currents[j]] && y in s.files[s.currents[k]]
  }

  /** Two writes lie in the files in the other order. */
  ghost predicate Inverted(s: State) {
    FilesInOrder(s) && exists x, y :: Before(s.written, y, x) && FiledBefore(s, x, y)
  }

  lemma BeforeKept(w: seq<Entry>, w': seq<Entry>, x: Entry, y: Entry)
    requires Before(w, x, y) && w <= w'
    ensures Before(w', x, y)
  {
    var i, j :| 0 <= i < j < |w| && w[i] == x && w[j] == y;
    assert w'[i] == x && w'[j] == y;
  }

  lemma FilesGrow(s: State, s': State, c: Change, k: nat)
    requires FilesInOrder(s) && FilesInOrder(s') && Changed(s, s', c) && k < |s.currents|
    ensures k < |s'.currents| && s'.currents[k] == s.currents[k]
    ensures s.files[s.currents[k]] <= s'.files[s.currents[k]]
  {
    hide Overtakes;
  }

  lemma FiledKept(s: State, s': State, c: Change, x: Entry, y: Entry)
    requires FilesInOrder(s) && FilesInOrder(s') && FiledBefore(s, x, y) && Changed(s, s', c)
    ensures FiledBefore(s', x, y)
  {
    var j, k :| 0 <= j < k < |s.currents| && x in s.files[s.currents[j]] && y in s.files[s.currents[k]];
    FilesGrow(s, s', c, j);
    FilesGrow(s, s', c, k);
    hide Changed, FilesInOrder;
    assert x in s'.files[s'.currents[j]] && y in s'.files[s'.currents[k]];
  }

  lemma InvertedKept(s: State, s': State, c: Change)
    requires Inverted(s) && FilesInOrder(s') && Changed(s, s', c)
    ensures Inverted(s')
  {
    var x, y :| Before(s.written, y, x) && FiledBefore(s, x, y);
    BeforeKept(s.written, s'.written, y, x);
    FiledKept(s, s', c, x, y);
    hide Before, FiledBefore;
  }

  lemma BeforeLast(w: seq<Entry>, x: Entry, last: Entry)
    requires x in w
    ensures Before(w + [last], x, last)
  {
    var i :| 0 <= i < |w| && w[i] == x;
    assert (w + [last])[i] == x && (w + [last])[|w|] == last;
  }

  lemma {:induction false} InConcat(parts: seq<seq<Entry>>, k: nat, x: Entry)
    requires k < |parts| && x in parts[k]
    ensures x in Concat(parts)
  {
    var n := |parts| - 1;
    if k < n { InConcat(parts[..n], k, x); }
  }

  /** An append that a rotation has overtaken puts its entry before one written earlier. */
  lemma InvertedNew(s: State, s': State, c: Change)
    requires FilesInOrder(s) && FilesInOrder(s') && Changed(s, s', c) && c.Appended? && Overtakes(s, c.file)
    requires multiset(Concat(CurrentFiles(s))) == multiset(s.written)
    ensures Inverted(s')
  {
    var j, k :| 0 <= j < k < |s.currents| && s.currents[j] == c.file && NonEmpty(s, s.currents[k]);
    var y := s.files[s.currents[k]][0];
    InConcat(CurrentFiles(s), k, y);
    assert y in multiset(s.written);
    FilesGrow(s, s', c, k);
    hide Overtakes, Concat;
    BeforeLast(s.written, y, c.entry);
    assert c.entry == Last(s'.files[s'.currents[j]]) && y in s'.files[s'.currents[k]];
    assert FiledBefore(s', c.entry, y);
  }

  lemma {:induction false} FiledIsBefore(parts: seq<seq<Entry>>, j: nat, k: nat, x: Entry, y: Entry)
    requires j < k < |parts| && x in parts[j] && y in parts[k]
    ensures Before(Concat(parts), x, y)
  {
    var n := |parts| - 1;
    var whole := Concat(parts);
    if k < n {
      FiledIsBefore(parts[..n], j, k, x, y);
      BeforeKept(Concat(parts[..n]), whole, x, y);
    } else {
      InConcat(parts[..n], j, x);
      var a :| 0 <= a < |Concat(parts[..n])| && Concat(parts[..n])[a] == x;
      var b :| 0 <= b < |parts[n]| && parts[n][b] == y;
      assert whole[a] == x && whole[|Concat(parts[..n])| + b] == y;
    }
  }

  // ---- No write twice -------------------------------------------------------------------------

  ghost predicate Distinct(w: seq<Entry>) { forall i, j :: 0 <= i < j < |w| ==> w[i] != w[j] }

  lemma {:induction false} InFilter(w: seq<Entry>, x: Entry)
    requires x in w
    ensures x in Filter(w, By(x.thread))
  {
    var n := |w| - 1;
    if w[n] != x {
      assert w == w[..n] + [w[n]];
      InFilter(w[..n], x);
    }
  }

  lemma NewEntry(s: State, step: ConcurrentLog.Step)
    requires Enabled(s, step) && Ordered(s) && ChangeOf(s, step).Appended?
    ensures ChangeOf(s, step).entry !in s.written
  {
    var e := ChangeOf(s, step).entry;
    var own := Filter(s.written, By(step.t));
    assert e.thread == step.t && e.index == s.threads[step.t].done;
    assert InProgramOrder(own, s.threads[step.t], step.t);
    hide Filter, Complete;
    assert e !in own;
    if e in s.written { InFilter(s.written, e); }
  }

  /** What is known of the global order: it repeats nothing; the files end to end are it as long as nothing was
      overtaken; and afterwards two writes stay inverted. */
  ghost predicate Global(s: State) {
    && Distinct(s.written)
    && (!s.overtaken ==> Linear(s))
    && (s.overtaken ==> Inverted(s))
  }

  lemma OvertakenMoves(s: State, s': State, c: Change)
    requires Changed(s, s', c)
    ensures s'.overtaken <==> s.overtaken || (c.Appended? && Overtakes(s, c.file))
  {
    hide Overtakes;
  }

  lemma DistinctKept(s: State, s': State, c: Change)
    requires Changed(s, s', c) && Distinct(s.written) && (c.Appended? ==> c.entry !in s.written)
    ensures Distinct(s'.written)
  {
    hide Overtakes;
  }

  lemma {:induction false} GlobalStep(s: State, step: ConcurrentLog.Step)
    requires Enabled(s, step) && Inv(s) && Ordered(s) && Global(s)
    requires FilesInOrder(s) && multiset(Concat(CurrentFiles(s))) == multiset(s.written)
    ensures Global(Next(s, step))
  {
    var s', c := Next(s, step), ChangeOf(s, step);
    ChangeStep(s, step);
    OrderlyStep(s, step);
    StepInv(s, step);
    if c.Appended? { NewEntry(s, step); }
    hide Next, Enabled, ChangeOf, Changed, Orderly, Exclusive, Descriptors, Resolved, Ordered, FilesInOrder, Linear,
         Inverted, Distinct, Overtakes, Concat;
    DistinctKept(s, s', c);
    OvertakenMoves(s, s', c);
    if !s'.overtaken { LinearKept(s, s', c); }
    else if s.overtaken { InvertedKept(s, s', c); }
    else { InvertedNew(s, s', c); }
  }

  lemma {:induction false} RunGlobal(max: nat, programs: seq<seq<Record>>, steps: seq<ConcurrentLog.Step>)
    requires ConcurrentLog.Run(max, programs, steps).Some?
    ensures Global(ConcurrentLog.Run(max, programs, steps).value)
  {
    if steps == [] {
      assert CurrentFiles(Init(max, programs)) == [];
    } else {
      hide Global, Inv, Ordered, Enabled, Next, FilesInOrder, Concat;
      RunGlobal(max, programs, steps[..|steps| - 1]);
      RunInv(max, programs, steps[..|steps| - 1]);
      RunOrdered(max, programs, steps[..|steps| - 1]);
      RunSameWrites(max, programs, steps[..|steps| - 1]);
      GlobalStep(ConcurrentLog.Run(max, programs, steps[..|steps| - 1]).value, steps[|steps| - 1]);
    }
  }

  lemma BeforeOneWay(w: seq<Entry>, x: Entry, y: Entry)
    requires Distinct(w) && Before(w, x, y)
    ensures !Before(w, y, x)
  {}

  lemma InvertedNotLinear(s: State)
    requires Distinct(s.written) && Inverted(s)
    ensures !Linear(s)
  {
    var x, y :| Before(s.written, y, x) && FiledBefore(s, x, y);
    var j, k :| 0 <= j < k < |s.currents| && x in s.files[s.currents[j]] && y in s.files[s.currents[k]];
    FiledIsBefore(CurrentFiles(s), j, k, x, y);
    hide Concat, Before, Distinct;
    BeforeOneWay(s.written, y, x);
  }

  /** Whatever fails and however the threads interleave, every successful write lies whole in one file, and
      the files end to end, in the order in which they became current, hold the successful writes and nothing
      else.  They hold them in the global order of the writes exactly when no write was overtaken: appended to
      the file it had looked up after a later file had been written to. */
  lemma {:induction false} RotationIsLinear(max: nat, programs: seq<seq<Record>>, steps: seq<ConcurrentLog.Step>)
    requires ConcurrentLog.Run(max, programs, steps).Some?
    ensures var s := ConcurrentLog.Run(max, programs, steps).value;
            && (forall k :: 0 <= k < |s.currents| ==> s.currents[k] < |s.files|)
            && (forall j, k :: 0 <= j < k < |s.currents| ==> s.currents[j] != s.currents[k])
            && (forall f :: 0 <= f < |s.files| && f !in s.currents ==> s.files[f] == [])
            && multiset(Concat(CurrentFiles(s))) == multiset(s.written)
            && (Concat(CurrentFiles(s)) == s.written <==> !s.overtaken)
  {
    RunSameWrites(max, programs, steps);
    RunGlobal(max, programs, steps);
    var s := ConcurrentLog.Run(max, programs, steps).value;
    hide ConcurrentLog.Run, Concat, Distinct, Inverted;
    if s.overtaken { InvertedNotLinear(s); }
  }
}
