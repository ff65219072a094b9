/** The log front end: which records pass the level, how they are spelled, and which of the four log
    files each one goes to. */
module Easylog {
  import opened Sequences
  import opened Decimal
  import opened LogFile
  import Format

  datatype Level = All | Trace | Debug | Info | Warn | Error | Fatal

  function Rank(level: Level): int {
    match level
    case All => 0
    case Trace => 1
    case Debug => 2
    case Info => 3
    case Warn => 4
    case Error => 5
    case Fatal => 6
  }

  function Letter(level: Level): char {
    match level
    case All => 'A'
    case Trace => 'T'
    case Debug => 'D'
    case Info => 'I'
    case Warn => 'W'
    case Error => 'E'
    case Fatal => 'F'
  }

  /** One call of `log`; the time stamp is the clock's. */
  datatype Message = Message(level: Level, time: string, file: string, line: nat, content: string)

  function Spell(m: Message): Record {
    [Letter(m.level)] + m.time + " " + m.file + ":" + ToDecimal(m.line) + "] " + m.content + "\n"
  }

  /** `own` and `all` say how the system calls on the level's own log and on ALL end. */
  datatype Event = Log(message: Message, own: Calls, all: Calls) | ModifyLevel(level: int)

  /** The threshold is an integer because it is cast from the configuration unchecked. */
  datatype Logs = Logs(threshold: int, all: Disk, warn: Disk, error: Disk, fatal: Disk)

  function Initial(threshold: int): Logs {
    Logs(threshold, EMPTY_DISK, EMPTY_DISK, EMPTY_DISK, EMPTY_DISK)
  }

  predicate IsLogged(threshold: int, level: Level) { Rank(level) >= threshold }

  function Apply(l: Logs, max: nat, e: Event): Logs {
    match e
    case ModifyLevel(level) => l.(threshold := level)
    case Log(m, own, all) =>
      if !IsLogged(l.threshold, m.level) then l
      else
        var log := Spell(m);
        l.(all := WriteLogged(l.all, max, log, all),
           warn := if m.level.Warn? then WriteLogged(l.warn, max, log, own) else l.warn,
           error := if m.level.Error? then WriteLogged(l.error, max, log, own) else l.error,
           fatal := if m.level.Fatal? then WriteLogged(l.fatal, max, log, own) else l.fatal)
  }

  function Run(threshold: int, max: nat, events: seq<Event>): Logs {
    if events == [] then Initial(threshold)
    else Apply(Run(threshold, max, events[..|events| - 1]), max, Last(events))
  }

  // ---- How a record reads ---------------------------------------------------------------------

  /** The levels in the order of the enumeration, each at its number. */
  const LEVELS := [All, Trace, Debug, Info, Warn, Error, Fatal]

  lemma Listed(level: Level)
    ensures level in LEVELS
  {
    match level
    case All => assert LEVELS[0] == level;
    case Trace => assert LEVELS[1] == level;
    case Debug => assert LEVELS[2] == level;
    case Info => assert LEVELS[3] == level;
    case Warn => assert LEVELS[4] == level;
    case Error => assert LEVELS[5] == level;
    case Fatal => assert LEVELS[6] == level;
  }

  function IndexOf<T(==)>(s: seq<T>, x: T): (k: nat)
    requires x in s
    ensures k < |s| && s[k] == x && x !in s[..k]
  {
    if s[0] == x then 0 else 1 + IndexOf(s[1..], x)
  }

  function Position(level: Level): (k: nat)
    ensures k < |LEVELS| && LEVELS[k] == level
  {
    Listed(level);
    IndexOf(LEVELS, level)
  }

  lemma LetterInjective(a: Level, b: Level)
    requires Letter(a) == Letter(b)
    ensures a == b
  {}

  lemma {:induction false} DigitRunStops(digits: string, rest: string)
    requires AllDigits(digits) && rest != "" && !IsDigit(rest[0])
    ensures DigitRun(digits + rest) == |digits|
  {
    if digits == "" {
      assert digits + rest == rest;
    } else {
      assert (digits + rest)[1..] == digits[1..] + rest;
      DigitRunStops(digits[1..], rest);
    }
  }

  /** What follows the file name. */
  function Tail(m: Message): string { ToDecimal(m.line) + ("] " + m.content + "\n") }

  lemma TailInjective(m: Message, n: Message)
    requires Tail(m) == Tail(n)
    ensures m.line == n.line && m.content == n.content
  {
    var a, b := "] " + m.content + "\n", "] " + n.content + "\n";
    DecimalIsDigits(m.line);
    DecimalIsDigits(n.line);
    DigitRunStops(ToDecimal(m.line), a);
    DigitRunStops(ToDecimal(n.line), b);
    hide ToDecimal, DigitRun;
    assert ToDecimal(m.line) == Tail(m)[..|ToDecimal(m.line)|] && ToDecimal(n.line) == Tail(n)[..|ToDecimal(m.line)|];
    DecimalInjective(m.line, n.line);
    assert a == Tail(m)[|ToDecimal(m.line)|..] && b == Tail(n)[|ToDecimal(m.line)|..];
    assert m.content == a[2..|a| - 1] && n.content == b[2..|b| - 1];
  }

  lemma SpellParts(m: Message)
    ensures Spell(m) == [Letter(m.level)] + (m.time + (" " + (m.file + (":" + Tail(m)))))
  {}

  lemma {:induction false} FirstColon(file: string, tail: string, file': string, tail': string)
    requires ':' !in file && ':' !in file' && file + (":" + tail) == file' + (":" + tail')
    ensures file == file' && tail == tail'
  {
    var s, s' := file + (":" + tail), file' + (":" + tail');
    assert s[|file|] == ':' && s'[|file'|] == ':';
    assert forall i :: 0 <= i < |file| ==> s[i] == file[i];
    assert forall i :: 0 <= i < |file'| ==> s'[i] == file'[i];
    assert |file| == |file'|;
    assert file == s[..|file|] && file' == s'[..|file|];
    assert tail == s[|file| + 1..] && tail' == s'[|file| + 1..];
  }

  /** A record begins with its level's letter, is one line more, and says which message it spells: time
      stamps have one width and file names no colon. */
  lemma RecordsReadBack(m: Message, n: Message)
    ensures Spell(m) != "" && Spell(m)[0] == Letter(m.level) && Last(Spell(m)) == '\n'
    ensures Spell(m) == Spell(n) && |m.time| == |n.time| && ':' !in m.file && ':' !in n.file ==> m == n
  {
    if Spell(m) == Spell(n) && |m.time| == |n.time| && ':' !in m.file && ':' !in n.file {
      SpellParts(m);
      SpellParts(n);
      var s, w := Spell(m), |m.time|;
      var a, b := m.file + (":" + Tail(m)), n.file + (":" + Tail(n));
      hide Spell, Tail;
      assert s[0] == Letter(m.level) && s[0] == Letter(n.level);
      LetterInjective(m.level, n.level);
      assert m.time == s[1..w + 1] && n.time == s[1..w + 1];
      assert a == s[w + 2..] && b == s[w + 2..];
      FirstColon(m.file, Tail(m), n.file, Tail(n));
      TailInjective(m, n);
    }
  }

  // ---- Which log holds what -------------------------------------------------------------------

  predicate HasOwn(level: Level) { level.Warn? || level.Error? || level.Fatal? }

  function Own(l: Logs, level: Level): Disk
    requires HasOwn(level)
  {
    match level
    case Warn => l.warn
    case Error => l.error
    case Fatal => l.fatal
  }

  /** The records of one level, recognised by their first letter. */
  function OfLevel(level: Level): Record -> bool { (r: Record) => r != "" && r[0] == Letter(level) }

  /** A log's records, file after file. */
  function Records(d: Disk): seq<Record> { Concat(d.files) }

  /** The level's own log holds exactly the records of that level in ALL, in its order. */
  ghost predicate Filtered(l: Logs, level: Level)
    requires HasOwn(level)
  {
    Records(Own(l, level)) == Filter(Records(l.all), OfLevel(level))
  }

  /** The event is a message of the given level that passes the threshold. */
  predicate Admits(l: Logs, e: Event, level: Level) {
    e.Log? && e.message.level == level && IsLogged(l.threshold, level)
  }

  function NonEmpty(pieces: seq<Record>): seq<Record> { if pieces == [""] then [] else pieces }

  /** Of the event's message, if it is of the level, the same piece lands in ALL and in the level's log,
      where nothing lands in ALL if an empty piece does. */
  predicate Together(l: Logs, e: Event, level: Level)
    requires HasOwn(level)
  {
    Admits(l, e, level) ==>
      Landing(Own(l, level), Spell(e.message), e.own) == NonEmpty(Landing(l.all, Spell(e.message), e.all))
  }

  ghost predicate AllNewest(l: Logs) { Newest(l.all) && Newest(l.warn) && Newest(l.error) && Newest(l.fatal) }

  lemma WriteAppends(d: Disk, max: nat, log: Record, calls: Calls)
    requires Newest(d)
    ensures Newest(WriteLogged(d, max, log, calls))
    ensures Records(WriteLogged(d, max, log, calls)) == Records(d) + Landing(d, log, calls)
  {
    NothingLostStep(d, max, log, calls);
    NewestStep(d, max, log, calls);
    hide Concat, WriteLogged, Newest, Landing;
  }

  lemma NewestKept(l: Logs, max: nat, e: Event)
    requires AllNewest(l)
    ensures AllNewest(Apply(l, max, e))
  {
    if e.Log? {
      hide Newest, WriteLogged, Spell;
      var log := Spell(e.message);
      NewestStep(l.all, max, log, e.all);
      NewestStep(l.warn, max, log, e.own);
      NewestStep(l.error, max, log, e.own);
      NewestStep(l.fatal, max, log, e.own);
    }
  }

  /** At most one piece lands, and it is the beginning of the record. */
  lemma OneLands(d: Disk, log: Record, calls: Calls)
    ensures var landed := Landing(d, log, calls); landed == [] || (landed == [landed[0]] && landed[0] <= log)
  {}

  lemma FilterOne(p: Record, level: Level)
    ensures Filter([p], OfLevel(level)) == if OfLevel(level)(p) then [p] else []
  {
    assert [] + [p] == [p];
    FilterSnoc([], OfLevel(level), p);
  }

  lemma PieceLetter(m: Message, p: Record, level: Level)
    requires p <= Spell(m)
    ensures OfLevel(level)(p) <==> p != "" && m.level == level
  {
    RecordsReadBack(m, m);
    if p != "" { assert p[0] == Spell(m)[0]; }
    if Letter(m.level) == Letter(level) { LetterInjective(m.level, level); }
    hide Spell, Letter;
  }

  /** A piece of a record is the record's level's, unless it is empty. */
  lemma PieceLevel(m: Message, d: Disk, calls: Calls, level: Level)
    ensures var landed := Landing(d, Spell(m), calls);
            Filter(landed, OfLevel(level)) == if m.level == level then NonEmpty(landed) else []
  {
    var landed := Landing(d, Spell(m), calls);
    OneLands(d, Spell(m), calls);
    if landed != [] {
      PieceLetter(m, landed[0], level);
      FilterOne(landed[0], level);
      hide Spell, Landing, Filter, OfLevel;
      assert landed == [landed[0]];
    }
  }

  lemma {:induction false} FilterAppend<T>(s: seq<T>, t: seq<T>, p: T -> bool)
    ensures Filter(s + t, p) == Filter(s, p) + Filter(t, p)
  {
    if t == [] {
      assert s + t == s && Filter(s, p) + [] == Filter(s, p);
    } else {
      var n := |t| - 1;
      assert s + t == (s + t[..n]) + [t[n]] && t == t[..n] + [t[n]];
      FilterAppend(s, t[..n], p);
      FilterSnoc(s + t[..n], p, t[n]);
      FilterSnoc(t[..n], p, t[n]);
      hide Filter;
    }
  }

  lemma ApplyAll(l: Logs, max: nat, e: Event)
    requires AllNewest(l)
    ensures Records(Apply(l, max, e).all) ==
            Records(l.all) + if e.Log? && IsLogged(l.threshold, e.message.level)
                             then Landing(l.all, Spell(e.message), e.all) else []
  {
    hide WriteLogged, Records, Landing, Spell;
    if e.Log? { WriteAppends(l.all, max, Spell(e.message), e.all); }
    assert Records(l.all) + [] == Records(l.all);
  }

  lemma ApplyOwn(l: Logs, max: nat, e: Event, level: Level)
    requires AllNewest(l) && HasOwn(level)
    ensures Records(Own(Apply(l, max, e), level)) ==
            Records(Own(l, level)) + if Admits(l, e, level) then Landing(Own(l, level), Spell(e.message), e.own) else []
  {
    hide WriteLogged, Records, Landing, Spell;
    if e.Log? { WriteAppends(Own(l, level), max, Spell(e.message), e.own); }
    assert Records(Own(l, level)) + [] == Records(Own(l, level));
  }

  lemma SameEnd<T>(s: seq<T>, a: seq<T>, b: seq<T>)
    ensures s + a == s + b <==> a == b
  {
    assert a == (s + a)[|s|..] && b == (s + b)[|s|..];
  }

  /** A step from agreement keeps it exactly when the message's two landings agree. */
  lemma FilteredStep(l: Logs, max: nat, e: Event, level: Level)
    requires AllNewest(l) && HasOwn(level) && Filtered(l, level)
    ensures Filtered(Apply(l, max, e), level) <==> Together(l, e, level)
  {
    ApplyAll(l, max, e);
    ApplyOwn(l, max, e, level);
    if e.Log? && IsLogged(l.threshold, e.message.level) {
      var landed := Landing(l.all, Spell(e.message), e.all);
      FilterAppend(Records(l.all), landed, OfLevel(level));
      PieceLevel(e.message, l.all, e.all, level);
      hide Apply, Records, Own, Landing, Spell, Filter, AllNewest, NonEmpty;
      var own, same := Records(Own(l, level)), Landing(Own(l, level), Spell(e.message), e.own);
      if e.message.level == level {
        SameEnd(own, same, NonEmpty(landed));
      } else {
        assert own + [] == own;
      }
    } else {
      assert Records(l.all) + [] == Records(l.all) && Records(Own(l, level)) + [] == Records(Own(l, level));
      hide Apply, Records, Own, Filter;
    }
  }

  /** The two logs agree after every event of the run, and every message lands the same in both. */
  ghost predicate AlwaysFiltered(threshold: int, max: nat, events: seq<Event>, level: Level)
    requires HasOwn(level)
  {
    Filtered(Run(threshold, max, events), level)
    && (events == [] || AlwaysFiltered(threshold, max, events[..|events| - 1], level))
  }

  predicate AlwaysTogether(threshold: int, max: nat, events: seq<Event>, level: Level)
    requires HasOwn(level)
  {
    events == [] ||
    (AlwaysTogether(threshold, max, events[..|events| - 1], level)
     && Together(Run(threshold, max, events[..|events| - 1]), Last(events), level))
  }

  lemma {:induction false} RunNewest(threshold: int, max: nat, events: seq<Event>)
    ensures AllNewest(Run(threshold, max, events))
  {
    if events != [] {
      RunNewest(threshold, max, events[..|events| - 1]);
      hide AllNewest, Apply;
      NewestKept(Run(threshold, max, events[..|events| - 1]), max, Last(events));
    }
  }

  /** Whatever the limit, the level changes and the outcomes of all system calls, the WARN, ERROR and FATAL
      logs are throughout the run exactly the records of those levels in the ALL log, in its order, if and
      only if each message of the level lands the same in both.  Failed rotations cost nothing. */
  lemma {:induction false} LevelLogsAreFilters(threshold: int, max: nat, events: seq<Event>, level: Level)
    requires HasOwn(level)
    ensures AlwaysFiltered(threshold, max, events, level) <==> AlwaysTogether(threshold, max, events, level)
  {
    if events != [] {
      var before := events[..|events| - 1];
      LevelLogsAreFilters(threshold, max, before, level);
      RunNewest(threshold, max, before);
      hide Filtered, Together, Apply, AllNewest;
      if AlwaysFiltered(threshold, max, before, level) {
        FilteredStep(Run(threshold, max, before), max, Last(events), level);
      }
    }
  }

  /** The first open and the write succeed, whatever becomes of a rotation. */
  predicate WritesWhole(calls: Calls, log: Record) {
    calls.firstOpens && calls.wrote.Some? && calls.wrote.value >= |log|
  }

  lemma WholeLands(d: Disk, log: Record, calls: Calls)
    requires WritesWhole(calls, log)
    ensures Landing(d, log, calls) == [log]
  {
    assert log[..|log|] == log;
  }

  /** While first opens and writes succeed the level logs are filters, even if every rotation fails. */
  lemma {:induction false} SmoothRunsFilter(threshold: int, max: nat, events: seq<Event>, level: Level)
    requires HasOwn(level)
    requires forall k :: 0 <= k < |events| && events[k].Log? ==>
               && WritesWhole(events[k].own, Spell(events[k].message))
               && WritesWhole(events[k].all, Spell(events[k].message))
    ensures AlwaysFiltered(threshold, max, events, level)
  {
    LevelLogsAreFilters(threshold, max, events, level);
    if events != [] {
      var before, e := events[..|events| - 1], Last(events);
      SmoothRunsFilter(threshold, max, before, level);
      LevelLogsAreFilters(threshold, max, before, level);
      if e.Log? {
        var l := Run(threshold, max, before);
        RecordsReadBack(e.message, e.message);
        WholeLands(Own(l, level), Spell(e.message), e.own);
        WholeLands(l.all, Spell(e.message), e.all);
      }
      hide Run, Filtered, Landing, Spell, WritesWhole;
    }
  }

  /** A run in which one failed write makes the WARN log miss a record that ALL has. */
  lemma LostWriteSplitsTheLogs(m: Message)
    requires m.level.Warn?
    ensures var whole := Some(|Spell(m)|);
            var e := Log(m, Calls(true, true, None), Calls(true, true, whole));
            && Records(Run(0, 1, [e]).warn) == [] && Records(Run(0, 1, [e]).all) == [Spell(m)]
            && !AlwaysFiltered(0, 1, [e], Warn)
  {
    var e := Log(m, Calls(true, true, None), Calls(true, true, Some(|Spell(m)|)));
    LevelLogsAreFilters(0, 1, [e], Warn);
    RecordsReadBack(m, m);
    assert [e][..0] == [];
    var l := Initial(0);
    WholeLands(l.all, Spell(m), e.all);
    ApplyAll(l, 1, e);
    ApplyOwn(l, 1, e, Warn);
    hide Spell, Filtered, AlwaysFiltered, WriteLogged;
    assert Run(0, 1, [e]) == Apply(l, 1, e);
    assert [] + [Spell(m)] == [Spell(m)];
    assert !Together(l, e, Warn);
  }

  // ---- The ALL log ----------------------------------------------------------------------------

  /** The messages that passed the threshold in force when they were logged. */
  function Admitted(threshold: int, max: nat, events: seq<Event>): seq<Record> {
    if events == [] then []
    else
      var before, e := events[..|events| - 1], Last(events);
      Admitted(threshold, max, before)
      + if e.Log? && IsLogged(Run(threshold, max, before).threshold, e.message.level) then [Spell(e.message)] else []
  }

  /** What of them landed in ALL. */
  function Stored(threshold: int, max: nat, events: seq<Event>): seq<Record> {
    if events == [] then []
    else
      var before, e := events[..|events| - 1], Last(events);
      var l := Run(threshold, max, before);
      Stored(threshold, max, before)
      + if e.Log? && IsLogged(l.threshold, e.message.level) then Landing(l.all, Spell(e.message), e.all) else []
  }

  /** Every admitted message landed whole. */
  predicate AllWhole(threshold: int, max: nat, events: seq<Event>) {
    events == [] ||
    (var before, e := events[..|events| - 1], Last(events);
     var l := Run(threshold, max, before);
     && AllWhole(threshold, max, before)
     && (e.Log? && IsLogged(l.threshold, e.message.level) ==>
           Landing(l.all, Spell(e.message), e.all) == [Spell(e.message)]))
  }

  lemma OneMore<T>(s: seq<T>, t: seq<T>, a: seq<T>, b: T)
    requires |s| <= |t| && |a| <= 1
    ensures |s + a| <= |t + [b]|
    ensures s + a == t + [b] <==> s == t && a == [b]
  {
    if s + a == t + [b] {
      assert s == (s + a)[..|s|] && t == (t + [b])[..|s|];
      assert a == (s + a)[|s|..] && [b] == (t + [b])[|s|..];
    }
  }

  /** Whatever the outcomes of the system calls, the ALL log holds what landed of each admitted message, in
      order, and nothing else; it holds the admitted messages exactly when each landed whole. */
  lemma {:induction false} AllLogIsComplete(threshold: int, max: nat, events: seq<Event>)
    ensures Records(Run(threshold, max, events).all) == Stored(threshold, max, events)
    ensures |Stored(threshold, max, events)| <= |Admitted(threshold, max, events)|
    ensures Stored(threshold, max, events) == Admitted(threshold, max, events) <==> AllWhole(threshold, max, events)
  {
    if events != [] {
      var before, e := events[..|events| - 1], Last(events);
      var l := Run(threshold, max, before);
      AllLogIsComplete(threshold, max, before);
      RunNewest(threshold, max, before);
      ApplyAll(l, max, e);
      hide AllNewest, Apply, Records, Spell;
      if e.Log? {
        var landed := Landing(l.all, Spell(e.message), e.all);
        assert |landed| <= 1;
        hide Landing;
        OneMore(Stored(threshold, max, before), Admitted(threshold, max, before), landed, Spell(e.message));
      }
    }
  }

  // ---- The threshold --------------------------------------------------------------------------

  /** The threshold in force after the events: the last one set. */
  function Threshold(initial: int, events: seq<Event>): int {
    if events == [] then initial
    else if Last(events).ModifyLevel? then Last(events).level
    else Threshold(initial, events[..|events| - 1])
  }

  /** The records of the messages whose level was, when they were logged, at or after the threshold in force. */
  function AtOrAbove(initial: int, events: seq<Event>): seq<Record> {
    if events == [] then []
    else
      var before, e := events[..|events| - 1], Last(events);
      AtOrAbove(initial, before)
      + if e.Log? && Position(e.message.level) >= Threshold(initial, before) then [Spell(e.message)] else []
  }

  /** The records of all messages. */
  function Messages(events: seq<Event>): seq<Record> {
    if events == [] then []
    else Messages(events[..|events| - 1]) + if Last(events).Log? then [Spell(Last(events).message)] else []
  }

  lemma {:induction false} RunThreshold(threshold: int, max: nat, events: seq<Event>)
    ensures Run(threshold, max, events).threshold == Threshold(threshold, events)
  {
    if events != [] {
      RunThreshold(threshold, max, events[..|events| - 1]);
      hide WriteLogged;
    }
  }

  /** A level's number is its place in the list. */
  lemma GateIsTheOrder(threshold: int, level: Level)
    ensures IsLogged(threshold, level) <==> Position(level) >= threshold
  {
    var k := Position(level);
    assert k == 0 || k == 1 || k == 2 || k == 3 || k == 4 || k == 5 || k == 6;
  }

  /** With whole writes the ALL log holds exactly the messages at or after the threshold in force, in order; with
      a threshold that no level is below, that is every message. */
  lemma {:induction false} AllHoldsWhatPasses(threshold: int, max: nat, events: seq<Event>)
    requires forall k :: 0 <= k < |events| && events[k].Log? ==> WritesWhole(events[k].all, Spell(events[k].message))
    ensures Records(Run(threshold, max, events).all) == AtOrAbove(threshold, events)
    ensures threshold <= 0 && (forall k :: 0 <= k < |events| ==> events[k].Log?) ==>
              Threshold(threshold, events) == threshold && AtOrAbove(threshold, events) == Messages(events)
  {
    if events != [] {
      var before, e := events[..|events| - 1], Last(events);
      var l := Run(threshold, max, before);
      AllHoldsWhatPasses(threshold, max, before);
      RunNewest(threshold, max, before);
      RunThreshold(threshold, max, before);
      ApplyAll(l, max, e);
      if e.Log? {
        GateIsTheOrder(l.threshold, e.message.level);
        WholeLands(l.all, Spell(e.message), e.all);
      }
      hide AllNewest, Apply, Records, Spell, Landing, WritesWhole, IsLogged;
    }
  }

  /** The letters in the order of the levels. */
  const LETTERS := "ATDIWEF"

  lemma LetterAt(level: Level)
    ensures Letter(level) == LETTERS[Position(level)]
  {
    var k := Position(level);
    assert k == 0 || k == 1 || k == 2 || k == 3 || k == 4 || k == 5 || k == 6;
  }

  lemma LayoutTail()
    ensures Format.Template(["] ", "\n"]) == "] {}\n"
    ensures Format.Holes("") == Format.Holes(" ") == Format.Holes(":") == Format.Holes("] ") == Format.Holes("\n") == 0
  {
    assert Format.Template(["\n"]) == "\n";
    Format.TemplateCons("] ", ["\n"]);
    assert ["] "] + ["\n"] == ["] ", "\n"];
    assert "] "[1..] == " " && " "[1..] == "";
  }

  lemma LayoutHead(tail: seq<string>)
    requires tail != []
    ensures Format.Template(["", "", " ", ":"] + tail) == "{}{} {}:{}" + Format.Template(tail)
  {
    var t := Format.Template(tail);
    Format.TemplateCons(":", tail);
    Format.TemplateCons(" ", [":"] + tail);
    Format.TemplateCons("", [" "] + ([":"] + tail));
    Format.TemplateCons("", [""] + ([" "] + ([":"] + tail)));
    assert ["", "", " ", ":"] + tail == [""] + ([""] + ([" "] + ([":"] + tail)));
    hide Format.Template;
    assert "{}{} {}:{}" + t == "" + ("{}" + ("" + ("{}" + (" " + ("{}" + (":" + ("{}" + t)))))));
  }

  lemma LayoutPieces()
    ensures var pieces := ["", "", " ", ":", "] ", "\n"];
            && Format.Template(pieces) == "{}{} {}:{}] {}\n"
            && forall i :: 0 <= i < |pieces| ==> Format.Holes(pieces[i]) == 0
  {
    LayoutTail();
    LayoutHead(["] ", "\n"]);
    hide Format.Template, Format.Holes;
    assert ["", "", " ", ":"] + ["] ", "\n"] == ["", "", " ", ":", "] ", "\n"];
    assert "{}{} {}:{}" + "] {}\n" == "{}{} {}:{}] {}\n";
  }

  lemma LayoutWeave(a: string, b: string, c: string, d: string, e: string)
    ensures Format.Weave(["", "", " ", ":", "] ", "\n"], [a, b, c, d, e])
            == a + b + " " + c + ":" + d + "] " + e + "\n"
  {
    assert Format.Weave(["\n"], []) == "\n";
    assert ["] ", "\n"][1..] == ["\n"] && [e][1..] == [];
    assert Format.Weave(["] ", "\n"], [e]) == "] " + (e + "\n");
    assert [":", "] ", "\n"][1..] == ["] ", "\n"] && [d, e][1..] == [e];
    assert Format.Weave([":", "] ", "\n"], [d, e]) == ":" + (d + ("] " + (e + "\n")));
    assert [" ", ":", "] ", "\n"][1..] == [":", "] ", "\n"] && [c, d, e][1..] == [d, e];
    assert Format.Weave([" ", ":", "] ", "\n"], [c, d, e]) == " " + (c + (":" + (d + ("] " + (e + "\n")))));
    assert ["", " ", ":", "] ", "\n"][1..] == [" ", ":", "] ", "\n"] && [b, c, d, e][1..] == [c, d, e];
    assert ["", "", " ", ":", "] ", "\n"][1..] == ["", " ", ":", "] ", "\n"] && [a, b, c, d, e][1..] == [b, c, d, e];
  }

  /** How a record is laid out, as a format of its parts. */
  lemma RecordLayout(m: Message)
    ensures Format.Substitute("{}{} {}:{}] {}\n",
                              [[LETTERS[Position(m.level)]], m.time, m.file, ToDecimal(m.line), m.content])
            == Sequences.Ok(Spell(m))
  {
    LetterAt(m.level);
    var a, b, c, d, e := [Letter(m.level)], m.time, m.file, ToDecimal(m.line), m.content;
    hide ToDecimal;
    var pieces := ["", "", " ", ":", "] ", "\n"];
    LayoutPieces();
    Format.FormatWeaves(pieces, [a, b, c, d, e]);
    LayoutWeave(a, b, c, d, e);
    hide Format.Substitute;
  }

  class Easylog {
    var level: int
    const allProxy: LogFileProxy
    const warnProxy: LogFileProxy
    const errorProxy: LogFileProxy
    const fatalProxy: LogFileProxy

    static ghost predicate Apart(a: LogFileProxy, b: LogFileProxy) { a != b && a.system != b.system }

    ghost predicate Valid()
      reads this, allProxy, warnProxy, errorProxy, fatalProxy
      reads allProxy.system, warnProxy.system, errorProxy.system, fatalProxy.system
    {
      && allProxy.Valid() && warnProxy.Valid() && errorProxy.Valid() && fatalProxy.Valid()
      && allProxy.maxFileSize == warnProxy.maxFileSize == errorProxy.maxFileSize == fatalProxy.maxFileSize
      && Apart(allProxy, warnProxy) && Apart(allProxy, errorProxy) && Apart(allProxy, fatalProxy)
      && Apart(warnProxy, errorProxy) && Apart(warnProxy, fatalProxy) && Apart(errorProxy, fatalProxy)
    }

    ghost function View(): Logs
      requires Valid()
      reads this, allProxy, warnProxy, errorProxy, fatalProxy
      reads allProxy.system, warnProxy.system, errorProxy.system, fatalProxy.system
    {
      Logs(level, allProxy.View(), warnProxy.View(), errorProxy.View(), fatalProxy.View())
    }

    constructor (level: int, maxFileSize: nat)
      ensures Valid() && View() == Initial(level) && allProxy.maxFileSize == maxFileSize
      ensures fresh(allProxy) && fresh(warnProxy) && fresh(errorProxy) && fresh(fatalProxy)
      ensures fresh(allProxy.system) && fresh(warnProxy.system) && fresh(errorProxy.system) && fresh(fatalProxy.system)
    {
      this.level := level;
      allProxy := new LogFileProxy(maxFileSize);
      warnProxy := new LogFileProxy(maxFileSize);
      errorProxy := new LogFileProxy(maxFileSize);
      fatalProxy := new LogFileProxy(maxFileSize);
    }

    method ModifyLogLevel(level: int)
      requires Valid()
      modifies this
      ensures Valid() && View() == Apply(old(View()), allProxy.maxFileSize, ModifyLevel(level))
    {
      this.level := level;
    }

    /** `own` and `all` say how the calls on the level's own log and on ALL end. */
    method LogMessage(m: Message, own: Calls, all: Calls)
      requires Valid()
      modifies allProxy, warnProxy, errorProxy, fatalProxy
      modifies allProxy.system, warnProxy.system, errorProxy.system, fatalProxy.system
      ensures Valid() && View() == Apply(old(View()), allProxy.maxFileSize, Log(m, own, all))
    {
      if IsLogged(level, m.level) {
        var log := CreateLog(m);
        WriteFile(m.level, log, own, all);
      }
    }

    method CreateLog(m: Message) returns (log: Record)
      ensures log == Spell(m)
    {
      log := [Letter(m.level)];
      log := log + m.time;
      log := log + " ";
      log := log + m.file;
      log := log + ":";
      log := log + ToDecimal(m.line);
      log := log + "] ";
      log := log + m.content;
      log := log + "\n";
    }

    method WriteFile(l: Level, log: Record, own: Calls, all: Calls)
      requires Valid()
      modifies allProxy, warnProxy, errorProxy, fatalProxy
      modifies allProxy.system, warnProxy.system, errorProxy.system, fatalProxy.system
      ensures Valid()
      ensures var max := allProxy.maxFileSize;
              && View().threshold == old(View()).threshold
              && View().all == WriteLogged(old(View()).all, max, log, all)
              && View().warn == (if l.Warn? then WriteLogged(old(View()).warn, max, log, own) else old(View()).warn)
              && View().error == (if l.Error? then WriteLogged(old(View()).error, max, log, own) else old(View()).error)
              && View().fatal == (if l.Fatal? then WriteLogged(old(View()).fatal, max, log, own) else old(View()).fatal)
    {
      hide WriteLogged;
      if l == Warn {
        warnProxy.WriteLog(log, own);
      } else if l == Error {
        errorProxy.WriteLog(log, own);
      } else if l == Fatal {
        fatalProxy.WriteLog(log, own);
      }
      allProxy.WriteLog(log, all);
    }
  }
}
