/** The configuration file: `key=value` lines, the first binding of a key wins. */
module ConfigFile {
  import opened Sequences
  import opened Format
  import opened Tokens

  type Entry = (string, string)

  datatype ConfigError = DoesNotExist(key: string)

  /** The binding a line makes: no `#` anywhere, a `=`, and exactly two tokens around the `=`s. */
  function Accepted(line: string): Option<Entry> {
    if '#' in line || '=' !in line then None
    else
      var arr := TokensOf(CText(line), "=");
      if |arr| == 2 then Some((arr[0], arr[1])) else None
  }

  /** `emplace` keeps a binding that is already there. */
  function Emplace(configs: map<string, string>, binding: Option<Entry>): map<string, string> {
    if binding.None? || binding.value.0 in configs then configs
    else configs[binding.value.0 := binding.value.1]
  }

  function Load(configs: map<string, string>, lines: seq<string>): map<string, string> {
    if lines == [] then configs
    else Emplace(Load(configs, lines[..|lines| - 1]), Accepted(lines[|lines| - 1]))
  }

  lemma CTextOf(s: string)
    requires '\0' !in s
    ensures CText(s) == s
  {}

  // ---- Which lines are accepted ---------------------------------------------------------------

  predicate AllEquals(s: string) { forall i :: 0 <= i < |s| ==> s[i] == '=' }

  predicate IsField(s: string) { s != "" && '=' !in s }

  /** A key and a value with `=`s between them, and perhaps before and after. */
  ghost predicate Spells(s: string, k: string, v: string) {
    exists a, b, c :: AllEquals(a) && AllEquals(b) && b != "" && AllEquals(c) && s == a + k + b + v + c
  }

  /** The same by positions: the key from i to j, the value from m to n, and `=`s everywhere else. */
  ghost predicate Laid(s: string, k: string, v: string, i: nat, j: nat, m: nat, n: nat) {
    && i < j < m < n <= |s| && s[i..j] == k && s[m..n] == v
    && forall x :: 0 <= x < |s| ==> (s[x] == '=' <==> x < i || j <= x < m || n <= x)
  }

  lemma LaidSpells(s: string, k: string, v: string, i: nat, j: nat, m: nat, n: nat)
    requires Laid(s, k, v, i, j, m, n)
    ensures IsField(k) && IsField(v) && Spells(s, k, v)
  {
    var a, b, c := s[..i], s[j..m], s[n..];
    assert AllEquals(a) && AllEquals(b) && b != "" && AllEquals(c);
    assert s == a + k + b + v + c;
    assert forall x :: 0 <= x < |k| ==> k[x] == s[i + x];
    assert forall x :: 0 <= x < |v| ==> v[x] == s[m + x];
  }

  lemma SpelledSlices(a: string, k: string, b: string, v: string, c: string)
    ensures var s := a + k + b + v + c;
            var i, j, m, n := |a|, |a| + |k|, |a| + |k| + |b|, |a| + |k| + |b| + |v|;
            && n <= |s| && s[..i] == a && s[i..j] == k && s[j..m] == b && s[m..n] == v && s[n..] == c
  {}

  lemma SlicesLay(s: string, a: string, k: string, b: string, v: string, c: string)
    requires AllEquals(a) && IsField(k) && AllEquals(b) && b != "" && IsField(v) && AllEquals(c)
    requires var i, j, m, n := |a|, |a| + |k|, |a| + |k| + |b|, |a| + |k| + |b| + |v|;
             && n <= |s| && s[..i] == a && s[i..j] == k && s[j..m] == b && s[m..n] == v && s[n..] == c
    ensures Laid(s, k, v, |a|, |a| + |k|, |a| + |k| + |b|, |a| + |k| + |b| + |v|)
  {
    var i, j, m, n := |a|, |a| + |k|, |a| + |k| + |b|, |a| + |k| + |b| + |v|;
    forall x | 0 <= x < |s|
      ensures s[x] == '=' <==> x < i || j <= x < m || n <= x
    {
      if x < i { assert s[x] == a[x]; }
      else if x < j { assert s[x] == k[x - i]; }
      else if x < m { assert s[x] == b[x - j]; }
      else if x < n { assert s[x] == v[x - m]; }
      else { assert s[x] == c[x - n]; }
    }
  }

  lemma SpelledIsLaid(a: string, k: string, b: string, v: string, c: string)
    requires AllEquals(a) && IsField(k) && AllEquals(b) && b != "" && IsField(v) && AllEquals(c)
    ensures Laid(a + k + b + v + c, k, v, |a|, |a| + |k|, |a| + |k| + |b|, |a| + |k| + |b| + |v|)
  {
    SpelledSlices(a, k, b, v, c);
    SlicesLay(a + k + b + v + c, a, k, b, v, c);
  }

  lemma LaidScans(s: string, k: string, v: string, i: nat, j: nat, m: nat, n: nat)
    requires Laid(s, k, v, i, j, m, n)
    ensures Scan(s, 0, "=", false) == i && Scan(s, i, "=", true) == j
    ensures Scan(s, j + 1, "=", false) == m && Scan(s, m, "=", true) == n
    ensures Scan(s, Resume(s, n), "=", false) == |s|
  {
    assert forall x :: 0 <= x < |s| ==> (s[x] in "=" <==> s[x] == '=');
    assert s[i] != '=' && s[j] == '=' && s[m] != '=' && (n < |s| ==> s[n] == '=');
  }

  lemma LaidTokens(s: string, k: string, v: string, i: nat, j: nat, m: nat, n: nat)
    requires Laid(s, k, v, i, j, m, n)
    ensures TokensOf(s, "=") == [k, v]
  {
    LaidScans(s, k, v, i, j, m, n);
    assert Resume(s, j) == j + 1 && i < |s| && m < |s|;
    assert s[i..j] == k && s[m..n] == v;
    hide TokensFrom, Scan, Laid, Resume;
    TokenStep(s, "=", 0);
    TokenStep(s, "=", j + 1);
    TokenStep(s, "=", Resume(s, n));
    assert TokensFrom(s, "=", Resume(s, n)) == [];
    assert TokensFrom(s, "=", j + 1) == [v] + [] == [v];
    assert [k] + [v] == [k, v];
  }

  lemma LayFromScans(s: string, i: nat, j: nat, m: nat, n: nat)
    requires i < |s| && i == Scan(s, 0, "=", false) && j == Scan(s, i, "=", true)
    requires m < |s| && m == Scan(s, Resume(s, j), "=", false) && n == Scan(s, m, "=", true)
    requires Scan(s, Resume(s, n), "=", false) == |s|
    ensures Laid(s, s[i..j], s[m..n], i, j, m, n)
  {
    assert forall x :: 0 <= x < |s| ==> (s[x] in "=" <==> s[x] == '=');
  }

  /** Two tokens leave nothing but `=`s around them. */
  lemma TokensLay(s: string, k: string, v: string) returns (i: nat, j: nat, m: nat, n: nat)
    requires TokensOf(s, "=") == [k, v]
    ensures Laid(s, k, v, i, j, m, n)
  {
    hide TokensFrom;
    i := Scan(s, 0, "=", false);
    TokenStep(s, "=", 0);
    j := Scan(s, i, "=", true);
    var rest := TokensFrom(s, "=", Resume(s, j));
    assert [s[i..j]] + rest == [k, v];
    assert s[i..j] == ([s[i..j]] + rest)[0] == k && rest == ([s[i..j]] + rest)[1..] == [v];
    TokenStep(s, "=", Resume(s, j));
    m := Scan(s, Resume(s, j), "=", false);
    n := Scan(s, m, "=", true);
    var last := TokensFrom(s, "=", Resume(s, n));
    assert [s[m..n]] + last == [v];
    assert s[m..n] == ([s[m..n]] + last)[0] == v && last == ([s[m..n]] + last)[1..] == [];
    TokenStep(s, "=", Resume(s, n));
    assert Scan(s, Resume(s, n), "=", false) == |s|;
    LayFromScans(s, i, j, m, n);
  }

  lemma AcceptedSpells(line: string, k: string, v: string)
    requires Accepted(line) == Some((k, v))
    ensures IsField(k) && IsField(v) && Spells(CText(line), k, v)
  {
    var s := CText(line);
    hide Spells, IsField, Laid;
    assert TokensOf(s, "=") == [k, v];
    var i, j, m, n := TokensLay(s, k, v);
    LaidSpells(s, k, v, i, j, m, n);
  }

  lemma SpelledIsAccepted(line: string, k: string, v: string)
    requires '#' !in line && IsField(k) && IsField(v) && Spells(CText(line), k, v)
    ensures Accepted(line) == Some((k, v))
  {
    var s := CText(line);
    var a, b, c :| AllEquals(a) && AllEquals(b) && b != "" && AllEquals(c) && s == a + k + b + v + c;
    var j := |a| + |k|;
    SpelledIsLaid(a, k, b, v, c);
    LaidTokens(s, k, v, |a|, j, j + |b|, j + |b| + |v|);
    assert s[j] == '=';
    CTextShape(line);
    assert line[j] == '=';
  }

  /** A line makes a binding exactly when it has no `#`, and what `c_str` shows of it is a key and a value, both
      non-empty and free of `=`, with at least one `=` between them and nothing but `=`s around them.  A text with
      three fields, or one, makes none. */
  lemma AcceptedExactly(line: string, k: string, v: string)
    ensures Accepted(line) == Some((k, v))
            <==> '#' !in line && IsField(k) && IsField(v) && Spells(CText(line), k, v)
  {
    if Accepted(line) == Some((k, v)) { AcceptedSpells(line, k, v); }
    hide Spells, IsField;
    if '#' !in line && IsField(k) && IsField(v) && Spells(CText(line), k, v) { SpelledIsAccepted(line, k, v); }
  }

  // ---- Which line decides ---------------------------------------------------------------------

  predicate Binds(line: string, key: string) { Accepted(line).Some? && Accepted(line).value.0 == key }

  /** The line is the first one accepted for the key. */
  ghost predicate First(lines: seq<string>, i: int, key: string) {
    0 <= i < |lines| && Binds(lines[i], key) && forall j :: 0 <= j < i ==> !Binds(lines[j], key)
  }

  /** The stored value is the earlier one if there is one, else that of the first accepted line for the
      key; a key no accepted line mentions is not there. */
  lemma {:induction false} FirstBindingWins(configs: map<string, string>, lines: seq<string>, key: string)
    ensures key in configs ==> key in Load(configs, lines) && Load(configs, lines)[key] == configs[key]
    ensures forall i :: First(lines, i, key) && key !in configs ==>
              key in Load(configs, lines) && Load(configs, lines)[key] == Accepted(lines[i]).value.1
    ensures key in Load(configs, lines) ==> key in configs || exists i :: 0 <= i < |lines| && Binds(lines[i], key)
  {
    hide Accepted;
    if lines != [] {
      var n := |lines| - 1;
      var init := lines[..n];
      FirstBindingWins(configs, init, key);
      assert forall j :: 0 <= j < n ==> init[j] == lines[j];
    }
  }

  /** A key is there exactly when some line was accepted for it. */
  lemma {:induction false} BoundIffLine(lines: seq<string>, key: string)
    ensures key in Load(map[], lines) <==> exists i :: 0 <= i < |lines| && Binds(lines[i], key)
  {
    hide Accepted;
    if lines != [] {
      var n := |lines| - 1;
      BoundIffLine(lines[..n], key);
      assert forall i :: 0 <= i < n ==> lines[..n][i] == lines[i];
      assert forall i :: 0 <= i < n && Binds(lines[..n][i], key) ==> Binds(lines[i], key);
    }
  }

  /** Loading twice is loading the lines one after the other. */
  lemma {:induction false} LoadTwice(configs: map<string, string>, a: seq<string>, b: seq<string>)
    ensures Load(Load(configs, a), b) == Load(configs, a + b)
  {
    if b == [] {
      assert a + b == a;
    } else {
      LoadTwice(configs, a, b[..|b| - 1]);
      assert (a + b)[..|a + b| - 1] == a + b[..|b| - 1];
    }
  }

  /** The lines of a file; one that cannot be opened has none. */
  function LinesIn(file: Option<string>): seq<string> {
    match file
    case None => []
    case Some(text) => Lines(text)
  }

  // ---- The object -----------------------------------------------------------------------------

  class ConfigFile {
    var configs: map<string, string>
    ghost var loaded: seq<string>  // every line loaded so far

    ghost predicate Valid()
      reads this
    {
      configs == Load(map[], loaded)
    }

    constructor ()
      ensures Valid() && loaded == []
    {
      configs, loaded := map[], [];
    }

    /** Loads a file on top of what is there; `None` is a file that cannot be opened. */
    method SetFilePath(file: Option<string>)
      requires Valid()
      modifies this
      ensures Valid() && loaded == old(loaded) + LinesIn(file)
      ensures configs == Load(old(configs), LinesIn(file))
    {
      hide Lines, TokensOf;
      var lines := ReadFile(file);
      for n := 0 to |lines|
        invariant configs == Load(old(configs), lines[..n]) && loaded == old(loaded)
      {
        var line := lines[n];
        assert lines[..n + 1][..n] == lines[..n];
        if '#' !in line && '=' in line {
          CTextOf("=");
          var arr := Split(line, "=");
          if |arr| == 2 && arr[0] !in configs {
            configs := configs[arr[0] := arr[1]];
          }
        }
      }
      assert lines[..|lines|] == lines;
      LoadTwice(map[], old(loaded), lines);
      loaded := loaded + lines;
    }

    /** The value of the first accepted line for the key, in all that was ever loaded; the exception
        exactly when there is none. */
    method GetString(key: string) returns (r: Result<string, ConfigError>)
      requires Valid()
      ensures r.Err? <==> forall i :: 0 <= i < |loaded| ==> !Binds(loaded[i], key)
      ensures r.Err? ==> r.error == DoesNotExist(key)
      ensures forall i :: First(loaded, i, key) ==> r == Ok(Accepted(loaded[i]).value.1)
    {
      FirstBindingWins(map[], loaded, key);
      BoundIffLine(loaded, key);
      hide Load, Accepted;
      if key !in configs {
        return Err(DoesNotExist(key));
      }
      return Ok(configs[key]);
    }

    /** Whether any line loaded was accepted for the key. */
    method IsExist(key: string) returns (r: bool)
      requires Valid()
      ensures r <==> exists i :: 0 <= i < |loaded| && Binds(loaded[i], key)
    {
      BoundIffLine(loaded, key);
      hide Load, Accepted;
      return key in configs;
    }
  }

  // ---- Round trip -----------------------------------------------------------------------------

  predicate CleanText(s: string) { s != "" && '=' !in s && '#' !in s && '\n' !in s && '\0' !in s }

  /** What the file format can carry. */
  predicate Clean(e: Entry) { CleanText(e.0) && CleanText(e.1) }

  function LineOf(e: Entry): string { e.0 + "=" + e.1 }

  /** The entries written one to a line. */
  function Print(entries: seq<Entry>): string {
    if entries == [] then "" else LineOf(entries[0]) + "\n" + Print(entries[1..])
  }

  function LinesOf(entries: seq<Entry>): seq<string> {
    seq(|entries|, i requires 0 <= i < |entries| => LineOf(entries[i]))
  }

  predicate Distinct(entries: seq<Entry>) {
    forall i, j :: 0 <= i < j < |entries| ==> entries[i].0 != entries[j].0
  }

  function MapOf(entries: seq<Entry>): map<string, string> {
    if entries == [] then map[]
    else
      var last := entries[|entries| - 1];
      MapOf(entries[..|entries| - 1])[last.0 := last.1]
  }

  lemma {:induction false} MapOfIs(entries: seq<Entry>)
    requires Distinct(entries)
    ensures forall i :: 0 <= i < |entries| ==>
              entries[i].0 in MapOf(entries) && MapOf(entries)[entries[i].0] == entries[i].1
    ensures forall k :: k in MapOf(entries) ==> exists i :: 0 <= i < |entries| && entries[i].0 == k
  {
    if entries != [] {
      var n := |entries| - 1;
      MapOfIs(entries[..n]);
      assert forall i :: 0 <= i < n ==> entries[..n][i] == entries[i];
    }
  }

  lemma PrintedIsAccepted(e: Entry)
    requires Clean(e)
    ensures Accepted(LineOf(e)) == Some(e)
  {
    var line := LineOf(e);
    CTextOf(line);
    assert AllEquals("") && AllEquals("=") && line == "" + e.0 + "=" + e.1 + "";
    AcceptedExactly(line, e.0, e.1);
  }

  lemma {:induction false} PrintedLines(entries: seq<Entry>)
    requires forall i :: 0 <= i < |entries| ==> Clean(entries[i])
    ensures Lines(Print(entries)) == LinesOf(entries)
  {
    if entries != [] {
      PrintedLines(entries[1..]);
      LinesCons(LineOf(entries[0]), Print(entries[1..]));
    }
  }

  lemma LoadSnoc(configs: map<string, string>, lines: seq<string>, line: string)
    ensures Load(configs, lines + [line]) == Emplace(Load(configs, lines), Accepted(line))
  {
    assert (lines + [line])[..|lines|] == lines;
  }

  lemma LinesOfLast(entries: seq<Entry>)
    requires entries != []
    ensures var n := |entries| - 1; LinesOf(entries) == LinesOf(entries[..n]) + [LineOf(entries[n])]
  {
    hide LineOf;
  }

  /** The last entry's key is not among the earlier ones. */
  lemma LastIsNew(entries: seq<Entry>)
    requires entries != [] && Distinct(entries)
    ensures var n := |entries| - 1;
            && Distinct(entries[..n]) && entries[n].0 !in MapOf(entries[..n])
            && MapOf(entries) == MapOf(entries[..n])[entries[n].0 := entries[n].1]
  {
    var n := |entries| - 1;
    var init := entries[..n];
    assert forall i :: 0 <= i < n ==> init[i] == entries[i];
    MapOfIs(init);
  }

  lemma {:induction false} LoadPrinted(entries: seq<Entry>)
    requires Distinct(entries) && forall i :: 0 <= i < |entries| ==> Clean(entries[i])
    ensures Load(map[], LinesOf(entries)) == MapOf(entries)
  {
    if entries != [] {
      var n := |entries| - 1;
      LastIsNew(entries);
      LinesOfLast(entries);
      PrintedIsAccepted(entries[n]);
      LoadSnoc(map[], LinesOf(entries[..n]), LineOf(entries[n]));
      hide Load, MapOf, LinesOf, LineOf, Accepted, Clean, Distinct;
      LoadPrinted(entries[..n]);
    }
  }

  lemma TokensAreFree(s: string, delims: string, from: nat, c: char)
    requires from <= |s| && (c in delims || c !in s)
    ensures forall t :: t in TokensFrom(s, delims, from) ==> t != "" && c !in t
    decreases |s| - from
  {
    var i := Scan(s, from, delims, false);
    TokenStep(s, delims, from);
    if i < |s| {
      var j := Scan(s, i, delims, true);
      TokensAreFree(s, delims, Resume(s, j), c);
    }
  }

  lemma AcceptedIsClean(line: string)
    requires '\n' !in line && Accepted(line).Some?
    ensures Clean(Accepted(line).value)
  {
    var s := CText(line);
    CTextShape(line);
    var arr := TokensOf(s, "=");
    assert arr[0] in arr && arr[1] in arr;
    TokensAreFree(s, "=", 0, '=');
    TokensAreFree(s, "=", 0, '#');
    TokensAreFree(s, "=", 0, '\n');
    TokensAreFree(s, "=", 0, '\0');
  }

  /** Whatever a file holds, only clean bindings come out of it. */
  lemma {:induction false} LoadedIsClean(lines: seq<string>, key: string)
    requires forall i :: 0 <= i < |lines| ==> '\n' !in lines[i]
    requires key in Load(map[], lines)
    ensures Clean((key, Load(map[], lines)[key]))
  {
    hide Accepted, Clean;
    if lines != [] {
      var n := |lines| - 1;
      if key in Load(map[], lines[..n]) {
        LoadedIsClean(lines[..n], key);
      } else {
        AcceptedIsClean(lines[n]);
      }
    }
  }

  /** Printing a map and loading it gives the map back exactly when every key and value is non-empty
      and free of `=`, `#`, newline and NUL.  `entries` lists the map in any order. */
  lemma {:induction false} ConfigRoundTrip(entries: seq<Entry>)
    requires Distinct(entries)
    ensures Load(map[], Lines(Print(entries))) == MapOf(entries)
            <==> forall i :: 0 <= i < |entries| ==> Clean(entries[i])
  {
    hide Clean;
    if forall i :: 0 <= i < |entries| ==> Clean(entries[i]) {
      PrintedLines(entries);
      LoadPrinted(entries);
    }
    if Load(map[], Lines(Print(entries))) == MapOf(entries) {
      MapOfIs(entries);
      forall i | 0 <= i < |entries|
        ensures Clean(entries[i])
      {
        LinesHaveNoNewline(Print(entries), 0);
        LoadedIsClean(Lines(Print(entries)), entries[i].0);
      }
    }
  }
}
