/** The text helpers: splitting with `strtok_r`, reading lines, and printing bytes as hexadecimal. */
module Tokens {
  import opened Sequences
  import opened Format

  // ---- Tokens ---------------------------------------------------------------------------------

  /** The first position at or after `from` whose character is in `set` or not, as asked. */
  function Scan(s: string, from: nat, delims: string, stopAtDelim: bool): (k: nat)
    requires from <= |s|
    ensures from <= k <= |s|
    ensures forall i :: from <= i < k ==> (s[i] in delims) != stopAtDelim
    ensures k < |s| ==> (s[k] in delims) == stopAtDelim
    decreases |s| - from
  {
    if from == |s| || (s[from] in delims) == stopAtDelim then from else Scan(s, from + 1, delims, stopAtDelim)
  }

  /** The tokens from `from` on, as half-open intervals. */
  function Runs(s: string, delims: string, from: nat): seq<(nat, nat)>
    requires from <= |s|
    decreases |s| - from
  {
    var i := Scan(s, from, delims, false);
    if i == |s| then []
    else
      var j := Scan(s, i, delims, true);
      [(i, j)] + Runs(s, delims, j)
  }

  predicate Inside(s: string, r: (nat, nat)) { r.0 <= r.1 <= |s| }

  function Texts(s: string, runs: seq<(nat, nat)>): seq<string>
    requires forall k :: 0 <= k < |runs| ==> Inside(s, runs[k])
  {
    seq(|runs|, k requires 0 <= k < |runs| && Inside(s, runs[k]) => s[runs[k].0..runs[k].1])
  }

  lemma {:induction false} RunsInside(s: string, delims: string, from: nat)
    requires from <= |s|
    ensures forall k :: 0 <= k < |Runs(s, delims, from)| ==>
              from <= Runs(s, delims, from)[k].0 && Inside(s, Runs(s, delims, from)[k])
    decreases |s| - from
  {
    var i := Scan(s, from, delims, false);
    if i < |s| { RunsInside(s, delims, Scan(s, i, delims, true)); }
  }

  function TokensFrom(s: string, delims: string, from: nat): seq<string>
    requires from <= |s|
  {
    RunsInside(s, delims, from);
    Texts(s, Runs(s, delims, from))
  }

  function TokensOf(s: string, delims: string): seq<string> { TokensFrom(s, delims, 0) }

  /** A delimiter-free stretch that cannot be extended on either side. */
  ghost predicate MaximalRun(s: string, delims: string, i: nat, j: nat) {
    && i < j <= |s|
    && (forall k :: i <= k < j ==> s[k] !in delims)
    && (i == 0 || s[i - 1] in delims)
    && (j == |s| || s[j] in delims)
  }

  /** The first run found is maximal, and no maximal run starts before or inside it. */
  lemma FirstRun(s: string, delims: string, from: nat, i: nat, j: nat)
    requires from <= |s| && (from == 0 || from == |s| || s[from] in delims || s[from - 1] in delims)
    ensures var p := Scan(s, from, delims, false);
            if p == |s| then from <= i ==> !MaximalRun(s, delims, i, j)
            else
              var q := Scan(s, p, delims, true);
              && MaximalRun(s, delims, p, q)
              && (from <= i < q && MaximalRun(s, delims, i, j) ==> i == p && j == q)
  {
    var p := Scan(s, from, delims, false);
    if from <= i && MaximalRun(s, delims, i, j) {
      assert s[i] !in delims;
      if i == p {
        var q := Scan(s, p, delims, true);
        assert q < |s| ==> s[q] in delims;
        assert j < |s| ==> s[j] in delims;
      } else if p < i {
        assert s[i - 1] in delims;
      }
    }
  }

  lemma {:induction false} RunsExactFrom(s: string, delims: string, from: nat, i: nat, j: nat)
    requires from <= |s| && (from == 0 || from == |s| || s[from] in delims || s[from - 1] in delims)
    ensures (i, j) in Runs(s, delims, from) <==> from <= i && MaximalRun(s, delims, i, j)
    decreases |s| - from
  {
    var p := Scan(s, from, delims, false);
    FirstRun(s, delims, from, i, j);
    if p < |s| {
      var q := Scan(s, p, delims, true);
      RunsExactFrom(s, delims, q, i, j);
      hide MaximalRun;
    }
  }

  lemma {:induction false} RunsOrdered(s: string, delims: string, from: nat)
    requires from <= |s|
    ensures forall a, b :: 0 <= a < b < |Runs(s, delims, from)| ==>
              Runs(s, delims, from)[a].1 < Runs(s, delims, from)[b].0
    ensures from < |s| && s[from] in delims ==>
              forall a :: 0 <= a < |Runs(s, delims, from)| ==> from < Runs(s, delims, from)[a].0
    decreases |s| - from
  {
    var i := Scan(s, from, delims, false);
    if i < |s| {
      var j := Scan(s, i, delims, true);
      RunsOrdered(s, delims, j);
      RunsInside(s, delims, j);
    }
  }

  /** Splitting finds exactly the maximal delimiter-free runs, each once, from left to right. */
  lemma SplitFindsMaximalRuns(s: string, delims: string)
    ensures forall i: nat, j: nat :: (i, j) in Runs(s, delims, 0) <==> MaximalRun(s, delims, i, j)
    ensures forall a, b :: 0 <= a < b < |Runs(s, delims, 0)| ==> Runs(s, delims, 0)[a].1 < Runs(s, delims, 0)[b].0
  {
    forall i: nat, j: nat
      ensures (i, j) in Runs(s, delims, 0) <==> MaximalRun(s, delims, i, j)
    {
      RunsExactFrom(s, delims, 0, i, j);
    }
    RunsOrdered(s, delims, 0);
  }

  /** The buffer still shows `s` between two positions. */
  ghost predicate Shows(buffer: array<char>, s: string, from: nat, to: nat)
    requires |s| < buffer.Length
    reads buffer
  {
    forall k :: from <= k < to && k < |s| ==> buffer[k] == s[k]
  }

  /** Splitting goes on after the delimiter that ended the token, if one did. */
  function Resume(s: string, j: nat): nat { if j < |s| then j + 1 else j }

  /** Where `strtok_r` asked from `from` finds a token and leaves off, if it finds one. */
  ghost predicate Reported(s: string, delims: string, from: nat, token: Option<nat>, save: nat)
    requires from <= |s|
  {
    var i := Scan(s, from, delims, false);
    if i == |s| then token.None? && save == |s|
    else token == Some(i) && save == Resume(s, Scan(s, i, delims, true))
  }

  /** `strtok_r` on a NUL-terminated buffer, resumed at `start`: skip delimiters, then cut the token off
      by overwriting the delimiter after it. */
  method StrTok(buffer: array<char>, start: nat, delims: string, ghost s: string)
    returns (token: Option<nat>, save: nat)
    requires start <= |s| < buffer.Length && buffer[|s|] == '\0' && '\0' !in delims && '\0' !in s
    requires Shows(buffer, s, start, |s|)
    modifies buffer
    ensures start <= save <= |s| && Reported(s, delims, start, token, save)
    ensures token.None? ==> buffer[..] == old(buffer[..])
    ensures token.Some? ==>
              var j := Scan(s, token.value, delims, true);
              buffer[..] == old(buffer[..])[j := '\0'] && Shows(buffer, s, token.value, j)
    ensures Shows(buffer, s, save, |s|) && buffer[|s|] == '\0'
  {
    var i := start;
    while buffer[i] != '\0' && buffer[i] in delims
      invariant start <= i <= Scan(s, start, delims, false)
      decreases |s| - i
    {
      i := i + 1;
    }
    if buffer[i] == '\0' {
      return None, i;
    }
    var j := i;
    while buffer[j] != '\0' && buffer[j] !in delims
      invariant i <= j <= Scan(s, i, delims, true)
      decreases |s| - j
    {
      j := j + 1;
    }
    if buffer[j] == '\0' {
      assert buffer[..] == old(buffer[..])[j := '\0'];
      return Some(i), j;
    }
    buffer[j] := '\0';
    return Some(i), j + 1;
  }

  /** Copies the C string that starts at `from`. */
  method CopyString(buffer: array<char>, from: nat, ghost s: string, ghost end: nat) returns (text: string)
    requires from <= end <= |s| < buffer.Length && buffer[end] == '\0' && '\0' !in s
    requires Shows(buffer, s, from, end)
    ensures text == s[from..end]
  {
    text := "";
    var k := from;
    while buffer[k] != '\0'
      invariant from <= k <= end && text == s[from..k]
      decreases end - k
    {
      text := text + [buffer[k]];
      k := k + 1;
    }
  }

  lemma CTextShape(str: string)
    ensures CText(str) <= str && '\0' !in CText(str)
    ensures |CText(str)| < |str| ==> str[|CText(str)|] == '\0'
  {}

  /** A delimiter between tokens adds nothing. */
  lemma SkipDelimiter(s: string, delims: string, j: nat)
    requires j <= |s| && (j < |s| ==> s[j] in delims)
    ensures Runs(s, delims, j) == Runs(s, delims, Resume(s, j))
  {
    if j < |s| { assert Scan(s, j, delims, false) == Scan(s, j + 1, delims, false); }
  }

  lemma TextsCons(s: string, r: (nat, nat), runs: seq<(nat, nat)>)
    requires Inside(s, r) && forall k :: 0 <= k < |runs| ==> Inside(s, runs[k])
    ensures Texts(s, [r] + runs) == [s[r.0..r.1]] + Texts(s, runs)
  {}

  /** The first token, and where splitting resumes after it. */
  lemma TokenStep(s: string, delims: string, from: nat)
    requires from <= |s|
    ensures var i := Scan(s, from, delims, false);
            TokensFrom(s, delims, from) ==
            if i == |s| then []
            else
              var j := Scan(s, i, delims, true);
              [s[i..j]] + TokensFrom(s, delims, Resume(s, j))
  {
    var i := Scan(s, from, delims, false);
    if i < |s| {
      var j := Scan(s, i, delims, true);
      RunsInside(s, delims, j);
      SkipDelimiter(s, delims, j);
      hide Texts, Scan;
      TextsCons(s, (i, j), Runs(s, delims, j));
    }
  }

  lemma TokensAt(s: string, delims: string)
    ensures var runs := Runs(s, delims, 0);
            |TokensOf(s, delims)| == |runs| && forall k :: 0 <= k < |runs| ==>
              Inside(s, runs[k]) && TokensOf(s, delims)[k] == s[runs[k].0..runs[k].1]
  {
    RunsInside(s, delims, 0);
  }

  /** `split`: the tokens of what `c_str` shows of the text. */
  method Split(str: string, delimiter: string) returns (results: seq<string>)
    ensures results == TokensOf(CText(str), CText(delimiter))
    ensures var s, runs := CText(str), Runs(CText(str), CText(delimiter), 0);
            |results| == |runs| && forall k :: 0 <= k < |runs| ==>
              Inside(s, runs[k]) && results[k] == s[runs[k].0..runs[k].1]
  {
    TokensAt(CText(str), CText(delimiter));
    var delims := CText(delimiter);
    ghost var s := CText(str);
    CTextShape(str);
    CTextShape(delimiter);
    hide Scan, TokensFrom, CText;
    var buffer := new char[|str| + 1](i => if 0 <= i < |str| then str[i] else '\0');
    results := [];
    ghost var from := 0;
    var token, save := StrTok(buffer, 0, delims, s);
    assert [] + TokensFrom(s, delims, 0) == TokensOf(s, delims);
    while token.Some?
      invariant from <= save <= |s| && Reported(s, delims, from, token, save)
      invariant results + TokensFrom(s, delims, from) == TokensOf(s, delims)
      invariant buffer[|s|] == '\0' && Shows(buffer, s, save, |s|)
      invariant token.Some? ==>
                  var j := Scan(s, token.value, delims, true);
                  buffer[j] == '\0' && Shows(buffer, s, token.value, j)
      decreases token.Some?, |s| - from
    {
      TokenStep(s, delims, from);
      var text := CopyString(buffer, token.value, s, Scan(s, token.value, delims, true));
      results := results + [text];
      from := save;
      token, save := StrTok(buffer, save, delims, s);
    }
    TokenStep(s, delims, from);
  }

  // ---- Lines ----------------------------------------------------------------------------------

  function FindFrom(s: string, from: nat, c: char): (k: nat)
    requires from <= |s|
    ensures from <= k <= |s| && (k < |s| ==> s[k] == c) && forall i :: from <= i < k ==> s[i] != c
    decreases |s| - from
  {
    if from == |s| || s[from] == c then from else FindFrom(s, from + 1, c)
  }

  /** The line that starts at `from`, without its newline, and where the next one starts. */
  function LineAt(text: string, from: nat): (r: (string, nat))
    requires from < |text|
    ensures from < r.1 <= |text|
  {
    var k := FindFrom(text, from, '\n');
    (text[from..k], Resume(text, k))
  }

  /** What `getline` yields from `from` on: a last line without a newline counts, an empty rest does not. */
  function LinesFrom(text: string, from: nat): seq<string>
    requires from <= |text|
    decreases |text| - from
  {
    if from == |text| then [] else [LineAt(text, from).0] + LinesFrom(text, LineAt(text, from).1)
  }

  function Lines(text: string): seq<string> { LinesFrom(text, 0) }

  method GetLine(text: string, pos: nat) returns (line: Option<string>, next: nat)
    requires pos <= |text|
    ensures pos == |text| ==> line.None? && next == pos
    ensures pos < |text| ==> line == Some(LineAt(text, pos).0) && next == LineAt(text, pos).1
  {
    if pos == |text| {
      return None, pos;
    }
    var k := pos;
    while k < |text| && text[k] != '\n'
      invariant pos <= k <= FindFrom(text, pos, '\n')
    {
      k := k + 1;
    }
    line := Some(text[pos..k]);
    next := Resume(text, k);
  }

  /** `read_file`: the lines of the file; a file that cannot be opened has none. */
  method ReadFile(file: Option<string>) returns (results: seq<string>)
    ensures results == match file case None => [] case Some(text) => Lines(text)
  {
    results := [];
    if file.None? {
      return;
    }
    var text := file.value;
    var line, next := GetLine(text, 0);
    ghost var pos := 0;
    hide LineAt;
    while line.Some?
      invariant pos <= next <= |text|
      invariant results + LinesFrom(text, pos) == Lines(text)
      invariant if pos == |text| then line.None?
                else line == Some(LineAt(text, pos).0) && next == LineAt(text, pos).1
      decreases |text| - pos
    {
      results := results + [line.value];
      pos := next;
      line, next := GetLine(text, next);
    }
  }

  /** From `off` on, `all` reads like `tail`. */
  ghost predicate EndsLike(all: string, off: nat, tail: string) {
    |all| == off + |tail| && forall i :: off <= i < |all| ==> all[i] == tail[i - off]
  }

  lemma {:induction false} FindFromShift(all: string, off: nat, tail: string, from: nat, c: char)
    requires EndsLike(all, off, tail) && from <= |tail|
    ensures FindFrom(all, off + from, c) == off + FindFrom(tail, from, c)
    decreases |tail| - from
  {
    assert from < |tail| ==> all[off + from] == tail[from];
    if from < |tail| && tail[from] != c { FindFromShift(all, off, tail, from + 1, c); }
  }

  lemma LineAtShift(all: string, off: nat, tail: string, from: nat)
    requires EndsLike(all, off, tail) && from < |tail|
    ensures LineAt(all, off + from) == (LineAt(tail, from).0, off + LineAt(tail, from).1)
  {
    FindFromShift(all, off, tail, from, '\n');
    var k := FindFrom(tail, from, '\n');
    assert all[off + from..off + k] == tail[from..k];
  }

  lemma {:induction false} LinesFromShift(all: string, off: nat, tail: string, from: nat)
    requires EndsLike(all, off, tail) && from <= |tail|
    ensures LinesFrom(all, off + from) == LinesFrom(tail, from)
    decreases |tail| - from
  {
    hide LineAt, FindFrom;
    assert |all| == off + |tail|;
    hide EndsLike;
    if from < |tail| {
      LineAtShift(all, off, tail, from);
      LinesFromShift(all, off, tail, LineAt(tail, from).1);
    }
  }

  lemma FirstNewline(line: string, text: string)
    requires '\n' !in line
    ensures var all := line + "\n" + text;
            && FindFrom(all, 0, '\n') == |line| && all[0..|line|] == line && EndsLike(all, |line| + 1, text)
  {
    var all := line + "\n" + text;
    assert all[|line|] == '\n' && forall i :: 0 <= i < |line| ==> all[i] == line[i];
  }

  /** A line with its newline in front of a text is one more line. */
  lemma LinesCons(line: string, text: string)
    requires '\n' !in line
    ensures Lines(line + "\n" + text) == [line] + Lines(text)
  {
    FirstNewline(line, text);
    hide FindFrom, EndsLike;
    LinesFromShift(line + "\n" + text, |line| + 1, text, 0);
  }

  /** No line contains a newline. */
  lemma {:induction false} LinesHaveNoNewline(text: string, from: nat)
    requires from <= |text|
    ensures forall i :: 0 <= i < |LinesFrom(text, from)| ==> '\n' !in LinesFrom(text, from)[i]
    decreases |text| - from
  {
    if from < |text| {
      LinesHaveNoNewline(text, LineAt(text, from).1);
    }
  }

  /** Each line with a newline after it. */
  function Unlines(lines: seq<string>): string {
    if lines == [] then "" else lines[0] + "\n" + Unlines(lines[1..])
  }

  lemma {:induction false} LinesFromSpell(text: string, from: nat)
    requires from <= |text|
    ensures Unlines(LinesFrom(text, from))
            == text[from..] + if from == |text| || Last(text) == '\n' then "" else "\n"
    decreases |text| - from
  {
    if from < |text| {
      var k := FindFrom(text, from, '\n');
      var next := LineAt(text, from).1;
      LinesFromSpell(text, next);
      var rest := LinesFrom(text, next);
      assert ([text[from..k]] + rest)[1..] == rest;
      if k < |text| {
        assert text[from..] == text[from..k] + "\n" + text[k + 1..];
      } else {
        assert text[from..] == text[from..k] && text[next..] == "";
        assert Last(text) != '\n';
      }
    }
  }

  /** The lines of a text are what newlines cut it into: none contains one, and with a newline after each they
      are the text again, with a last newline added if it had none. */
  lemma {:induction false} LinesSpell(text: string)
    ensures forall i :: 0 <= i < |Lines(text)| ==> '\n' !in Lines(text)[i]
    ensures Unlines(Lines(text)) == text + if text == "" || Last(text) == '\n' then "" else "\n"
  {
    LinesHaveNoNewline(text, 0);
    LinesFromSpell(text, 0);
    assert text[0..] == text;
  }

  // ---- Hexadecimal ----------------------------------------------------------------------------

  type Byte = b: nat | b < 0x100

  function HexChar(value: nat): char
    requires value < 16
  {
    (if value < 10 then value + 48 else value + 65 - 10) as char
  }

  function HexPair(b: Byte): string { [HexChar(b / 16), HexChar(b % 16)] }

  function Hex(bytes: seq<Byte>, separator: string): string {
    if bytes == [] then ""
    else
      var n := |bytes| - 1;
      Hex(bytes[..n], separator) + (if n == 0 then "" else separator) + HexPair(bytes[n])
  }

  /** `bcd_to_hex` prints the first `len` bytes; a negative length prints nothing. */
  method BcdToHex(bcd: seq<Byte>, len: int, separator: string) returns (result: string)
    requires len <= |bcd|
    ensures result == Hex(bcd[..if len < 0 then 0 else len], separator)
  {
    result := "";
    var i := 0;
    while i < len
      invariant 0 <= i && (len >= 0 ==> i <= len) && (len < 0 ==> i == 0)
      invariant result == Hex(bcd[..i], separator) && (result == "" <==> i == 0)
    {
      if |result| != 0 {
        result := result + separator;
      }
      result := result + [HexChar(bcd[i] / 16)];
      result := result + [HexChar(bcd[i] % 16)];
      assert bcd[..i + 1][..i] == bcd[..i];
      i := i + 1;
    }
  }

  function HexValue(c: char): nat {
    if '0' <= c <= '9' then c as nat - 48 else if 'A' <= c <= 'F' then c as nat - 55 else 0
  }

  /** Reads a pair of digits at every stride, the last one at the end of the text. */
  function Decode(text: string, stride: nat): seq<nat>
    requires stride >= 2
    decreases |text|
  {
    if |text| < 2 then []
    else
      var pair := text[|text| - 2..];
      Decode(if |text| < stride then "" else text[..|text| - stride], stride)
      + [HexValue(pair[0]) * 16 + HexValue(pair[1])]
  }

  lemma HexPairValue(b: Byte)
    ensures HexValue(HexPair(b)[0]) * 16 + HexValue(HexPair(b)[1]) == b
  {}

  lemma OneMoreSeparator(n: nat, k: nat)
    requires n > 0
    ensures (n - 1) * k + k == n * k
  {}

  lemma {:induction false} HexLength(bytes: seq<Byte>, separator: string)
    ensures |Hex(bytes, separator)| == 2 * |bytes| + (if bytes == [] then 0 else (|bytes| - 1) * |separator|)
  {
    if bytes != [] {
      var n := |bytes| - 1;
      HexLength(bytes[..n], separator);
      if n > 0 { OneMoreSeparator(n, |separator|); }
    }
  }

  lemma HexSnoc(bytes: seq<Byte>, b: Byte, separator: string)
    ensures Hex(bytes + [b], separator) ==
            if bytes == [] then HexPair(b) else Hex(bytes, separator) + separator + HexPair(b)
  {
    assert (bytes + [b])[..|bytes|] == bytes;
  }

  lemma Regroup(a: string, b: string, c: string, d: string, e: string)
    ensures a + b + c + d + e == a + b + (c + d + e)
  {}

  /** Two stretches of bytes are printed one after the other with one separator between them. */
  lemma {:induction false} HexSplits(a: seq<Byte>, b: seq<Byte>, separator: string)
    requires a != [] && b != []
    ensures Hex(a + b, separator) == Hex(a, separator) + separator + Hex(b, separator)
  {
    var n := |b| - 1;
    hide Hex;
    HexSnoc(a + b[..n], b[n], separator);
    HexSnoc(b[..n], b[n], separator);
    assert a + b == a + b[..n] + [b[n]] && b == b[..n] + [b[n]];
    if n == 0 {
      assert a + b[..n] == a;
    } else {
      HexSplits(a, b[..n], separator);
      Regroup(Hex(a, separator), separator, Hex(b[..n], separator), separator, HexPair(b[n]));
    }
  }

  const DIGITS := "0123456789ABCDEF"

  lemma DigitAt(value: nat)
    requires value < 16
    ensures HexChar(value) == DIGITS[value]
  {}

  /** One byte is its two upper-case digits. */
  lemma HexOne(b: Byte, separator: string)
    ensures Hex([b], separator) == [DIGITS[b / 16], DIGITS[b % 16]]
  {
    assert [b][..0] == [];
    assert Hex([b], separator) == "" + "" + HexPair(b);
    DigitAt(b / 16);
    DigitAt(b % 16);
  }

  /** Whatever the separator, even one that looks like digits, the bytes can be read back. */
  lemma {:induction false} HexRoundTrip(bytes: seq<Byte>, separator: string)
    ensures Decode(Hex(bytes, separator), 2 + |separator|) == bytes
  {
    if bytes != [] {
      var n := |bytes| - 1;
      var text := Hex(bytes, separator);
      HexRoundTrip(bytes[..n], separator);
      HexPairValue(bytes[n]);
      assert text[|text| - 2..] == HexPair(bytes[n]);
      if n > 0 {
        assert text[..|text| - (2 + |separator|)] == Hex(bytes[..n], separator);
      } else {
        assert |text| == 2 && bytes[..n] == [];
      }
      assert bytes == bytes[..n] + [bytes[n]];
    }
  }
}
