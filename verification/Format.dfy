/** The `{}` formatter of the log library: a scan over a NUL-terminated buffer. */
module Format {
  import opened Sequences

  datatype FormatError = ArgIndexOutOfRange

  /** `get_arg_by_index`: walks the argument tuple from `i`; falling off its end throws. */
  function GetArgByIndex(args: seq<string>, i: nat, index: nat): (r: Result<string, FormatError>)
    requires i <= |args|
    ensures r == if i <= index < |args| then Ok(args[index]) else Err(ArgIndexOutOfRange)
    decreases |args| - i
  {
    if i == |args| then Err(ArgIndexOutOfRange)
    else if i == index then Ok(args[i])
    else GetArgByIndex(args, i + 1, index)
  }

  predicate HoleAt(text: string, k: nat) { k + 1 < |text| && text[k] == '{' && text[k + 1] == '}' }

  function Prepend(head: string, r: Result<string, FormatError>): Result<string, FormatError> {
    match r
    case Ok(tail) => Ok(head + tail)
    case Err(e) => Err(e)
  }

  /** Replace each `{}` from the left by the next argument. */
  function Substitute(text: string, args: seq<string>): Result<string, FormatError> {
    if text == "" then Ok("")
    else if HoleAt(text, 0) then
      if args == [] then Err(ArgIndexOutOfRange)
      else Prepend(args[0], Substitute(text[2..], args[1..]))
    else Prepend([text[0]], Substitute(text[1..], args))
  }

  function Holes(text: string): nat {
    if text == "" then 0
    else if HoleAt(text, 0) then 1 + Holes(text[2..])
    else Holes(text[1..])
  }

  /** Where a C string ends. */
  function Terminator(buffer: seq<char>): (n: nat)
    requires '\0' in buffer
    ensures n < |buffer| && buffer[n] == '\0' && '\0' !in buffer[..n]
  {
    if buffer[0] == '\0' then 0 else 1 + Terminator(buffer[1..])
  }

  lemma PrependTwice(a: string, b: string, r: Result<string, FormatError>)
    ensures Prepend(a, Prepend(b, r)) == Prepend(a + b, r)
  {
    if r.Ok? { assert a + (b + r.value) == (a + b) + r.value; }
  }

  lemma PrependNothing(a: string, r: Result<string, FormatError>)
    ensures Prepend("", r) == r && Prepend(a, Ok("")) == Ok(a)
  {
    if r.Ok? { assert "" + r.value == r.value; }
    assert a + "" == a;
  }

  lemma SubstituteHole(text: string, k: nat, args: seq<string>)
    requires HoleAt(text, k)
    ensures Substitute(text[k..], args) ==
            if args == [] then Err(ArgIndexOutOfRange) else Prepend(args[0], Substitute(text[k + 2..], args[1..]))
  {
    assert HoleAt(text[k..], 0) && text[k..][2..] == text[k + 2..];
  }

  lemma SubstituteChar(text: string, k: nat, args: seq<string>)
    requires k < |text| && !HoleAt(text, k)
    ensures Substitute(text[k..], args) == Prepend([text[k]], Substitute(text[k + 1..], args))
  {
    assert !HoleAt(text[k..], 0) && text[k..][1..] == text[k + 1..];
  }

  lemma PrependError(a: string, r: Result<string, FormatError>)
    requires r.Err?
    ensures Prepend(a, r) == r
  {}

  lemma SubstituteEnd(args: seq<string>)
    ensures Substitute("", args) == Ok("")
  {}

  method StrLen(buffer: seq<char>) returns (n: nat)
    requires '\0' in buffer
    ensures n == Terminator(buffer)
  {
    n := 0;
    while buffer[n] != '\0'
      invariant n <= Terminator(buffer)
      decreases |buffer| - n
    {
      n := n + 1;
    }
  }

  /** The pointer loop.  It reads only inside the terminated buffer and does what `Substitute` says; with
      no arguments the text is returned as it is, holes included. */
  method Format(buffer: seq<char>, args: seq<string>) returns (r: Result<string, FormatError>)
    requires '\0' in buffer
    ensures r == var text := buffer[..Terminator(buffer)]; if args == [] then Ok(text) else Substitute(text, args)
  {
    ghost var n := Terminator(buffer);
    ghost var text := buffer[..n];
    if |args| == 0 {
      var end := StrLen(buffer);
      return Ok(buffer[..end]);
    }
    var buf := "";
    var curr, last, pos := 0, 0, -1;
    assert text[0..] == text && args[0..] == args && text[0..0] == "";
    PrependNothing("", Substitute(text, args));
    hide Substitute, Prepend;
    while true
      invariant 0 <= last <= curr <= n && -1 <= pos < |args|
      invariant Substitute(text, args) == Prepend(buf + text[last..curr], Substitute(text[curr..], args[pos + 1..]))
      decreases n - curr
    {
      assert buffer[last..curr] == text[last..curr];
      ghost var literal := buf + text[last..curr];
      if buffer[curr] == '{' && buffer[curr + 1] == '}' {
        SubstituteHole(text, curr, args[pos + 1..]);
        var len := curr - last;
        if len != 0 {
          buf := buf + buffer[last..last + len];
        }
        assert buf == literal;
        pos := pos + 1;
        var arg := GetArgByIndex(args, 0, pos);
        if arg.Err? {
          PrependError(buf, arg);
          return Err(arg.error);
        }
        assert args[pos..][1..] == args[pos + 1..];
        PrependTwice(buf, arg.value, Substitute(text[curr + 2..], args[pos + 1..]));
        buf := buf + arg.value;
        last := curr + 2;
        curr := curr + 1;
        assert buf + text[last..curr + 1] == buf;
      } else if buffer[curr] == '\0' {
        var len := curr - last;
        if len != 0 {
          buf := buf + buffer[last..last + len];
        }
        assert buf == literal && text[curr..] == "";
        SubstituteEnd(args[pos + 1..]);
        PrependNothing(buf, Ok(""));
        break;
      } else {
        SubstituteChar(text, curr, args[pos + 1..]);
        PrependTwice(buf + text[last..curr], [text[curr]], Substitute(text[curr + 1..], args[pos + 1..]));
        assert buf + text[last..curr] + [text[curr]] == buf + text[last..curr + 1];
      }
      curr := curr + 1;
    }
    return Ok(buf);
  }

  /** What `c_str` shows of a string: the text before its first NUL. */
  function CText(s: string): string { if '\0' in s then s[..Terminator(s)] else s }

  lemma {:induction false} TerminatorIs(buffer: seq<char>, n: nat)
    requires n < |buffer| && buffer[n] == '\0' && forall k :: 0 <= k < n ==> buffer[k] != '\0'
    ensures Terminator(buffer) == n
  {
    if n > 0 { TerminatorIs(buffer[1..], n - 1); }
  }

  lemma TerminatorOf(s: string)
    ensures (s + ['\0'])[..Terminator(s + ['\0'])] == CText(s)
  {
    TerminatorIs(s + ['\0'], |CText(s)|);
  }

  /** The overload on `std::string` formats what `c_str` shows. */
  method FormatString(s: string, args: seq<string>) returns (r: Result<string, FormatError>)
    ensures r == if args == [] then Ok(CText(s)) else Substitute(CText(s), args)
  {
    var buffer := s + ['\0'];
    assert buffer[|s|] == '\0';
    TerminatorOf(s);
    r := Format(buffer, args);
  }

  // ---- What the substitution means ------------------------------------------------------------

  /** With arguments, it throws exactly when there are more holes than arguments. */
  lemma {:induction false} ThrowsIffTooFewArguments(text: string, args: seq<string>)
    ensures Substitute(text, args).Err? <==> Holes(text) > |args|
    decreases |text|
  {
    if text != "" {
      if HoleAt(text, 0) {
        if args != [] { ThrowsIffTooFewArguments(text[2..], args[1..]); }
      } else {
        ThrowsIffTooFewArguments(text[1..], args);
      }
    }
  }

  /** Putting two texts side by side makes a hole that neither has. */
  predicate JoinMakesHole(a: string, b: string) {
    a != "" && b != "" && a[|a| - 1] == '{' && b[0] == '}'
  }

  function Append(r: Result<string, FormatError>, t: Result<string, FormatError>): Result<string, FormatError> {
    match r
    case Err(e) => Err(e)
    case Ok(head) => Prepend(head, t)
  }

  /** Holes add up exactly when the join makes none. */
  lemma {:induction false} HolesAddUp(a: string, b: string)
    ensures Holes(a + b) == Holes(a) + Holes(b) + if JoinMakesHole(a, b) then 1 else 0
    decreases |a|
  {
    if a == "" {
      assert a + b == b;
    } else if HoleAt(a, 0) {
      assert (a + b)[2..] == a[2..] + b;
      HolesAddUp(a[2..], b);
    } else if |a| > 1 {
      assert (a + b)[1..] == a[1..] + b;
      HolesAddUp(a[1..], b);
    } else if JoinMakesHole(a, b) {
      assert (a + b)[2..] == b[1..];
    } else {
      assert (a + b)[1..] == b;
    }
  }

  lemma AppendPrepend(head: string, r: Result<string, FormatError>, t: Result<string, FormatError>)
    ensures Append(Prepend(head, r), t) == Prepend(head, Append(r, t))
  {
    if r.Ok? { PrependTwice(head, r.value, t); }
  }

  /** Formatting a text that neither part's boundary turns into a hole is formatting the parts, the first
      with as many arguments as it has holes, the second with the rest. */
  lemma {:induction false} FormatSplits(a: string, b: string, args: seq<string>)
    requires !JoinMakesHole(a, b) && Holes(a) <= |args|
    ensures Substitute(a + b, args) == Append(Substitute(a, args[..Holes(a)]), Substitute(b, args[Holes(a)..]))
    decreases |a|
  {
    if a == "" {
      assert a + b == b && args[0..] == args;
      PrependNothing("", Substitute(b, args));
    } else if HoleAt(a, 0) {
      var h := Holes(a[2..]);
      FormatSplits(a[2..], b, args[1..]);
      assert (a + b)[2..] == a[2..] + b;
      assert Holes(a) == h + 1;
      assert args[..h + 1][1..] == args[1..][..h];
      assert args[1..][h..] == args[h + 1..];
      AppendPrepend(args[0], Substitute(a[2..], args[1..][..h]), Substitute(b, args[Holes(a)..]));
    } else {
      FormatSplits(a[1..], b, args);
      assert (a + b)[1..] == a[1..] + b;
      assert !HoleAt(a + b, 0);
      AppendPrepend([a[0]], Substitute(a[1..], args[..Holes(a)]), Substitute(b, args[Holes(a)..]));
    }
  }

  /** Literal pieces with a hole between each two. */
  function Template(pieces: seq<string>): string
    requires pieces != []
  {
    if |pieces| == 1 then pieces[0] else pieces[0] + ("{}" + Template(pieces[1..]))
  }

  /** The pieces with the arguments between them. */
  function Weave(pieces: seq<string>, args: seq<string>): string
    requires pieces != [] && |args| >= |pieces| - 1
  {
    if |pieces| == 1 then pieces[0] else pieces[0] + (args[0] + Weave(pieces[1..], args[1..]))
  }

  lemma {:induction false} NoHolesNoChange(text: string, args: seq<string>)
    requires Holes(text) == 0
    ensures Substitute(text, args) == Ok(text)
  {
    if text != "" {
      NoHolesNoChange(text[1..], args);
      assert [text[0]] + text[1..] == text;
    }
  }

  /** Argument text is never scanned: whatever the arguments contain, the result is the literal pieces
      with the arguments, in order, in place of the holes; surplus arguments are ignored. */
  lemma {:induction false} FormatWeaves(pieces: seq<string>, args: seq<string>)
    requires pieces != [] && |args| >= |pieces| - 1
    requires forall i :: 0 <= i < |pieces| ==> Holes(pieces[i]) == 0
    ensures Substitute(Template(pieces), args) == Ok(Weave(pieces, args))
  {
    if |pieces| == 1 {
      NoHolesNoChange(pieces[0], args);
    } else {
      var tail := "{}" + Template(pieces[1..]);
      FormatWeaves(pieces[1..], args[1..]);
      assert tail[2..] == Template(pieces[1..]) && HoleAt(tail, 0);
      FormatSplits(pieces[0], tail, args);
      NoHolesNoChange(pieces[0], []);
      assert args[..0] == [] && args[0..] == args;
    }
  }

  /** The literal pieces of a text. */
  function Cut(text: string): (pieces: seq<string>)
    ensures pieces != []
  {
    if text == "" then [""]
    else if HoleAt(text, 0) then [""] + Cut(text[2..])
    else
      var rest := Cut(text[1..]);
      [[text[0]] + rest[0]] + rest[1..]
  }

  lemma TemplateCons(first: string, rest: seq<string>)
    requires rest != []
    ensures Template([first] + rest) == first + ("{}" + Template(rest))
  {
    assert ([first] + rest)[1..] == rest;
  }

  lemma TemplateHead(c: char, first: string, rest: seq<string>)
    ensures Template([[c] + first] + rest) == [c] + Template([first] + rest)
  {
    if rest == [] {
      assert [[c] + first] + rest == [[c] + first] && [first] + rest == [first];
    } else {
      TemplateCons([c] + first, rest);
      TemplateCons(first, rest);
      hide Template;
      var tail := "{}" + Template(rest);
      assert ([c] + first) + tail == [c] + (first + tail);
    }
  }

  lemma CutStart(text: string)
    ensures Cut(text)[0] != "" ==> text != "" && text[0] == Cut(text)[0][0]
  {}

  /** Extending the first piece by the character before it makes no hole. */
  lemma CutHead(text: string)
    requires text != "" && !HoleAt(text, 0)
    requires Holes(Cut(text[1..])[0]) == 0
    ensures Holes([text[0]] + Cut(text[1..])[0]) == 0
  {
    var head := Cut(text[1..])[0];
    var longer := [text[0]] + head;
    assert longer[1..] == head;
    if HoleAt(longer, 0) {
      assert head != "" && head[0] == '}';
      CutStart(text[1..]);
    }
  }

  /** Every text is a template, so the two lemmas above say what formatting any text gives. */
  lemma {:induction false} EveryTextIsATemplate(text: string)
    ensures Template(Cut(text)) == text && |Cut(text)| == Holes(text) + 1
    ensures forall i :: 0 <= i < |Cut(text)| ==> Holes(Cut(text)[i]) == 0
    decreases |text|
  {
    if text == "" {
    } else if HoleAt(text, 0) {
      EveryTextIsATemplate(text[2..]);
      TemplateCons("", Cut(text[2..]));
      assert text == "" + ("{}" + text[2..]);
      hide Template;
    } else {
      EveryTextIsATemplate(text[1..]);
      var rest := Cut(text[1..]);
      TemplateHead(text[0], rest[0], rest[1..]);
      assert [rest[0]] + rest[1..] == rest;
      CutHead(text);
      assert text == [text[0]] + text[1..];
      hide Template;
    }
  }
}
