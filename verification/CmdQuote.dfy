/** `nob__win32_cmd_quote` (nob.h) against the argument rules of the Microsoft C runtime. */
module CmdQuote {
  import opened Options

  // ----- what the C code writes -----

  function Slashes(n: nat): (s: string)
    ensures |s| == n && forall i :: 0 <= i < n ==> s[i] == '\\'
  {
    seq(n, _ => '\\')
  }

  /** `strpbrk(arg, " \t\n\v\"") != NULL`. */
  predicate NeedsQuotes(arg: string) {
    exists i :: 0 <= i < |arg| && (arg[i] == ' ' || arg[i] == '\t' || arg[i] == '\n' || arg[i] as int == 11 || arg[i] == '"')
  }

  /** What follows the opening quote when `backslashes` have just been written. */
  function Body(arg: string, backslashes: nat): string {
    if arg == "" then Slashes(backslashes) + "\""
    else if arg[0] == '\\' then "\\" + Body(arg[1..], backslashes + 1)
    else if arg[0] == '"' then Slashes(1 + backslashes) + "\"" + Body(arg[1..], 0)
    else [arg[0]] + Body(arg[1..], 0)
  }

  function QuoteArg(arg: string): string {
    if arg != "" && !NeedsQuotes(arg) then arg else "\"" + Body(arg, 0)
  }

  /** The arguments before the first NULL. */
  function Given(items: seq<Option<string>>): seq<string> {
    if items == [] || items[0].None? then [] else [items[0].value] + Given(items[1..])
  }

  /** Arguments after the first, each behind a space. */
  function Tail(args: seq<string>): string {
    if args == [] then "" else " " + QuoteArg(args[0]) + Tail(args[1..])
  }

  function QuoteAll(args: seq<string>): string {
    if args == [] then "" else QuoteArg(args[0]) + Tail(args[1..])
  }

  /** The loop over one argument that needs quotes. */
  method QuoteInto(arg: string, quoted: string) returns (out: string)
    ensures out == quoted + "\"" + Body(arg, 0)
  {
    var backslashes := 0;
    out := quoted + "\"";
    ghost var all := out + Body(arg, 0);
    var j := 0;
    while j < |arg|
      invariant j <= |arg| && out + Body(arg[j..], backslashes) == all
    {
      var x := arg[j];
      ghost var before := out;
      if x == '\\' {
        backslashes := backslashes + 1;
      } else {
        if x == '"' {
          var k := 0;
          while k < 1 + backslashes
            invariant k <= 1 + backslashes && out == before + Slashes(k)
          {
            out := out + "\\";
            k := k + 1;
          }
        }
        backslashes := 0;
      }
      out := out + [x];
      j := j + 1;
    }
    ghost var before := out;
    var k := 0;
    while k < backslashes
      invariant k <= backslashes && out == before + Slashes(k)
    {
      out := out + "\\";
      k := k + 1;
    }
    out := out + "\"";
  }

  /** One argument, quoted if it needs to be. */
  method QuoteOne(arg: string, quoted: string) returns (out: string)
    ensures out == quoted + QuoteArg(arg)
  {
    var plain := arg != "" && !NeedsQuotes(arg);
    if plain {
      out := quoted + arg;
    } else {
      out := QuoteInto(arg, quoted);
    }
  }

  /** What is still to be written from the `i`th item on. */
  function Remaining(items: seq<Option<string>>, i: nat): string
    requires i <= |items|
  {
    if i == 0 then QuoteAll(Given(items)) else Tail(Given(items[i..]))
  }

  lemma RemainingStep(items: seq<Option<string>>, i: nat)
    requires i <= |items|
    ensures i == |items| || items[i].None? ==> Remaining(items, i) == ""
    ensures i < |items| && items[i].Some? ==>
      Remaining(items, i) == (if i > 0 then " " else "") + QuoteArg(items[i].value) + Remaining(items, i + 1)
  {
    hide QuoteArg;
    if i < |items| {
      assert items[i..][0] == items[i] && items[i..][1..] == items[i + 1..];
      if items[i].Some? { assert Given(items[i..])[1..] == Given(items[i + 1..]); }
    }
  }

  /** `nob__win32_cmd_quote`, behind what the builder already holds. */
  method Quote(items: seq<Option<string>>, sb: string) returns (quoted: string)
    ensures quoted == sb + QuoteAll(Given(items))
  {
    hide Remaining, QuoteArg;
    quoted := sb;
    var i := 0;
    assert Remaining(items, 0) == QuoteAll(Given(items)) by { RemainingFirst(items); }
    while i < |items|
      invariant i <= |items| && quoted + Remaining(items, i) == sb + QuoteAll(Given(items))
    {
      RemainingStep(items, i);
      if items[i] == None { break; }
      var arg := items[i].value;
      ghost var before, rest := quoted, Remaining(items, i + 1);
      if i > 0 { quoted := quoted + " "; }
      quoted := QuoteOne(arg, quoted);
      assert quoted + rest == before + ((if i > 0 then " " else "") + QuoteArg(arg) + rest);
      i := i + 1;
    }
    RemainingStep(items, i);
  }

  lemma RemainingFirst(items: seq<Option<string>>)
    ensures Remaining(items, 0) == QuoteAll(Given(items))
  {
  }

  // ----- how a program splits its command line -----

  predicate IsBlank(c: char) { c == ' ' || c == '\t' }

  /** Reads one argument, with `n` backslashes seen just before: 2n backslashes and a quote stand for
      n backslashes and a delimiter, 2n+1 and a quote for n backslashes and a quote, others for
      themselves. `pairs` is the newer rule that two quotes inside quotes stand for one. */
  function ReadArg(s: string, inQuotes: bool, n: nat, pairs: bool): (r: (string, string))
    ensures |r.1| <= |s|
    decreases |s|
  {
    if s == "" then (Slashes(n), "")
    else
      var c := s[0];
      if c == '\\' then ReadArg(s[1..], inQuotes, n + 1, pairs)
      else if c == '"' then
        if n % 2 == 1 then Before(Slashes(n / 2) + "\"", ReadArg(s[1..], inQuotes, 0, pairs))
        else if inQuotes && pairs && |s| > 1 && s[1] == '"' then
          Before(Slashes(n / 2) + "\"", ReadArg(s[2..], inQuotes, 0, pairs))
        else Before(Slashes(n / 2), ReadArg(s[1..], !inQuotes, 0, pairs))
      else if IsBlank(c) && !inQuotes then (Slashes(n), s)
      else Before(Slashes(n) + [c], ReadArg(s[1..], inQuotes, 0, pairs))
  }

  function Before(start: string, r: (string, string)): (string, string) { (start + r.0, r.1) }

  function SkipBlanks(s: string): (r: string)
    ensures |r| <= |s| && (r != "" ==> !IsBlank(r[0]))
  {
    if s != "" && IsBlank(s[0]) then SkipBlanks(s[1..]) else s
  }

  /** The arguments on a command line, after the program name. */
  function Split(s: string, pairs: bool): seq<string>
    decreases |s|
  {
    var t := SkipBlanks(s);
    if t == "" then []
    else
      ReadArgProgress(t, pairs);
      var (arg, rest) := ReadArg(t, false, 0, pairs);
      [arg] + Split(rest, pairs)
  }

  lemma ReadArgProgress(s: string, pairs: bool)
    requires s != "" && !IsBlank(s[0])
    ensures |ReadArg(s, false, 0, pairs).1| < |s|
  {
  }

  // ----- the round trip -----

  predicate Ends(rest: string) { rest == "" || rest[0] == ' ' }

  lemma {:induction false} ReadSlashes(k: nat, rest: string, inQuotes: bool, n: nat, pairs: bool)
    ensures ReadArg(Slashes(k) + rest, inQuotes, n, pairs) == ReadArg(rest, inQuotes, n + k, pairs)
    decreases k
  {
    if k == 0 {
      assert Slashes(0) + rest == rest;
    } else {
      assert (Slashes(k) + rest)[1..] == Slashes(k - 1) + rest;
      ReadSlashes(k - 1, rest, inQuotes, n + 1, pairs);
    }
  }

  /** A quote character inside quotes: after n backslashes the text has 2n+1 of them before it. */
  lemma ReadEscapedQuote(b: nat, after: string, tail: string, rest: string, pairs: bool)
    requires ReadArg(after, true, 0, pairs) == (tail, rest)
    ensures ReadArg(Slashes(1 + b) + "\"" + after, true, b, pairs) == (Slashes(b) + "\"" + tail, rest)
  {
    assert Slashes(1 + b) + "\"" + after == Slashes(1 + b) + ("\"" + after);
    ReadSlashes(1 + b, "\"" + after, true, b, pairs);
    assert ("\"" + after)[1..] == after;
    assert (b + (1 + b)) % 2 == 1 && (b + (1 + b)) / 2 == b;
  }

  /** The closing quote: after n backslashes the text has 2n of them before it. */
  lemma ReadClosingQuote(b: nat, rest: string, pairs: bool)
    requires Ends(rest)
    ensures ReadArg(Slashes(b) + "\"" + rest, true, b, pairs) == (Slashes(b), rest)
  {
    assert Slashes(b) + "\"" + rest == Slashes(b) + ("\"" + rest);
    ReadSlashes(b, "\"" + rest, true, b, pairs);
    assert ("\"" + rest)[1..] == rest;
    assert ReadArg(rest, false, 0, pairs) == (Slashes(0), rest);
    assert (b + b) % 2 == 0 && (b + b) / 2 == b && Slashes(b) + Slashes(0) == Slashes(b);
  }

  /** A backslash inside quotes joins the pending ones. */
  lemma ReadBackslash(b: nat, after: string, tail: string, rest: string, pairs: bool)
    requires ReadArg(after, true, b + 1, pairs) == (Slashes(b + 1) + tail, rest)
    ensures ReadArg("\\" + after, true, b, pairs) == (Slashes(b) + ("\\" + tail), rest)
  {
    assert ("\\" + after)[1..] == after;
    assert Slashes(b + 1) + tail == Slashes(b) + ("\\" + tail);
  }

  /** Any other byte inside quotes, a blank included, stands for itself. */
  lemma ReadOther(c: char, b: nat, after: string, tail: string, rest: string, pairs: bool)
    requires c != '\\' && c != '"' && ReadArg(after, true, 0, pairs) == (tail, rest)
    ensures ReadArg([c] + after, true, b, pairs) == (Slashes(b) + ([c] + tail), rest)
  {
    assert ([c] + after)[1..] == after;
    assert Slashes(b) + [c] + tail == Slashes(b) + ([c] + tail);
  }

  lemma NoSlashes(tail: string)
    ensures Slashes(0) + tail == tail
  {
  }

  lemma BodyStep(arg: string, b: nat, rest: string)
    ensures Body(arg, b) + rest ==
      if arg == "" then Slashes(b) + "\"" + rest
      else if arg[0] == '\\' then "\\" + (Body(arg[1..], b + 1) + rest)
      else if arg[0] == '"' then Slashes(1 + b) + "\"" + (Body(arg[1..], 0) + rest)
      else [arg[0]] + (Body(arg[1..], 0) + rest)
  {
    hide Slashes;
  }

  lemma {:induction false} ReadBody(arg: string, b: nat, rest: string, pairs: bool)
    requires Ends(rest)
    ensures ReadArg(Body(arg, b) + rest, true, b, pairs) == (Slashes(b) + arg, rest)
    decreases |arg|
  {
    hide ReadArg, Slashes, Body;
    BodyStep(arg, b, rest);
    if arg == "" {
      ReadClosingQuote(b, rest, pairs);
      assert Slashes(b) + arg == Slashes(b);
    } else {
      var tail := arg[1..];
      assert arg == [arg[0]] + tail;
      if arg[0] == '\\' {
        ReadBody(tail, b + 1, rest, pairs);
        ReadBackslash(b, Body(tail, b + 1) + rest, tail, rest, pairs);
      } else {
        ReadBody(tail, 0, rest, pairs);
        NoSlashes(tail);
        var after := Body(tail, 0) + rest;
        if arg[0] == '"' {
          ReadEscapedQuote(b, after, tail, rest, pairs);
          assert Slashes(b) + "\"" + tail == Slashes(b) + arg;
        } else {
          ReadOther(arg[0], b, after, tail, rest, pairs);
        }
      }
    }
  }

  lemma {:induction false} ReadPlain(arg: string, n: nat, rest: string, pairs: bool)
    requires !NeedsQuotes(arg) && Ends(rest)
    ensures ReadArg(arg + rest, false, n, pairs) == (Slashes(n) + arg, rest)
    decreases |arg|
  {
    if arg == "" {
      assert arg + rest == rest && Slashes(n) + arg == Slashes(n);
    } else {
      var tail := arg[1..];
      assert !NeedsQuotes(tail) by { assert forall i :: 0 <= i < |tail| ==> tail[i] == arg[i + 1]; }
      assert (arg + rest)[0] == arg[0] && (arg + rest)[1..] == tail + rest;
      if arg[0] == '\\' {
        ReadPlain(tail, n + 1, rest, pairs);
        assert Slashes(n + 1) + tail == Slashes(n) + arg;
      } else {
        ReadPlain(tail, 0, rest, pairs);
        assert Slashes(n) + [arg[0]] + (Slashes(0) + tail) == Slashes(n) + arg;
      }
    }
  }

  lemma ReadQuoted(arg: string, rest: string, pairs: bool)
    requires Ends(rest)
    ensures ReadArg(QuoteArg(arg) + rest, false, 0, pairs) == (arg, rest)
    ensures QuoteArg(arg) != "" && !IsBlank(QuoteArg(arg)[0])
  {
    hide ReadArg, Body;
    if arg != "" && !NeedsQuotes(arg) {
      ReadPlain(arg, 0, rest, pairs);
      assert Slashes(0) + arg == arg;
    } else {
      ReadBody(arg, 0, rest, pairs);
      ReadOpeningQuote(Body(arg, 0) + rest, pairs);
      assert QuoteArg(arg) + rest == "\"" + (Body(arg, 0) + rest);
      NoSlashes(arg);
    }
  }

  lemma ReadOpeningQuote(after: string, pairs: bool)
    ensures ReadArg("\"" + after, false, 0, pairs) == ReadArg(after, true, 0, pairs)
  {
    assert ("\"" + after)[1..] == after;
    var r := ReadArg(after, true, 0, pairs);
    assert Slashes(0) + r.0 == r.0;
  }

  /** Round trip: for every list of arguments, empty ones and trailing backslashes included, what is
      written after the program name splits back into exactly that list, under either rule for
      paired quotes. */
  lemma {:induction false} QuoteRoundTrip(args: seq<string>, pairs: bool)
    ensures Split(Tail(args), pairs) == args
    decreases |args|
  {
    hide ReadArg, QuoteArg;
    if args != [] {
      QuoteRoundTrip(args[1..], pairs);
      SplitStep(args, pairs);
    }
  }

  lemma SplitStep(args: seq<string>, pairs: bool)
    requires args != []
    ensures Split(Tail(args), pairs) == [args[0]] + Split(Tail(args[1..]), pairs)
  {
    hide ReadArg, QuoteArg;
    var rest := Tail(args[1..]);
    ReadQuoted(args[0], rest, pairs);
    var t := QuoteArg(args[0]) + rest;
    assert Tail(args) == " " + t;
    assert (" " + t)[1..] == t;
    assert SkipBlanks(" " + t) == SkipBlanks(t) == t;
  }

  // ----- the whole line -----

  /** Reads the program name: quotes only switch blanks on and off, and backslashes stand for
      themselves. */
  function ReadProgram(s: string, inQuotes: bool): (string, string)
    decreases |s|
  {
    if s == "" then ("", "")
    else if s[0] == '"' then ReadProgram(s[1..], !inQuotes)
    else if IsBlank(s[0]) && !inQuotes then ("", s)
    else Before([s[0]], ReadProgram(s[1..], inQuotes))
  }

  /** A command line as a program gets it. */
  function SplitLine(line: string, pairs: bool): seq<string> {
    var (program, rest) := ReadProgram(line, false);
    [program] + Split(rest, pairs)
  }

  /** The backslashes at the end of an argument, when `n` have been seen before it. */
  function Trailing(arg: string, n: nat): nat {
    if arg == "" then n else Trailing(arg[1..], if arg[0] == '\\' then n + 1 else 0)
  }

  lemma {:induction false} TrailingLast(arg: string, n: nat)
    ensures Trailing(arg, n) == 0 <==> if arg == "" then n == 0 else arg[|arg| - 1] != '\\'
    decreases |arg|
  {
    if arg != "" { TrailingLast(arg[1..], if arg[0] == '\\' then n + 1 else 0); }
  }

  /** The program name never holds a quote. */
  lemma {:induction false} ProgramHasNoQuote(s: string, inQuotes: bool)
    ensures '"' !in ReadProgram(s, inQuotes).0
    decreases |s|
  {
    if s != "" { ProgramHasNoQuote(s[1..], if s[0] == '"' then !inQuotes else inQuotes); }
  }

  lemma {:induction false} ProgramPlain(program: string, rest: string)
    requires !NeedsQuotes(program) && Ends(rest)
    ensures ReadProgram(program + rest, false) == (program, rest)
    decreases |program|
  {
    if program == "" {
      assert program + rest == rest;
    } else {
      var tail := program[1..];
      assert !NeedsQuotes(tail) by { assert forall i :: 0 <= i < |tail| ==> tail[i] == program[i + 1]; }
      assert (program + rest)[0] == program[0] && (program + rest)[1..] == tail + rest;
      ProgramPlain(tail, rest);
      assert [program[0]] + tail == program;
    }
  }

  /** Inside quotes the backslashes written for the closing quote are read as part of the name. */
  lemma {:induction false} ProgramBody(program: string, b: nat, rest: string)
    requires '"' !in program && Ends(rest)
    ensures ReadProgram(Body(program, b) + rest, true) == (program + Slashes(Trailing(program, b)), rest)
    decreases |program|
  {
    hide Body;
    BodyStep(program, b, rest);
    if program == "" {
      assert Slashes(b) + "\"" + rest == Slashes(b) + ("\"" + rest);
      ProgramSlashes(b, rest);
      assert "" + Slashes(b) == Slashes(b);
    } else {
      var tail, n := program[1..], if program[0] == '\\' then b + 1 else 0;
      ProgramBody(tail, n, rest);
      var after := Body(tail, n) + rest;
      assert ([program[0]] + after)[1..] == after;
      assert [program[0]] + (tail + Slashes(Trailing(tail, n))) == program + Slashes(Trailing(tail, n));
    }
  }

  lemma {:induction false} ProgramSlashes(k: nat, rest: string)
    requires Ends(rest)
    ensures ReadProgram(Slashes(k) + ("\"" + rest), true) == (Slashes(k), rest)
    decreases k
  {
    var s := Slashes(k) + ("\"" + rest);
    if k == 0 {
      assert s == "\"" + rest && s[1..] == rest;
      assert ReadProgram(rest, false) == ("", rest);
    } else {
      ProgramSlashes(k - 1, rest);
      assert s[1..] == Slashes(k - 1) + ("\"" + rest);
      assert ['\\'] + Slashes(k - 1) == Slashes(k);
    }
  }

  /** An argument is written as it is exactly when it is not empty and holds no blank, tab, line feed,
      vertical tab or quote; any other is written between quotes. */
  lemma PlainExactly(arg: string)
    ensures QuoteArg(arg) == arg <==>
      arg != "" && ' ' !in arg && '\t' !in arg && '\n' !in arg && 11 as char !in arg && '"' !in arg
    ensures QuoteArg(arg) != arg ==> |QuoteArg(arg)| >= 2 && QuoteArg(arg)[0] == '"' && QuoteArg(arg)[|QuoteArg(arg)| - 1] == '"'
  {
    BodyLonger(arg, 0);
    if NeedsQuotes(arg) {
      var i :| 0 <= i < |arg| && (arg[i] == ' ' || arg[i] == '\t' || arg[i] == '\n' || arg[i] as int == 11 || arg[i] == '"');
      assert arg[i] in arg;
    }
  }

  lemma {:induction false} BodyLonger(arg: string, b: nat)
    ensures |Body(arg, b)| > |arg| && Body(arg, b)[|Body(arg, b)| - 1] == '"'
    decreases |arg|
  {
    if arg != "" { BodyLonger(arg[1..], if arg[0] == '\\' then b + 1 else 0); }
  }

  /** One more argument is written behind a space. */
  lemma {:induction false} SpaceBetween(args: seq<string>, last: string)
    requires args != []
    ensures QuoteAll(args + [last]) == QuoteAll(args) + " " + QuoteArg(last)
  {
    TailSnoc(args[1..], last);
    assert (args + [last])[1..] == args[1..] + [last];
  }

  lemma {:induction false} TailSnoc(args: seq<string>, last: string)
    ensures Tail(args + [last]) == Tail(args) + " " + QuoteArg(last)
    decreases |args|
  {
    hide QuoteArg;
    if args == [] {
      assert [] + [last] == [last] && [last][1..] == [];
      assert " " + QuoteArg(last) + "" == "" + " " + QuoteArg(last);
    } else {
      TailSnoc(args[1..], last);
      assert (args + [last])[1..] == args[1..] + [last];
      var x := " " + QuoteArg(args[0]);
      assert x + (Tail(args[1..]) + " " + QuoteArg(last)) == x + Tail(args[1..]) + " " + QuoteArg(last);
    }
  }

  /** A program name that is read as it was given: no quote in it and, if it is written in quotes, no
      backslash at its end. */
  predicate NameKept(program: string) {
    '"' !in program && (NeedsQuotes(program) ==> program[|program| - 1] != '\\')
  }

  lemma ProgramRead(program: string, rest: string)
    requires Ends(rest)
    ensures var r := ReadProgram(QuoteArg(program) + rest, false);
      (r.0 == program <==> NameKept(program)) && (NameKept(program) ==> r.1 == rest)
  {
    hide Body, ReadProgram, NeedsQuotes;
    var line := QuoteArg(program) + rest;
    if '"' in program {
      ProgramHasNoQuote(line, false);
    } else if program != "" && !NeedsQuotes(program) {
      ProgramPlain(program, rest);
    } else {
      var after := Body(program, 0) + rest;
      ProgramBody(program, 0, rest);
      TrailingLast(program, 0);
      assert line == "\"" + after;
      ProgramOpens(after);
      EmptyIsPlain();
    }
  }

  lemma ProgramOpens(after: string)
    ensures ReadProgram("\"" + after, false) == ReadProgram(after, true)
  {
    assert ("\"" + after)[1..] == after;
  }

  lemma EmptyIsPlain()
    ensures !NeedsQuotes("")
  {
  }

  /** The whole line: whatever the program and its arguments, the line splits back into exactly them if
      and only if the program name holds no quote and does not need quotes and end in a backslash. */
  lemma LineRoundTrip(program: string, args: seq<string>, pairs: bool)
    ensures SplitLine(QuoteAll([program] + args), pairs) == [program] + args <==> NameKept(program)
  {
    hide ReadProgram, Split, QuoteArg, NameKept;
    assert ([program] + args)[1..] == args;
    assert Ends(Tail(args)) by { if args != [] { assert Tail(args)[0] == ' '; } }
    ProgramRead(program, Tail(args));
    QuoteRoundTrip(args, pairs);
    var line := SplitLine(QuoteAll([program] + args), pairs);
    assert line[0] == ReadProgram(QuoteAll([program] + args), false).0;
    assert ([program] + args)[0] == program;
  }
}
