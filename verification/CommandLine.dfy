/** Windows command-line quoting (integration/pixinsight/host/mmm_host.cpp, `append_win_arg` and
    `build_command_line_w`), against the rules by which CommandLineToArgvW takes the line apart. */
module CommandLine {

  // ---------------------------------------------------------------- taking a line apart

  predicate Blank(c: char) {
    c == ' ' || c == '\t'
  }

  /** How many backslashes `s` starts with. */
  function Run(s: string): (k: nat)
    ensures k <= |s| && (forall i :: 0 <= i < k ==> s[i] == '\\') && (k < |s| ==> s[k] != '\\')
  {
    if s != "" && s[0] == '\\' then 1 + Run(s[1..]) else 0
  }

  function Slashes(k: nat): (r: string)
    ensures |r| == k && forall i :: 0 <= i < k ==> r[i] == '\\'
  {
    seq(k, i => '\\')
  }

  /** One argument off the front of `s`, and what is left: 2n backslashes before a quote stand for n and
      the quote delimits; 2n + 1 stand for n and the quote is literal; other backslashes are literal;
      blanks end the argument outside quotes. Under `pairs`, two quotes in a row inside quotes are a
      literal quote, as some readers of the line have it. */
  function TakeArg(s: string, quoted: bool, pairs: bool): (r: (string, string))
    ensures |r.1| <= |s| && (s != "" && (quoted || !Blank(s[0])) ==> |r.1| < |s|)
    decreases |s|
  {
    if s == "" || (Blank(s[0]) && !quoted) then ("", s)
    else if s[0] == '\\' then
      var k := Run(s);
      if k == |s| || s[k] != '"' then Prepend(Slashes(k), TakeArg(s[k..], quoted, pairs))
      else if k % 2 == 0 then Prepend(Slashes(k / 2), TakeArg(s[k..], quoted, pairs))
      else Prepend(Slashes(k / 2) + "\"", TakeArg(s[k + 1..], quoted, pairs))
    else if s[0] == '"' then
      if quoted && pairs && |s| > 1 && s[1] == '"' then Prepend("\"", TakeArg(s[2..], true, pairs))
      else TakeArg(s[1..], !quoted, pairs)
    else Prepend([s[0]], TakeArg(s[1..], quoted, pairs))
  }

  function Prepend(head: string, r: (string, string)): (string, string) {
    (head + r.0, r.1)
  }

  function SkipBlanks(s: string): (r: string)
    ensures |r| <= |s| && (r != "" ==> !Blank(r[0]))
  {
    if s != "" && Blank(s[0]) then SkipBlanks(s[1..]) else s
  }

  function TakeArgs(s: string, pairs: bool): seq<string>
    decreases |s|
  {
    var t := SkipBlanks(s);
    if t == "" then []
    else
      var (a, rest) := TakeArg(t, false, pairs);
      [a] + TakeArgs(rest, pairs)
  }

  /** Up to the first occurrence of a character `stops` names, and the rest from it on. */
  function Until(s: string, quote: bool): (r: (string, string))
    ensures s == r.0 + r.1
    ensures forall i :: 0 <= i < |r.0| ==> !Stops(r.0[i], quote)
    ensures r.1 != "" ==> Stops(r.1[0], quote)
  {
    if s == "" || Stops(s[0], quote) then ("", s)
    else
      var (a, rest) := Until(s[1..], quote);
      ([s[0]] + a, rest)
  }

  predicate Stops(c: char, quote: bool) {
    if quote then c == '"' else Blank(c)
  }

  /** The program name knows no escapes: a quoted one runs to the next quote, a bare one to a blank. */
  function Split(cmd: string, pairs: bool): seq<string> {
    if cmd != "" && cmd[0] == '"' then
      var (name, rest) := Until(cmd[1..], true);
      [name] + TakeArgs(if rest == "" then "" else rest[1..], pairs)
    else
      var (name, rest) := Until(cmd, false);
      [name] + TakeArgs(rest, pairs)
  }

  // ---------------------------------------------------------------- what the host writes

  predicate Awkward(c: char) {
    c == ' ' || c == '\t' || c == '\n' || c == '\U{0b}' || c == '"'
  }

  predicate NeedsQuotes(arg: string) {
    arg == "" || exists i :: 0 <= i < |arg| && Awkward(arg[i])
  }

  /** The inside of a quoted argument. */
  function Escaped(arg: string): string
    decreases |arg|
  {
    var k := Run(arg);
    if k == |arg| then Slashes(2 * k)
    else if arg[k] == '"' then Slashes(2 * k + 1) + "\"" + Escaped(arg[k + 1..])
    else Slashes(k) + [arg[k]] + Escaped(arg[k + 1..])
  }

  ghost function Written(arg: string): string {
    if NeedsQuotes(arg) then "\"" + Escaped(arg) + "\"" else arg
  }

  ghost function WrittenAll(args: seq<string>): string {
    if args == [] then "" else " " + Written(args[0]) + WrittenAll(args[1..])
  }

  /** The line for a worker path, its arguments and an optional flag. */
  ghost function Line(worker: string, args: seq<string>, flag: string): string {
    "\"" + worker + "\"" + WrittenAll(args) + WrittenAll(if flag == "" then [] else [flag])
  }

  lemma {:induction false} RunIs(s: string, k: nat)
    requires k <= |s| && (forall i :: 0 <= i < k ==> s[i] == '\\') && (k < |s| ==> s[k] != '\\')
    ensures Run(s) == k
  {
    if k > 0 { RunIs(s[1..], k - 1); }
  }

  /** What the loop writes for one run of backslashes and the character after it. */
  function Chunk(k: nat, c: char): string {
    if c == '"' then Slashes(k * 2 + 1) + "\"" else Slashes(k) + [c]
  }

  lemma {:induction false} SplitRun(arg: string) returns (k: nat, tail: string)
    ensures k == Run(arg) <= |arg|
    ensures k == |arg| ==> arg == Slashes(k) && Escaped(arg) == Slashes(2 * k)
    ensures k < |arg| ==> arg[k] != '\\' && tail == arg[k + 1..] && arg == Slashes(k) + [arg[k]] + tail
    ensures k < |arg| ==>
              Escaped(arg) == (if arg[k] == '"' then Slashes(2 * k + 1) + "\"" else Slashes(k) + [arg[k]])
                    + Escaped(tail)
  {
    k := Run(arg);
    tail := "";
    hide Run;
    if k < |arg| {
      tail := arg[k + 1..];
      assert arg[..k] == Slashes(k);
      assert arg == arg[..k] + [arg[k]] + tail;
    }
  }

  lemma {:induction false} EscapedChunk(arg: string, i0: nat, i: nat)
    requires i0 <= i < |arg| && (forall j :: i0 <= j < i ==> arg[j] == '\\') && arg[i] != '\\'
    ensures Escaped(arg[i0..]) == Chunk(i - i0, arg[i]) + Escaped(arg[i + 1..])
  {
    var t, k := arg[i0..], i - i0;
    RunIs(t, k);
    var l, tail := SplitRun(t);
    hide Run, Escaped;
    assert tail == arg[i + 1..] && t[k] == arg[i];
    DoubleOrder(k);
  }

  lemma {:induction false} DoubleOrder(k: nat)
    ensures Slashes(2 * k + 1) == Slashes(k * 2 + 1)
  {
  }

  lemma {:induction false} EscapedTail(arg: string, i0: nat)
    requires i0 <= |arg| && forall j :: i0 <= j < |arg| ==> arg[j] == '\\'
    ensures Escaped(arg[i0..]) == Slashes((|arg| - i0) * 2)
  {
    RunIs(arg[i0..], |arg| - i0);
  }

  lemma {:induction false} Joined(a: string, b: string, c: string)
    ensures (a + b) + c == a + (b + c)
  {
  }

  /** The inside of a quoted argument, run by run. */
  method AppendEscaped(cmd: string, arg: string) returns (r: string)
    ensures r == cmd + Escaped(arg)
  {
    hide Escaped, Chunk;
    r := cmd;
    var i := 0;
    assert arg[0..] == arg;
    while i < |arg|
      invariant i <= |arg|
      invariant r + Escaped(arg[i..]) == cmd + Escaped(arg)
    {
      var i0, backslashes := i, 0;
      while i < |arg| && arg[i] == '\\'
        invariant i0 <= i <= |arg| && i == i0 + backslashes
        invariant forall j :: i0 <= j < i ==> arg[j] == '\\'
      {
        i, backslashes := i + 1, backslashes + 1;
      }
      if i == |arg| {
        EscapedTail(arg, i0);
        r := r + Slashes(backslashes * 2);
        return;
      }
      EscapedChunk(arg, i0, i);
      Joined(r, Chunk(backslashes, arg[i]), Escaped(arg[i + 1..]));
      r := r + Chunk(backslashes, arg[i]);
      i := i + 1;
    }
    EscapedTail(arg, i);
    assert r + Slashes(0) == r;
  }

  method AppendArg(cmd: string, arg: string) returns (r: string)
    ensures r == cmd + Written(arg)
  {
    if !NeedsQuotes(arg) {
      return cmd + arg;
    }
    r := AppendEscaped(cmd + "\"", arg);
    r := r + "\"";
    hide Escaped;
    assert r == cmd + ("\"" + Escaped(arg) + "\"");
  }

  method BuildCommandLine(worker: string, args: seq<string>, flag: string) returns (cmd: string)
    ensures cmd == Line(worker, args, flag)
  {
    hide Written;
    cmd := "\"" + worker + "\"";
    ghost var quoted := cmd;
    for i := 0 to |args|
      invariant cmd + WrittenAll(args[i..]) == quoted + WrittenAll(args)
    {
      ghost var before := cmd;
      assert args[i..][0] == args[i] && args[i..][1..] == args[i + 1..];
      cmd := AppendArg(cmd + " ", args[i]);
      assert cmd + WrittenAll(args[i + 1..]) == before + (" " + Written(args[i]) + WrittenAll(args[i + 1..]));
    }
    assert cmd == quoted + WrittenAll(args);
    if flag != "" {
      ghost var before := cmd;
      cmd := AppendArg(cmd + " ", flag);
      assert [flag][1..] == [];
      assert WrittenAll([flag]) == " " + Written(flag);
      assert cmd == before + (" " + Written(flag));
    }
  }

  // ---------------------------------------------------------------- round trip

  /** What may follow an argument on the line. */
  predicate Ends(rest: string) {
    rest == "" || rest[0] == ' '
  }

  lemma {:induction false} TakeSlashes(k: nat, t: string, quoted: bool, pairs: bool)
    requires t != "" ==> t[0] != '\\' && (t[0] == '"' ==> k % 2 == 0)
    ensures TakeArg(Slashes(k) + t, quoted, pairs)
         == Prepend(Slashes(if t != "" && t[0] == '"' then k / 2 else k), TakeArg(t, quoted, pairs))
  {
    var s := Slashes(k) + t;
    if k > 0 {
      RunIs(s, k);
      assert s[k..] == t;
    } else {
      assert s == t;
      var r := TakeArg(t, quoted, pairs);
      assert Slashes(0) + r.0 == r.0;
    }
  }

  lemma {:induction false} TakeLiteralQuote(k: nat, t: string, quoted: bool, pairs: bool)
    ensures TakeArg(Slashes(2 * k + 1) + ("\"" + t), quoted, pairs) == Prepend(Slashes(k) + "\"",
                                          TakeArg(t, quoted, pairs))
  {
    var n := 2 * k + 1;
    var s := Slashes(n) + ("\"" + t);
    RunIs(s, n);
    assert s[0] == '\\' && s[n] == '"' && n % 2 == 1 && n / 2 == k;
    assert s[n + 1..] == t;
  }

  lemma {:induction false} TakeChar(c: char, t: string, quoted: bool, pairs: bool)
    requires c != '\\' && c != '"' && (quoted || !Blank(c))
    ensures TakeArg([c] + t, quoted, pairs) == Prepend([c], TakeArg(t, quoted, pairs))
  {
    assert ([c] + t)[1..] == t;
  }

  lemma {:induction false} TakeClosing(rest: string, pairs: bool)
    requires Ends(rest)
    ensures TakeArg("\"" + rest, true, pairs) == ("", rest) == TakeArg(rest, false, pairs)
  {
    assert ("\"" + rest)[1..] == rest;
  }

  /** Quoting undone: an escaped argument reads back as itself, up to its closing quote. */
  lemma {:induction false} TakeQuoted(arg: string, rest: string, pairs: bool)
    requires Ends(rest)
    ensures TakeArg(Escaped(arg) + "\"" + rest, true, pairs) == (arg, rest)
    decreases |arg|
  {
    var k, tail := SplitRun(arg);
    hide TakeArg, Escaped, Run;
    var s := Escaped(arg) + "\"" + rest;
    if k == |arg| {
      assert s == Slashes(2 * k) + ("\"" + rest);
      TakeSlashes(2 * k, "\"" + rest, true, pairs);
      TakeClosing(rest, pairs);
      assert Slashes(k) + "" == arg;
    } else {
      TakeQuoted(tail, rest, pairs);
      var t := Escaped(tail) + "\"" + rest;
      if arg[k] == '"' {
        assert s == Slashes(2 * k + 1) + ("\"" + t);
        TakeLiteralQuote(k, t, true, pairs);
      } else {
        assert s == Slashes(k) + ([arg[k]] + t);
        TakeSlashes(k, [arg[k]] + t, true, pairs);
        TakeChar(arg[k], t, true, pairs);
        Joined(Slashes(k), [arg[k]], tail);
      }
    }
  }

  lemma {:induction false} TakePlain(arg: string, rest: string, pairs: bool)
    requires Ends(rest) && forall i :: 0 <= i < |arg| ==> !Awkward(arg[i])
    ensures TakeArg(arg + rest, false, pairs) == (arg, rest)
    decreases |arg|
  {
    var k, tail := SplitRun(arg);
    hide TakeArg, Escaped, Run;
    TakeClosing(rest, pairs);
    if k == |arg| {
      TakeSlashes(k, rest, false, pairs);
      assert Slashes(k) + "" == arg;
    } else {
      var t := tail + rest;
      TakePlain(tail, rest, pairs);
      assert !Awkward(arg[k]);
      assert arg + rest == Slashes(k) + ([arg[k]] + t);
      TakeSlashes(k, [arg[k]] + t, false, pairs);
      TakeChar(arg[k], t, false, pairs);
      Joined(Slashes(k), [arg[k]], tail);
    }
  }

  /** What is read is no longer than what was read from. */
  lemma {:induction false} TakenFits(s: string, quoted: bool, pairs: bool)
    ensures |TakeArg(s, quoted, pairs).0| <= |s|
    decreases |s|
  {
    if s == "" || (Blank(s[0]) && !quoted) {
    } else if s[0] == '\\' {
      var k := Run(s);
      TakenFits(s[k..], quoted, pairs);
      if k < |s| && s[k] == '"' { TakenFits(s[k + 1..], quoted, pairs); }
    } else {
      TakenFits(s[1..], quoted, pairs);
      TakenFits(s[1..], !quoted, pairs);
      if |s| > 1 { TakenFits(s[2..], true, pairs); }
    }
    hide Run, Blank;
  }

  /** A quote, a run of backslashes before one, or a blank outside quotes comes next. */
  predicate MeansMore(s: string, quoted: bool)
    requires s != ""
  {
    s[0] == '"' || (Blank(s[0]) && !quoted) || (s[0] == '\\' && Run(s) < |s| && s[Run(s)] == '"')
  }

  lemma {:induction false} TakenLess(s: string, quoted: bool, pairs: bool)
    requires s != "" && MeansMore(s, quoted)
    ensures |TakeArg(s, quoted, pairs).0| < |s|
  {
    if s[0] == '\\' {
      TakenFits(s[Run(s)..], quoted, pairs);
      TakenFits(s[Run(s) + 1..], quoted, pairs);
    } else if s[0] == '"' {
      TakenFits(s[1..], !quoted, pairs);
      if |s| > 1 { TakenFits(s[2..], true, pairs); }
    }
  }

  lemma {:induction false} TakenOn(s: string, quoted: bool, pairs: bool)
    requires s != "" && !MeansMore(s, quoted)
    ensures var k := if s[0] == '\\' then Run(s) else 1;
            0 < k <= |s| && TakeArg(s, quoted, pairs).0 == s[..k] + TakeArg(s[k..], quoted, pairs).0
  {
    hide Blank;
    if s[0] == '\\' { assert s[..Run(s)] == Slashes(Run(s)); }
  }

  /** It is all of it only where no character means anything. */
  lemma {:induction false} TakenWhole(s: string, quoted: bool, pairs: bool)
    requires TakeArg(s, quoted, pairs).0 == s
    ensures forall i :: 0 <= i < |s| ==> s[i] != '"' && (!quoted ==> !Blank(s[i]))
    decreases |s|
  {
    hide TakeArg, Blank;
    if s != "" {
      if MeansMore(s, quoted) { TakenLess(s, quoted, pairs); }
      TakenOn(s, quoted, pairs);
      var k := if s[0] == '\\' then Run(s) else 1;
      var a := TakeArg(s[k..], quoted, pairs).0;
      assert (s[..k] + a)[k..] == a == s[k..];
      TakenWhole(s[k..], quoted, pairs);
      RestWhole(s, k, quoted);
    }
  }

  lemma {:induction false} RestWhole(s: string, k: nat, quoted: bool)
    requires k <= |s| && forall i :: 0 <= i < k ==> s[i] != '"' && (!quoted ==> !Blank(s[i]))
    requires forall i :: 0 <= i < |s[k..]| ==> s[k..][i] != '"' && (!quoted ==> !Blank(s[k..][i]))
    ensures forall i :: 0 <= i < |s| ==> s[i] != '"' && (!quoted ==> !Blank(s[i]))
  {
    forall i | k <= i < |s| ensures s[i] == s[k..][i - k] {}
    hide Blank;
  }

  lemma {:induction false} SkippedNothing(s: string)
    ensures |SkipBlanks(s)| == |s| ==> SkipBlanks(s) == s
  {
    if s != "" && Blank(s[0]) { SkippedLess(s[1..]); }
  }

  lemma {:induction false} SkippedLess(s: string)
    ensures |SkipBlanks(s)| <= |s|
  {
  }

  /** Quotes are put only where they are needed: an argument without line breaks is written bare exactly when its bare
      text reads back as that one argument. */
  lemma {:induction false} BareIffKept(arg: string, pairs: bool)
    requires forall i :: 0 <= i < |arg| ==> arg[i] != '\n' && arg[i] != '\U{0b}'
    ensures Written(arg) == arg <==> TakeArgs(arg, pairs) == [arg]
  {
    QuotesShow(arg);
    if !NeedsQuotes(arg) {
      TakePlain(arg, "", pairs);
      assert arg + "" == arg && !Awkward(arg[0]);
      assert SkipBlanks(arg) == arg && TakeArgs("", pairs) == [];
      hide TakeArg;
      assert TakeArgs(arg, pairs) == [arg] + TakeArgs("", pairs);
    } else {
      hide TakeArgs;
      if TakeArgs(arg, pairs) == [arg] { KeptIsPlain(arg, pairs); }
    }
  }

  lemma {:induction false} KeptIsPlain(arg: string, pairs: bool)
    requires TakeArgs(arg, pairs) == [arg]
    ensures arg != "" && forall i :: 0 <= i < |arg| ==> arg[i] != '"' && !Blank(arg[i])
  {
    var t := SkipBlanks(arg);
    assert t != "" && TakeArg(t, false, pairs).0 == TakeArgs(arg, pairs)[0] == arg;
    TakenFits(t, false, pairs);
    SkippedNothing(arg);
    SkippedLess(arg);
    hide TakeArg;
    assert t == arg;
    TakenWhole(t, false, pairs);
  }

  lemma {:induction false} QuotesShow(arg: string)
    ensures Written(arg) == arg <==> !NeedsQuotes(arg)
  {
    if NeedsQuotes(arg) {
      EscapedGrows(arg);
      assert |Written(arg)| == |Escaped(arg)| + 2;
    }
  }

  lemma {:induction false} EscapedGrows(arg: string)
    ensures |Escaped(arg)| >= |arg|
    decreases |arg|
  {
    var k := Run(arg);
    if k < |arg| { EscapedGrows(arg[k + 1..]); }
  }

  lemma {:induction false} TakeWritten(arg: string, rest: string, pairs: bool)
    requires Ends(rest)
    ensures Written(arg) != "" && !Blank(Written(arg)[0])
    ensures TakeArg(Written(arg) + rest, false, pairs) == (arg, rest)
  {
    hide TakeArg, Escaped;
    if NeedsQuotes(arg) {
      TakeQuoted(arg, rest, pairs);
      var s := Written(arg) + rest;
      assert s == "\"" + (Escaped(arg) + "\"" + rest);
      OpenQuote(Escaped(arg) + "\"" + rest, pairs);
    } else {
      TakePlain(arg, rest, pairs);
      assert !Awkward(arg[0]);
    }
  }

  lemma {:induction false} OpenQuote(t: string, pairs: bool)
    ensures TakeArg("\"" + t, false, pairs) == TakeArg(t, true, pairs)
  {
    assert ("\"" + t)[1..] == t;
  }

  lemma {:induction false} TakeAll(args: seq<string>, pairs: bool)
    ensures TakeArgs(WrittenAll(args), pairs) == args
  {
    hide Written, TakeArg;
    if args == [] {
    } else {
      var rest := WrittenAll(args[1..]);
      TakeWritten(args[0], rest, pairs);
      TakeAll(args[1..], pairs);
      var s := WrittenAll(args);
      var t := Written(args[0]) + rest;
      assert s == " " + t && s[1..] == t;
      assert SkipBlanks(s) == t;
      assert args == [args[0]] + args[1..];
    }
  }

  lemma {:induction false} WrittenAppend(args: seq<string>, more: seq<string>)
    ensures WrittenAll(args + more) == WrittenAll(args) + WrittenAll(more)
  {
    hide Written;
    if args == [] {
      assert args + more == more;
    } else {
      WrittenAppend(args[1..], more);
      assert (args + more)[1..] == args[1..] + more;
    }
  }

  lemma {:induction false} UntilQuote(worker: string, rest: string)
    requires '"' !in worker
    ensures Until(worker + "\"" + rest, true) == (worker, "\"" + rest)
  {
    hide Until;
    var s := worker + "\"" + rest;
    var (name, tail) := Until(s, true);
    assert s[|worker|] == '"' && forall i :: 0 <= i < |worker| ==> s[i] == worker[i];
    assert forall i :: 0 <= i < |name| ==> s[i] == name[i];
    assert tail != "" ==> tail[0] == s[|name|];
    assert |name| == |worker|;
    assert name == s[..|name|] && tail == s[|name|..];
    assert s[..|worker|] == worker && s[|worker|..] == "\"" + rest;
  }

  /** Taking the line apart gives back exactly what went in, if and only if the worker path holds no
      quote: the path alone is written without escapes. */
  lemma {:induction false} LineRoundTrip(worker: string, args: seq<string>, flag: string, pairs: bool)
    ensures Split(Line(worker, args, flag), pairs) == [worker] + args + (if flag == "" then [] else [flag])
       <==> '"' !in worker
  {
    hide Written, TakeArgs, Until;
    var more := if flag == "" then [] else [flag];
    var rest := WrittenAll(args) + WrittenAll(more);
    var cmd := Line(worker, args, flag);
    assert cmd[1..] == worker + "\"" + rest;
    if '"' in worker {
      var (name, tail) := Until(cmd[1..], true);
      assert '"' !in name;
      assert name == Split(cmd, pairs)[0];
    } else {
      UntilQuote(worker, rest);
      assert ("\"" + rest)[1..] == rest;
      WrittenAppend(args, more);
      TakeAll(args + more, pairs);
      assert [worker] + args + more == [worker] + (args + more);
    }
  }
}
