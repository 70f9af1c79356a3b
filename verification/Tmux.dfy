/**
  What tmux does with an argument vector: it cuts it into commands, reads each command's options, and
  writes bytes or named keys into the pane that `-t` names.
  */
module Tmux {
  import opened Basics
  import opened Utf8

  // ---------------------------------------------------------------------------
  // Cutting into commands
  // ---------------------------------------------------------------------------

  /** An argument tmux takes as it is. */
  predicate Whole(arg: string) {
    arg == "" || arg[|arg| - 1] != ';'
  }

  /** A final semicolon ends the command, unless a backslash stands before it. */
  predicate EndsCommand(arg: string) {
    !Whole(arg) && !(|arg| > 1 && arg[|arg| - 2] == '\\')
  }

  /** The argument a command gets: `\;` at the end stands for a semicolon. */
  function Meant(arg: string): string {
    if Whole(arg) || EndsCommand(arg) then arg else arg[..|arg| - 2] + ";"
  }

  function SplitCommands(argv: seq<string>, current: seq<string>): seq<seq<string>> {
    if argv == [] then (if current == [] then [] else [current])
    else if EndsCommand(argv[0]) then
      var arg := argv[0][..|argv[0]| - 1];
      [if arg == "" then current else current + [arg]] + SplitCommands(argv[1..], [])
    else SplitCommands(argv[1..], current + [Meant(argv[0])])
  }

  predicate AllWhole(run: seq<string>) {
    forall k :: 0 <= k < |run| ==> Whole(run[k])
  }

  lemma {:induction false} SplitRun(run: seq<string>, rest: seq<string>, current: seq<string>)
    requires AllWhole(run)
    ensures SplitCommands(run + rest, current) == SplitCommands(rest, current + run)
  {
    if run == [] {
      assert run + rest == rest && current + run == current;
    } else {
      assert (run + rest)[1..] == run[1..] + rest && (run + rest)[0] == run[0];
      SplitRun(run[1..], rest, current + [run[0]]);
      assert current + [run[0]] + run[1..] == current + run;
    }
  }

  lemma SplitAt(rest: seq<string>, current: seq<string>)
    ensures SplitCommands([";"] + rest, current) == [current] + SplitCommands(rest, [])
  {
    assert ([";"] + rest)[1..] == rest;
    assert EndsCommand(";") && ";"[..0] == "";
  }

  lemma SplitLast(c: seq<string>)
    requires c != [] && AllWhole(c)
    ensures SplitCommands(c, []) == [c]
  {
    SplitRun(c, [], []);
    assert c + [] == c && [] + c == c;
  }

  lemma SplitFirst(a: seq<string>, rest: seq<string>)
    requires AllWhole(a)
    ensures SplitCommands(a + [";"] + rest, []) == [a] + SplitCommands(rest, [])
  {
    assert a + [";"] + rest == a + ([";"] + rest) && [] + a == a;
    SplitRun(a, [";"] + rest, []);
    SplitAt(rest, a);
  }

  /** One argument in the middle of a command, whatever it ends with. */
  lemma SplitAround(pre: seq<string>, arg: string, post: seq<string>)
    requires AllWhole(pre) && AllWhole(post) && pre != []
    ensures !EndsCommand(arg) ==> SplitCommands(pre + ([arg] + post), []) == [pre + ([Meant(arg)] + post)]
    ensures EndsCommand(arg) ==>
      SplitCommands(pre + ([arg] + post), [])
      == [pre + if |arg| == 1 then [] else [arg[..|arg| - 1]]] + SplitCommands(post, [])
  {
    SplitRun(pre, [arg] + post, []);
    assert [] + pre == pre && ([arg] + post)[1..] == post;
    if !EndsCommand(arg) {
      SplitRun(post, [], pre + [Meant(arg)]);
      assert post + [] == post && pre + [Meant(arg)] + post == pre + ([Meant(arg)] + post);
    } else {
      assert pre + [] == pre;
    }
  }

  // ---------------------------------------------------------------------------
  // Reading a command
  // ---------------------------------------------------------------------------

  datatype Options = Options(pane: string, buffer: string, hex: bool, raw: bool, once: bool, rest: seq<string>)

  const NO_OPTIONS := Options("", "", false, false, false, [])

  function ReadOptions(args: seq<string>, o: Options): Options
    decreases |args|
  {
    if args == [] then o
    else if args[0] == "-t" && |args| > 1 then ReadOptions(args[2..], o.(pane := args[1]))
    else if args[0] == "-b" && |args| > 1 then ReadOptions(args[2..], o.(buffer := args[1]))
    else if args[0] == "-H" then ReadOptions(args[1..], o.(hex := true))
    else if args[0] == "-r" then ReadOptions(args[1..], o.(raw := true))
    else if args[0] == "-d" then ReadOptions(args[1..], o.(once := true))
    else o.(rest := if args[0] == "--" then args[1..] else args)
  }

  lemma TakesPane(v: string, rest: seq<string>, o: Options)
    ensures ReadOptions(["-t", v] + rest, o) == ReadOptions(rest, o.(pane := v))
  {
    assert (["-t", v] + rest)[2..] == rest;
  }

  lemma TakesBuffer(v: string, rest: seq<string>, o: Options)
    ensures ReadOptions(["-b", v] + rest, o) == ReadOptions(rest, o.(buffer := v))
  {
    assert (["-b", v] + rest)[2..] == rest;
  }

  lemma TakesHex(rest: seq<string>, o: Options)
    ensures ReadOptions(["-H"] + rest, o) == ReadOptions(rest, o.(hex := true))
  {
    assert (["-H"] + rest)[1..] == rest;
  }

  lemma TakesRaw(rest: seq<string>, o: Options)
    ensures ReadOptions(["-d", "-r"] + rest, o) == ReadOptions(rest, o.(once := true, raw := true))
  {
    assert (["-d", "-r"] + rest)[1..] == ["-r"] + rest && (["-r"] + rest)[1..] == rest;
  }

  /** Arguments whose first is no option are the rest. */
  lemma TakesRest(rest: seq<string>, o: Options)
    requires rest != [] && rest[0] !in {"-t", "-b", "-H", "-r", "-d", "--"}
    ensures ReadOptions(rest, o) == o.(rest := rest)
  {
  }

  // ---------------------------------------------------------------------------
  // Running the commands
  // ---------------------------------------------------------------------------

  /** What one command puts into a pane. */
  datatype Typed = Bytes(pane: string, bytes: seq<byte>) | Names(pane: string, keys: seq<string>)

  /** `paste-buffer` without `-r` turns each line feed into a carriage return. */
  function Pasted(bytes: seq<byte>, raw: bool): (r: seq<byte>)
    ensures |r| == |bytes|
  {
    if raw then bytes else seq(|bytes|, i requires 0 <= i < |bytes| => if bytes[i] == 0x0A then 0x0D else bytes[i])
  }

  function SendKeys(o: Options): seq<Typed> {
    if !o.hex then [Names(o.pane, o.rest)] else
    match ReadHex(o.rest)
    case Some(bytes) => [Bytes(o.pane, bytes)]
    case None => []
  }

  /** What the commands type, in order; `-` loads standard input, only a loaded buffer is pasted, and `-d` drops it. */
  function Run(commands: seq<seq<string>>, stdin: seq<byte>, buffers: map<string, seq<byte>>): seq<Typed> {
    if commands == [] then [] else
    var c, rest := commands[0], commands[1..];
    if c == [] then Run(rest, stdin, buffers) else
    var o := ReadOptions(c[1..], NO_OPTIONS);
    if c[0] == "send-keys" then SendKeys(o) + Run(rest, stdin, buffers)
    else if c[0] == "load-buffer" && o.rest == ["-"] then Run(rest, stdin, buffers[o.buffer := stdin])
    else if c[0] == "paste-buffer" && o.buffer in buffers then
      [Bytes(o.pane, Pasted(buffers[o.buffer], o.raw))]
      + Run(rest, stdin, if o.once then buffers - {o.buffer} else buffers)
    else Run(rest, stdin, buffers)
  }

  /** What one tmux invocation types, the program name first. */
  function TypedBy(argv: seq<string>, stdin: seq<byte>): seq<Typed> {
    if argv == [] then [] else Run(SplitCommands(argv[1..], []), stdin, map[])
  }
}
