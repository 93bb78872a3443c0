/** The broker's command-line gate: `_validate_argv` is a parser whose accepted
    language is exactly the printed form of allow-listed commands. */
module BrokerArgv {

  datatype Arg = Flag(name: string) | Setting(name: string, value: string)

  datatype Command = Command(provider: string, action: string, args: seq<Arg>)

  datatype Rejection =
    | EmptyArgv
    | WrongDispatcher
    | MissingProviderOrAction
    | ProviderNotAllowed
    | ActionNotAllowed
    | OptionNotAllowed(option: string)
    | ValueMissing(option: string)
    | ValueInvalid(option: string)

  datatype Parsed<+T> = Ok(value: T) | Err(reason: Rejection)

  /** The four allow-list tables; every theorem below holds for any tables. */
  datatype Allowlist = Allowlist(
    providers: set<string>,
    actions: set<string>,
    options: map<string, set<string>>,
    flags: map<string, set<string>>)
  {
    /** `OPTIONS[provider]` is defined for every allowed provider. */
    predicate Covers() {
      providers <= options.Keys
    }

    function FlagsOf(provider: string): set<string> {
      if provider in flags then flags[provider] else {}
    }
  }

  const REVIEWED := Allowlist(
    {"whisper", "ollama", "llama.cpp", "vllm", "nemo-speech", "consensus"},
    {"install", "start", "status", "stop", "remove"},
    map[
      "whisper" := {"--image", "--model", "--port", "--data-dir"},
      "ollama" := {"--version", "--model"},
      "llama.cpp" := {"--ref", "--backend", "--root", "--model"},
      "vllm" := {"--version", "--python", "--root", "--model", "--served-model-name"},
      "nemo-speech" := {"--version", "--backend", "--root", "--model", "--port"},
      "consensus" := {
        "--version", "--home", "--binary-path", "--service-name", "--chain-id",
        "--moniker", "--rpc-host", "--rpc-port", "--p2p-host", "--p2p-port",
        "--external-address", "--seeds", "--persistent-peers",
        "--abci-host", "--abci-port", "--no-abci"}
    ],
    map["consensus" := {"--no-abci"}])

  const MAX_VALUE_LENGTH := 512

  predicate ControlFree(s: string) {
    '\0' !in s && '\r' !in s && '\n' !in s
  }

  predicate ValidValue(v: string) {
    0 < |v| <= MAX_VALUE_LENGTH && ControlFree(v)
  }

  // ---------- The language of accepted commands, independent of the parser ----------

  ghost predicate ValidArg(options: set<string>, flags: set<string>, arg: Arg) {
    && arg.name in options
    && (arg.Flag? <==> arg.name in flags)
    && (arg.Setting? ==> ValidValue(arg.value))
  }

  ghost predicate ValidArgs(options: set<string>, flags: set<string>, args: seq<Arg>) {
    && (forall i :: 0 <= i < |args| ==> ValidArg(options, flags, args[i]))
    && (forall i, j :: 0 <= i < j < |args| ==> args[i].name != args[j].name)
  }

  ghost predicate WellFormed(allow: Allowlist, c: Command)
    requires allow.Covers()
  {
    && c.provider in allow.providers
    && c.action in allow.actions
    && ValidArgs(allow.options[c.provider], allow.FlagsOf(c.provider), c.args)
  }

  function PrintArg(arg: Arg): seq<string> {
    match arg
    case Flag(name) => [name]
    case Setting(name, value) => [name, value]
  }

  function PrintArgs(args: seq<Arg>): seq<string> {
    if args == [] then [] else PrintArgs(args[..|args| - 1]) + PrintArg(args[|args| - 1])
  }

  function Print(dispatcher: string, c: Command): seq<string> {
    [dispatcher, c.provider, c.action] + PrintArgs(c.args)
  }

  // ---------- The parser ----------

  ghost function Names(args: seq<Arg>): set<string> {
    set arg | arg in args :: arg.name
  }

  /** What the option loop does with the tokens left once `done` has been read. */
  ghost function ParseArgs(options: set<string>, flags: set<string>, done: seq<Arg>, rest: seq<string>)
    : Parsed<seq<Arg>>
    decreases |rest|
  {
    if rest == [] then Ok(done)
    else
      var option := rest[0];
      if option !in options || option in Names(done) then Err(OptionNotAllowed(option))
      else if option in flags then ParseArgs(options, flags, done + [Flag(option)], rest[1..])
      else if |rest| == 1 then Err(ValueMissing(option))
      else if !ValidValue(rest[1]) then Err(ValueInvalid(option))
      else ParseArgs(options, flags, done + [Setting(option, rest[1])], rest[2..])
  }

  ghost function Parse(allow: Allowlist, dispatcher: string, argv: seq<string>): Parsed<Command>
    requires allow.Covers()
  {
    if argv == [] then Err(EmptyArgv)
    else if argv[0] != dispatcher then Err(WrongDispatcher)
    else if |argv| < 3 then Err(MissingProviderOrAction)
    else if argv[1] !in allow.providers then Err(ProviderNotAllowed)
    else if argv[2] !in allow.actions then Err(ActionNotAllowed)
    else
      match ParseArgs(allow.options[argv[1]], allow.FlagsOf(argv[1]), [], argv[3..])
      case Err(reason) => Err(reason)
      case Ok(args) => Ok(Command(argv[1], argv[2], args))
  }

  lemma NamesAppend(args: seq<Arg>, arg: Arg)
    ensures Names(args + [arg]) == Names(args) + {arg.name}
  {
    assert forall a :: a in args + [arg] <==> a in args || a == arg;
    assert arg in args + [arg];
    forall n | n in Names(args)
      ensures n in Names(args + [arg])
    {
      var a :| a in args && a.name == n;
      assert a in args + [arg];
    }
  }

  lemma Associative(a: seq<string>, b: seq<string>, c: seq<string>)
    ensures (a + b) + c == a + (b + c)
  {
  }

  lemma PrintAppend(args: seq<Arg>, arg: Arg)
    ensures PrintArgs(args + [arg]) == PrintArgs(args) + PrintArg(arg)
  {
    assert (args + [arg])[..|args|] == args;
  }

  /** `read` was accepted and no token sequence starting like `left` can follow it. */
  ghost predicate Stuck(options: set<string>, flags: set<string>, read: seq<Arg>, left: seq<string>, reason: Rejection) {
    && ValidArgs(options, flags, read)
    && left != []
    && match reason
       case OptionNotAllowed(o) => o == left[0] && (o !in options || o in Names(read))
       case ValueMissing(o) => left == [o] && o in options - flags - Names(read)
       case ValueInvalid(o) => |left| >= 2 && o == left[0] && o in options - flags - Names(read) && !ValidValue(left[1])
       case _ => false
  }

  /** Reading one argument moves its printed form from the rest to the done part. */
  lemma ReadOne(done: seq<Arg>, arg: Arg, rest: seq<string>)
    requires PrintArg(arg) <= rest
    ensures PrintArgs(done + [arg]) + rest[|PrintArg(arg)|..] == PrintArgs(done) + rest
  {
    var tail := rest[|PrintArg(arg)|..];
    PrintAppend(done, arg);
    Associative(PrintArgs(done), PrintArg(arg), tail);
    assert PrintArg(arg) + tail == rest;
  }

  lemma ValidAppend(options: set<string>, flags: set<string>, done: seq<Arg>, arg: Arg)
    requires ValidArgs(options, flags, done) && ValidArg(options, flags, arg) && arg.name !in Names(done)
    ensures ValidArgs(options, flags, done + [arg])
  {
    assert forall i :: 0 <= i < |done| ==> done[i] in done && done[i].name in Names(done);
  }

  lemma StuckHere(options: set<string>, flags: set<string>, done: seq<Arg>, rest: seq<string>, reason: Rejection)
    requires Stuck(options, flags, done, rest, reason)
    ensures exists read, left :: Stuck(options, flags, read, left, reason)
                                 && PrintArgs(read) + left == PrintArgs(done) + rest
  {
  }

  /** The option loop succeeds only on printed forms, and returns what was printed;
      otherwise it names the token right after a well-formed prefix that cannot be continued. */
  lemma {:induction false} ParseArgsSound(
      options: set<string>, flags: set<string>, done: seq<Arg>, rest: seq<string>)
    requires ValidArgs(options, flags, done)
    ensures
      match ParseArgs(options, flags, done, rest)
      case Ok(args) =>
        ValidArgs(options, flags, args) && PrintArgs(args) == PrintArgs(done) + rest
      case Err(reason) =>
        exists read, left :: Stuck(options, flags, read, left, reason)
                             && PrintArgs(read) + left == PrintArgs(done) + rest
    decreases |rest|
  {
    if rest == [] {
      assert PrintArgs(done) + rest == PrintArgs(done);
    } else {
      var option := rest[0];
      if option !in options || option in Names(done) {
        StuckHere(options, flags, done, rest, OptionNotAllowed(option));
      } else if option in flags {
        var arg := Flag(option);
        ReadOne(done, arg, rest);
        ValidAppend(options, flags, done, arg);
        ParseArgsSound(options, flags, done + [arg], rest[1..]);
      } else if |rest| == 1 {
        StuckHere(options, flags, done, rest, ValueMissing(option));
      } else if !ValidValue(rest[1]) {
        StuckHere(options, flags, done, rest, ValueInvalid(option));
      } else {
        var arg := Setting(option, rest[1]);
        ReadOne(done, arg, rest);
        ValidAppend(options, flags, done, arg);
        ParseArgsSound(options, flags, done + [arg], rest[2..]);
      }
    }
  }

  /** One well-formed argument is read in one turn of the loop. */
  lemma ReadBackOne(options: set<string>, flags: set<string>, done: seq<Arg>, arg: Arg, later: seq<string>)
    requires ValidArg(options, flags, arg) && arg.name !in Names(done)
    ensures ParseArgs(options, flags, done, PrintArg(arg) + later) == ParseArgs(options, flags, done + [arg], later)
  {
    var rest := PrintArg(arg) + later;
    assert rest[0] == arg.name && rest[|PrintArg(arg)|..] == later;
  }

  /** Printing can be read from the front as well. */
  lemma {:induction false} PrintFront(args: seq<Arg>)
    requires args != []
    ensures PrintArgs(args) == PrintArg(args[0]) + PrintArgs(args[1..])
  {
    var m := |args| - 1;
    if m == 0 {
      assert args[..0] == [] && args[1..] == [];
    } else {
      PrintFront(args[..m]);
      assert args[..m][1..] == args[1..][..m - 1];
      var first, middle, last := PrintArg(args[0]), PrintArgs(args[1..][..m - 1]), PrintArg(args[m]);
      Associative(first, middle, last);
    }
  }

  lemma PrintFrontThen(args: seq<Arg>, rest: seq<string>)
    requires args != []
    ensures PrintArgs(args) + rest == PrintArg(args[0]) + (PrintArgs(args[1..]) + rest)
  {
    PrintFront(args);
    Associative(PrintArg(args[0]), PrintArgs(args[1..]), rest);
  }

  /** The first argument of a valid continuation is new, and can be counted as read. */
  lemma NextArg(options: set<string>, flags: set<string>, done: seq<Arg>, args: seq<Arg>)
    requires ValidArgs(options, flags, done + args) && args != []
    ensures ValidArg(options, flags, args[0]) && args[0].name !in Names(done)
    ensures (done + [args[0]]) + args[1..] == done + args
  {
    var all := done + args;
    assert all[|done|] == args[0];
    assert forall i :: 0 <= i < |done| ==> done[i] == all[i];
  }

  /** Every well-formed argument list is read back exactly, even when a value
      looks like an option. */
  lemma {:induction false} ParseArgsComplete(options: set<string>, flags: set<string>, done: seq<Arg>, args: seq<Arg>)
    requires ValidArgs(options, flags, done + args)
    ensures ParseArgs(options, flags, done, PrintArgs(args)) == Ok(done + args)
    decreases |args|
  {
    if args == [] {
      assert done + args == done;
    } else {
      NextArg(options, flags, done, args);
      ParseArgsComplete(options, flags, done + [args[0]], args[1..]);
      PrintFront(args);
      ReadBackOne(options, flags, done, args[0], PrintArgs(args[1..]));
    }
  }

  // ---------- Where a rejected argv goes wrong ----------

  /** No argument can be read where the loop is stuck. */
  lemma StuckBlocks(
      options: set<string>, flags: set<string>, read: seq<Arg>, left: seq<string>, reason: Rejection,
      arg: Arg, later: seq<string>)
    requires Stuck(options, flags, read, left, reason)
    requires ValidArg(options, flags, arg) && arg.name !in Names(read)
    ensures !(PrintArg(arg) + later <= left)
  {
    var tokens := PrintArg(arg) + later;
    assert tokens[0] == arg.name;
    assert arg.Setting? ==> tokens[1] == arg.value;
  }

  /** Valid arguments whose printed forms begin the same tokens are the same. */
  lemma SameArg(options: set<string>, flags: set<string>, a: Arg, later: seq<string>, b: Arg, rest: seq<string>)
    requires ValidArg(options, flags, a) && ValidArg(options, flags, b)
    requires PrintArg(a) + later <= PrintArg(b) + rest
    ensures a == b && later <= rest
  {
    var short, long := PrintArg(a) + later, PrintArg(b) + rest;
    assert short[0] == a.name && long[0] == b.name;
    if a.Setting? {
      assert short[1] == a.value && long[1] == b.value;
    }
    assert later == short[|PrintArg(a)|..] && rest == long[|PrintArg(b)|..];
  }

  /** A stuck prefix is the longest one: whatever well-formed arguments the same tokens
      begin with are among those that were read. */
  lemma {:induction false} LongestPrefix(
      options: set<string>, flags: set<string>, done: seq<Arg>, read: seq<Arg>, left: seq<string>, reason: Rejection,
      args: seq<Arg>)
    requires Stuck(options, flags, done + read, left, reason) && ValidArgs(options, flags, done + args)
    requires PrintArgs(args) <= PrintArgs(read) + left
    ensures args <= read
    decreases |args|
  {
    if args != [] {
      NextArg(options, flags, done, args);
      PrintFront(args);
      var later := PrintArgs(args[1..]);
      if read == [] {
        assert done + read == done && PrintArgs(read) + left == left;
        StuckBlocks(options, flags, done, left, reason, args[0], later);
      } else {
        NextArg(options, flags, done, read);
        PrintFrontThen(read, left);
        var rest := PrintArgs(read[1..]) + left;
        SameArg(options, flags, args[0], later, read[0], rest);
        LongestPrefix(options, flags, done + [read[0]], read[1..], left, reason, args[1..]);
        assert args == [args[0]] + args[1..] && read == [read[0]] + read[1..];
      }
    }
  }

  /** A rejected token sequence is stuck at one place and for one reason. */
  lemma StuckUnique(
      options: set<string>, flags: set<string>, read: seq<Arg>, left: seq<string>, reason: Rejection,
      read': seq<Arg>, left': seq<string>, reason': Rejection)
    requires Stuck(options, flags, read, left, reason) && Stuck(options, flags, read', left', reason')
    requires PrintArgs(read) + left == PrintArgs(read') + left'
    ensures read == read' && left == left' && reason == reason'
  {
    assert [] + read == read && [] + read' == read';
    LongestPrefix(options, flags, [], read, left, reason, read');
    LongestPrefix(options, flags, [], read', left', reason', read);
    assert left == (PrintArgs(read) + left)[|PrintArgs(read)|..];
    assert left' == (PrintArgs(read') + left')[|PrintArgs(read')|..];
  }

  /** Parsing inverts printing. */
  lemma ParsePrint(allow: Allowlist, dispatcher: string, c: Command)
    requires allow.Covers() && WellFormed(allow, c)
    ensures Parse(allow, dispatcher, Print(dispatcher, c)) == Ok(c)
  {
    var argv := Print(dispatcher, c);
    assert argv[3..] == PrintArgs(c.args);
    assert [] + c.args == c.args;
    ParseArgsComplete(allow.options[c.provider], allow.FlagsOf(c.provider), [], c.args);
  }

  /** Printing inverts parsing, and only well-formed commands come out. */
  lemma PrintParse(allow: Allowlist, dispatcher: string, argv: seq<string>)
    requires allow.Covers() && Parse(allow, dispatcher, argv).Ok?
    ensures WellFormed(allow, Parse(allow, dispatcher, argv).value)
    ensures Print(dispatcher, Parse(allow, dispatcher, argv).value) == argv
  {
    ParseArgsSound(allow.options[argv[1]], allow.FlagsOf(argv[1]), [], argv[3..]);
    assert argv == [argv[0], argv[1], argv[2]] + argv[3..];
  }

  /** The accepted language: an argv passes if and only if it is the printed
      form of a well-formed command, which is then unique. */
  lemma AcceptedLanguage(allow: Allowlist, dispatcher: string, argv: seq<string>)
    requires allow.Covers()
    ensures Parse(allow, dispatcher, argv).Ok?
            <==> exists c :: WellFormed(allow, c) && Print(dispatcher, c) == argv
    ensures forall c, d |
              && WellFormed(allow, c) && Print(dispatcher, c) == argv
              && WellFormed(allow, d) && Print(dispatcher, d) == argv :: c == d
  {
    if Parse(allow, dispatcher, argv).Ok? {
      PrintParse(allow, dispatcher, argv);
    }
    forall c | WellFormed(allow, c) && Print(dispatcher, c) == argv
      ensures Parse(allow, dispatcher, argv) == Ok(c)
    {
      ParsePrint(allow, dispatcher, c);
    }
  }

  /** `_validate_argv`: the index loop with its growing `seen` set. */
  method ValidateArgv(allow: Allowlist, dispatcher: string, argv: seq<string>) returns (r: Parsed<seq<string>>)
    requires allow.Covers()
    ensures r.Ok? ==> r.value == argv
    ensures r.Ok? <==> exists c :: WellFormed(allow, c) && Print(dispatcher, c) == argv
    ensures r.Err? ==> Parse(allow, dispatcher, argv) == Err(r.reason)
  {
    AcceptedLanguage(allow, dispatcher, argv);
    if argv == [] { return Err(EmptyArgv); }
    if argv[0] != dispatcher { return Err(WrongDispatcher); }
    if |argv| < 3 { return Err(MissingProviderOrAction); }
    var provider, action := argv[1], argv[2];
    if provider !in allow.providers { return Err(ProviderNotAllowed); }
    if action !in allow.actions { return Err(ActionNotAllowed); }
    var expected := allow.options[provider];
    var seen := {};
    var index := 3;
    ghost var done := [];
    ghost var whole := ParseArgs(expected, allow.FlagsOf(provider), [], argv[3..]);
    while index < |argv|
      invariant 3 <= index <= |argv|
      invariant seen == Names(done)
      invariant ParseArgs(expected, allow.FlagsOf(provider), done, argv[index..]) == whole
    {
      var option := argv[index];
      assert argv[index..][0] == option;
      if option !in expected || option in seen { return Err(OptionNotAllowed(option)); }
      if option in allow.FlagsOf(provider) {
        NamesAppend(done, Flag(option));
        done := done + [Flag(option)];
        seen := seen + {option};
        assert argv[index..][1..] == argv[index + 1..];
        index := index + 1;
        continue;
      }
      if index + 1 >= |argv| { return Err(ValueMissing(option)); }
      var value := argv[index + 1];
      if !ValidValue(value) { return Err(ValueInvalid(option)); }
      NamesAppend(done, Setting(option, value));
      done := done + [Setting(option, value)];
      seen := seen + {option};
      assert argv[index..][2..] == argv[index + 2..];
      index := index + 2;
    }
    r := Ok(argv);
  }

  /** The reviewed tables cover every provider, their flags are options, and only the
      consensus provider has one. */
  lemma ReviewedTables()
    ensures REVIEWED.Covers() && REVIEWED.options.Keys == REVIEWED.providers
    ensures forall p :: p in REVIEWED.providers ==> REVIEWED.FlagsOf(p) <= REVIEWED.options[p]
    ensures forall p :: p in REVIEWED.providers ==> (REVIEWED.FlagsOf(p) != {} <==> p == "consensus")
  {
    assert "--no-abci" in REVIEWED.FlagsOf("consensus");
  }

  lemma ReviewedFlag(provider: string, name: string)
    requires provider in REVIEWED.providers
    ensures name in REVIEWED.FlagsOf(provider) <==> provider == "consensus" && name == "--no-abci"
  {
  }

  /** A command of the reviewed tables, spelled out: different options of its provider, each
      with a value of 1 to 512 characters without NUL, CR and LF, except that the consensus
      provider's --no-abci stands alone. */
  lemma ReviewedCommand(c: Command)
    ensures REVIEWED.Covers()
    ensures WellFormed(REVIEWED, c) <==>
              && c.provider in REVIEWED.providers && c.action in REVIEWED.actions
              && (forall i :: 0 <= i < |c.args| ==>
                    && c.args[i].name in REVIEWED.options[c.provider]
                    && (c.args[i].Flag? <==> c.provider == "consensus" && c.args[i].name == "--no-abci")
                    && (c.args[i].Setting? ==>
                          && 1 <= |c.args[i].value| <= 512
                          && forall x :: x in c.args[i].value ==> x != '\0' && x != '\r' && x != '\n'))
              && forall i, j :: 0 <= i < j < |c.args| ==> c.args[i].name != c.args[j].name
  {
    ReviewedTables();
    if c.provider in REVIEWED.providers {
      forall i | 0 <= i < |c.args|
        ensures c.args[i].name in REVIEWED.FlagsOf(c.provider) <==> c.provider == "consensus" && c.args[i].name == "--no-abci"
      {
        ReviewedFlag(c.provider, c.args[i].name);
      }
    }
  }

  /** The language of the reviewed tables: an argv passes exactly if it prints a command
      of one of the six providers and five actions, in which every option but the
      consensus provider's --no-abci carries a value. */
  lemma ReviewedLanguage(dispatcher: string, argv: seq<string>)
    ensures REVIEWED.Covers()
    ensures Parse(REVIEWED, dispatcher, argv).Ok?
            <==> exists c :: WellFormed(REVIEWED, c) && Print(dispatcher, c) == argv
    ensures forall c, i :: WellFormed(REVIEWED, c) && 0 <= i < |c.args| ==>
              (c.args[i].Flag? <==> c.provider == "consensus" && c.args[i].name == "--no-abci")
  {
    ReviewedTables();
    AcceptedLanguage(REVIEWED, dispatcher, argv);
    forall c, i | WellFormed(REVIEWED, c) && 0 <= i < |c.args|
      ensures c.args[i].Flag? <==> c.provider == "consensus" && c.args[i].name == "--no-abci"
    {
      ReviewedCommand(c);
    }
  }
}
