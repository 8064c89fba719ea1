/** The two example programs as fixtures for the dispatcher: the calculator
    (`Calc{Base int; Verbose bool}` with `Add` and `Multiply`) and the toy app
    (`App{Database *Database; Port int}` with `Start`, `Reload` and `Kill`). */
module Scenarios {
  import opened Results
  import opened Text
  import opened Values
  import opened Options
  import opened Dispatch

  /** `&Calc{Base: 10, Verbose: false}`. */
  function Calc(): Command {
    Command(
      map["Base" := Field(IntKind, IntValue(10)), "Verbose" := Field(BoolKind, BoolValue(false))],
      map["Add" := [IntKind, IntKind], "Multiply" := [IntKind, IntKind]])
  }

  /** `&App{Database: &Database{}, Port: 8080}`; the pointer field has an
      unsupported kind. */
  function App(): Command {
    Command(
      map["Database" := Field(OtherKind("ptr"), OpaqueValue), "Port" := Field(IntKind, IntValue(8080))],
      map["Start" := [], "Reload" := [], "Kill" := []])
  }

  lemma CalcAdd(calculator: Command)
    requires calculator == Calc()
    ensures Handle(calculator, ["calc", "Add", "1", "2"]) ==
      Invoke("Add", [IntValue(1), IntValue(2)], calculator.fields)
  {
    var args := ["Add", "1", "2"];
    assert ["calc", "Add", "1", "2"][1..] == args;
    NotOption("Add");
    NotOption("1");
    NotOption("2");
    NoOptions(args);
    var vals := [IntValue(1), IntValue(2)];
    assert CoerceAll(args[1..], [IntKind, IntKind]) == Ok(vals) by {
      Number(1);
      Number(2);
      assert Strconv.DigitChar(1) == '1' && Strconv.DigitChar(2) == '2';
      assert args[1..] == ["1", "2"];
      assert Coerce.ParseAs("1", IntKind) == Ok(IntValue(1));
      assert Coerce.ParseAs("2", IntKind) == Ok(IntValue(2));
      var r := CoerceAll(["1", "2"], [IntKind, IntKind]);
      assert r.Ok?;
      assert r.value == vals;
    }
    Invocation(calculator, ["calc", "Add", "1", "2"], "Add", vals, calculator.fields);
  }

  /** Help with exit code 0 when no argument is given. */
  lemma CalcNoArguments(calculator: Command)
    requires calculator == Calc()
    ensures Handle(calculator, ["calc"]) == Exit("calc", 0, None)
  {
  }

  /** Help with exit code 0 when nothing but options is given; the flag is
      still applied first. */
  lemma CalcOnlyOptions(calculator: Command)
    requires calculator == Calc()
    ensures Handle(calculator, ["calc", "--verbose"]) == Exit("calc", 0, None)
  {
    OneOption(calculator, ["calc", "--verbose"]);
    VerboseFlag(calculator);
  }

  /** Method lookup is case-sensitive: `add` is not a command of `Calc`. */
  lemma CalcLowerCaseCommand(calculator: Command)
    requires calculator == Calc()
    ensures Handle(calculator, ["calc", "--base=16", "add", "a", "f"]) ==
      Exit("calc", -1, Some(InvalidCommand("add")))
  {
    var argv := ["calc", "--base=16", "add", "a", "f"];
    OneOption(calculator, argv);
    BaseSixteen(calculator);
    CalcCommandNamed(calculator, argv[2..], "add");
  }

  /** Positional arguments are parsed base 10 whatever `--base` says. */
  lemma CalcHexArgument(calculator: Command)
    requires calculator == Calc()
    ensures Handle(calculator, ["calc", "--base=16", "Add", "a", "f"]) ==
      Exit("calc", -1, Some(InvalidNumber("a")))
  {
    var argv := ["calc", "--base=16", "Add", "a", "f"];
    OneOption(calculator, argv);
    BaseSixteen(calculator);
    CalcAddLetter(calculator, argv[2..]);
  }

  /** A positional run starting with a name other than `Add` and
      `Multiply` is refused by the calculator, whatever the fields. */
  lemma CalcCommandNamed(calculator: Command, pos: seq<string>, name: string)
    requires calculator == Calc()
    requires |pos| > 0 && pos[0] == name && name != "Add" && name != "Multiply"
    ensures forall f :: Resolve("calc", calculator.methods, f, pos) == Exit("calc", -1, Some(InvalidCommand(name)))
  {
  }

  /** `Add a f`: the first argument is not a base-10 number. */
  lemma CalcAddLetter(calculator: Command, pos: seq<string>)
    requires calculator == Calc()
    requires |pos| == 3 && pos[0] == "Add" && pos[1] == "a"
    ensures forall f :: Resolve("calc", calculator.methods, f, pos) == Exit("calc", -1, Some(InvalidNumber("a")))
  {
  }

  /** `Add` takes two arguments; one is refused before any call. */
  lemma CalcArity(calculator: Command)
    requires calculator == Calc()
    ensures Handle(calculator, ["calc", "Add", "1"]) == Exit("calc", -1, Some(WrongArity("Add", 2)))
  {
    var args := ["Add", "1"];
    assert ["calc", "Add", "1"][1..] == args;
    NotOption("Add");
    NotOption("1");
    NoOptions(args);
    HandleByPartition(calculator, ["calc", "Add", "1"]);
  }

  /** An option after the command still sets its field before the call. */
  lemma AppPortStart(app: Command)
    requires app == App()
    ensures Handle(app, ["app", "--port=9090", "Start"]) ==
      Invoke("Start", [], app.fields["Port" := Field(IntKind, IntValue(9090))])
  {
    OneOption(app, ["app", "--port=9090", "Start"]);
    PortValue(app);
    var f := app.fields["Port" := Field(IntKind, IntValue(9090))];
    assert ["Start"][1..] == [];
    assert CoerceAll([], []) == Ok([]);
    assert Resolve("app", app.methods, f, ["Start"]) == Invoke("Start", [], f);
  }

  /** There are no nested command groups: the `Database` field is not a
      command. */
  lemma AppNoNestedGroups(app: Command)
    requires app == App()
    ensures Handle(app, ["app", "database", "create"]) ==
      Exit("app", -1, Some(InvalidCommand("database")))
  {
    var args := ["database", "create"];
    assert ["app", "database", "create"][1..] == args;
    NotOption("database");
    NotOption("create");
    NoOptions(args);
    HandleByPartition(app, ["app", "database", "create"]);
  }

  /** A pointer field cannot be set from the command line. */
  lemma AppPointerOption(app: Command)
    requires app == App()
    ensures Handle(app, ["app", "--database=x", "Start"]) ==
      Exit("app", -1, Some(UnsupportedKind(OtherKind("ptr"))))
  {
    OneOption(app, ["app", "--database=x", "Start"]);
    DatabaseOption(app);
  }

  /** `--database=x` addresses a field of unsupported kind. */
  lemma DatabaseOption(app: Command)
    requires app == App()
    ensures ApplyOption(app.fields, "--database=x"[2..]) == Err(UnsupportedKind(OtherKind("ptr")))
  {
    assert "--database=x"[2..] == "database" + "=" + "x";
    TitleOfDatabase();
    ValueOption(app.fields, "database", "x");
  }

  /** Handling a run whose first argument is an option and whose other
      arguments are positional. */
  lemma OneOption(cmd: Command, argv: seq<string>)
    requires |argv| >= 2 && |argv[1]| >= 2 && argv[1][..2] == "--"
    requires forall i :: 2 <= i < |argv| ==> argv[i] == [] || argv[i][0] != '-'
    ensures Handle(cmd, argv) ==
      match ApplyOption(cmd.fields, argv[1][2..])
      case Err(e) => Exit(argv[0], -1, Some(e))
      case Ok(f) => if |argv| == 2 then Exit(argv[0], 0, None) else Resolve(argv[0], cmd.methods, f, argv[2..])
  {
    var args := argv[1..];
    var rest := argv[2..];
    forall i | 0 <= i < |rest| {
      NotOption(rest[i]);
    }
    NoOptions(rest);
    assert IsOption(argv[1]);
    assert args[1..] == rest;
    assert Positionals(args) == rest;
    assert OptionBodies(args) == [argv[1][2..]];
    assert [argv[1][2..]][1..] == [];
    HandleByPartition(cmd, argv);
  }


  /** `--verbose` sets `Verbose` to true. */
  lemma VerboseFlag(calculator: Command)
    requires calculator == Calc()
    ensures ApplyOption(calculator.fields, "--verbose"[2..]) ==
      Ok(calculator.fields["Verbose" := Field(BoolKind, BoolValue(true))])
  {
    assert "--verbose"[2..] == "verbose";
    TitleOfVerbose();
    BoolFlag(calculator.fields, "verbose");
  }

  /** `--base=16` sets `Base` to 16. */
  lemma BaseSixteen(calculator: Command)
    requires calculator == Calc()
    ensures ApplyOption(calculator.fields, "--base=16"[2..]) ==
      Ok(calculator.fields["Base" := Field(IntKind, IntValue(16))])
  {
    assert "--base=16"[2..] == "base" + "=" + "16";
    TitleOfBase();
    assert Strconv.FormatInt(16) == "16";
    Strconv.ParseFormatInt(16);
    ValueOption(calculator.fields, "base", "16");
  }

  /** `--port=9090` sets `Port` to 9090. */
  lemma PortValue(app: Command)
    requires app == App()
    ensures ApplyOption(app.fields, "--port=9090"[2..]) ==
      Ok(app.fields["Port" := Field(IntKind, IntValue(9090))])
  {
    assert "--port=9090"[2..] == "port" + "=" + "9090";
    TitleOfPort();
    assert Strconv.FormatInt(9090) == "9090";
    Strconv.ParseFormatInt(9090);
    ValueOption(app.fields, "port", "9090");
  }

  lemma TitleOfBase()
    ensures Title("base") == "Base"
  {
  }

  lemma TitleOfPort()
    ensures Title("port") == "Port"
  {
  }

  lemma TitleOfVerbose()
    ensures Title("verbose") == "Verbose"
  {
  }

  lemma TitleOfDatabase()
    ensures Title("database") == "Database"
  {
  }

  /** A small number written in decimal parses to itself. */
  lemma Number(n: nat)
    requires n < 10
    ensures Strconv.ParseInt32([Strconv.DigitChar(n)]) == Some(n)
    ensures [Strconv.DigitChar(n)] == Strconv.FormatInt(n)
  {
    Strconv.ParseFormatInt(n);
  }

  /** The messages printed before the usage in the failing runs above,
      written as the format string's text around the inserted argument. */
  lemma PrintedMessages()
    ensures Message(InvalidCommand("add")) == " " + "add" + " is not a valid command."
    ensures Message(InvalidNumber("a")) == "a" + " is not a valid number."
    ensures Message(WrongArity("Add", 2)) == "Add" + " requires " + "2" + " argument(s)."
    ensures Message(InvalidCommand("database")) == " " + "database" + " is not a valid command."
    ensures Message(UnsupportedKind(OtherKind("ptr"))) == "Argument type " + "ptr" + " is not supported yet."
    ensures Message(UnrecognizedOption("")) == "The option " + "--" + " is not a recongized option"
  {
  }
}
