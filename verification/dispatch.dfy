/** The dispatcher itself: `cliHandler.init` (partitioning the arguments and
    applying options), `cliHandler.handle` (command lookup, arity check,
    argument coercion and the call) and `Handle`, which runs both. */
module Dispatch {
  import opened Results
  import opened Text
  import opened Values
  import opened Coerce
  import opened Options

  /** The struct passed to `Handle`: its fields, and its exported methods by
      exact Go name with their parameter kinds (receiver excluded). */
  datatype Command = Command(fields: Fields, methods: map<string, seq<Kind>>)

  /** How one run ends. `Exit` prints the error message, if any, and the
      usage of `program`, then exits with `code`. `Invoke` calls the method `command`
      once with `args` on the struct whose fields are `fields`. */
  datatype Outcome =
    | Exit(program: string, code: int, error: Option<Failure>)
    | Invoke(command: string, args: seq<Value>, fields: Fields)

  const OptionPrefix: string := "--"

  /** An argument is an option when it starts with `--`, wherever it stands. */
  predicate IsOption(arg: string) {
    HasPrefix(arg, OptionPrefix)
  }

  /** The positional arguments: those that are not options, in order. */
  function Positionals(args: seq<string>): seq<string>
    decreases |args|
  {
    if args == [] then []
    else if IsOption(args[0]) then Positionals(args[1..])
    else [args[0]] + Positionals(args[1..])
  }

  /** The option arguments, in order, each without its `--`. */
  function OptionBodies(args: seq<string>): seq<string>
    decreases |args|
  {
    if args == [] then []
    else if IsOption(args[0]) then [args[0][|OptionPrefix|..]] + OptionBodies(args[1..])
    else OptionBodies(args[1..])
  }

  /** Both filters distribute over concatenation. */
  lemma {:induction false} FiltersAppend(a: seq<string>, b: seq<string>)
    ensures Positionals(a + b) == Positionals(a) + Positionals(b)
    ensures OptionBodies(a + b) == OptionBodies(a) + OptionBodies(b)
    decreases |a|
  {
    if a != [] {
      assert (a + b)[0] == a[0];
      assert (a + b)[1..] == a[1..] + b;
      FiltersAppend(a[1..], b);
    } else {
      assert a + b == b;
    }
  }

  /** An argument not starting with `-` is positional. */
  lemma NotOption(arg: string)
    requires arg == [] || arg[0] != '-'
    ensures !IsOption(arg)
  {
  }

  /** Without options every argument is positional. */
  lemma {:induction false} NoOptions(args: seq<string>)
    requires forall i :: 0 <= i < |args| ==> !IsOption(args[i])
    ensures Positionals(args) == args && OptionBodies(args) == []
    decreases |args|
  {
    if args != [] {
      NoOptions(args[1..]);
    }
  }

  /** The state of the argument loop of `init`. */
  datatype Scanned = Scanned(fields: Fields, positionals: seq<string>)

  /** The argument loop of `init`, one argument at a time: an option is
      applied to the fields at once (and a failing one ends the run), any
      other argument is appended to the positionals collected in `acc`. */
  function Scan(fields: Fields, acc: seq<string>, args: seq<string>): (r: Result<Scanned, Failure>)
    ensures r.Ok? ==> r.value.fields.Keys == fields.Keys
    ensures r.Ok? ==> forall k :: k in fields ==> r.value.fields[k].kind == fields[k].kind
    ensures WellTyped(fields) && r.Ok? ==> WellTyped(r.value.fields)
    ensures r.Ok? ==> acc <= r.value.positionals && |r.value.positionals| <= |acc| + |args|
    decreases |args|
  {
    if args == [] then Ok(Scanned(fields, acc))
    else if IsOption(args[0]) then
      match ApplyOption(fields, args[0][|OptionPrefix|..])
      case Err(e) => Err(e)
      case Ok(f) => Scan(f, acc, args[1..])
    else
      Scan(fields, acc + [args[0]], args[1..])
  }

  /** The loop partitions the arguments: it ends as if every option had been
      applied left to right first, with the positionals left in order. */
  lemma {:induction false} ScanPartitions(fields: Fields, acc: seq<string>, args: seq<string>)
    ensures Scan(fields, acc, args) ==
      match ApplyAll(fields, OptionBodies(args))
      case Err(e) => Err(e)
      case Ok(f) => Ok(Scanned(f, acc + Positionals(args)))
    decreases |args|
  {
    if args == [] {
      assert acc + [] == acc;
    } else if IsOption(args[0]) {
      var body := args[0][|OptionPrefix|..];
      var bodies := OptionBodies(args[1..]);
      assert OptionBodies(args) == [body] + bodies;
      assert ([body] + bodies)[1..] == bodies;
      match ApplyOption(fields, body)
      case Err(e) =>
      case Ok(f) =>
        assert ApplyAll(fields, OptionBodies(args)) == ApplyAll(f, bodies);
        assert Positionals(args) == Positionals(args[1..]);
        ScanPartitions(f, acc, args[1..]);
    } else {
      assert OptionBodies(args) == OptionBodies(args[1..]);
      assert Positionals(args) == [args[0]] + Positionals(args[1..]);
      ScanPartitions(fields, acc + [args[0]], args[1..]);
      assert acc + [args[0]] + Positionals(args[1..]) == acc + Positionals(args);
    }
  }

  /** `i` is the first argument that does not coerce, and it fails with `e`. */
  predicate FirstFailure(tokens: seq<string>, kinds: seq<Kind>, i: nat, e: Failure)
    requires |tokens| == |kinds| && i < |tokens|
  {
    && ParseAs(tokens[i], kinds[i]) == Err(e)
    && forall j :: 0 <= j < i ==> ParseAs(tokens[j], kinds[j]).Ok?
  }

  /** A first failure among the later arguments is a first failure of all of
      them when the first argument coerces. */
  lemma FirstFailureLater(tokens: seq<string>, kinds: seq<Kind>, e: Failure)
    requires |tokens| == |kinds| && |tokens| > 0
    requires ParseAs(tokens[0], kinds[0]).Ok?
    requires exists i :: 0 <= i < |tokens| - 1 && FirstFailure(tokens[1..], kinds[1..], i, e)
    ensures exists i :: 0 <= i < |tokens| && FirstFailure(tokens, kinds, i, e)
  {
    var i :| 0 <= i < |tokens| - 1 && FirstFailure(tokens[1..], kinds[1..], i, e);
    assert FirstFailure(tokens, kinds, i + 1, e) by {
      forall j | 0 <= j < i + 1
        ensures ParseAs(tokens[j], kinds[j]).Ok?
      {
        if j > 0 {
          assert tokens[j] == tokens[1..][j - 1] && kinds[j] == kinds[1..][j - 1];
        }
      }
    }
  }

  /** The arguments of a call, coerced in order to the parameter kinds; the
      first token that does not coerce ends the run. */
  function CoerceAll(tokens: seq<string>, kinds: seq<Kind>): (r: Result<seq<Value>, Failure>)
    requires |tokens| == |kinds|
    ensures r.Ok? <==> forall i :: 0 <= i < |tokens| ==> ParseAs(tokens[i], kinds[i]).Ok?
    ensures r.Ok? ==> |r.value| == |kinds|
    ensures r.Ok? ==> forall i :: 0 <= i < |kinds| ==> ParseAs(tokens[i], kinds[i]) == Ok(r.value[i])
    ensures r.Err? ==> exists i :: 0 <= i < |tokens| && FirstFailure(tokens, kinds, i, r.error)
    decreases |tokens|
  {
    if tokens == [] then Ok([])
    else
      match ParseAs(tokens[0], kinds[0])
      case Err(e) => assert FirstFailure(tokens, kinds, 0, e); Err(e)
      case Ok(v) =>
        match CoerceAll(tokens[1..], kinds[1..])
        case Err(e) => FirstFailureLater(tokens, kinds, e); Err(e)
        case Ok(vs) => Ok([v] + vs)
  }

  /** `handle`: the first positional names the method, exactly and
      case-sensitively; the rest must match its parameters in number and
      coerce to their kinds, and only then is the method invoked, once. */
  function Resolve(program: string, methods: map<string, seq<Kind>>, fields: Fields,
                   positionals: seq<string>): (o: Outcome)
    requires |positionals| > 0
    ensures o.Invoke? ==> o.command == positionals[0] && o.command in methods && o.fields == fields
    ensures o.Invoke? ==> |o.args| == |methods[o.command]| == |positionals| - 1
    ensures o.Invoke? ==> forall i :: 0 <= i < |o.args| ==> HasKind(o.args[i], methods[o.command][i])
    ensures o.Exit? ==> o.program == program && o.code == -1 && o.error.Some?
    ensures positionals[0] !in methods <==> o == Exit(program, -1, Some(InvalidCommand(positionals[0])))
    ensures o.Exit? && o.error.Some? && o.error.value.WrongArity? <==>
      positionals[0] in methods && |positionals| - 1 != |methods[positionals[0]]|
    ensures o.Exit? && o.error.Some? && o.error.value.WrongArity? ==>
      o.error.value == WrongArity(positionals[0], |methods[positionals[0]]|)
    ensures positionals[0] in methods && |positionals| - 1 == |methods[positionals[0]]| ==>
      var c := CoerceAll(positionals[1..], methods[positionals[0]]);
      && (c.Ok? ==> o == Invoke(positionals[0], c.value, fields))
      && (c.Err? ==> o == Exit(program, -1, Some(c.error)))
  {
    var name := positionals[0];
    var rest := positionals[1..];
    if name !in methods then Exit(program, -1, Some(InvalidCommand(name)))
    else
      var kinds := methods[name];
      if |rest| != |kinds| then Exit(program, -1, Some(WrongArity(name, |kinds|)))
      else
        match CoerceAll(rest, kinds)
        case Err(e) => Exit(program, -1, Some(e))
        case Ok(args) => Invoke(name, args, fields)
  }

  /** A known command with the right number of arguments fails with the
      error of its first argument that does not coerce, in argument order. */
  lemma BadArgument(program: string, methods: map<string, seq<Kind>>, fields: Fields,
                    positionals: seq<string>, i: nat)
    requires |positionals| > 0 && positionals[0] in methods
    requires |positionals| - 1 == |methods[positionals[0]]|
    requires i < |positionals| - 1
    requires ParseAs(positionals[1 + i], methods[positionals[0]][i]).Err?
    requires forall j :: 0 <= j < i ==> ParseAs(positionals[1 + j], methods[positionals[0]][j]).Ok?
    ensures Resolve(program, methods, fields, positionals) ==
      Exit(program, -1, Some(ParseAs(positionals[1 + i], methods[positionals[0]][i]).error))
  {
  }

  /** `Handle(&cmd)` run with `os.Args == argv`: `init` then `handle`. With
      no positional argument left it prints help and exits with 0. */
  function Handle(cmd: Command, argv: seq<string>): (o: Outcome)
    requires |argv| >= 1
    ensures o.Exit? ==> o.program == argv[0] && (o.code == 0 || o.code == -1)
    ensures o.Exit? ==> (o.code == 0 <==> o.error.None?)
    ensures o.Invoke? ==> o.command in cmd.methods && |o.args| == |cmd.methods[o.command]|
    ensures o.Invoke? ==> forall i :: 0 <= i < |o.args| ==> HasKind(o.args[i], cmd.methods[o.command][i])
    ensures o.Invoke? ==> o.fields.Keys == cmd.fields.Keys
    ensures o.Invoke? ==> forall k :: k in cmd.fields ==> o.fields[k].kind == cmd.fields[k].kind
    ensures WellTyped(cmd.fields) && o.Invoke? ==> WellTyped(o.fields)
  {
    match Scan(cmd.fields, [], argv[1..])
    case Err(e) => Exit(argv[0], -1, Some(e))
    case Ok(s) =>
      if |s.positionals| == 0 then Exit(argv[0], 0, None)
      else Resolve(argv[0], cmd.methods, s.fields, s.positionals)
  }

  /** `Handle` in terms of the partition: apply all options, then dispatch
      on the positionals. */
  lemma HandleByPartition(cmd: Command, argv: seq<string>)
    requires |argv| >= 1
    ensures Handle(cmd, argv) ==
      match ApplyAll(cmd.fields, OptionBodies(argv[1..]))
      case Err(e) => Exit(argv[0], -1, Some(e))
      case Ok(f) =>
        if Positionals(argv[1..]) == [] then Exit(argv[0], 0, None)
        else Resolve(argv[0], cmd.methods, f, Positionals(argv[1..]))
  {
    ScanPartitions(cmd.fields, [], argv[1..]);
    assert [] + Positionals(argv[1..]) == Positionals(argv[1..]);
  }

  /** Help with exit code 0 happens exactly when all options apply and no
      positional argument is left; no method is invoked then. */
  lemma EmptyInvocation(cmd: Command, argv: seq<string>)
    requires |argv| >= 1
    ensures Handle(cmd, argv) == Exit(argv[0], 0, None) <==>
      ApplyAll(cmd.fields, OptionBodies(argv[1..])).Ok? && Positionals(argv[1..]) == []
  {
    HandleByPartition(cmd, argv);
  }

  /** A method is invoked exactly when the options all apply, the first
      positional is one of the method names, the remaining positionals are as
      many as its parameters and all coerce; it then receives the coerced
      positionals and the fields after all options. */
  lemma Invocation(cmd: Command, argv: seq<string>, m: string, args: seq<Value>, f: Fields)
    requires |argv| >= 1
    ensures Handle(cmd, argv) == Invoke(m, args, f) <==>
      var pos := Positionals(argv[1..]);
      && ApplyAll(cmd.fields, OptionBodies(argv[1..])) == Ok(f)
      && pos != [] && pos[0] == m && m in cmd.methods
      && |pos| - 1 == |cmd.methods[m]|
      && CoerceAll(pos[1..], cmd.methods[m]) == Ok(args)
  {
    HandleByPartition(cmd, argv);
  }

  /** The invoked method sees every field that no option names with its
      initial value. */
  lemma UntouchedFields(cmd: Command, argv: seq<string>, k: string)
    requires |argv| >= 1
    requires Handle(cmd, argv).Invoke?
    requires k in cmd.fields && k !in Targets(OptionBodies(argv[1..]))
    ensures Handle(cmd, argv).fields[k] == cmd.fields[k]
  {
    HandleByPartition(cmd, argv);
  }

  /** Options are recognised anywhere: swapping an option with a neighbouring
      positional argument changes nothing. */
  lemma OptionsAnywhere(cmd: Command, program: string, a: seq<string>, opt: string, arg: string,
                        b: seq<string>)
    requires IsOption(opt) && !IsOption(arg)
    ensures Handle(cmd, [program] + a + [opt, arg] + b) == Handle(cmd, [program] + a + [arg, opt] + b)
  {
    var args1 := a + [opt, arg] + b;
    var args2 := a + [arg, opt] + b;
    assert ([program] + a + [opt, arg] + b)[1..] == args1;
    assert ([program] + a + [arg, opt] + b)[1..] == args2;
    FiltersAppend(a + [opt, arg], b);
    FiltersAppend(a + [arg, opt], b);
    FiltersAppend(a, [opt, arg]);
    FiltersAppend(a, [arg, opt]);
    assert [opt, arg][1..] == [arg];
    assert [arg, opt][1..] == [opt];
    assert [arg][1..] == [] && [opt][1..] == [];
    assert Positionals([opt]) == [] && Positionals([arg]) == [arg];
    assert OptionBodies([opt]) == [opt[2..]] && OptionBodies([arg]) == [];
    assert Positionals([opt, arg]) == Positionals([arg, opt]) == [arg];
    assert OptionBodies([opt, arg]) == OptionBodies([arg, opt]);
    HandleByPartition(cmd, [program] + args1);
    HandleByPartition(cmd, [program] + args2);
  }

  /** Applying option lists one after the other. */
  lemma {:induction false} ApplyAllAppend(fields: Fields, xs: seq<string>, ys: seq<string>)
    ensures ApplyAll(fields, xs + ys) ==
      match ApplyAll(fields, xs)
      case Err(e) => Err(e)
      case Ok(f) => ApplyAll(f, ys)
    decreases |xs|
  {
    if xs == [] {
      assert [] + ys == ys;
    } else {
      assert (xs + ys)[1..] == xs[1..] + ys;
      match ApplyOption(fields, xs[0])
      case Err(e) =>
      case Ok(f) => ApplyAllAppend(f, xs[1..], ys);
    }
  }

  /** The first option that fails ends the run with exit code -1 and its
      error, whatever follows it. */
  lemma FailingOption(cmd: Command, program: string, a: seq<string>, opt: string, b: seq<string>)
    requires IsOption(opt)
    requires ApplyAll(cmd.fields, OptionBodies(a)).Ok?
    requires ApplyOption(ApplyAll(cmd.fields, OptionBodies(a)).value, opt[2..]).Err?
    ensures Handle(cmd, [program] + a + [opt] + b) ==
      Exit(program, -1, Some(ApplyOption(ApplyAll(cmd.fields, OptionBodies(a)).value, opt[2..]).error))
  {
    var argv := [program] + a + [opt] + b;
    assert argv[1..] == a + [opt] + b;
    BodiesAround(a, opt, b);
    ApplyAllStops(cmd.fields, OptionBodies(a), opt[2..], OptionBodies(b));
    HandleByPartition(cmd, argv);
  }

  /** The option bodies around one option argument. */
  lemma BodiesAround(a: seq<string>, opt: string, b: seq<string>)
    requires IsOption(opt)
    ensures OptionBodies(a + [opt] + b) == OptionBodies(a) + [opt[2..]] + OptionBodies(b)
  {
    FiltersAppend(a + [opt], b);
    FiltersAppend(a, [opt]);
    assert [opt][1..] == [];
    assert |OptionPrefix| == 2;
    assert OptionBodies([opt]) == [opt[2..]];
  }

  /** Applying options stops at the first that fails. */
  lemma ApplyAllStops(fields: Fields, xs: seq<string>, body: string, ys: seq<string>)
    requires ApplyAll(fields, xs).Ok?
    requires ApplyOption(ApplyAll(fields, xs).value, body).Err?
    ensures ApplyAll(fields, xs + [body] + ys) == Err(ApplyOption(ApplyAll(fields, xs).value, body).error)
  {
    assert xs + [body] + ys == xs + ([body] + ys);
    assert ([body] + ys)[0] == body;
    ApplyAllAppend(fields, xs, [body] + ys);
  }

  /** An option whose title-cased name is no field is refused, whatever its
      value and whatever follows it. */
  lemma UnknownOption(cmd: Command, program: string, a: seq<string>, opt: string, b: seq<string>)
    requires IsOption(opt)
    requires ApplyAll(cmd.fields, OptionBodies(a)).Ok?
    requires FieldName(opt[2..]) !in cmd.fields
    ensures Handle(cmd, [program] + a + [opt] + b) ==
      Exit(program, -1, Some(UnrecognizedOption(OptionName(opt[2..]))))
  {
    FailingOption(cmd, program, a, opt, b);
  }

  /** A bare `--` names the empty option, which no Go field has. */
  lemma BareDoubleDash(cmd: Command, program: string, rest: seq<string>)
    requires "" !in cmd.fields
    ensures Handle(cmd, [program, "--"] + rest) == Exit(program, -1, Some(UnrecognizedOption("")))
  {
  }
}
