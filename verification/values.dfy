/** Kinds and values of struct fields and method parameters, and the
    failures the dispatcher reports. In the Go code these are
    `reflect.Kind`, `reflect.Value` and the messages passed to `helpAndExit`. */
module Values {
  import Strconv

  /** The `reflect.Kind` of a field or parameter. Only string, int and bool
      can be coerced; every other kind (pointers, slices, int64, ...) is kept
      with its Go name, which the error message prints. */
  datatype Kind = StringKind | IntKind | BoolKind | OtherKind(name: string)

  /** A field or argument value. A field of an unsupported kind keeps an
      opaque initial value that no option can replace. */
  datatype Value = StringValue(s: string) | IntValue(i: int) | BoolValue(b: bool) | OpaqueValue

  predicate HasKind(v: Value, k: Kind) {
    match k
    case StringKind => v.StringValue?
    case IntKind => v.IntValue?
    case BoolKind => v.BoolValue?
    case OtherKind(_) => v.OpaqueValue?
  }

  /** `reflect.Kind.String()`. */
  function KindName(k: Kind): string {
    match k
    case StringKind => "string"
    case IntKind => "int"
    case BoolKind => "bool"
    case OtherKind(name) => name
  }

  /** Each call of `helpAndExit(-1, message)`, by the message it prints. */
  datatype Failure =
    | UnrecognizedOption(option: string)
    | MissingValue(option: string)
    | InvalidCommand(command: string)
    | WrongArity(command: string, expected: nat)
    | InvalidNumber(token: string)
    | InvalidBool(token: string)
    | UnsupportedKind(kind: Kind)

  /** `part` occurs in `text`. */
  predicate Mentions(text: string, part: string) {
    exists i, j :: 0 <= i <= j <= |text| && text[i..j] == part
  }

  /** What a failure is about: the option as typed, the command, the
      offending token or the kind's name. */
  function Subject(f: Failure): string {
    match f
    case UnrecognizedOption(opt) => "--" + opt
    case MissingValue(opt) => "--" + opt
    case InvalidCommand(cmd) => cmd
    case WrongArity(cmd, _) => cmd
    case InvalidNumber(token) => token
    case InvalidBool(token) => token
    case UnsupportedKind(k) => KindName(k)
  }

  /** The text printed after `Error: ` for a failure, spelling as in the code
      (including "recongized" and the leading space before a command). Every
      message names what it is about, and an arity message also names the
      expected count. */
  function Message(f: Failure): (m: string)
    ensures Mentions(m, Subject(f)) && |m| > |Subject(f)|
    ensures f.WrongArity? ==> Mentions(m, Strconv.FormatInt(f.expected))
  {
    match f
    case UnrecognizedOption(opt) =>
      var m := "The option " + ("--" + opt) + " is not a recongized option";
      assert m[11..11 + |"--" + opt|] == "--" + opt;
      m
    case MissingValue(opt) =>
      var m := "No value passed for option " + ("--" + opt);
      assert m[27..|m|] == "--" + opt;
      m
    case InvalidCommand(cmd) =>
      var m := " " + cmd + " is not a valid command.";
      assert m[1..1 + |cmd|] == cmd;
      m
    case WrongArity(cmd, n) =>
      var count := Strconv.FormatInt(n);
      var m := cmd + " requires " + count + " argument(s).";
      assert m[0..|cmd|] == cmd;
      assert m[|cmd| + 10..|cmd| + 10 + |count|] == count;
      m
    case InvalidNumber(token) =>
      var m := token + " is not a valid number.";
      assert m[0..|token|] == token;
      m
    case InvalidBool(token) =>
      var m := token + " is not a valid bool.";
      assert m[0..|token|] == token;
      m
    case UnsupportedKind(k) =>
      var m := "Argument type " + KindName(k) + " is not supported yet.";
      assert m[14..14 + |KindName(k)|] == KindName(k);
      m
  }
}
