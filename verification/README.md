# simplecli dispatcher, modelled in Dafny

`simplecli.Handle(&s)` turns the process arguments into one call of a method
of the struct `s`. Exported fields of `s` are options (`--base=16` sets the
field `Base`, `--verbose` sets the bool field `Verbose`). The first remaining
argument names the method, and the rest are its arguments, coerced to the
parameter kinds. Every failure prints an error and the usage, then exits
with code -1. A run with no command prints the usage and exits with code 0.

This project models that dispatcher as pure functions. The struct is a
`Command`: a map from field name to `Field(kind, value)` and a map from
method name to parameter kinds. `Dispatch.Handle(cmd, argv)` returns either
`Exit(program, code, error)` or `Invoke(command, args, fields)`.

| file | module | models |
|---|---|---|
| `results.dfy` | `Results` | `Option` and `Result` wrappers |
| `text.dfy` | `Text` | `strings.HasPrefix`, `strings.Split(s, "=")`, `strings.Title` |
| `strconv.dfy` | `Strconv` | `strconv.ParseInt(s, 10, 32)`, `strconv.ParseBool`, and their inverses `Itoa` and `FormatBool` |
| `values.dfy` | `Values` | kinds, values, the failures and their messages |
| `coerce.dfy` | `Coerce` | `cliHandler.parseAs` |
| `options.dfy` | `Options` | the option branch of `cliHandler.init` |
| `dispatch.dfy` | `Dispatch` | `cliHandler.init`, `cliHandler.handle`, `Handle` |
| `scenarios.dfy` | `Scenarios` | runs of the two example programs |

Behaviour of the code that is easy to misread:

- Method lookup is exact and case-sensitive. `calc --base=16 add a f` fails
  with " add is not a valid command." It does not reach number parsing; only
  `Add` is a command (`Scenarios.CalcLowerCaseCommand`).
- Options are recognised anywhere in the argument list, not only before the
  command (`Dispatch.OptionsAnywhere`).
- An option token is split on every `=`. A bool option with two or more `=`
  is set to true without parsing. Any other option with two or more `=` is
  refused as having no value, so a string option's value cannot contain `=`.
- A bool option with an empty value (`--verbose=`) is an error, because the
  value is handed to `ParseBool`.
- There are no nested command groups. A pointer field is an option of an
  unsupported kind, not a group (`Scenarios.AppNoNestedGroups`,
  `Scenarios.AppPointerOption`).

The error texts are kept as the code spells them, typo included, in
`Values.Message`; `Scenarios.PrintedMessages` gives the texts of the failing
example runs.

## Model

| member | source | states |
|---|---|---|
| `Text.Split` | simplecli.go:49 | There is always at least one piece, and no piece contains `=`. The first piece is the text before the first `=`. There is exactly one piece iff the token has no `=`. |
| `Text.JoinSplit` | simplecli.go:49 | Joining the pieces with `=` gives back the original token. |
| `Text.SplitJoin` | simplecli.go:49 | Splitting `=`-free pieces joined with `=` gives back the same pieces. |
| `Text.SplitAtFirst` | simplecli.go:49 | The text before the first `=` is the first piece, and the rest is split in turn. |
| `Text.Title` | simplecli.go:52 | Title-casing keeps the length of the option name. |
| `Text.TitleChars` | simplecli.go:52 | Title-casing upper-cases exactly the characters that begin a word and leaves every other character alone. |
| `Text.TitleIdempotent` | simplecli.go:52 | Title-casing an already title-cased name changes nothing. |
| `Strconv.ParseInt32` | simplecli.go:121-125 | A token is accepted iff it is an optional sign followed by one or more decimal digits whose signed value lies in [-2147483648, 2147483647], and the result is that value. Leading zeros, `+` and `-0` are therefore accepted. |
| `Strconv.ParseFormatInt` | simplecli.go:121-126 | Parsing the decimal text of `n` gives `n` exactly when `n` fits in 32 bits, and is an error otherwise. |
| `Strconv.ParseSignedLeadingZeros` | simplecli.go:121 | Any sign and any number of leading zeros are accepted: `-007` is -7, `+5` is 5, `00` and `-0` are 0, and the range decides by value alone. |
| `Strconv.ParseBool` | simplecli.go:129-133 | A token is accepted iff it is one of the twelve spellings `1 t T TRUE true True 0 f F FALSE false False`. It means true iff it is one of the first six. |
| `Strconv.ParseFormatBool` | simplecli.go:129 | `true` and `false` parse back to the bools they name. |
| `Coerce.ParseAs` | simplecli.go:115-139 | Strings pass unchanged. An int succeeds iff `ParseInt(token, 10, 32)` does, with its value; otherwise the error is "not a valid number" for that token. A bool is true for `1 t T TRUE true True`, false for `0 f F FALSE false False`, and otherwise "not a valid bool" for that token. Any other kind always fails with the unsupported-kind error. |
| `Coerce.ParseAsFormat` | simplecli.go:115-134 | Every string, every 32-bit int and every bool is the coercion of its canonical text. |
| `Values.Message` | simplecli.go:54-136 | Every error message names what failed: the option as typed (`--name`), the command, the offending token or the kind. An arity message also names the expected count. |
| `Options.ApplyOption` | simplecli.go:49-73 | Refused as unrecognised iff the title-cased name is no field. On success only that field's value changes, and its kind and the well-typedness of all fields are kept. For a non-bool field it is "No value passed" iff there is not exactly one `=` followed by a non-empty value. |
| `Options.BoolFlag` | simplecli.go:58-64 | A bool option without `=` sets its field to true. |
| `Options.BoolOptionWithValue` | simplecli.go:58-61 | A bool option with exactly one `=` takes the parsed value. An unparsable value, the empty one included, is an invalid-bool error. |
| `Options.BoolOptionManyValues` | simplecli.go:58-64 | A bool option with two or more `=` sets its field to true without parsing. |
| `Options.FlagMeansTrue` | simplecli.go:58-64 | `--flag` and `--flag=true` leave the same fields, and `--flag=false` leaves the flag false. |
| `Options.ValueOption` | simplecli.go:65-69 | A non-bool option with one `=` and a non-empty value takes that value coerced to the field's kind, or fails with the coercion error. |
| `Options.ApplyOptionByKind` | simplecli.go:49-73 | An option's outcome depends on the current fields only through their names and kinds. |
| `Options.LaterOptionOverrides` | simplecli.go:45-78 | A later option for the same field replaces the effect of an earlier one. |
| `Options.ApplyAll` | simplecli.go:45-78 | Applying options in order keeps the field names and kinds and keeps well-typedness. Every field that no option names keeps its initial value. |
| `Options.ApplyAllSnoc` | simplecli.go:45-78 | Applying one more option at the end is applying it to the fields the earlier options left. |
| `Options.LastOptionWins` | simplecli.go:45-78 | After a run of options, the field the last option names holds the value that option alone would give it. |
| `Dispatch.NoOptions` | simplecli.go:45-78 | Without `--` arguments, all arguments are positional, in order. |
| `Dispatch.FiltersAppend` | simplecli.go:45-78 | Splitting arguments into positionals and options distributes over concatenation of argument lists. |
| `Dispatch.Scan` | simplecli.go:45-78 | The argument loop keeps field names, kinds and well-typedness. The positionals it collects extend those already collected. |
| `Dispatch.ScanPartitions` | simplecli.go:45-78 | The single left-to-right loop equals applying every `--` argument in order and keeping the other arguments, in order, as positionals. The first failing option ends it. |
| `Dispatch.CoerceAll` | simplecli.go:107-110 | The arguments coerce iff each one coerces to its parameter's kind, and then each value is that coercion. Otherwise the error is that of the first argument that fails. |
| `Dispatch.BadArgument` | simplecli.go:107-110 | When the command is known and the count is right, the error is that of the first argument, in order, that does not coerce to its parameter's kind. |
| `Dispatch.Resolve` | simplecli.go:85-113 | A name that is no method gives "not a valid command". A known method with the wrong count gives "requires n argument(s)". With the right count, the method is invoked with the coerced positionals and the fields unchanged if all coerce; otherwise the run exits with -1 and the coercion error. An invocation always names the method, with arguments of its parameters' kinds. |
| `Dispatch.Handle` | simplecli.go:14-18 | Exit codes are only 0 (help, no error) or -1 (with an error). An invocation names a method, passes it typed arguments of the right number, and hands over fields with the original names and kinds, well-typed if they were. |
| `Dispatch.HandleByPartition` | simplecli.go:14-18 | A run applies all options first. A failure exits with -1. No positional gives help with exit 0. Otherwise the positionals are resolved against the fields the options left. |
| `Dispatch.EmptyInvocation` | simplecli.go:80-82 | Help with exit code 0 happens iff all options apply and no positional argument remains. |
| `Dispatch.Invocation` | simplecli.go:85-112 | A run invokes method `m` with `args` and fields `f` iff four things hold. The options yield `f`. The first positional is exactly `m`, a method. The other positionals are as many as its parameters. They coerce to exactly `args`. |
| `Dispatch.UntouchedFields` | simplecli.go:45-78 | The invoked method sees every field that no option names with its initial value. |
| `Dispatch.OptionsAnywhere` | simplecli.go:45-78 | Swapping an option with a neighbouring positional argument does not change the outcome. |
| `Dispatch.ApplyAllAppend` | simplecli.go:45-78 | Applying two lists of options one after the other is applying their concatenation. |
| `Dispatch.FailingOption` | simplecli.go:53-73 | The first option that fails ends the run with exit -1 and its error, whatever follows it. |
| `Dispatch.UnknownOption` | simplecli.go:52-56 | An option whose title-cased name is no field ends the run as unrecognised, whatever follows it. |
| `Dispatch.BareDoubleDash` | simplecli.go:48-56 | A bare `--` as the first argument is an unrecognised option with an empty name. |
| `Scenarios.CalcAdd` | examples/calc.go:15 | `calc Add 1 2` invokes `Add` with 1 and 2 on the initial fields. |
| `Scenarios.CalcNoArguments` | examples/calc.go:35 | `calc` alone prints help and exits with 0. |
| `Scenarios.CalcOnlyOptions` | examples/calc.go:11 | `calc --verbose` applies the flag, then prints help and exits with 0. |
| `Scenarios.CalcLowerCaseCommand` | examples/calc.go:15 | `calc --base=16 add a f` fails because `add` is not the method name `Add`. |
| `Scenarios.CalcHexArgument` | examples/calc.go:10-15 | `calc --base=16 Add a f` fails on `a`: arguments are parsed base 10 whatever `Base` holds. |
| `Scenarios.CalcArity` | examples/calc.go:15 | `calc Add 1` fails as `Add` requires 2 arguments. |
| `Scenarios.AppPortStart` | examples/nested/app.go:26-31 | `app --port=9090 Start` invokes `Start` with no arguments and `Port` set to 9090. |
| `Scenarios.AppNoNestedGroups` | examples/nested/app.go:24-27 | `app database create` fails: `database` is no method, and there are no nested groups. |
| `Scenarios.AppPointerOption` | examples/nested/app.go:24-25 | `app --database=x Start` fails: a pointer field has an unsupported kind. |
| `Scenarios.PrintedMessages` | simplecli.go:54-136 | The failing example runs print " add is not a valid command.", "a is not a valid number.", "Add requires 2 argument(s).", " database is not a valid command.", "Argument type ptr is not supported yet." and, for a bare `--`, "The option -- is not a recongized option". |

## Left out

- Help text: `helpAndExit` prints one line per method by iterating a Go map, in no fixed order. It slices `reflect.Type.String()` output. The model keeps only the outcome, `Exit(program, code, error)`. The error text is `Values.Message`.
- Process plumbing: `os.Args` becomes the parameter `argv`. Writing to stderr and stdout is left out. `os.Exit(-1)` is kept as code -1, which a POSIX shell sees as 255.
- Reflection: fields and methods are explicit maps, and the model treats every field of kind string, int or bool as settable. Unexported fields and promoted fields of embedded structs are not modelled.
- Panics: the method map is built from the method set of the pointer type (simplecli.go:36-39), but the method values are looked up on the struct value (simplecli.go:38). An exported method with a pointer receiver is therefore a key whose value is invalid. Naming it panics at `method.Type()` (simplecli.go:98). While such a method exists, every help output panics at `m.Type()` (simplecli.go:155), including the exit-0 help. `method.Call` (simplecli.go:112) also panics for a parameter of a named string, int or bool type, and `field.Set` (simplecli.go:68) panics for a field of such a named type. The model treats every method in its map as callable with plain values and gives `Exit` or `Invoke` where Go panics.
- What the invoked method does: it is user code. The model stops at "this method, these arguments, these fields".
- Text.Title: the ASCII rule only. Non-ASCII characters are never separators and are never changed. Go also treats Unicode spaces as separators and title-cases non-ASCII letters.
- Strconv.ParseInt32: the syntax error and the range error are one failure. The code prints the same message for both.
- Go's `int` is 64 bits wide. Initial int field values are unbounded integers in the model. Parsed values are always 32-bit.
