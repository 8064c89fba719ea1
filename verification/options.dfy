/** Applying `--name[=value]` tokens to the fields of the command struct,
    the option branch of `cliHandler.init`. */
module Options {
  import opened Results
  import opened Text
  import opened Strconv
  import opened Values
  import opened Coerce

  /** A struct field: its kind and current value. */
  datatype Field = Field(kind: Kind, value: Value)

  /** The struct's fields by (exported, case-sensitive) Go name. */
  type Fields = map<string, Field>

  /** Every field holds a value of its own kind. */
  predicate WellTyped(fields: Fields) {
    forall name :: name in fields ==> HasKind(fields[name].value, fields[name].kind)
  }

  /** The option name of a token body (the token without its `--`): the text
      before the first `=`. */
  function OptionName(body: string): string {
    Split(body)[0]
  }

  /** The field an option token addresses: its name title-cased. */
  function FieldName(body: string): string {
    Title(OptionName(body))
  }

  /** Applies one option token body to the fields. The body is split on every
      `=`. A bool field becomes true when there is no `=` or more than one,
      and takes the parsed value when there is exactly one. Any other field
      needs exactly one `=` followed by a non-empty value of its kind. */
  function ApplyOption(fields: Fields, body: string): (r: Result<Fields, Failure>)
    ensures FieldName(body) !in fields <==> r == Err(UnrecognizedOption(OptionName(body)))
    ensures r.Ok? ==> FieldName(body) in fields && r.value.Keys == fields.Keys
    ensures r.Ok? ==> var name := FieldName(body);
      r.value == fields[name := fields[name].(value := r.value[name].value)]
    ensures r.Ok? ==> HasKind(r.value[FieldName(body)].value, fields[FieldName(body)].kind)
    ensures WellTyped(fields) && r.Ok? ==> WellTyped(r.value)
    ensures FieldName(body) in fields && fields[FieldName(body)].kind != BoolKind ==>
      (r == Err(MissingValue(OptionName(body))) <==> !(|Split(body)| == 2 && Split(body)[1] != ""))
  {
    var parts := Split(body);
    var name := Title(parts[0]);
    if name !in fields then Err(UnrecognizedOption(parts[0]))
    else
      var field := fields[name];
      if field.kind == BoolKind then
        if |parts| == 2 then
          match ParseAs(parts[1], BoolKind)
          case Ok(v) => Ok(fields[name := field.(value := v)])
          case Err(e) => Err(e)
        else
          Ok(fields[name := field.(value := BoolValue(true))])
      else if |parts| == 2 && |parts[1]| > 0 then
        match ParseAs(parts[1], field.kind)
        case Ok(v) => Ok(fields[name := field.(value := v)])
        case Err(e) => Err(e)
      else
        Err(MissingValue(parts[0]))
  }

  /** A bool field named without `=` is set to true. */
  lemma BoolFlag(fields: Fields, opt: string)
    requires '=' !in opt
    requires Title(opt) in fields && fields[Title(opt)].kind == BoolKind
    ensures ApplyOption(fields, opt) == Ok(fields[Title(opt) := Field(BoolKind, BoolValue(true))])
  {
    SplitNoSeparator(opt);
  }

  /** A bool field with exactly one `=` takes the value `ParseBool` gives,
      and an unparsable value (the empty one included) is an error. */
  lemma BoolOptionWithValue(fields: Fields, opt: string, v: string)
    requires '=' !in opt && '=' !in v
    requires Title(opt) in fields && fields[Title(opt)].kind == BoolKind
    ensures ApplyOption(fields, opt + "=" + v) ==
      match ParseBool(v)
      case Some(b) => Ok(fields[Title(opt) := Field(BoolKind, BoolValue(b))])
      case None => Err(InvalidBool(v))
  {
    SplitAtFirst(opt, v);
    SplitNoSeparator(v);
  }

  /** A bool field with two or more `=` is set to true; nothing after the
      name is parsed. */
  lemma BoolOptionManyValues(fields: Fields, opt: string, v: string, w: string)
    requires '=' !in opt
    requires Title(opt) in fields && fields[Title(opt)].kind == BoolKind
    ensures ApplyOption(fields, opt + "=" + v + "=" + w) ==
      Ok(fields[Title(opt) := Field(BoolKind, BoolValue(true))])
  {
    assert opt + "=" + v + "=" + w == opt + "=" + (v + "=" + w);
    SplitAtFirst(opt, v + "=" + w);
    assert '=' in v + "=" + w by {
      assert (v + "=" + w)[|v|] == '=';
    }
  }

  /** `--flag` and `--flag=true` leave the same fields; `--flag=false` leaves
      the flag false. */
  lemma FlagMeansTrue(fields: Fields, opt: string)
    requires '=' !in opt
    requires Title(opt) in fields && fields[Title(opt)].kind == BoolKind
    ensures ApplyOption(fields, opt) == ApplyOption(fields, opt + "=true")
    ensures ApplyOption(fields, opt + "=false") ==
      Ok(fields[Title(opt) := Field(BoolKind, BoolValue(false))])
  {
    BoolFlag(fields, opt);
    assert ParseBool("true") == Some(true) by { ParseFormatBool(true); }
    assert ParseBool("false") == Some(false) by { ParseFormatBool(false); }
    assert opt + "=true" == opt + "=" + "true";
    assert opt + "=false" == opt + "=" + "false";
    BoolOptionWithValue(fields, opt, "true");
    BoolOptionWithValue(fields, opt, "false");
  }

  /** A field of another kind with exactly one `=` and a non-empty value
      takes the value coerced to its kind, or reports the coercion error. */
  lemma ValueOption(fields: Fields, opt: string, v: string)
    requires '=' !in opt && '=' !in v && v != ""
    requires Title(opt) in fields && fields[Title(opt)].kind != BoolKind
    ensures ApplyOption(fields, opt + "=" + v) ==
      match ParseAs(v, fields[Title(opt)].kind)
      case Ok(x) => Ok(fields[Title(opt) := fields[Title(opt)].(value := x)])
      case Err(e) => Err(e)
  {
    SplitAtFirst(opt, v);
    SplitNoSeparator(v);
  }

  /** What an option does depends on the fields only through the kinds: two
      field maps with the same names and kinds fail alike, or both succeed
      with the same new value in the addressed field. */
  lemma ApplyOptionByKind(f: Fields, g: Fields, body: string)
    requires f.Keys == g.Keys
    requires forall k :: k in f ==> f[k].kind == g[k].kind
    ensures ApplyOption(f, body).Err? <==> ApplyOption(g, body).Err?
    ensures ApplyOption(f, body).Err? ==> ApplyOption(f, body) == ApplyOption(g, body)
    ensures ApplyOption(f, body).Ok? ==>
      ApplyOption(f, body).value[FieldName(body)] == ApplyOption(g, body).value[FieldName(body)]
  {
  }

  /** A later option for the same field overrides an earlier one. */
  lemma LaterOptionOverrides(fields: Fields, a: string, b: string)
    requires FieldName(a) == FieldName(b)
    requires ApplyOption(fields, a).Ok?
    ensures ApplyOption(ApplyOption(fields, a).value, b) == ApplyOption(fields, b)
  {
    var name := FieldName(a);
    var g := ApplyOption(fields, a).value;
    ApplyOptionByKind(fields, g, b);
    if ApplyOption(g, b).Ok? {
      var h := ApplyOption(g, b).value;
      assert h == g[name := g[name].(value := h[name].value)];
      assert h == fields[name := fields[name].(value := h[name].value)];
    }
  }

  /** The fields some token body of `bodies` addresses. */
  function Targets(bodies: seq<string>): set<string>
    decreases |bodies|
  {
    if bodies == [] then {} else {FieldName(bodies[0])} + Targets(bodies[1..])
  }

  /** Applies option token bodies left to right, stopping at the first
      failure. */
  function ApplyAll(fields: Fields, bodies: seq<string>): (r: Result<Fields, Failure>)
    ensures r.Ok? ==> r.value.Keys == fields.Keys
    ensures r.Ok? ==> forall k :: k in fields ==> r.value[k].kind == fields[k].kind
    ensures r.Ok? ==> forall k :: k in fields && k !in Targets(bodies) ==> r.value[k] == fields[k]
    ensures WellTyped(fields) && r.Ok? ==> WellTyped(r.value)
    decreases |bodies|
  {
    if bodies == [] then Ok(fields)
    else
      match ApplyOption(fields, bodies[0])
      case Err(e) => Err(e)
      case Ok(f) => ApplyAll(f, bodies[1..])
  }

  /** Applying `bodies + [b]` is applying `bodies` and then `b`. */
  lemma {:induction false} ApplyAllSnoc(fields: Fields, bodies: seq<string>, b: string)
    ensures ApplyAll(fields, bodies + [b]) ==
      match ApplyAll(fields, bodies)
      case Err(e) => Err(e)
      case Ok(f) => ApplyOption(f, b)
    decreases |bodies|
  {
    if bodies == [] {
      assert [] + [b] == [b];
      assert [b][1..] == [];
    } else {
      assert (bodies + [b])[1..] == bodies[1..] + [b];
      match ApplyOption(fields, bodies[0])
      case Err(e) =>
      case Ok(f) => ApplyAllSnoc(f, bodies[1..], b);
    }
  }

  /** When options succeed, the field the last one addresses holds the value
      that last option alone would give it: earlier settings are overridden. */
  lemma LastOptionWins(fields: Fields, bodies: seq<string>, b: string)
    requires ApplyAll(fields, bodies + [b]).Ok?
    ensures ApplyOption(fields, b).Ok?
    ensures ApplyAll(fields, bodies + [b]).value[FieldName(b)] ==
      ApplyOption(fields, b).value[FieldName(b)]
  {
    ApplyAllSnoc(fields, bodies, b);
    var f := ApplyAll(fields, bodies).value;
    ApplyOptionByKind(f, fields, b);
  }
}
