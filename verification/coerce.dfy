/** `cliHandler.parseAs`: turning a command-line string into a value of the
    kind a field or method parameter declares. */
module Coerce {
  import opened Results
  import opened Strconv
  import opened Values

  /** Coerces `token` to `kind`. Strings pass through unchanged, ints are
      parsed base 10 into 32 bits, bools use the `ParseBool` lexicon; any
      other kind is refused whatever the token. */
  function ParseAs(token: string, kind: Kind): (r: Result<Value, Failure>)
    ensures r.Ok? ==> HasKind(r.value, kind)
    ensures r.Ok? && kind == IntKind ==> InInt32(r.value.i)
    ensures kind == StringKind ==> r == Ok(StringValue(token))
    ensures kind.OtherKind? <==> r == Err(UnsupportedKind(kind))
    ensures kind == IntKind ==> (r.Err? <==> ParseInt32(token).None?)
    ensures kind == IntKind && r.Ok? ==> ParseInt32(token) == Some(r.value.i)
    ensures kind == IntKind && r.Err? ==> r.error == InvalidNumber(token)
    ensures kind == BoolKind ==>
              r == (if token in TrueSpellings then Ok(BoolValue(true))
                    else if token in FalseSpellings then Ok(BoolValue(false))
                    else Err(InvalidBool(token)))
    ensures r.Err? ==> r.error in {InvalidNumber(token), InvalidBool(token), UnsupportedKind(kind)}
  {
    match kind
    case StringKind => Ok(StringValue(token))
    case IntKind =>
      (match ParseInt32(token)
       case Some(n) => Ok(IntValue(n))
       case None => Err(InvalidNumber(token)))
    case BoolKind =>
      (match ParseBool(token)
       case Some(b) => Ok(BoolValue(b))
       case None => Err(InvalidBool(token)))
    case OtherKind(_) => Err(UnsupportedKind(kind))
  }

  /** The canonical text of a value of a supported kind. */
  function Format(v: Value): string
    requires !v.OpaqueValue?
  {
    match v
    case StringValue(s) => s
    case IntValue(i) => FormatInt(i)
    case BoolValue(b) => FormatBool(b)
  }

  /** Every value of a supported kind that the coercion can produce is
      reached from its canonical text. */
  lemma ParseAsFormat(v: Value, kind: Kind)
    requires HasKind(v, kind) && !kind.OtherKind?
    requires v.IntValue? ==> InInt32(v.i)
    ensures ParseAs(Format(v), kind) == Ok(v)
  {
    match v
    case IntValue(i) => ParseFormatInt(i);
    case BoolValue(b) => ParseFormatBool(b);
    case StringValue(_) =>
  }
}
