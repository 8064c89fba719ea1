/** The parts of Go's `strconv` package the dispatcher relies on:
    `ParseInt(s, 10, 32)` and `ParseBool`, with `Itoa` and `FormatBool` as
    their inverses. */
module Strconv {
  import opened Results

  const MinInt32: int := -0x8000_0000
  const MaxInt32: int := 0x7FFF_FFFF

  predicate InInt32(n: int) {
    MinInt32 <= n <= MaxInt32
  }

  predicate IsDigit(c: char) {
    '0' <= c <= '9'
  }

  predicate AllDigits(s: string) {
    forall i :: 0 <= i < |s| ==> IsDigit(s[i])
  }

  /** The value of a non-empty run of decimal digits, most significant first. */
  function DigitsValue(s: string): nat
    requires AllDigits(s)
    decreases |s|
  {
    if s == [] then 0 else 10 * DigitsValue(s[..|s| - 1]) + (s[|s| - 1] as int - '0' as int)
  }

  /** The text of `s` after an optional leading sign. */
  function Unsigned(s: string): string {
    if s != [] && (s[0] == '+' || s[0] == '-') then s[1..] else s
  }

  /** The value `s` denotes as a signed decimal number. */
  function SignedValue(s: string): int
    requires AllDigits(Unsigned(s))
  {
    if s != [] && s[0] == '-' then -(DigitsValue(Unsigned(s)) as int) else DigitsValue(Unsigned(s))
  }

  /** `strconv.ParseInt(s, 10, 32)`: an optional `+` or `-` followed by one or
      more decimal digits, whose value fits in 32 bits. Leading zeros, `+0`
      and `-0` are accepted. Empty input, a lone sign, any other character
      (including `_` and a `0x` prefix, which are only allowed with base 0)
      and out-of-range values are errors. */
  function ParseInt32(s: string): (r: Option<int>)
    ensures r.Some? <==> Unsigned(s) != [] && AllDigits(Unsigned(s)) && InInt32(SignedValue(s))
    ensures r.Some? ==> r.value == SignedValue(s)
  {
    if s == [] then None
    else
      var body := Unsigned(s);
      if body == [] || !AllDigits(body) then None
      else
        var n := if s[0] == '-' then -(DigitsValue(body) as int) else DigitsValue(body);
        if InInt32(n) then Some(n) else None
  }

  function DigitChar(d: nat): char
    requires d < 10
  {
    ('0' as int + d) as char
  }

  /** Decimal rendering of a natural number, without leading zeros. */
  function FormatNat(n: nat): string
    decreases n
  {
    if n < 10 then [DigitChar(n)] else FormatNat(n / 10) + [DigitChar(n % 10)]
  }

  /** `strconv.Itoa(n)`, also the `%d` verb of `fmt`. */
  function FormatInt(n: int): string {
    if n < 0 then "-" + FormatNat(-n) else FormatNat(n)
  }

  /** The decimal rendering is a non-empty digit run denoting the number. */
  lemma {:induction false} FormatNatDigits(n: nat)
    ensures FormatNat(n) != [] && AllDigits(FormatNat(n))
    ensures DigitsValue(FormatNat(n)) == n
    decreases n
  {
    if n >= 10 {
      FormatNatDigits(n / 10);
      var s := FormatNat(n);
      assert s[..|s| - 1] == FormatNat(n / 10);
    }
  }

  /** Parsing the decimal rendering of a number gives the number back exactly
      when it fits in 32 bits, and is an error otherwise. */
  lemma ParseFormatInt(n: int)
    ensures ParseInt32(FormatInt(n)) == if InInt32(n) then Some(n) else None
  {
    var s := FormatInt(n);
    if n < 0 {
      FormatNatDigits(-n);
      assert s[1..] == FormatNat(-n);
    } else {
      FormatNatDigits(n);
      assert IsDigit(s[0]);
    }
  }

  /** `k` zero digits. */
  function Zeros(k: nat): string {
    seq(k, _ => '0')
  }

  /** Any sign and any number of leading zeros are accepted: `-007` is -7,
      `+5` is 5, and `00` and `-0` are 0. Only the value decides the range. */
  lemma ParseSignedLeadingZeros(sign: string, k: nat, n: nat)
    requires sign == "" || sign == "+" || sign == "-"
    ensures ParseInt32(sign + Zeros(k) + FormatNat(n)) ==
      var v := if sign == "-" then -(n as int) else n;
      if InInt32(v) then Some(v) else None
  {
    var digits := Zeros(k) + FormatNat(n);
    var s := sign + digits;
    assert s == sign + Zeros(k) + FormatNat(n);
    FormatNatDigits(n);
    LeadingZeros(k, FormatNat(n));
    assert IsDigit(digits[0]);
    assert Unsigned(s) == digits by {
      if sign != "" {
        assert s[1..] == digits;
      }
    }
    assert SignedValue(s) == if sign == "-" then -(n as int) else n;
  }

  /** Leading zeros do not change the value of a digit run. */
  lemma {:induction false} LeadingZeros(k: nat, s: string)
    requires AllDigits(s)
    ensures AllDigits(Zeros(k) + s) && DigitsValue(Zeros(k) + s) == DigitsValue(s)
    decreases k
  {
    if k > 0 {
      LeadingZeros(k - 1, s);
      assert Zeros(k) == "0" + Zeros(k - 1);
      assert Zeros(k) + s == "0" + (Zeros(k - 1) + s);
      LeadingZero(Zeros(k - 1) + s);
    } else {
      assert Zeros(k) + s == s;
    }
  }

  /** A leading zero does not change the value of a digit run. */
  lemma {:induction false} LeadingZero(s: string)
    requires AllDigits(s)
    ensures AllDigits("0" + s) && DigitsValue("0" + s) == DigitsValue(s)
    decreases |s|
  {
    if s != [] {
      var t := "0" + s;
      LeadingZero(s[..|s| - 1]);
      assert t[..|t| - 1] == "0" + s[..|s| - 1];
    }
  }

  /** The spellings `strconv.ParseBool` accepts for true and for false. */
  const TrueSpellings: set<string> := {"1", "t", "T", "TRUE", "true", "True"}
  const FalseSpellings: set<string> := {"0", "f", "F", "FALSE", "false", "False"}

  /** `strconv.ParseBool(s)`: a fixed, case-sensitive lexicon; anything else,
      the empty string included, is an error. */
  function ParseBool(s: string): (r: Option<bool>)
    ensures r.Some? <==> s in TrueSpellings + FalseSpellings
    ensures r.Some? ==> (r.value <==> s in TrueSpellings)
  {
    if s == "1" || s == "t" || s == "T" || s == "true" || s == "TRUE" || s == "True" then Some(true)
    else if s == "0" || s == "f" || s == "F" || s == "false" || s == "FALSE" || s == "False" then Some(false)
    else None
  }

  /** `strconv.FormatBool(b)`. */
  function FormatBool(b: bool): string {
    if b then "true" else "false"
  }

  /** `ParseBool` inverts `FormatBool`. */
  lemma ParseFormatBool(b: bool)
    ensures ParseBool(FormatBool(b)) == Some(b)
  {
  }
}
