/** The three string helpers of Go's `strings` package that the dispatcher
    uses: `HasPrefix`, `Split` (always with the separator "=") and `Title`. */
module Text {

  /** `strings.HasPrefix(s, prefix)`. */
  predicate HasPrefix(s: string, prefix: string) {
    |prefix| <= |s| && s[..|prefix|] == prefix
  }

  /** `strings.Split(s, "=")`: the pieces of `s` between successive `=`
      characters. There is always at least one piece; the empty string gives
      one empty piece. The first piece is the text before the first `=`. */
  function Split(s: string): (parts: seq<string>)
    ensures |parts| >= 1
    ensures forall i :: 0 <= i < |parts| ==> '=' !in parts[i]
    ensures parts[0] <= s
    ensures |parts[0]| < |s| ==> s[|parts[0]|] == '='
    ensures |parts| == 1 <==> '=' !in s
    decreases |s|
  {
    if s == [] then [[]]
    else
      var rest := Split(s[1..]);
      if s[0] == '=' then [[]] + rest
      else [[s[0]] + rest[0]] + rest[1..]
  }

  /** `strings.Join(parts, "=")`, the inverse of `Split`. */
  function Join(parts: seq<string>): string
    requires |parts| >= 1
    decreases |parts|
  {
    if |parts| == 1 then parts[0] else parts[0] + "=" + Join(parts[1..])
  }

  /** Joining the pieces back together gives the original string. */
  lemma {:induction false} JoinSplit(s: string)
    ensures Join(Split(s)) == s
    decreases |s|
  {
    if s != [] {
      var rest := Split(s[1..]);
      JoinSplit(s[1..]);
      if s[0] == '=' {
        assert Split(s) == [[]] + rest;
        assert ([[]] + rest)[1..] == rest;
      } else {
        assert Split(s) == [[s[0]] + rest[0]] + rest[1..];
        JoinCons(s[0], rest);
        assert s == [s[0]] + s[1..];
      }
    }
  }

  /** Prefixing the first piece prefixes the joined string. */
  lemma JoinCons(c: char, parts: seq<string>)
    requires |parts| >= 1
    ensures Join([[c] + parts[0]] + parts[1..]) == [c] + Join(parts)
  {
  }

  /** A string without `=` is a single piece. */
  lemma {:induction false} SplitNoSeparator(a: string)
    requires '=' !in a
    ensures Split(a) == [a]
  {
    var p := Split(a);
    assert p[0] == a;
    assert |p| == 1;
  }

  /** Splitting at the first `=`: the text before it is the first piece and
      the text after it is split in turn. */
  lemma {:induction false} SplitAtFirst(a: string, b: string)
    requires '=' !in a
    ensures Split(a + "=" + b) == [a] + Split(b)
    decreases |a|
  {
    var s := a + "=" + b;
    if a == [] {
      assert s == "=" + b;
      assert s[1..] == b;
    } else {
      assert s[1..] == a[1..] + "=" + b;
      SplitAtFirst(a[1..], b);
      assert [a[0]] + a[1..] == a;
    }
  }

  /** Splitting pieces that were joined gives the pieces back. */
  lemma {:induction false} SplitJoin(parts: seq<string>)
    requires |parts| >= 1
    requires forall i :: 0 <= i < |parts| ==> '=' !in parts[i]
    ensures Split(Join(parts)) == parts
    decreases |parts|
  {
    if |parts| == 1 {
      SplitNoSeparator(parts[0]);
    } else {
      SplitJoin(parts[1..]);
      SplitAtFirst(parts[0], Join(parts[1..]));
      assert [parts[0]] + parts[1..] == parts;
    }
  }

  /** A separator for `strings.Title`: an ASCII character that is not a
      letter, a digit or `_`. Characters beyond ASCII never separate. */
  predicate IsSeparator(c: char) {
    c <= '\U{7F}' && !('0' <= c <= '9' || 'a' <= c <= 'z' || 'A' <= c <= 'Z' || c == '_')
  }

  /** Upper-cases an ASCII lower-case letter and leaves all else alone. */
  function ToUpper(c: char): char {
    if 'a' <= c <= 'z' then (c as int - 32) as char else c
  }

  /** `strings.Title` as a left-to-right pass remembering the previous
      character, which starts out as a space. */
  function TitleAfter(prev: char, s: string): (t: string)
    ensures |t| == |s|
    decreases |s|
  {
    if s == [] then []
    else [if IsSeparator(prev) then ToUpper(s[0]) else s[0]] + TitleAfter(s[0], s[1..])
  }

  /** `strings.Title(s)`: `base` becomes `Base`, `dry-run` becomes `Dry-Run`. */
  function Title(s: string): (t: string)
    ensures |t| == |s|
  {
    TitleAfter(' ', s)
  }

  /** Position `i` of `s` begins a word. */
  predicate StartsWord(s: string, i: int)
    requires 0 <= i < |s|
  {
    i == 0 || IsSeparator(s[i - 1])
  }

  lemma {:induction false} TitleAfterChars(prev: char, s: string)
    ensures forall i :: 0 <= i < |s| ==>
      TitleAfter(prev, s)[i] ==
        (if (if i == 0 then IsSeparator(prev) else IsSeparator(s[i - 1])) then ToUpper(s[i]) else s[i])
    decreases |s|
  {
    if s != [] {
      var head := if IsSeparator(prev) then ToUpper(s[0]) else s[0];
      var tail := TitleAfter(s[0], s[1..]);
      TitleAfterChars(s[0], s[1..]);
      assert TitleAfter(prev, s) == [head] + tail;
      forall i | 1 <= i < |s|
        ensures TitleAfter(prev, s)[i] == (if IsSeparator(s[i - 1]) then ToUpper(s[i]) else s[i])
      {
        assert TitleAfter(prev, s)[i] == tail[i - 1];
        assert s[1..][i - 1] == s[i];
        if i > 1 {
          assert s[1..][i - 2] == s[i - 1];
        }
      }
    }
  }

  /** Title-casing upper-cases exactly the characters that begin a word. */
  lemma TitleChars(s: string)
    ensures forall i :: 0 <= i < |s| ==>
      Title(s)[i] == (if StartsWord(s, i) then ToUpper(s[i]) else s[i])
  {
    TitleAfterChars(' ', s);
  }

  /** Title-casing twice is title-casing once. */
  lemma TitleIdempotent(s: string)
    ensures Title(Title(s)) == Title(s)
  {
    var t := Title(s);
    TitleChars(s);
    TitleChars(t);
    forall i | 0 <= i < |s|
      ensures Title(t)[i] == t[i]
    {
      if i > 0 {
        assert IsSeparator(t[i - 1]) == IsSeparator(s[i - 1]);
      }
    }
  }
}
