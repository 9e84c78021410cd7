/** The parts of Python's `str` behaviour that the backend relies on: `strip`,
    `upper`/`lower`, the `in` substring test, `split`, `join`, and the decimal
    text of integers (f-string interpolation and `int(...)`). */
module PyText {
  import opened Wrappers

  /** `str.isspace()` for one character. */
  predicate IsSpace(c: char) {
    || c == ' '
    || '\t' <= c <= '\r'
    || '\U{1c}' <= c <= '\U{1f}'
    || c == '\U{85}' || c == '\U{a0}' || c == '\U{1680}'
    || '\U{2000}' <= c <= '\U{200a}'
    || c == '\U{2028}' || c == '\U{2029}' || c == '\U{202f}' || c == '\U{205f}' || c == '\U{3000}'
  }

  /** Removes the longest prefix whose characters all satisfy `p`. */
  function DropLeading(s: string, p: char -> bool): (r: string)
    ensures |r| <= |s| && r == s[|s| - |r|..]
    ensures forall k :: 0 <= k < |s| - |r| ==> p(s[k])
    ensures r != [] ==> !p(r[0])
  {
    if s != [] && p(s[0]) then DropLeading(s[1..], p) else s
  }

  /** Removes the longest suffix whose characters all satisfy `p`. */
  function DropTrailing(s: string, p: char -> bool): (r: string)
    ensures |r| <= |s| && r == s[..|r|]
    ensures forall k :: |r| <= k < |s| ==> p(s[k])
    ensures r != [] ==> !p(r[|r| - 1])
  {
    if s != [] && p(s[|s| - 1]) then DropTrailing(s[..|s| - 1], p) else s
  }

  /** Removes surrounding characters satisfying `p` (`str.strip(chars)`). */
  function StripWhere(s: string, p: char -> bool): (r: string)
    ensures r != [] ==> !p(r[0]) && !p(r[|r| - 1])
    ensures |s| - |DropLeading(s, p)| + |r| <= |s|
    ensures r == s[|s| - |DropLeading(s, p)|..|s| - |DropLeading(s, p)| + |r|]
    ensures r == [] <==> forall k :: 0 <= k < |s| ==> p(s[k])
  {
    DropTrailing(DropLeading(s, p), p)
  }

  /** `str.strip()`: removes surrounding whitespace. */
  function Strip(s: string): (r: string)
    ensures r != [] ==> !IsSpace(r[0]) && !IsSpace(r[|r| - 1])
    ensures r == [] <==> forall k :: 0 <= k < |s| ==> IsSpace(s[k])
  {
    StripWhere(s, IsSpace)
  }

  /** Stripping a string whose ends are already clean changes nothing. */
  lemma StripWhereKeepsClean(s: string, p: char -> bool)
    requires s != [] ==> !p(s[0]) && !p(s[|s| - 1])
    ensures StripWhere(s, p) == s
  {
  }

  lemma StripIdempotent(s: string)
    ensures Strip(Strip(s)) == Strip(s)
  {
    StripWhereKeepsClean(Strip(s), IsSpace);
  }

  /** `Strip(s)` is a contiguous piece of `s`. */
  lemma StripIsSlice(s: string) returns (a: nat)
    ensures a + |Strip(s)| <= |s| && Strip(s) == s[a..a + |Strip(s)|]
  {
    a := |s| - |DropLeading(s, IsSpace)|;
  }

  function UpperChar(c: char): char {
    if 'a' <= c <= 'z' then (c as int - 32) as char else c
  }

  function LowerChar(c: char): char {
    if 'A' <= c <= 'Z' then (c as int + 32) as char else c
  }

  /** `str.upper()` on ASCII letters. */
  function Upper(s: string): (r: string)
    ensures |r| == |s| && forall i :: 0 <= i < |s| ==> r[i] == UpperChar(s[i])
  {
    seq(|s|, i requires 0 <= i < |s| => UpperChar(s[i]))
  }

  /** `str.lower()` on ASCII letters. */
  function Lower(s: string): (r: string)
    ensures |r| == |s| && forall i :: 0 <= i < |s| ==> r[i] == LowerChar(s[i])
  {
    seq(|s|, i requires 0 <= i < |s| => LowerChar(s[i]))
  }

  /** Case mapping works character by character, so it commutes with slicing. */
  lemma UpperSlice(s: string, a: nat, b: nat)
    requires a <= b <= |s|
    ensures Upper(s[a..b]) == Upper(s)[a..b]
  {
  }

  /** `t` occurs in `s` starting at index `i`. */
  predicate OccursAt(s: string, t: string, i: nat) {
    i + |t| <= |s| && s[i..i + |t|] == t
  }

  /** Python's `t in s` for strings. */
  predicate Contains(s: string, t: string) {
    exists i: nat :: i <= |s| && OccursAt(s, t, i)
  }

  /** Whatever occurs in a piece of `s` occurs in `s`. */
  lemma ContainsInSlice(s: string, a: nat, b: nat, t: string)
    requires a <= b <= |s| && Contains(s[a..b], t)
    ensures Contains(s, t)
  {
    var i: nat :| i <= b - a && OccursAt(s[a..b], t, i);
    assert i + |t| <= b - a;
    forall k | 0 <= k < |t|
      ensures s[a + i..a + i + |t|][k] == t[k]
    {
      assert t[k] == s[a..b][i..i + |t|][k] == s[a..b][i + k];
    }
    assert OccursAt(s, t, a + i);
  }

  /** A text without the first letter of `t` cannot contain `t`. */
  lemma NotContainsWithoutFirstChar(s: string, t: string)
    requires t != [] && t[0] !in s
    ensures !Contains(s, t)
  {
    forall i: nat | i <= |s|
      ensures !OccursAt(s, t, i)
    {
      if i + |t| <= |s| {
        assert s[i..i + |t|][0] == s[i];
      }
    }
  }

  predicate IsDigit(c: char) {
    '0' <= c <= '9'
  }

  /** Every character is an ASCII decimal digit (true of the empty string). */
  predicate IsDigits(s: string) {
    forall i :: 0 <= i < |s| ==> IsDigit(s[i])
  }

  function DigitChar(d: nat): (c: char)
    requires d < 10
    ensures IsDigit(c)
  {
    ('0' as int + d) as char
  }

  function DigitValue(c: char): (d: nat)
    requires IsDigit(c)
    ensures d < 10
  {
    c as int - '0' as int
  }

  /** The decimal text of a natural number, as `f"{n}"` prints it. */
  function NatToString(n: nat): (r: string)
    ensures r != [] && IsDigits(r)
    ensures |r| == 1 <==> n < 10
    decreases n
  {
    if n < 10 then [DigitChar(n)] else NatToString(n / 10) + [DigitChar(n % 10)]
  }

  /** The value of a string of decimal digits. */
  function DigitsValue(s: string): nat
    requires IsDigits(s)
  {
    if s == [] then 0 else 10 * DigitsValue(s[..|s| - 1]) + DigitValue(s[|s| - 1])
  }

  /** Reading back the decimal text of `n` gives `n`. */
  lemma {:induction false} DigitsValueOfNatToString(n: nat)
    ensures DigitsValue(NatToString(n)) == n
    decreases n
  {
    var s := NatToString(n);
    if n >= 10 {
      DigitsValueOfNatToString(n / 10);
      assert s[..|s| - 1] == NatToString(n / 10);
    }
  }

  lemma NatToStringInjective(m: nat, n: nat)
    requires NatToString(m) == NatToString(n)
    ensures m == n
  {
    DigitsValueOfNatToString(m);
    DigitsValueOfNatToString(n);
  }

  /** The decimal text of an integer, with a leading `-` when negative. */
  function IntToString(i: int): (r: string)
    ensures r != []
  {
    if i < 0 then "-" + NatToString(-i) else NatToString(i)
  }

  lemma DigitIsSolid(c: char)
    requires IsDigit(c)
    ensures !IsSpace(c) && c != '-' && c != '+'
  {
  }

  /** `int()` reads back the decimal text of a natural number. */
  lemma ParseIntOfNatToString(n: nat)
    ensures ParseInt(NatToString(n)) == Some(n as int)
  {
    var d := NatToString(n);
    DigitIsSolid(d[0]);
    DigitIsSolid(d[|d| - 1]);
    StripWhereKeepsClean(d, IsSpace);
    DigitsValueOfNatToString(n);
  }

  /** `int()` reads back the text of a negative integer. */
  lemma ParseIntNegativeDigits(d: string)
    requires d != [] && IsDigits(d)
    ensures ParseInt("-" + d) == Option<int>.Some(-(DigitsValue(d) as int))
  {
    StripNegative(d);
    ParseSignedNegative(d);
  }

  lemma StripNegative(d: string)
    requires d != [] && IsDigits(d)
    ensures Strip("-" + d) == "-" + d
  {
    var s := "-" + d;
    DigitIsSolid(d[|d| - 1]);
    assert s[|s| - 1] == d[|d| - 1];
    StripWhereKeepsClean(s, IsSpace);
  }

  lemma ParseSignedNegative(d: string)
    requires d != [] && IsDigits(d)
    ensures ParseSigned("-" + d) == Option<int>.Some(-(DigitsValue(d) as int))
  {
    assert ("-" + d)[1..] == d;
  }

  /** `int()` reads back the decimal text of any integer. */
  lemma ParseIntOfIntToString(i: int)
    ensures ParseInt(IntToString(i)) == Some(i)
  {
    if i < 0 {
      var d := NatToString(-i);
      calc {
        ParseInt(IntToString(i));
        ParseInt("-" + d);
        { ParseIntNegativeDigits(d); }
        Option<int>.Some(-(DigitsValue(d) as int));
        { DigitsValueOfNatToString(-i); }
        Some(i);
      }
    } else {
      ParseIntOfNatToString(i);
    }
  }


  /** `int(s)` for a string: surrounding whitespace, an optional sign and ASCII
      digits; anything else raises `ValueError`, modelled as `None`. */
  function ParseInt(s: string): (r: Option<int>)
    ensures r.Some? ==> Strip(s) != ""
  {
    ParseSigned(Strip(s))
  }

  /** An optional sign followed by at least one ASCII digit. */
  function ParseSigned(t: string): Option<int>
  {
    if t == "" then None
    else if t[0] == '-' || t[0] == '+' then
      var body := t[1..];
      if body != [] && IsDigits(body) then
        var v: int := DigitsValue(body);
        Some(if t[0] == '-' then -v else v)
      else None
    else if IsDigits(t) then Some(DigitsValue(t))
    else None
  }

  function Pow10(n: nat): (r: nat)
    ensures r >= 1
  {
    if n == 0 then 1 else 10 * Pow10(n - 1)
  }

  /** Digits with an optional fractional part (`12`, `12.5`, `12.`, `.5`). */
  function ParseUnsignedDecimal(u: string): Option<real>
  {
    var parts := Split(u, '.');
    if |parts| == 1 then
      if u != "" && IsDigits(u) then Some(DigitsValue(u) as real) else None
    else if |parts| == 2 && (parts[0] != "" || parts[1] != "") && IsDigits(parts[0]) && IsDigits(parts[1]) then
      Some(DigitsValue(parts[0]) as real + DigitsValue(parts[1]) as real / Pow10(|parts[1]|) as real)
    else None
  }

  /** `float(s)` for decimal text: surrounding whitespace, an optional sign,
      digits with an optional fractional part. */
  function ParseDecimal(s: string): Option<real>
  {
    var t := Strip(s);
    if t == "" then None
    else if t[0] == '-' then
      match ParseUnsignedDecimal(t[1..])
      case Some(r) => Some(-r)
      case None => None
    else if t[0] == '+' then ParseUnsignedDecimal(t[1..])
    else ParseUnsignedDecimal(t)
  }

  /** `sep.join(parts)`. */
  function Join(sep: string, parts: seq<string>): string
  {
    if |parts| == 0 then ""
    else if |parts| == 1 then parts[0]
    else parts[0] + sep + Join(sep, parts[1..])
  }

  /** `s.split(c)` for a one-character separator. */
  function Split(s: string, c: char): (r: seq<string>)
    ensures |r| >= 1
    ensures forall k :: 0 <= k < |r| ==> c !in r[k]
  {
    if s == [] then [""]
    else
      var rest := Split(s[1..], c);
      if s[0] == c then [""] + rest else [[s[0]] + rest[0]] + rest[1..]
  }

  /** The first piece of a split is the text before the first separator,
      and a separator always yields a second piece. */
  lemma {:induction false} SplitHead(s: string, c: char, i: nat)
    requires i < |s| && s[i] == c && c !in s[..i]
    ensures |Split(s, c)| >= 2 && Split(s, c)[0] == s[..i]
  {
    var rest := Split(s[1..], c);
    if i > 0 {
      assert s[1..][..i - 1] == s[1..i];
      SplitHead(s[1..], c, i - 1);
      assert [s[0]] + s[1..i] == s[..i];
    }
  }

  /** Splitting on `c` and joining the pieces with `c` gives back the text. */
  lemma {:induction false} JoinSplit(s: string, c: char)
    ensures Join([c], Split(s, c)) == s
  {
    if s != [] {
      var rest := Split(s[1..], c);
      JoinSplit(s[1..], c);
      if s[0] == c {
        assert Split(s, c) == [""] + rest;
        assert ([""] + rest)[1..] == rest;
      } else {
        var r := Split(s, c);
        assert r == [[s[0]] + rest[0]] + rest[1..];
        if |rest| > 1 {
          assert r[1..] == rest[1..];
          assert Join([c], rest) == rest[0] + [c] + Join([c], rest[1..]);
        }
      }
    }
  }

  /** A text without the separator splits into itself alone. */
  lemma {:induction false} SplitWithoutSeparator(s: string, c: char)
    requires c !in s
    ensures Split(s, c) == [s]
  {
    if s != [] {
      assert c !in s[1..];
      SplitWithoutSeparator(s[1..], c);
      assert [s[0]] + s[1..] == s;
    }
  }
}
