/** Request values as the API endpoints receive them (decoded JSON or query
    parameters), Python truthiness, `dict.get`, the `float()`/`int()`
    conversions, and the parameters bound to SQL placeholders. */
module Values {
  import opened Wrappers
  import opened PyText

  /** A decoded JSON value; objects are dictionaries with string keys. */
  datatype Value =
    | Null
    | Bool(b: bool)
    | Int(i: int)
    | Float(r: real)
    | Str(s: string)
    | List(items: seq<Value>)
    | Dict(entries: map<string, Value>)

  /** Python truthiness: `if v:`. */
  predicate Truthy(v: Value) {
    match v
    case Null => false
    case Bool(b) => b
    case Int(i) => i != 0
    case Float(r) => r != 0.0
    case Str(s) => s != ""
    case List(xs) => xs != []
    case Dict(m) => m != map[]
  }

  /** `d.get(key)`: the stored value, or `None` when the key is absent. */
  function Get(d: map<string, Value>, key: string): (r: Value)
    ensures key !in d ==> r == Null
    ensures key in d ==> r == d[key]
  {
    if key in d then d[key] else Null
  }

  /** Python `float(v)`; `None` where Python raises. */
  function ToFloat(v: Value): Option<real>
  {
    match v
    case Bool(b) => Some(if b then 1.0 else 0.0)
    case Int(i) => Some(i as real)
    case Float(r) => Some(r)
    case Str(s) => ParseDecimal(s)
    case _ => None
  }

  /** Python `int(x)` for a float: truncation toward zero. */
  function Truncate(r: real): (n: int)
    ensures r >= 0.0 ==> n as real <= r < n as real + 1.0
    ensures r < 0.0 ==> n as real - 1.0 < r <= n as real
  {
    if r >= 0.0 then r.Floor else -((-r).Floor)
  }

  /** Python `int(v)`; `None` where Python raises. */
  function ToInt(v: Value): Option<int>
  {
    match v
    case Bool(b) => Some(if b then 1 else 0)
    case Int(i) => Some(i)
    case Float(r) => Some(Truncate(r))
    case Str(s) => ParseInt(s)
    case _ => None
  }

  /** A value bound to one `?`: either the value itself or the text of an
      f-string `prefix{v}suffix`. */
  datatype Param =
    | Plain(v: Value)
    | Formatted(prefix: string, v: Value, suffix: string)

  /** `f"{prefix}{v}{suffix}"`; the text is spelled out when `v` is a string. */
  function Interpolate(prefix: string, v: Value, suffix: string): Param
  {
    if v.Str? then Plain(Str(prefix + v.s + suffix)) else Formatted(prefix, v, suffix)
  }

  /** Number of `?` placeholders in a SQL text. */
  function Placeholders(s: string): nat
  {
    if s == [] then 0 else Placeholders(s[..|s| - 1]) + (if s[|s| - 1] == '?' then 1 else 0)
  }

  /** The count is the multiplicity of `?` in the text. */
  lemma {:induction false} PlaceholdersCountsMarks(s: string)
    ensures Placeholders(s) == multiset(s)['?']
  {
    if s != [] {
      PlaceholdersCountsMarks(s[..|s| - 1]);
      assert s == s[..|s| - 1] + [s[|s| - 1]];
      assert multiset(s) == multiset(s[..|s| - 1]) + multiset{s[|s| - 1]};
    }
  }

  /** Counting placeholders distributes over concatenation. */
  lemma {:induction false} PlaceholdersAppend(a: string, b: string)
    ensures Placeholders(a + b) == Placeholders(a) + Placeholders(b)
  {
    if b == [] {
      assert a + b == a;
    } else {
      assert (a + b)[..|a + b| - 1] == a + b[..|b| - 1];
      PlaceholdersAppend(a, b[..|b| - 1]);
    }
  }

  /** A text without `?` has no placeholders. */
  lemma {:induction false} NoPlaceholders(s: string)
    ensures '?' !in s ==> Placeholders(s) == 0
  {
    if s != [] && '?' !in s {
      assert '?' !in s[..|s| - 1];
      NoPlaceholders(s[..|s| - 1]);
    }
  }

  /** A lone `?` is one placeholder. */
  lemma OnePlaceholder()
    ensures Placeholders("?") == 1
  {
    assert "?"[..0] == [];
  }

  /** A sequence of values bound one by one. */
  function Plains(vs: seq<Value>): (r: seq<Param>)
    ensures |r| == |vs| && forall i :: 0 <= i < |vs| ==> r[i] == Plain(vs[i])
  {
    seq(|vs|, i requires 0 <= i < |vs| => Plain(vs[i]))
  }

  /** Joining texts of one placeholder each, with a separator free of
      placeholders, gives one placeholder per text. */
  lemma {:induction false} JoinPlaceholders(sep: string, parts: seq<string>)
    requires Placeholders(sep) == 0
    requires forall i :: 0 <= i < |parts| ==> Placeholders(parts[i]) == 1
    ensures Placeholders(Join(sep, parts)) == |parts|
  {
    if |parts| == 1 {
      assert Join(sep, parts) == parts[0];
    } else if |parts| > 1 {
      JoinPlaceholders(sep, parts[1..]);
      PlaceholdersAppend3(parts[0], sep, Join(sep, parts[1..]));
    }
  }

  lemma PlaceholdersAppend3(a: string, b: string, c: string)
    ensures Placeholders(a + b + c) == Placeholders(a) + Placeholders(b) + Placeholders(c)
  {
    PlaceholdersAppend(a, b);
    PlaceholdersAppend(a + b, c);
  }


}
