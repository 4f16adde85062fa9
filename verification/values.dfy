/** The parsed configuration document and the Python operations the
    modelled code applies to its parts: truthiness, `len`, `in`, `[key]`,
    hashing into a `set`, and formatting into an f-string. */
module Values {

  import opened Base
  import Text

  /** A TOML value as `pytomlpp` hands it to Python. Floats and dates are
      not modelled. */
  datatype Value =
    | Str(s: string)
    | Int(i: int)
    | Bool(b: bool)
    | Arr(items: seq<Value>)
    | Table(fields: map<string, Value>)

  /** A TOML document: its root table. */
  type Document = map<string, Value>

  const EmptyTable: Value := Table(map[])

  /** Python truthiness (`if v:`). */
  predicate Truthy(v: Value) {
    match v
    case Str(s) => |s| > 0
    case Int(i) => i != 0
    case Bool(b) => b
    case Arr(xs) => |xs| > 0
    case Table(m) => |m| > 0
  }

  /** `len(v)`; numbers and booleans have no length. */
  function Len(v: Value): (r: Py<nat>)
    ensures r.Raise? <==> v.Int? || v.Bool?
  {
    match v
    case Str(s) => Ok(|s|)
    case Arr(xs) => Ok(|xs|)
    case Table(m) => Ok(|m|)
    case Int(_) => Raise(TypeError)
    case Bool(_) => Raise(TypeError)
  }

  /** `key in v` for a string `key`: a key of a table, a substring of a
      string, an element of an array; numbers are not containers. */
  function Contains(v: Value, key: string): (r: Py<bool>)
    ensures r.Raise? <==> v.Int? || v.Bool?
    ensures v.Table? ==> r == Ok(key in v.fields)
  {
    match v
    case Table(m) => Ok(key in m)
    case Str(s) => Ok(Text.Occurs(s, key))
    case Arr(xs) => Ok(Str(key) in xs)
    case Int(_) => Raise(TypeError)
    case Bool(_) => Raise(TypeError)
  }

  /** `v[key]` for a string `key`: only a table can be subscripted by a
      string, and a missing key raises `KeyError`. */
  function GetItem(v: Value, key: string): (r: Py<Value>)
    ensures r.Ok? <==> v.Table? && key in v.fields
    ensures r.Ok? ==> r.value == v.fields[key]
    ensures v.Table? && key !in v.fields ==> r == Raise(KeyError(key))
  {
    match v
    case Table(m) => if key in m then Ok(m[key]) else Raise(KeyError(key))
    case _ => Raise(TypeError)
  }

  /** Values that a Python `set` accepts. */
  predicate Hashable(v: Value) {
    v.Str? || v.Int? || v.Bool?
  }

  /** What decides equality inside a `set`: `True == 1` and `False == 0`. */
  datatype HashKey = NumKey(n: int) | StrKey(s: string)

  function KeyOf(v: Value): HashKey
    requires Hashable(v)
  {
    match v
    case Str(s) => StrKey(s)
    case Int(i) => NumKey(i)
    case Bool(b) => NumKey(if b then 1 else 0)
  }

  /** `str(n)` for an integer. */
  function IntText(i: int): string {
    if i < 0 then "-" + Text.Dec(-i) else Text.Dec(i)
  }

  /** `f"{v}"` for a hashable value. */
  function Format(v: Value): string
    requires Hashable(v)
  {
    match v
    case Str(s) => s
    case Int(i) => IntText(i)
    case Bool(b) => if b then "True" else "False"
  }

  /** Distinct integers format differently. */
  lemma {:induction false} IntTextInjective(i: int, j: int)
    ensures IntText(i) == IntText(j) ==> i == j
  {
    if IntText(i) == IntText(j) {
      if i < 0 && j < 0 {
        assert IntText(i)[1..] == Text.Dec(-i);
        assert IntText(j)[1..] == Text.Dec(-j);
        Text.DecInjective(-i, -j);
      } else if i >= 0 && j >= 0 {
        Text.DecInjective(i, j);
      }
    }
  }
}
