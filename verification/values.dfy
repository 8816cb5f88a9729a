/** Field values of the document store, and the few pieces of Python
    semantics the route handlers lean on: truthiness, `dict.get` with a
    default, `str()` of a value, and `str.strip()`. */
module Values {

  datatype Option<+T> = None | Some(value: T) {
    function GetOr(default: T): T {
      match this
      case Some(v) => v
      case None => default
    }
  }

  /** A scalar document field: JSON null, boolean, integer or string, or a
      server-assigned timestamp. */
  datatype Value = Null | Bool(b: bool) | Int(i: int) | Str(s: string) | Stamp(t: int)

  /** A document (or a decoded JSON object): field name to value. */
  type Doc = map<string, Value>

  /** Python truthiness of a value. */
  predicate Truthy(v: Value) {
    match v
    case Null => false
    case Bool(b) => b
    case Int(i) => i != 0
    case Str(s) => s != ""
    case Stamp(_) => true
  }

  /** `d.get(k, default)` */
  function GetOr(d: Doc, k: string, default: Value): Value {
    if k in d then d[k] else default
  }

  /** `d.get(k)`: a missing key reads as `None`. */
  function Get(d: Doc, k: string): Value {
    GetOr(d, k, Null)
  }

  /** The integer a value stands for in Python arithmetic (`bool` is an `int`
      subclass); `None` for values that arithmetic rejects with a TypeError. */
  function Num(v: Value): Option<int> {
    match v
    case Int(i) => Some(i)
    case Bool(b) => Some(if b then 1 else 0)
    case _ => None
  }

  function DigitChar(d: nat): char
    requires d < 10
  {
    "0123456789"[d]
  }

  /** Decimal spelling of a natural number. */
  function NatToString(n: nat): (r: string)
    ensures |r| > 0
    decreases n
  {
    if n < 10 then [DigitChar(n)] else NatToString(n / 10) + [DigitChar(n % 10)]
  }

  /** `str(v)` as an f-string renders it. */
  function PyStr(v: Value): string {
    match v
    case Null => "None"
    case Bool(b) => if b then "True" else "False"
    case Int(i) => if i < 0 then "-" + NatToString(-i) else NatToString(i)
    case Str(s) => s
    case Stamp(t) => if t < 0 then "-" + NatToString(-t) else NatToString(t)
  }

  /** The characters Python's `str.isspace` accepts. */
  predicate IsSpace(c: char) {
    var k := c as int;
    (9 <= k <= 13) || (28 <= k <= 32) || k == 133 || k == 160 || k == 5760
    || (8192 <= k <= 8202) || k == 8232 || k == 8233 || k == 8239 || k == 8287 || k == 12288
  }

  function TrimLeft(s: string): (r: string)
    ensures |r| <= |s| && r == s[|s| - |r|..]
    ensures r == [] || !IsSpace(r[0])
    ensures forall i :: 0 <= i < |s| - |r| ==> IsSpace(s[i])
  {
    if |s| > 0 && IsSpace(s[0]) then TrimLeft(s[1..]) else s
  }

  function TrimRight(s: string): (r: string)
    ensures |r| <= |s| && r == s[..|r|]
    ensures r == [] || !IsSpace(r[|r| - 1])
    ensures forall i :: |r| <= i < |s| ==> IsSpace(s[i])
  {
    if |s| > 0 && IsSpace(s[|s| - 1]) then TrimRight(s[..|s| - 1]) else s
  }

  /** `s.strip()`: drops leading and trailing whitespace. */
  function Strip(s: string): string {
    TrimRight(TrimLeft(s))
  }

  /** Stripping twice is stripping once. */
  lemma StripIdempotent(s: string)
    ensures Strip(Strip(s)) == Strip(s)
  {
    var a := TrimLeft(s);
    var r := TrimRight(a);
    if |r| > 0 {
      assert r[0] == a[0];
    }
    assert TrimLeft(r) == r;
  }
}
