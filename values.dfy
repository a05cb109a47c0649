/**
 * Python values as the news pipeline sees them: JSON-shaped data held in
 * dictionaries, with Python's truthiness, `dict.get`, `or` and prefix slicing.
 */
module Values {

  datatype Option<+T> = None | Some(value: T)

  /** A byte, as in Python `bytes`. */
  type Byte = b: int | 0 <= b < 256

  /** A JSON-shaped Python value (`None`, bool, int, str, list, dict). */
  datatype Value =
    | Null
    | Bool(b: bool)
    | Int(i: int)
    | Str(s: string)
    | Arr(items: seq<Value>)
    | Obj(fields: map<string, Value>)

  /** A Python `dict` with string keys. */
  type Dict = map<string, Value>

  /** Python truthiness: `None`, `False`, `0`, `""`, `[]` and `{}` are falsy. */
  predicate Truthy(v: Value) {
    match v
    case Null => false
    case Bool(b) => b
    case Int(i) => i != 0
    case Str(s) => s != ""
    case Arr(xs) => xs != []
    case Obj(m) => m != map[]
  }

  /** `d.get(k, default)`; `d.get(k)` is `Get(d, k, Null)`. */
  function Get(d: Dict, k: string, default: Value): Value {
    if k in d then d[k] else default
  }

  /** Python `a or b`. */
  function Or(a: Value, b: Value): Value {
    if Truthy(a) then a else b
  }

  /** The value is a `str` or `None`. */
  predicate TextOrNull(v: Value) {
    v.Str? || v.Null?
  }

  /** A `str`-or-`None` value as an optional string. */
  function AsOptText(v: Value): Option<string>
    requires TextOrNull(v)
  {
    if v.Str? then Some(v.s) else None
  }

  /** Python `s[:n]`: a negative `n` drops `-n` items from the end. */
  function PyPrefix<T>(s: seq<T>, n: int): (r: seq<T>)
    ensures r <= s
    ensures n >= 0 ==> |r| == if n < |s| then n else |s|
    ensures n < 0 ==> |r| == if |s| + n < 0 then 0 else |s| + n
  {
    if n >= 0 then
      (if n < |s| then s[..n] else s)
    else
      (if |s| + n < 0 then [] else s[..|s| + n])
  }

  /** Python `s[lo:hi]` for `0 <= lo <= hi`. */
  function PySlice<T>(s: seq<T>, lo: nat, hi: nat): (r: seq<T>)
    requires lo <= hi
    ensures |r| <= hi - lo
    ensures lo <= |s| ==> r == s[lo..if hi < |s| then hi else |s|]
    ensures lo >= |s| ==> r == []
  {
    if lo >= |s| then [] else s[lo..if hi < |s| then hi else |s|]
  }

  /** An HTTP GET request: the URL and the query parameters. */
  datatype Request = Request(url: string, params: map<string, Value>)
}
