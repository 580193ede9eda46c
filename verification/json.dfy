/** Decoded JSON values and the handful of Python operations the core
    applies to them: truthiness, `key in v`, `v[key]`, `v[0]`, `len(v)`,
    `v.get(key, default)` and `str(v)`. Each operation reports the
    exception Python raises when the value has the wrong type. */
module Json {
  import opened Wrappers
  import opened Errors
  import opened Strings
  import opened Numerals

  /** A value as `json.loads` returns it. Numbers are integers only; an
      object keeps its entries in document order. */
  datatype Json =
    | JNull
    | JBool(b: bool)
    | JInt(n: int)
    | JStr(s: string)
    | JArr(elems: seq<Json>)
    | JObj(fields: seq<(string, Json)>)

  /** `type(v).__name__`. */
  function TypeName(j: Json): string {
    match j
    case JNull => "NoneType"
    case JBool(_) => "bool"
    case JInt(_) => "int"
    case JStr(_) => "str"
    case JArr(_) => "list"
    case JObj(_) => "dict"
  }

  /** `bool(v)`: `None`, `False`, `0` and empty containers are false. */
  predicate Truthy(j: Json) {
    match j
    case JNull => false
    case JBool(b) => b
    case JInt(n) => n != 0
    case JStr(s) => |s| > 0
    case JArr(e) => |e| > 0
    case JObj(f) => |f| > 0
  }

  /** The value stored under `key`; a key repeated in the document keeps
      its last value, as `json.loads` does. */
  function Lookup(fields: seq<(string, Json)>, key: string): (r: Option<Json>)
    ensures r.None? <==> forall i :: 0 <= i < |fields| ==> fields[i].0 != key
    ensures r.Some? ==> exists i :: (0 <= i < |fields| && fields[i] == (key, r.value) &&
                                     forall k :: i < k < |fields| ==> fields[k].0 != key)
  {
    if |fields| == 0 then None
    else if fields[|fields| - 1].0 == key then Some(fields[|fields| - 1].1)
    else Lookup(fields[..|fields| - 1], key)
  }

  function NotSubscriptable(j: Json): Exception {
    Raised(TypeError, "'" + TypeName(j) + "' object is not subscriptable")
  }

  /** `key in v` for a string `key`. */
  function In(key: string, j: Json): (r: Result<bool, Exception>)
    ensures j.JObj? ==> r == Ok(Lookup(j.fields, key).Some?)
    ensures j.JStr? ==> r == Ok(Contains(j.s, key))
    ensures j.JArr? ==> r == Ok(JStr(key) in j.elems)
    ensures r.Err? <==> !(j.JObj? || j.JArr? || j.JStr?)
  {
    match j
    case JObj(f) => Ok(Lookup(f, key).Some?)
    case JArr(e) => Ok(JStr(key) in e)
    case JStr(s) => Ok(Contains(s, key))
    case _ => Err(Raised(TypeError, "argument of type '" + TypeName(j) + "' is not iterable"))
  }

  /** `v[key]` for a string `key`. */
  function Item(j: Json, key: string): (r: Result<Json, Exception>)
    ensures r.Ok? <==> j.JObj? && Lookup(j.fields, key).Some?
    ensures r.Ok? ==> r.value == Lookup(j.fields, key).value
    ensures j.JObj? && r.Err? ==> r.error == Raised(KeyError, "'" + key + "'")
  {
    match j
    case JObj(f) =>
      (match Lookup(f, key)
       case Some(v) => Ok(v)
       case None => Err(Raised(KeyError, "'" + key + "'")))
    case JArr(_) => Err(Raised(TypeError, "list indices must be integers or slices, not str"))
    case JStr(_) => Err(Raised(TypeError, "string indices must be integers, not 'str'"))
    case _ => Err(NotSubscriptable(j))
  }

  /** `v[0]`. Object keys are strings, so an object has no entry `0`. */
  function First(j: Json): (r: Result<Json, Exception>)
    ensures j.JArr? && |j.elems| > 0 ==> r == Ok(j.elems[0])
    ensures j.JStr? && |j.s| > 0 ==> r == Ok(JStr([j.s[0]]))
    ensures r.Ok? ==> (j.JArr? || j.JStr?) && Truthy(j)
  {
    match j
    case JArr(e) => if |e| > 0 then Ok(e[0]) else Err(Raised(IndexError, "list index out of range"))
    case JStr(s) => if |s| > 0 then Ok(JStr([s[0]])) else Err(Raised(IndexError, "string index out of range"))
    case JObj(_) => Err(Raised(KeyError, "0"))
    case _ => Err(NotSubscriptable(j))
  }

  /** `len(v)`. */
  function Len(j: Json): (r: Result<nat, Exception>)
    ensures r.Ok? <==> j.JArr? || j.JStr? || j.JObj?
    ensures r.Ok? ==> (r.value > 0 <==> Truthy(j))
  {
    match j
    case JArr(e) => Ok(|e|)
    case JStr(s) => Ok(|s|)
    case JObj(f) => Ok(|f|)
    case _ => Err(Raised(TypeError, "object of type '" + TypeName(j) + "' has no len()"))
  }

  /** `v.get(key, default)`: only a `dict` has `get`. */
  function Get(j: Json, key: string, default: Json): (r: Result<Json, Exception>)
    ensures r.Ok? <==> j.JObj?
    ensures j.JObj? ==> r.value == Lookup(j.fields, key).GetOr(default)
    ensures r.Err? ==> r.error.Raised? && r.error.kind == AttributeError
  {
    match j
    case JObj(f) => Ok(Lookup(f, key).GetOr(default))
    case _ => Err(Raised(AttributeError, "'" + TypeName(j) + "' object has no attribute 'get'"))
  }

  /** `repr(v)`. Strings are put in single quotes without escaping. */
  function Repr(j: Json): string
    decreases j, 1, 0
  {
    match j
    case JNull => "None"
    case JBool(b) => if b then "True" else "False"
    case JInt(n) => IntToString(n)
    case JStr(s) => "'" + s + "'"
    case JArr(e) => "[" + ReprElems(j, 0) + "]"
    case JObj(f) => "{" + ReprFields(j, 0) + "}"
  }

  /** The list items from index `i` on, joined by `", "`. */
  function ReprElems(j: Json, i: nat): string
    requires j.JArr?
    decreases j, 0, |j.elems| - i
  {
    if i >= |j.elems| then ""
    else (if i > 0 then ", " else "") + Repr(j.elems[i]) + ReprElems(j, i + 1)
  }

  /** The dict entries from index `i` on, as `'key': value`, joined by `", "`. */
  function ReprFields(j: Json, i: nat): string
    requires j.JObj?
    decreases j, 0, |j.fields| - i
  {
    if i >= |j.fields| then ""
    else
      (if i > 0 then ", " else "") + "'" + j.fields[i].0 + "': " + Repr(j.fields[i].1) + ReprFields(j, i + 1)
  }

  /** `str(v)`: a string is shown as itself, anything else as its `repr`. */
  function Str(j: Json): string {
    if j.JStr? then j.s else Repr(j)
  }
}
