/**
 * Decoded JSON values, and how Python, PHP and JavaScript each read them: truthiness, key
 * lookup, and conversion to a string.  An object is an ordered list of bindings (Python dicts, PHP
 * arrays and JavaScript objects all keep insertion order); a lookup takes the first binding of
 * the key.  Numbers are integers.
 */
module Json {
  import opened Wrappers
  import opened Text

  datatype Value =
    | Null
    | Bool(b: bool)
    | Num(n: int)
    | Str(s: string)
    | Arr(items: seq<Value>)
    | Obj(fields: seq<(string, Value)>)

  /** The value bound to `key`. */
  function Lookup(fields: seq<(string, Value)>, key: string): Option<Value> {
    if fields == [] then None
    else if fields[0].0 == key then Some(fields[0].1)
    else Lookup(fields[1..], key)
  }

  /** A lookup fails exactly when no binding has the key, and succeeds with a bound value. */
  lemma {:induction false} LookupSpec(fields: seq<(string, Value)>, key: string)
    ensures Lookup(fields, key).None? <==> forall i :: 0 <= i < |fields| ==> fields[i].0 != key
    ensures Lookup(fields, key).Some? ==> exists i :: 0 <= i < |fields| && fields[i] == (key, Lookup(fields, key).value)
  {
    if fields != [] && fields[0].0 != key {
      LookupSpec(fields[1..], key);
      if Lookup(fields, key).Some? {
        var i :| 0 <= i < |fields[1..]| && fields[1..][i] == (key, Lookup(fields, key).value);
        assert fields[i + 1] == fields[1..][i];
      }
    }
  }

  /** Bindings of other keys before position `n` do not affect a lookup. */
  lemma LookupSkip(fields: seq<(string, Value)>, n: nat, key: string)
    requires n <= |fields|
    requires forall i :: 0 <= i < n ==> fields[i].0 != key
    ensures Lookup(fields, key) == Lookup(fields[n..], key)
    decreases n
  {
    if n > 0 {
      LookupSkip(fields[1..], n - 1, key);
      assert fields[1..][n - 1..] == fields[n..];
    }
  }

  // ---------------------------------------------------------------- Python

  /** Python truthiness: `None`, `False`, `0`, `""`, `[]` and `{}` are false. */
  predicate PyTruthy(v: Value) {
    match v
    case Null => false
    case Bool(b) => b
    case Num(n) => n != 0
    case Str(s) => s != ""
    case Arr(items) => items != []
    case Obj(fields) => fields != []
  }

  /** `d.get(key)` on a dict: `None` when the key is absent. */
  function PyGet(fields: seq<(string, Value)>, key: string): Value {
    match Lookup(fields, key)
    case Some(v) => v
    case None => Null
  }

  /** `d.get(key, default)`: the default only when the key is absent. */
  function PyGetOr(fields: seq<(string, Value)>, key: string, default: Value): (r: Value)
    ensures Lookup(fields, key).Some? ==> r == Lookup(fields, key).value
    ensures Lookup(fields, key).None? ==> r == default
  {
    match Lookup(fields, key)
    case Some(v) => v
    case None => default
  }

  /** A Python `str` argument that may be `None`, as JSON. */
  function TextOrNull(s: Option<string>): Value {
    match s
    case Some(x) => Str(x)
    case None => Null
  }

  /** `repr(v)`; string quoting and escaping are simplified to single quotes around the text. */
  function PyRepr(v: Value): (r: string)
    ensures |r| >= 1
    decreases v
  {
    match v
    case Null => "None"
    case Bool(b) => if b then "True" else "False"
    case Num(n) => IntToDecimal(n)
    case Str(s) => "'" + s + "'"
    case Arr(items) =>
      "[" + Join(", ", seq(|items|, i requires 0 <= i < |items| => PyRepr(items[i]))) + "]"
    case Obj(fields) =>
      "{" + Join(", ", seq(|fields|, i requires 0 <= i < |fields| =>
                              "'" + fields[i].0 + "': " + PyRepr(fields[i].1))) + "}"
  }

  /** `str(v)`. */
  function PyStr(v: Value): (r: string)
    ensures PyTruthy(v) ==> r != ""
    ensures v.Str? ==> r == v.s
  {
    if v.Str? then v.s else PyRepr(v)
  }

  // ---------------------------------------------------------------- PHP

  /** PHP's `empty()`: `null`, `false`, `0`, `""`, `"0"` and the empty array. */
  predicate PhpEmpty(v: Value) {
    match v
    case Null => true
    case Bool(b) => !b
    case Num(n) => n == 0
    case Str(s) => s == "" || s == "0"
    case Arr(items) => items == []
    case Obj(fields) => fields == []
  }

  /** PHP's `is_array()`: decoded JSON lists and objects are both PHP arrays. */
  predicate PhpIsArray(v: Value) {
    v.Arr? || v.Obj?
  }

  /**
   * `$v[$key]` read under `isset` or `??`: the bound value when `$v` is an array with
   * that string key and the value is not `null`.  A list has only integer keys, and
   * a string offset with a non-numeric key is not set.
   */
  function PhpIndex(v: Value, key: string): (r: Option<Value>)
    ensures r.Some? ==> v.Obj? && r.value != Null && Lookup(v.fields, key) == Some(r.value)
    ensures r.None? ==> !v.Obj? || Lookup(v.fields, key) in {None, Some(Null)}
  {
    if v.Obj? then
      match Lookup(v.fields, key)
      case Some(x) => if x.Null? then None else Some(x)
      case None => None
    else None
  }

  /** `$v[$outer][$inner] ?? null`. */
  function PhpIndex2(v: Value, outer: string, inner: string): Option<Value> {
    match PhpIndex(v, outer)
    case Some(x) => PhpIndex(x, inner)
    case None => None
  }

  /** `$a ?? $b ?? ...`: the first operand that is set and not null. */
  function Coalesce(operands: seq<Option<Value>>): (r: Option<Value>)
    ensures r.None? <==> forall i :: 0 <= i < |operands| ==> operands[i].None?
    ensures r.Some? ==> exists i :: 0 <= i < |operands| && operands[i] == r
                          && forall j :: 0 <= j < i ==> operands[j].None?
  {
    if operands == [] then None
    else if operands[0].Some? then operands[0]
    else Coalesce(operands[1..])
  }

  /** `(string)$v`; an array converts to the text "Array". */
  function PhpToString(v: Value): string {
    match v
    case Null => ""
    case Bool(b) => if b then "1" else ""
    case Num(n) => IntToDecimal(n)
    case Str(s) => s
    case Arr(_) => "Array"
    case Obj(_) => "Array"
  }

  /**
   * A WordPress option as PHP sees it: `get_option` returns `false` for an option that
   * was never saved.
   */
  function OptionValue(o: Option<string>): Value {
    match o
    case Some(s) => Str(s)
    case None => Bool(false)
  }

  // ---------------------------------------------------------------- JavaScript

  /** JavaScript truthiness: every array and object is truthy, even an empty one. */
  predicate JsTruthy(v: Value) {
    match v
    case Null => false
    case Bool(b) => b
    case Num(n) => n != 0
    case Str(s) => s != ""
    case Arr(_) => true
    case Obj(_) => true
  }

  /** `v.key`; a missing property (`undefined`) is modelled as `Null`. */
  function JsGet(v: Value, key: string): Value {
    if v.Obj? then
      match Lookup(v.fields, key)
      case Some(x) => x
      case None => Null
    else Null
  }

  /** `a || b`. */
  function JsOr(a: Value, b: Value): Value {
    if JsTruthy(a) then a else b
  }
}
