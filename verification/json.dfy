/**
 * Parsed JSON values and the few Python operations the gateway applies to them:
 * `v[key]`, `v[i]` and iteration (as `zip` performs it). Each operation fails the
 * way the Python interpreter does, with a KeyError, IndexError or TypeError.
 */
module JsonValue {

  datatype Option<+T> = None | Some(value: T) {
    function GetOr(default: T): T {
      match this
      case Some(v) => v
      case None => default
    }
  }

  /** A value as `json.loads` or a Python dict/list literal of JSON data gives it.
      Objects keep their key order, as Python dicts do. Non-integral numbers are
      opaque: the gateway only passes them through. */
  datatype Json =
    | JNull
    | JBool(b: bool)
    | JInt(i: int)
    | JReal(lexeme: string)
    | JStr(s: string)
    | JArr(items: seq<Json>)
    | JObj(fields: seq<(string, Json)>)

  /** The Python exceptions that the modelled code can raise. `HttpxError` stands
      for any exception the HTTP client raises instead of answering: a connection
      failure, its default timeout, or a string it cannot use as a URL. */
  datatype PyError =
    | KeyError(key: Json)
    | IndexError
    | TypeError
    | ValueError(message: string)
    | HttpxError

  /** The exceptions a subscript or an iteration of parsed JSON can raise. */
  predicate IsSubscriptError(e: PyError) {
    e.KeyError? || e == IndexError || e == TypeError
  }

  /** A computation that either yields a value or raises. */
  datatype Result<+T> = Ok(value: T) | Err(error: PyError) {
    predicate IsFailure() {
      Err?
    }

    function PropagateFailure<U>(): Result<U>
      requires Err?
    {
      Err(error)
    }

    function Extract(): T
      requires Ok?
    {
      value
    }
  }

  /** Position of the first field named `key`, or |fields| when there is none. */
  function KeyIndex(fields: seq<(string, Json)>, key: string): (k: nat)
    ensures k <= |fields|
    ensures forall j :: 0 <= j < k ==> fields[j].0 != key
    ensures k < |fields| ==> fields[k].0 == key
  {
    if fields == [] then 0
    else if fields[0].0 == key then 0
    else 1 + KeyIndex(fields[1..], key)
  }

  /** `d.get(key)` on a dict given by its fields. */
  function Lookup(fields: seq<(string, Json)>, key: string): (r: Option<Json>)
    ensures r.None? <==> forall j :: 0 <= j < |fields| ==> fields[j].0 != key
    ensures r.Some? ==> (key, r.value) in fields
  {
    var k := KeyIndex(fields, key);
    if k < |fields| then Some(fields[k].1) else None
  }

  /** `v[key]` with a string key. */
  function GetItem(v: Json, key: string): (r: Result<Json>)
    ensures r.Ok? <==> v.JObj? && exists j :: 0 <= j < |v.fields| && v.fields[j].0 == key
    ensures r.Ok? ==> (key, r.value) in v.fields
    ensures r.Err? ==> r.error == if v.JObj? then KeyError(JStr(key)) else TypeError
  {
    match v
    case JObj(fields) =>
      (match Lookup(fields, key)
       case Some(x) => Ok(x)
       case None => Err(KeyError(JStr(key))))
    case _ => Err(TypeError)
  }

  /** `v[i]` with a non-negative integer index: a list element, a one-character
      string, a KeyError on a dict (JSON keys are strings), else a TypeError. */
  function GetIndex(v: Json, i: nat): (r: Result<Json>)
    ensures r.Ok? <==> (v.JArr? && i < |v.items|) || (v.JStr? && i < |v.s|)
    ensures v.JArr? && i < |v.items| ==> r.value == v.items[i]
    ensures v.JStr? && i < |v.s| ==> r.value == JStr([v.s[i]])
    ensures r.Err? ==> IsSubscriptError(r.error) && (v.JArr? || v.JStr? <==> r.error == IndexError)
    ensures v.JObj? ==> r == Err(KeyError(JInt(i)))
    ensures !(v.JArr? || v.JStr? || v.JObj?) ==> r == Err(TypeError)
  {
    match v
    case JArr(items) => if i < |items| then Ok(items[i]) else Err(IndexError)
    case JStr(s) => if i < |s| then Ok(JStr([s[i]])) else Err(IndexError)
    case JObj(_) => Err(KeyError(JInt(i)))
    case _ => Err(TypeError)
  }

  /** `v[k0][k1]...` for a sequence of string keys, failing at the first bad step. */
  function GetPath(v: Json, keys: seq<string>): (r: Result<Json>)
    ensures keys == [] ==> r == Ok(v)
    ensures r.Err? ==> r.error == TypeError || exists k :: k in keys && r.error == KeyError(JStr(k))
    decreases |keys|
  {
    if keys == [] then Ok(v)
    else
      var x :- GetItem(v, keys[0]);
      GetPath(x, keys[1..])
  }

  /** Following `a + b` is following `a`, then `b` from where `a` led; the first
      failing step decides the error. */
  lemma {:induction false} GetPathConcat(v: Json, a: seq<string>, b: seq<string>)
    ensures GetPath(v, a + b) ==
              (var r := GetPath(v, a); if r.Ok? then GetPath(r.value, b) else r)
    decreases |a|
  {
    if a != [] {
      assert (a + b)[0] == a[0] && (a + b)[1..] == a[1..] + b;
      var x := GetItem(v, a[0]);
      if x.Ok? {
        GetPathConcat(x.value, a[1..], b);
      }
    } else {
      assert a + b == b;
    }
  }

  /** `iter(v)`: list elements, the characters of a string, or the keys of a dict. */
  function Iterate(v: Json): (r: Result<seq<Json>>)
    ensures r.Ok? <==> v.JArr? || v.JStr? || v.JObj?
    ensures v.JArr? ==> r == Ok(v.items)
    ensures v.JStr? ==> r.Ok? && |r.value| == |v.s| &&
                        forall i :: 0 <= i < |v.s| ==> r.value[i] == JStr([v.s[i]])
    ensures v.JObj? ==> r.Ok? && |r.value| == |v.fields| &&
                        forall i :: 0 <= i < |v.fields| ==> r.value[i] == JStr(v.fields[i].0)
  {
    match v
    case JArr(items) => Ok(items)
    case JStr(s) => Ok(seq(|s|, i requires 0 <= i < |s| => JStr([s[i]])))
    case JObj(fields) => Ok(seq(|fields|, i requires 0 <= i < |fields| => JStr(fields[i].0)))
    case _ => Err(TypeError)
  }
}
