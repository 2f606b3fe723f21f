/**
 * The JavaScript values the client code inspects: the primitive kinds, with
 * NaN apart from the other numbers, and objects seen only through their keys
 * (insertion order) or their JSON text.
 */
module Js {

  datatype JsValue =
    | Undefined
    | Null
    | Bool(b: bool)
    | Num(n: real)
    | NaN
    | Str(s: string)
    | Obj(fields: seq<(string, JsValue)>, json: string)

  /** Boolean(v): false, 0, NaN, "", null and undefined are falsy. */
  predicate Truthy(v: JsValue)
  {
    match v
    case Undefined => false
    case Null => false
    case Bool(b) => b
    case Num(n) => n != 0.0
    case NaN => false
    case Str(s) => s != ""
    case Obj(_, _) => true
  }

  /** `a || b`: the first operand when it is truthy, otherwise the second. */
  function Or(a: JsValue, b: JsValue): (r: JsValue)
    ensures Truthy(r) <==> Truthy(a) || Truthy(b)
    ensures Truthy(a) ==> r == a
  {
    if Truthy(a) then a else b
  }

  /** Object.keys: the field names in insertion order. */
  function Keys(fields: seq<(string, JsValue)>): (ks: seq<string>)
    ensures |ks| == |fields|
    ensures forall i :: 0 <= i < |fields| ==> ks[i] == fields[i].0
  {
    seq(|fields|, i requires 0 <= i < |fields| => fields[i].0)
  }

  /** obj[key]: the first field of that name, or undefined. */
  function Get(fields: seq<(string, JsValue)>, key: string): (v: JsValue)
    ensures (forall i :: 0 <= i < |fields| ==> fields[i].0 != key) ==> v == Undefined
    ensures |fields| > 0 && fields[0].0 == key ==> v == fields[0].1
  {
    if fields == [] then Undefined
    else if fields[0].0 == key then fields[0].1
    else Get(fields[1..], key)
  }
}
