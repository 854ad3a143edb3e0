/** The slice of JavaScript's value model that the tween engine observes:
    the values a configuration record may hold, `typeof v === 'number'`,
    truthiness, and plain objects with ordered own keys. */
module Js {

  /** A JavaScript value. Numbers are modelled as reals, so NaN and the
      infinities are not represented. Objects, arrays and functions are
      `Other(ref)`: their identity is kept, so `Object.is` tells two apart,
      but their contents are not. */
  datatype JsValue = Num(n: real) | Str(s: string) | Bool(b: bool) | Null | Undefined | Other(ref: nat)

  /** `typeof v === 'number'`. */
  predicate IsNumber(v: JsValue)
    ensures IsNumber(v) <==> exists x: real :: v == Num(x)
    ensures v.Undefined? ==> !IsNumber(v)
  {
    v.Num?
  }

  /** JavaScript's ToBoolean, as used by `cond ? a : b`. */
  function Truthy(v: JsValue): (t: bool)
    ensures v.Undefined? || v.Null? ==> !t
    ensures v == Bool(true) ==> t
    ensures v == Num(0.0) || v == Str("") || v == Bool(false) ==> !t
    ensures v.Other? ==> t
    ensures t <==> !(v.Undefined? || v.Null? || v == Num(0.0) || v == Str("") || v == Bool(false))
  {
    match v
    case Num(x) => x != 0.0
    case Str(s) => s != ""
    case Bool(b) => b
    case Null => false
    case Undefined => false
    case Other(_) => true
  }

  /** A plain object: `keys` is what `Object.keys` returns, in order, and
      `props` holds the value of each own property. */
  datatype Object = Object(keys: seq<string>, props: map<string, JsValue>)

  /** `o[k]`: the property's value, or `undefined` when `o` has no such key. */
  function Get(o: Object, k: string): JsValue {
    if k in o.props then o.props[k] else Undefined
  }
}
