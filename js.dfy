/** The fragment of JavaScript value semantics the front-end's logic relies on:
    truthiness (`!!x`, `if (x)`), `||`, strict equality with a literal, property
    access `a.b` (which throws a TypeError on null and undefined) and optional
    chaining `a?.b`. */
module Js {

  datatype Option<T> = None | Some(value: T)

  /** A JavaScript value as it can arrive in a JSON body or an error object.
      Numbers are reals: JSON numbers are finite, and `-0` and `0` are the same
      real, as they are the same under `===`. */
  datatype JsValue =
    | Undefined
    | Null
    | Bool(b: bool)
    | Num(n: real)
    | Str(s: string)
    | Obj(fields: map<string, JsValue>)

  /** The outcome of evaluating an expression: a value, or a thrown TypeError. */
  datatype Completion = Normal(value: JsValue) | ThrowsTypeError

  /** The state a promise settles in. A handler that throws rejects with the
      TypeError it threw. */
  datatype Settlement = Fulfilled(value: JsValue) | Rejected(reason: JsValue) | RejectedTypeError

  predicate IsNullish(v: JsValue) {
    v.Undefined? || v.Null?
  }

  /** ToBoolean: the falsy values are `undefined`, `null`, `false`, `0` and `""`. */
  predicate Truthy(v: JsValue) {
    match v
    case Undefined => false
    case Null => false
    case Bool(b) => b
    case Num(n) => n != 0.0
    case Str(s) => s != ""
    case Obj(_) => true
  }

  /** `a || b`: the left operand when it is truthy, otherwise the right one. */
  function Or(a: JsValue, b: JsValue): (r: JsValue)
    ensures Truthy(a) ==> r == a
    ensures !Truthy(a) ==> r == b
    ensures Truthy(r) <==> Truthy(a) || Truthy(b)
  {
    if Truthy(a) then a else b
  }

  /** `v.key`. Reading a property of null or undefined throws a TypeError; a
      missing property of an object reads as undefined. Properties that the
      prototypes of primitive values carry are not modelled: on a primitive
      every key read here reads as undefined. */
  function Get(v: JsValue, key: string): (c: Completion)
    ensures c.ThrowsTypeError? <==> IsNullish(v)
    ensures v.Obj? && key in v.fields ==> c == Normal(v.fields[key])
    ensures (v.Obj? && key !in v.fields) || (!v.Obj? && !IsNullish(v)) ==> c == Normal(Undefined)
  {
    match v
    case Undefined => ThrowsTypeError
    case Null => ThrowsTypeError
    case Obj(f) => Normal(if key in f then f[key] else Undefined)
    case _ => Normal(Undefined)
  }

  /** `v?.key`: short-circuits to undefined on a nullish `v`, so it never throws. */
  function OptionalGet(v: JsValue, key: string): (r: JsValue)
    ensures IsNullish(v) ==> r == Undefined
    ensures !IsNullish(v) ==> Get(v, key) == Normal(r)
  {
    if IsNullish(v) then Undefined else Get(v, key).value
  }
}
