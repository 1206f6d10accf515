/** The small slice of JavaScript's value universe that the scheduler can
    observe: what `typeof` reports, what is truthy, and which own properties
    an object carries. Functions are known only by an identity. */
module JsValues {

  datatype Option<+T> = None | Some(value: T)

  /** A JavaScript value. Objects are represented by their own properties;
      the prototype chain and object identity are not modelled. */
  datatype Value =
    | Undefined
    | Null
    | Bool(b: bool)
    | Num(x: real)      // every finite number
    | NaN
    | Str(s: string)
    | Fn(ref: nat)      // a callable, by identity
    | Obj(props: map<string, Value>)

  /** JavaScript truthiness (`if (v)`, `!v`, `a || b`). */
  predicate Truthy(v: Value)
  {
    match v
    case Undefined => false
    case Null => false
    case Bool(b) => b
    case Num(x) => x != 0.0
    case NaN => false
    case Str(s) => |s| > 0
    case Fn(_) => true
    case Obj(_) => true
  }

  /** `typeof v === "number"` */
  predicate IsNumber(v: Value)
  {
    v.Num? || v.NaN?
  }

  /** `typeof v === "function"` */
  predicate IsFunction(v: Value)
  {
    v.Fn?
  }

  /** `Object.prototype.hasOwnProperty.call(props, key)` */
  predicate HasOwn(props: map<string, Value>, key: string)
  {
    key in props
  }

  /** Property read `obj[key]`: the own property, or undefined. */
  function Prop(props: map<string, Value>, key: string): (r: Value)
    ensures key in props ==> r == props[key]
    ensures key !in props ==> r == Undefined
  {
    if key in props then props[key] else Undefined
  }

  /** Property read `v[key]` on any value that is not null or undefined:
      functions and primitives carry no own properties of interest. */
  function PropOf(v: Value, key: string): (r: Value)
    ensures v.Obj? && key in v.props ==> r == v.props[key]
    ensures !v.Obj? ==> r == Undefined
  {
    if v.Obj? then Prop(v.props, key) else Undefined
  }
}
