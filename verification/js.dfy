/**
 * The slice of JavaScript values the node and its transport helper handle:
 * what a workflow hands in, what the payload is built from, and what the host
 * request helper hands back.
 */
module Js {

  /** A JavaScript value. Numbers are opaque: the node never computes on them. */
  datatype Value =
    | Undefined
    | Null
    | Bool(b: bool)
    | Num(n: real)
    | Str(s: string)
    | Arr(elems: seq<Value>)
    | Obj(fields: map<string, Value>)

  /** JavaScript truthiness: `undefined`, `null`, `false`, `0` and `""` are falsy. */
  predicate Truthy(v: Value)
  {
    match v
    case Undefined => false
    case Null => false
    case Bool(b) => b
    case Num(n) => n != 0.0
    case Str(s) => s != ""
    case Arr(_) => true
    case Obj(_) => true
  }

  /** The operand on which `??` falls back to its right-hand side. */
  predicate Nullish(v: Value)
  {
    v.Undefined? || v.Null?
  }

  /** `typeof v === 'object'` (which includes `null` and arrays). */
  predicate IsObjectType(v: Value)
  {
    v.Null? || v.Arr? || v.Obj?
  }

  /** `name in v` for an object value; arrays carry no named properties here. */
  predicate HasKey(v: Value, name: string)
  {
    v.Obj? && name in v.fields
  }

  /** Property access `v[name]`: `undefined` for a key the object does not carry. */
  function Get(v: Value, name: string): Value
  {
    if HasKey(v, name) then v.fields[name] else Undefined
  }

  /** The object literal `{}`. */
  const EmptyObject: Value := Obj(map[])
}
