/**
 * The few pieces of JavaScript value semantics the controllers and the
 * components depend on: how a field of a parsed request body looks after
 * destructuring, which values are falsy, and the three operators the update
 * merge is built from (`||`, `??` and `!== undefined ? :`).
 */
module Js {
  import opened Wrappers

  /** A MongoDB ObjectId, or any other document id, as its text. */
  type Id = string

  /** A request-body field after `const { f } = req.body`:
      `undefined` (key missing), `null`, or a value. */
  datatype Input<T> = Absent | Null | Value(v: T)

  /** JavaScript truthiness for a field whose type has exactly one falsy value:
      `""` for strings and ids, `0` for numbers, `false` for booleans. */
  predicate Truthy<T(==)>(x: Input<T>, falsy: T) {
    x.Value? && x.v != falsy
  }

  /** `x || fallback` */
  function OrElse<T(==)>(x: Input<T>, falsy: T, fallback: T): T {
    if Truthy(x, falsy) then x.v else fallback
  }

  /** `x || fallback` where the fallback is a stored field that may be null. */
  function OrElseStored<T(==)>(x: Input<T>, falsy: T, fallback: Option<T>): Option<T> {
    if Truthy(x, falsy) then Some(x.v) else fallback
  }

  /** `x ?? fallback` */
  function Coalesce<T>(x: Input<T>, fallback: T): T {
    if x.Value? then x.v else fallback
  }

  /** `x !== undefined ? x : fallback`, where storing `null` clears the field. */
  function IfDefined<T>(x: Input<T>, fallback: Option<T>): Option<T> {
    match x
    case Absent => fallback
    case Null => None
    case Value(v) => Some(v)
  }

  /** `x || null` */
  function OrNull<T(==)>(x: Input<T>, falsy: T): Option<T> {
    if Truthy(x, falsy) then Some(x.v) else None
  }

  /** A field stored as given: `undefined` and `null` both leave it unset. */
  function Stored<T>(x: Input<T>): Option<T> {
    if x.Value? then Some(x.v) else None
  }

  /** Truthiness of a stored, possibly-null field. */
  predicate TruthyStored<T(==)>(x: Option<T>, falsy: T) {
    x.Some? && x.value != falsy
  }
}
