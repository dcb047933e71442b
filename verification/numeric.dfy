/** Numeric helpers for JavaScript `number` values modelled as exact reals,
    and the raw values a form field can hold before `Number()` coercion. */
module Numeric {
  import opened Wrappers

  /** `Number.isInteger` on a finite value, which zod's `.int()` checks. */
  predicate IsInteger(x: real) {
    x.Floor as real == x
  }

  /** `Math.abs`. */
  function Abs(x: real): (r: real)
    ensures r >= 0.0 && (r == x || r == -x)
  {
    if x < 0.0 then -x else x
  }

  /** A raw form value: `undefined`, typed text (what an edited number input
      holds), or a number the form was initialised with. */
  datatype Field = Undefined | Text(text: string) | Num(number: real)

  /** `Number(value)` (and `z.coerce.number()`): text goes through the
      `toNumber` parameter, which yields None where JavaScript yields NaN;
      Number(undefined) is NaN. */
  function Coerce(f: Field, toNumber: string -> Option<real>): (n: Option<real>)
    ensures f.Undefined? ==> n.None?
    ensures f.Num? ==> n == Some(f.number)
    ensures f.Text? ==> n == toNumber(f.text)
  {
    match f
    case Undefined => None
    case Text(t) => toNumber(t)
    case Num(x) => Some(x)
  }

  /** JavaScript truthiness of a raw value: `undefined`, the empty string
      and the number 0 are falsy; any other text, "0" included, is truthy. */
  predicate Truthy(f: Field) {
    match f
    case Undefined => false
    case Text(t) => t != ""
    case Num(x) => x != 0.0
  }

  /** `Number("")` is 0, as in JavaScript. */
  predicate EmptyIsZero(toNumber: string -> Option<real>) {
    toNumber("") == Some(0.0)
  }

  /** Under `Number` semantics a value whose number is not 0 is truthy. */
  lemma NonZeroIsTruthy(f: Field, toNumber: string -> Option<real>)
    requires EmptyIsZero(toNumber)
    requires Coerce(f, toNumber).Some? && Coerce(f, toNumber).value != 0.0
    ensures Truthy(f)
  {
  }
}
