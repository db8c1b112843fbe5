/** Cell values as the strategy's data frames hold them.

    A float column of a pandas data frame may hold NaN; the model writes it as
    `None`. Comparisons against NaN are false and arithmetic with NaN yields NaN.
    The one column computed by a division, the trend trigger factor, may also
    hold an infinity, so it is modelled by `Float`. */
module Values {

  /** `None` is pandas' NaN (or a missing value in general). */
  datatype Option<+T> = None | Some(value: T)

  /** A Python dict lookup: the value found, or the `KeyError` it raises. */
  datatype Outcome<+T> = Ok(value: T) | KeyError(key: string)

  /** `a > b` on two float cells: false as soon as either cell is NaN. */
  predicate Gt(a: Option<real>, b: Option<real>) {
    a.Some? && b.Some? && a.value > b.value
  }

  /** `a < b` on two float cells. */
  predicate Lt(a: Option<real>, b: Option<real>) {
    Gt(b, a)
  }

  /** `a + b` on two float cells. */
  function Add(a: Option<real>, b: Option<real>): Option<real> {
    if a.Some? && b.Some? then Some(a.value + b.value) else None
  }

  /** `a - b` on two float cells. */
  function Sub(a: Option<real>, b: Option<real>): Option<real> {
    if a.Some? && b.Some? then Some(a.value - b.value) else None
  }

  /** `k * a` for a constant `k`. */
  function Scale(k: real, a: Option<real>): Option<real> {
    if a.Some? then Some(k * a.value) else None
  }

  /** An IEEE-754 double as far as the model needs one: a finite value,
      a signed infinity, or NaN. */
  datatype Float = NaN | Finite(v: real) | Infinity(negative: bool)

  /** IEEE division of two finite operands. A zero divisor gives an infinity
      with the sign of the dividend, and 0/0 gives NaN; pandas raises nothing. */
  function Divide(n: real, d: real): Float {
    if d != 0.0 then Finite(n / d)
    else if n > 0.0 then Infinity(false)
    else if n < 0.0 then Infinity(true)
    else NaN
  }

  /** `x > c` for a float cell and a constant. */
  predicate Above(x: Float, c: real) {
    (x.Finite? && x.v > c) || x == Infinity(false)
  }

  /** `x < c` for a float cell and a constant. */
  predicate Below(x: Float, c: real) {
    (x.Finite? && x.v < c) || x == Infinity(true)
  }
}
