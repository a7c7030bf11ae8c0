/** Java's 32-bit `int`, its wrap-around, and the narrowing conversions the controller uses. */
module JavaInt {
  import opened Outcomes
  import opened Decimal

  const INT_MIN: int := -0x8000_0000
  const INT_MAX: int := 0x7FFF_FFFF
  const TWO_32: int := 0x1_0000_0000

  predicate IsInt32(x: int) { INT_MIN <= x <= INT_MAX }

  /** The `int` that Java's two's-complement arithmetic yields for the exact value `x`.
      Wrapping commutes with `+`, `-` and `*`, so wrapping the exact result of an
      expression equals wrapping after every operation. */
  function Wrap32(x: int): (r: int)
    ensures IsInt32(r)
    ensures (r - x) % TWO_32 == 0
    ensures IsInt32(x) ==> r == x
  {
    (x - INT_MIN) % TWO_32 + INT_MIN
  }

  /** `Math.abs(int)`: the negation wraps, so the most negative `int` stays negative. */
  function Abs32(x: int): (r: int)
    requires IsInt32(x)
    ensures IsInt32(r)
    ensures x != INT_MIN ==> r >= 0 && (r == x || r == -x)
    ensures x == INT_MIN ==> r == INT_MIN
  {
    if x < 0 then Wrap32(-x) else x
  }

  /** A cast from a floating value to an integer: rounds toward zero. */
  function TruncToInt(x: real): (r: int)
    ensures 0.0 <= x ==> 0 <= r && r as real <= x < r as real + 1.0
    ensures x < 0.0 ==> r <= 0 && x <= r as real < x + 1.0
  {
    if x >= 0.0 then x.Floor else -((-x).Floor)
  }

  lemma TruncMonotone(x: real, y: real)
    requires x <= y
    ensures TruncToInt(x) <= TruncToInt(y)
  {
  }

  /** `Integer.parseInt` on a string of ASCII digits and '-': the decimal value when the
      text is well formed and the value fits in an `int`, a NumberFormatException otherwise. */
  function ParseInt32(s: string): (r: Option<int>)
    ensures r.Some? ==> IsInt32(r.value) && ParseDecimal(s) == r
    ensures r.None? ==> ParseDecimal(s).None? || !IsInt32(ParseDecimal(s).value)
  {
    match ParseDecimal(s)
    case None => None
    case Some(v) => if IsInt32(v) then Some(v) else None
  }
}
