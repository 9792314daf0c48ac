// Unit conversion at the configuration boundary. The source multiplies hour
// figures by 60 and keeps them in floating point; the model keeps minutes as
// integers, so an hour figure is accepted only when it is a whole number of
// minutes.

module Units {

  /** `hrs` hours is a whole number of minutes. */
  predicate IsWholeMinutes(hrs: real)
  {
    (hrs * 60.0).Floor as real == hrs * 60.0
  }

  /** Hours to minutes, exactly. */
  function HoursToMinutes(hrs: real): (m: int)
    requires IsWholeMinutes(hrs)
    ensures m as real == hrs * 60.0
  {
    (hrs * 60.0).Floor
  }

  /** A floating-point figure: a finite value, or the infinity or NaN that a
      division by zero yields and that any further arithmetic keeps. */
  datatype Figure = Finite(value: real) | NonFinite

  /** `x / d` in floating point: finite exactly when the divisor is not zero,
      and then the exact quotient. */
  function Divide(x: real, d: real): (f: Figure)
    ensures f.Finite? <==> d != 0.0
    ensures f.Finite? ==> f.value * d == x
  {
    if d == 0.0 then NonFinite else Finite(x / d)
  }

  /** `f * k`: a non-finite figure stays non-finite. */
  function Scale(f: Figure, k: real): (g: Figure)
    ensures g.Finite? <==> f.Finite?
    ensures g.Finite? ==> g.value == f.value * k
  {
    if f.Finite? then Finite(f.value * k) else NonFinite
  }

  /** `f - g`: non-finite as soon as either operand is. */
  function Minus(f: Figure, g: Figure): (r: Figure)
    ensures r.Finite? <==> f.Finite? && g.Finite?
    ensures r.Finite? ==> r.value == f.value - g.value
  {
    if f.Finite? && g.Finite? then Finite(f.value - g.value) else NonFinite
  }
}
