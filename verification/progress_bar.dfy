/** The shared progress bar component: its width is its value clamped to [0, 100]. */
module ProgressBar {

  /** The bar's width: the value, raised to 0 and lowered to 100. */
  function Clamp(value: real): (r: real)
    ensures 0.0 <= r <= 100.0
    ensures 0.0 <= value <= 100.0 ==> r == value
    ensures value < 0.0 ==> r == 0.0
    ensures value > 100.0 ==> r == 100.0
  {
    var atLeastZero := if value > 0.0 then value else 0.0;
    if atLeastZero < 100.0 then atLeastZero else 100.0
  }

  /** Clamping a clamped value changes nothing. */
  lemma ClampIdempotent(value: real)
    ensures Clamp(Clamp(value)) == Clamp(value)
  {
  }

  /** A larger value never gives a narrower bar. */
  lemma ClampMonotone(a: real, b: real)
    requires a <= b
    ensures Clamp(a) <= Clamp(b)
  {
  }
}
