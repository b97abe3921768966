/** The few JavaScript number semantics the pages depend on.  Amounts read
    from the store are finite and are kept exact; only a division whose
    divisor is zero leaves the finite numbers, and the pages never guard
    against that, so its IEEE-754 outcomes are modelled here. */
module JsNumbers {

  datatype Number = Finite(value: real) | PosInfinity | NegInfinity | NaN

  /** `a / b` on two finite numbers. */
  function Divide(a: real, b: real): Number
  {
    if b != 0.0 then Finite(a / b)
    else if a > 0.0 then PosInfinity
    else if a < 0.0 then NegInfinity
    else NaN
  }

  /** `x * c` for a positive finite constant `c`. */
  function Scale(x: Number, c: real): Number
    requires c > 0.0
  {
    match x
    case Finite(v) => Finite(v * c)
    case _ => x
  }

  /** `x / n` for a positive finite divisor `n`. */
  function Share(x: Number, n: real): Number
    requires n > 0.0
  {
    match x
    case Finite(v) => Finite(v / n)
    case _ => x
  }

  /** `x + y`: NaN absorbs, and infinities of opposite sign give NaN. */
  function Plus(x: Number, y: Number): Number
  {
    match (x, y)
    case (NaN, _) => NaN
    case (_, NaN) => NaN
    case (Finite(a), Finite(b)) => Finite(a + b)
    case (PosInfinity, NegInfinity) => NaN
    case (NegInfinity, PosInfinity) => NaN
    case (Finite(_), _) => y
    case (_, _) => x
  }

  /** `x > c` for a finite `c`; every comparison with NaN is false. */
  predicate Above(x: Number, c: real)
  {
    match x
    case Finite(v) => v > c
    case PosInfinity => true
    case _ => false
  }

  /** `x <= c` for a finite `c`. */
  predicate AtMost(x: Number, c: real)
  {
    match x
    case Finite(v) => v <= c
    case NegInfinity => true
    case _ => false
  }

  /** `x || 0`: NaN and zero are falsy, so both become 0. */
  function OrZero(x: Number): Number
  {
    if x == NaN then Finite(0.0) else x
  }

  /** `(part / whole) * 100`, the percentage both the budget and the savings
      pages compute without checking the divisor. */
  function Percent(part: real, whole: real): (r: Number)
    ensures whole != 0.0 ==> r.Finite? && r.value * whole == part * 100.0
    ensures whole == 0.0 ==> !r.Finite?
    ensures whole == 0.0 ==> (r == NaN <==> part == 0.0) && (r == PosInfinity <==> part > 0.0)
    ensures part >= 0.0 && whole > 0.0 ==> r.Finite? && r.value >= 0.0
    ensures 0.0 <= part < whole ==> r.Finite? && 0.0 <= r.value < 100.0
  {
    assert 0.0 <= part < whole ==> part / whole < 1.0 by {
      if 0.0 <= part < whole {
        var q := part / whole;
        assert q * whole == part;
        if q >= 1.0 {
          assert false;
        }
      }
    }
    Scale(Divide(part, whole), 100.0)
  }

  /** `Math.min(p, 100)`, the value both pages hand to a progress bar. */
  function ProgressBarValue(p: Number): (r: Number)
    ensures r != PosInfinity
    ensures r.Finite? ==> r.value <= 100.0
    ensures AtMost(p, 100.0) ==> r == p
    ensures Above(p, 100.0) ==> r == Finite(100.0)
    ensures p == NaN ==> r == NaN
  {
    match p
    case Finite(v) => if v <= 100.0 then p else Finite(100.0)
    case PosInfinity => Finite(100.0)
    case _ => p
  }

  /** Multiplying by a positive number keeps a strict order. */
  lemma MultiplyKeepsOrder(a: real, b: real, w: real)
    requires w > 0.0
    ensures a > b <==> a * w > b * w
  {
    assert a * w - b * w == (a - b) * w;
    if a > b {
      assert (a - b) * w > 0.0;
    } else {
      assert (b - a) * w >= 0.0;
    }
  }

  /** With a positive whole, a percentage is above `c` exactly when the part
      is more than `c` hundredths of the whole. */
  lemma PercentAbove(part: real, whole: real, c: real)
    requires whole > 0.0
    ensures Above(Percent(part, whole), c) <==> part * 100.0 > c * whole
  {
    var v := Percent(part, whole).value;
    assert v * whole == part * 100.0;
    MultiplyKeepsOrder(v, c, whole);
  }

  /** With a positive whole, a percentage is at most `c` exactly when the
      part is at most `c` hundredths of the whole. */
  lemma PercentAtMost(part: real, whole: real, c: real)
    requires whole > 0.0
    ensures AtMost(Percent(part, whole), c) <==> part * 100.0 <= c * whole
  {
    PercentAbove(part, whole, c);
  }
}
