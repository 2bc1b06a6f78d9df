/** Shared helpers of the body-composition formulas: the clamp every formula ends
    with, the ideal-weight estimate, the BMI banding, and Python's `round` on
    exact reals. */
module Util {

  datatype Option<+T> = None | Some(value: T) {
    function GetOr(default: T): T {
      match this
      case Some(v) => v
      case None => default
    }
  }

  datatype Gender = Male | Female

  /** A table row of thresholds: strictly increasing values. */
  predicate StrictlyIncreasing(s: seq<real>)
  {
    forall i, j :: 0 <= i < j < |s| ==> s[i] < s[j]
  }

  /** check_value_constraints: set the value to a boundary if it overflows. */
  function Clamp(value: real, minimum: real, maximum: real): (r: real)
    ensures minimum <= maximum ==> minimum <= r <= maximum
    ensures minimum <= value <= maximum ==> r == value
    ensures value < minimum ==> r == minimum
    ensures minimum <= value && value > maximum ==> r == maximum
  {
    if value < minimum then minimum
    else if value > maximum then maximum
    else value
  }

  lemma ClampIdempotent(value: real, minimum: real, maximum: real)
    requires minimum <= maximum
    ensures Clamp(Clamp(value, minimum, maximum), minimum, maximum) == Clamp(value, minimum, maximum)
  {
  }

  /** Clamping never moves a value away from the interval, and it is monotone. */
  lemma ClampMonotone(a: real, b: real, minimum: real, maximum: real)
    requires minimum <= maximum && a <= b
    ensures Clamp(a, minimum, maximum) <= Clamp(b, minimum, maximum)
  {
  }

  function Pow10(n: nat): (p: nat)
    ensures p >= 1
  {
    if n == 0 then 1 else 10 * Pow10(n - 1)
  }

  /** Round half to even to an integer, as Python's `round(y)` does on an exact value. */
  function RoundHalfEven(y: real): (k: int)
    ensures -0.5 <= y - k as real <= 0.5
    ensures y == y.Floor as real ==> k == y.Floor
  {
    var f := y.Floor;
    var frac := y - f as real;
    if frac < 0.5 then f
    else if frac > 0.5 then f + 1
    else if f % 2 == 0 then f
    else f + 1
  }

  /** Rounding to a multiple of 1/scale, half to even. */
  function RoundScaled(x: real, scale: nat): real
    requires scale >= 1
  {
    RoundHalfEven(x * scale as real) as real / scale as real
  }

  /** Python's `round(x, n)` for n >= 0, computed on the exact real x: a value with at
      most n decimals, within half a unit of the n-th decimal of x.
      Binary floating-point representation is not modelled. */
  function Round(x: real, n: nat): (r: real)
    ensures -0.5 / Pow10(n) as real <= r - x <= 0.5 / Pow10(n) as real
    ensures IsMultiple(r, Pow10(n))
  {
    RoundScaledClose(x, Pow10(n));
    RoundScaledMultiple(x, Pow10(n));
    RoundScaled(x, Pow10(n))
  }

  /** Rounding a whole number to any number of decimals gives it back: this is why
      modelling Python's int values as reals loses nothing when a metric is rounded. */
  lemma RoundWhole(k: int, n: nat)
    ensures Round(k as real, n) == k as real
  {
    RoundScaledWhole(k, Pow10(n));
  }

  lemma RoundScaledWhole(k: int, s: nat)
    requires s >= 1
    ensures RoundScaled(k as real, s) == k as real
  {
    var m := k * s;
    RoundScaledUnfold(k as real, s);
    CastProduct(k, s);
    RoundHalfEvenWhole(m);
    assert m as real / s as real == k as real;
  }

  lemma CastProduct(a: int, b: int)
    ensures (a * b) as real == a as real * b as real
  {
  }

  lemma RoundHalfEvenWhole(m: int)
    ensures RoundHalfEven(m as real) == m
  {
  }

  /** Rounding twice to the same number of decimals is rounding once. */
  lemma RoundIdempotent(x: real, n: nat)
    ensures Round(Round(x, n), n) == Round(x, n)
  {
    RoundScaledIdempotent(x, Pow10(n));
  }

  lemma RoundScaledIdempotent(x: real, s: nat)
    requires s >= 1
    ensures RoundScaled(RoundScaled(x, s), s) == RoundScaled(x, s)
  {
    var k := RoundHalfEven(x * s as real);
    RoundScaledUnfold(x, s);
    QuotientTimes(k, s);
    RoundHalfEvenWhole(k);
    var y := k as real / s as real;
    RoundScaledUnfold(y, s);
    var z := y * s as real;
    assert z == k as real;
    assert RoundHalfEven(z) == k;
  }

  /** y has at most as many decimals as 1/s: y * s is a whole number. */
  predicate IsMultiple(y: real, s: nat)
  {
    (y * s as real).Floor as real == y * s as real
  }

  lemma RoundScaledMultiple(x: real, s: nat)
    requires s >= 1
    ensures IsMultiple(RoundScaled(x, s), s)
  {
    var k := RoundHalfEven(x * s as real);
    RoundScaledUnfold(x, s);
    QuotientTimes(k, s);
    assert RoundScaled(x, s) * s as real == k as real;
    assert (k as real).Floor == k;
  }

  lemma QuotientTimes(k: int, s: nat)
    requires s >= 1
    ensures (k as real / s as real) * s as real == k as real
  {
  }

  lemma RoundScaledUnfold(x: real, s: nat)
    requires s >= 1
    ensures RoundScaled(x, s) == RoundHalfEven(x * s as real) as real / s as real
  {
  }

  /** The rounded value is within half a unit of the last kept decimal of the exact one. */
  lemma RoundClose(x: real, n: nat)
    ensures -0.5 / Pow10(n) as real <= Round(x, n) - x <= 0.5 / Pow10(n) as real
  {
    RoundScaledClose(x, Pow10(n));
  }

  lemma RoundScaledClose(x: real, s: nat)
    requires s >= 1
    ensures -0.5 / s as real <= RoundScaled(x, s) - x <= 0.5 / s as real
  {
    var k := RoundHalfEven(x * s as real);
    RoundScaledUnfold(x, s);
    ErrorOverScale(x, k, s);
  }

  /** If k is within 1/2 of x * s then k / s is within 1/(2s) of x. */
  lemma ErrorOverScale(x: real, k: int, s: nat)
    requires s >= 1 && -0.5 <= x * s as real - k as real <= 0.5
    ensures -0.5 / s as real <= k as real / s as real - x <= 0.5 / s as real
  {
    var sr := s as real;
    var e := k as real - x * sr;
    assert k as real / sr - x == e / sr;
    DivideMonotone(-0.5, e, sr);
    DivideMonotone(e, 0.5, sr);
  }

  lemma DivideMonotone(a: real, b: real, c: real)
    requires a <= b && c > 0.0
    ensures a / c <= b / c
  {
    assert b / c - a / c == (b - a) / c;
  }

  /** get_ideal_weight: a reverse BMI, rounded to whole kilograms. */
  function IdealWeight(gender: Gender, height: int): (r: real)
    ensures gender == Female ==> -0.5 <= r - (height - 70) as real * 0.6 <= 0.5
    ensures gender == Male ==> -0.5 <= r - (height - 80) as real * 0.7 <= 0.5
    ensures r == r.Floor as real
  {
    var ideal := if gender == Female then (height - 70) as real * 0.6 else (height - 80) as real * 0.7;
    Round(ideal, 0)
  }

  /** The seven BMI labels, in increasing order of BMI. */
  const BmiLabels: seq<string> := [
    "Underweight",
    "Normal or Healthy Weight",
    "Slight overweight",
    "Overweight",
    "Moderate obesity",
    "Severe obesity",
    "Massive obesity"
  ]

  /** Lower-inclusive thresholds between consecutive labels. */
  const BmiThresholds: seq<real> := [18.5, 25.0, 27.0, 30.0, 35.0, 40.0]

  /** The position of the label get_bmi_label chooses. */
  function BmiBand(bmi: real): (k: nat)
    ensures k < |BmiLabels|
    ensures forall i :: 0 <= i < k ==> BmiThresholds[i] <= bmi
    ensures k < |BmiThresholds| ==> bmi < BmiThresholds[k]
  {
    if bmi < 18.5 then 0
    else if bmi < 25.0 then 1
    else if bmi < 27.0 then 2
    else if bmi < 30.0 then 3
    else if bmi < 35.0 then 4
    else if bmi < 40.0 then 5
    else 6
  }

  /** get_bmi_label. */
  function BmiLabel(bmi: real): (name: string)
    ensures name in BmiLabels
    ensures name == BmiLabels[BmiBand(bmi)]
  {
    if bmi < 18.5 then "Underweight"
    else if bmi < 25.0 then "Normal or Healthy Weight"
    else if bmi < 27.0 then "Slight overweight"
    else if bmi < 30.0 then "Overweight"
    else if bmi < 35.0 then "Moderate obesity"
    else if bmi < 40.0 then "Severe obesity"
    else "Massive obesity"
  }

  /** A larger BMI never yields an earlier label. */
  lemma BmiBandMonotone(a: real, b: real)
    requires a <= b
    ensures BmiBand(a) <= BmiBand(b)
  {
  }

  /** The band is determined by the thresholds alone: band k holds exactly the BMIs
      in [threshold k-1, threshold k). */
  lemma BmiBandExact(bmi: real, k: nat)
    requires k < |BmiLabels|
    requires k > 0 ==> BmiThresholds[k - 1] <= bmi
    requires k < |BmiThresholds| ==> bmi < BmiThresholds[k]
    ensures BmiBand(bmi) == k
  {
  }
}
