/** The metrics of metrics/weight.py, which need only the weight (and the configured
    height, gender and the age). */
module WeightMetrics {
  import opened Util

  /** weight / (height in metres)^2, before clamping. */
  function BmiRaw(height: real, weight: real): real
    requires height != 0.0
  {
    var metres := height / 100.0;
    weight / (metres * metres)
  }

  /** get_bmi: the clamped body-mass index. */
  function Bmi(height: real, weight: real): (r: real)
    requires height != 0.0
    ensures 10.0 <= r <= 90.0
    ensures 10.0 <= BmiRaw(height, weight) <= 90.0 ==> r == BmiRaw(height, weight)
    ensures BmiRaw(height, weight) < 10.0 ==> r == 10.0
    ensures BmiRaw(height, weight) > 90.0 ==> r == 90.0
  {
    Clamp(BmiRaw(height, weight), 10.0, 90.0)
  }

  /** The gender-specific linear estimate of get_bmr. */
  function BmrRaw(gender: Gender, height: real, weight: real, age: real): real
  {
    if gender == Female then 864.6 + weight * 10.2036 - height * 0.39336 - age * 6.204
    else 877.8 + weight * 14.916 - height * 0.726 - age * 8.976
  }

  /** The raw value above which get_bmr jumps to its maximum. */
  function BmrCap(gender: Gender): real
  {
    if gender == Female then 2996.0 else 2322.0
  }

  /** get_bmr: the linear estimate, sent to 5000 above the gender cap, then clamped. */
  function Bmr(gender: Gender, height: real, weight: real, age: real): (r: real)
    ensures 500.0 <= r <= 5000.0
    ensures BmrRaw(gender, height, weight, age) > BmrCap(gender) ==> r == 5000.0
    ensures 500.0 <= BmrRaw(gender, height, weight, age) <= BmrCap(gender) ==> r == BmrRaw(gender, height, weight, age)
    ensures BmrRaw(gender, height, weight, age) < 500.0 ==> r == 500.0
  {
    var bmr := BmrRaw(gender, height, weight, age);
    var capped := if bmr > BmrCap(gender) then 5000.0 else bmr;
    Clamp(capped, 500.0, 5000.0)
  }

  /** The divisor of the first female formula. */
  function FemaleVisceralDivisor(height: real): real
  {
    ((height * 1.45) + (height * 0.1158) * height) - 120.0
  }

  /** The divisor of the first male formula. */
  function MaleVisceralDivisor(height: real): real
  {
    ((height * 0.4) - (height * (height * 0.0826))) * -1.0 + 48.0
  }

  /** Females take the first formula exactly when this holds. */
  predicate FemaleHeavy(height: real, weight: real)
  {
    weight > (13.0 - (height * 0.5)) * -1.0
  }

  /** Males take the first formula exactly when this holds. */
  predicate MaleHeavy(height: real, weight: real)
  {
    height < weight * 1.6
  }

  function FemaleVisceralHeavy(height: real, weight: real, age: real): real
    requires FemaleVisceralDivisor(height) != 0.0
  {
    (weight * 500.0 / FemaleVisceralDivisor(height) - 6.0) + (age * 0.07)
  }

  function FemaleVisceralLight(height: real, weight: real, age: real): real
  {
    var subcalc := 0.691 + (height * -0.0024) + (height * -0.0024);
    (((height * 0.027) - (subcalc * weight)) * -1.0) + (age * 0.07) - age
  }

  function MaleVisceralHeavy(height: real, weight: real, age: real): real
  {
    MaleDivisorPositive(height);
    ((weight * 305.0) / MaleVisceralDivisor(height)) - 2.9 + (age * 0.15)
  }

  function MaleVisceralLight(height: real, weight: real, age: real): real
  {
    var subcalc := 0.765 + height * -0.0015;
    (((height * 0.143) - (weight * subcalc)) * -1.0) + (age * 0.15) - 5.0
  }

  /** The male divisor 0.0826 h^2 - 0.4 h + 48 has no real root. */
  lemma MaleDivisorPositive(height: real)
    ensures MaleVisceralDivisor(height) > 0.0
  {
    var h := height;
    assert MaleVisceralDivisor(h) == 0.0826 * (h * h) - 0.4 * h + 48.0;
    assert h * h >= 0.0 by {
      if h < 0.0 { assert h * h == (-h) * (-h); }
    }
    if h >= 120.0 {
      assert h * h >= 120.0 * h;
    }
  }

  /** For every height the configuration accepts (at least 50 cm) the female divisor is
      positive, so get_visceral_fat never divides by zero. */
  lemma FemaleDivisorPositive(height: real)
    requires height >= 50.0
    ensures FemaleVisceralDivisor(height) > 0.0
  {
    assert height * height >= 50.0 * height;
  }

  /** get_visceral_fat: one of two formulas per gender, chosen by how the weight compares
      with the height, then clamped to [1, 50]. */
  function VisceralFat(gender: Gender, height: real, weight: real, age: real): (r: real)
    requires gender == Female && FemaleHeavy(height, weight) ==> FemaleVisceralDivisor(height) != 0.0
    ensures 1.0 <= r <= 50.0
    ensures gender == Female && FemaleHeavy(height, weight) ==> r == Clamp(FemaleVisceralHeavy(height, weight, age), 1.0, 50.0)
    ensures gender == Female && !FemaleHeavy(height, weight) ==> r == Clamp(FemaleVisceralLight(height, weight, age), 1.0, 50.0)
    ensures gender == Male && MaleHeavy(height, weight) ==> r == Clamp(MaleVisceralHeavy(height, weight, age), 1.0, 50.0)
    ensures gender == Male && !MaleHeavy(height, weight) ==> r == Clamp(MaleVisceralLight(height, weight, age), 1.0, 50.0)
  {
    var vfal :=
      if gender == Female then
        if FemaleHeavy(height, weight) then FemaleVisceralHeavy(height, weight, age)
        else FemaleVisceralLight(height, weight, age)
      else
        if MaleHeavy(height, weight) then MaleVisceralHeavy(height, weight, age)
        else MaleVisceralLight(height, weight, age);
    Clamp(vfal, 1.0, 50.0)
  }
}
