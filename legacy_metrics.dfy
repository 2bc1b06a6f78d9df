/** The legacy formulas of body_metrics.py. A BodyMetrics object holds a checked weight,
    height, age and gender, and BodyMetricsImpedance adds an impedance and the person's
    BodyScale; every cached property is an expression over these fields. Each formula is
    written as the legacy code computes it and then related to the formula of the newer
    metrics package. */
module LegacyMetrics {
  import opened Util
  import Scale
  import LegacyScale
  import WeightMetrics
  import ImpedanceMetrics

  const HeightMax: int := 220
  const WeightMin: real := 10.0
  const WeightMax: real := 200.0
  const AgeMax: int := 99
  const ImpedanceMax: real := 3000.0

  /** The exceptions the two constructors raise. */
  datatype Rejection = HeightTooHigh | WeightOutOfRange | AgeTooHigh | ImpedanceTooHigh

  datatype Checked<T> = Accepted(value: T) | Rejected(reason: Rejection)

  /** The fields of a BodyMetrics object. */
  datatype Body = Body(weight: real, height: int, age: int, gender: Gender)

  /** The fields of a BodyMetricsImpedance object. */
  datatype ImpedanceBody = ImpedanceBody(body: Body, impedance: real)
  {
    /** The BodyScale the constructor builds from the same person. */
    function Scale(): LegacyScale.BodyScale
    {
      LegacyScale.BodyScale(body.age, body.height, body.gender, body.weight)
    }
  }

  /** What the BodyMetrics constructor accepts. */
  predicate Admissible(weight: real, height: int, age: int)
  {
    height <= HeightMax && WeightMin < weight < WeightMax && age <= AgeMax
  }

  /** BodyMetrics(weight, height, age, gender): the checks run in the order height,
      weight, age, and the first failing one decides the exception. */
  function NewBodyMetrics(weight: real, height: int, age: int, gender: Gender): (r: Checked<Body>)
    ensures r.Accepted? <==> Admissible(weight, height, age)
    ensures r.Accepted? ==> r.value == Body(weight, height, age, gender)
    ensures height > HeightMax ==> r == Rejected(HeightTooHigh)
    ensures height <= HeightMax && !(WeightMin < weight < WeightMax) ==> r == Rejected(WeightOutOfRange)
    ensures height <= HeightMax && WeightMin < weight < WeightMax && age > AgeMax ==> r == Rejected(AgeTooHigh)
  {
    if height > HeightMax then Rejected(HeightTooHigh)
    else if !(WeightMin < weight < WeightMax) then Rejected(WeightOutOfRange)
    else if age > AgeMax then Rejected(AgeTooHigh)
    else Accepted(Body(weight, height, age, gender))
  }

  /** The constructor with the weight bounds inclusive, as the coordinator's problem check
      and the constraint constants evidently mean them: a weight the coordinator reports
      no problem for is accepted. */
  function NewBodyMetricsCorrected(weight: real, height: int, age: int, gender: Gender): (r: Checked<Body>)
    ensures r.Accepted? <==> height <= HeightMax && WeightMin <= weight <= WeightMax && age <= AgeMax
    ensures r.Accepted? ==> r.value == Body(weight, height, age, gender)
    ensures Admissible(weight, height, age) ==> r == NewBodyMetrics(weight, height, age, gender)
  {
    if height > HeightMax then Rejected(HeightTooHigh)
    else if !(WeightMin <= weight <= WeightMax) then Rejected(WeightOutOfRange)
    else if age > AgeMax then Rejected(AgeTooHigh)
    else Accepted(Body(weight, height, age, gender))
  }

  /** BodyMetricsImpedance(...): the BodyMetrics checks first, then the impedance bound. */
  function NewBodyMetricsImpedance(weight: real, height: int, age: int, gender: Gender, impedance: real): (r: Checked<ImpedanceBody>)
    ensures r.Accepted? <==> Admissible(weight, height, age) && impedance <= ImpedanceMax
    ensures r.Accepted? ==> r.value == ImpedanceBody(Body(weight, height, age, gender), impedance)
    ensures NewBodyMetrics(weight, height, age, gender).Rejected? ==>
              r == Rejected(NewBodyMetrics(weight, height, age, gender).reason)
    ensures Admissible(weight, height, age) && impedance > ImpedanceMax ==> r == Rejected(ImpedanceTooHigh)
  {
    match NewBodyMetrics(weight, height, age, gender)
    case Rejected(reason) => Rejected(reason)
    case Accepted(body) =>
      if impedance > ImpedanceMax then Rejected(ImpedanceTooHigh)
      else Accepted(ImpedanceBody(body, impedance))
  }

  /** BodyMetrics.bmi: the same clamped index as get_bmi. A zero height divides by zero. */
  function Bmi(b: Body): (r: real)
    requires b.height != 0
    ensures 10.0 <= r <= 90.0
    ensures r == WeightMetrics.Bmi(b.height as real, b.weight)
  {
    var metres := b.height as real / 100.0;
    var bmi := b.weight / (metres * metres);
    Clamp(bmi, 10.0, 90.0)
  }

  /** BodyMetrics.bmr: the same capped and clamped estimate as get_bmr. */
  function Bmr(b: Body): (r: real)
    ensures 500.0 <= r <= 5000.0
    ensures r == WeightMetrics.Bmr(b.gender, b.height as real, b.weight, b.age as real)
  {
    var h := b.height as real;
    var a := b.age as real;
    var bmr :=
      if b.gender == Female then
        var x := 864.6 + b.weight * 10.2036;
        var y := x - h * 0.39336;
        var z := y - a * 6.204;
        if z > 2996.0 then 5000.0 else z
      else
        var x := 877.8 + b.weight * 14.916;
        var y := x - h * 0.726;
        var z := y - a * 8.976;
        if z > 2322.0 then 5000.0 else z;
    Clamp(bmr, 500.0, 5000.0)
  }

  /** The female divisor 0.1158 h^2 + 1.45 h - 120 has its roots near -39.05 and 26.5, so
      no whole height makes it zero: the legacy visceral_fat, which accepts any height up
      to 220, never divides by zero. */
  lemma FemaleDivisorNonZero(height: int)
    ensures WeightMetrics.FemaleVisceralDivisor(height as real) != 0.0
  {
    var x := height as real;
    assert WeightMetrics.FemaleVisceralDivisor(x) == 0.1158 * (x * x) + 1.45 * x - 120.0;
    if height >= 27 {
      assert x * x >= 27.0 * x;
    } else if height <= -40 {
      assert x * x >= -40.0 * x;
    } else if height >= 0 {
      FemaleDivisorBelowRoot(x);
    } else {
      FemaleDivisorAboveRoot(x);
    }
  }

  /** Between 0 and the positive root the divisor is negative. */
  lemma FemaleDivisorBelowRoot(x: real)
    requires 0.0 <= x <= 26.0
    ensures 0.1158 * (x * x) + 1.45 * x - 120.0 < 0.0
  {
    assert x * x <= 26.0 * x;
  }

  /** Between the negative root and 0 the divisor is negative. */
  lemma FemaleDivisorAboveRoot(x: real)
    requires -39.0 <= x < 0.0
    ensures 0.1158 * (x * x) + 1.45 * x - 120.0 < 0.0
  {
    assert x * x <= -39.0 * x;
  }

  /** BodyMetrics.visceral_fat: the legacy code holds the same four formulas as
      get_visceral_fat and picks among them the same way; with a whole height it is
      defined for every body, since the female divisor cannot vanish. */
  function VisceralFat(b: Body): (r: real)
    ensures 1.0 <= r <= 50.0
    ensures WeightMetrics.FemaleVisceralDivisor(b.height as real) != 0.0
    ensures r == WeightMetrics.VisceralFat(b.gender, b.height as real, b.weight, b.age as real)
  {
    var h := b.height as real;
    FemaleDivisorNonZero(b.height);
    var vfal :=
      if b.gender == Female then
        if b.weight > (13.0 - (h * 0.5)) * -1.0 then WeightMetrics.FemaleVisceralHeavy(h, b.weight, b.age as real)
        else WeightMetrics.FemaleVisceralLight(h, b.weight, b.age as real)
      else
        if h < b.weight * 1.6 then WeightMetrics.MaleVisceralHeavy(h, b.weight, b.age as real)
        else WeightMetrics.MaleVisceralLight(h, b.weight, b.age as real);
    Clamp(vfal, 1.0, 50.0)
  }

  /** BodyMetrics.ideal_weight: the reverse BMI left unrounded; get_ideal_weight is this
      value rounded to whole kilograms, so the two differ by at most half a kilogram. */
  function IdealWeight(b: Body): (r: real)
    ensures Util.IdealWeight(b.gender, b.height) == Round(r, 0)
    ensures -0.5 <= Util.IdealWeight(b.gender, b.height) - r <= 0.5
  {
    if b.gender == Female then (b.height - 70) as real * 0.6 else (b.height - 80) as real * 0.7
  }

  /** BodyMetrics.bmi_label: the bands of get_bmi_label applied to the legacy BMI. */
  function BmiLabel(b: Body): (name: string)
    requires b.height != 0
    ensures name == Util.BmiLabel(Bmi(b))
    ensures name in BmiLabels
  {
    var bmi := Bmi(b);
    if bmi < 18.5 then "Underweight"
    else if bmi < 25.0 then "Normal or Healthy Weight"
    else if bmi < 27.0 then "Slight overweight"
    else if bmi < 30.0 then "Overweight"
    else if bmi < 35.0 then "Moderate obesity"
    else if bmi < 40.0 then "Severe obesity"
    else "Massive obesity"
  }

  /** BodyMetricsImpedance.lbm_coefficient: the lean-body-mass formula of get_lbm. */
  function LbmCoefficient(ib: ImpedanceBody): (r: real)
    ensures r == ImpedanceMetrics.LbmFormula(ib.body.height as real, ib.body.weight, ib.impedance, ib.body.age as real)
  {
    var h := ib.body.height as real;
    var lbm := (h * 9.058 / 100.0) * (h / 100.0);
    var lbm1 := lbm + (ib.body.weight * 0.32 + 12.226);
    var lbm2 := lbm1 - ib.impedance * 0.0068;
    lbm2 - ib.body.age as real * 0.0542
  }

  /** BodyMetricsImpedance.fat_percentage: get_fat_percentage on the legacy lean body mass.
      The legacy code compares the gender with the string "female", which a string-valued
      Gender member equals. */
  function FatPercentage(ib: ImpedanceBody): (r: real)
    requires ib.body.weight != 0.0
    ensures 5.0 <= r <= 75.0
  {
    var w := ib.body.weight;
    var female := ib.body.gender == Female;
    var const_ := if female then (if ib.body.age <= 49 then 9.25 else 7.25) else 0.8;
    var c0 := if female then (if w > 60.0 then 0.96 else if w < 50.0 then 1.02 else 1.0)
              else if w < 61.0 then 0.98 else 1.0;
    var coefficient := if female && ib.body.height > 160 && (w < 50.0 || w > 60.0) then c0 * 1.03 else c0;
    var fat := (1.0 - (((LbmCoefficient(ib) - const_) * coefficient) / w)) * 100.0;
    var capped := if fat > 63.0 then 75.0 else fat;
    Clamp(capped, 5.0, 75.0)
  }

  /** The legacy fat percentage is get_fat_percentage on the legacy lean body mass. */
  lemma FatPercentageAgrees(ib: ImpedanceBody)
    requires ib.body.weight != 0.0
    ensures FatPercentage(ib) == ImpedanceMetrics.FatPercentage(ib.body.gender, Some(ib.body.height as real), Some(ib.body.weight),
                                                                Some(LbmCoefficient(ib)), Some(ib.body.age as real))
  {
  }

  /** BodyMetricsImpedance.water_percentage. Unlike get_water_percentage, which sends a
      value of 65 or more to 75, the legacy code replaces the uncorrected value by 75 and
      then applies the coefficient, so the cap yields 75 * 0.98 = 73.5. Below the cap the
      two agree. */
  function WaterPercentage(ib: ImpedanceBody): (r: real)
    requires ib.body.weight != 0.0
    ensures 35.0 <= r <= 75.0
    ensures ImpedanceMetrics.WaterRaw(FatPercentage(ib)) >= 65.0 ==> r == 73.5
    ensures ImpedanceMetrics.WaterRaw(FatPercentage(ib)) < 65.0 ==> r == ImpedanceMetrics.WaterPercentage(Some(FatPercentage(ib)))
  {
    var water := (100.0 - FatPercentage(ib)) * 0.7;
    var coefficient := if water <= 50.0 then 1.02 else 0.98;
    var capped := if water * coefficient >= 65.0 then 75.0 else water;
    Clamp(capped * coefficient, 35.0, 75.0)
  }

  /** BodyMetricsImpedance.bone_mass: get_bone_mass on the legacy lean body mass. */
  function BoneMass(ib: ImpedanceBody): (r: real)
    ensures 0.5 <= r <= 8.0
    ensures r == ImpedanceMetrics.BoneMass(ib.body.gender, Some(LbmCoefficient(ib)))
  {
    var base := if ib.body.gender == Female then 0.245691014 else 0.18016894;
    var bone := (base - (LbmCoefficient(ib) * 0.05158)) * -1.0;
    var stepped := if bone > 2.2 then bone + 0.1 else bone - 0.1;
    var capped :=
      if ib.body.gender == Female && stepped > 5.1 then 8.0
      else if ib.body.gender == Male && stepped > 5.2 then 8.0
      else stepped;
    Clamp(capped, 0.5, 8.0)
  }

  /** BodyMetricsImpedance.muscle_mass: get_muscle_mass on the legacy fat and bone values. */
  function MuscleMass(ib: ImpedanceBody): (r: real)
    requires ib.body.weight != 0.0
    ensures 10.0 <= r <= 120.0
    ensures r == ImpedanceMetrics.MuscleMass(ib.body.gender, Some(ib.body.weight), Some(FatPercentage(ib)), Some(BoneMass(ib)))
  {
    var muscle := ImpedanceMetrics.MuscleRaw(ib.body.weight, FatPercentage(ib), BoneMass(ib));
    var capped :=
      if ib.body.gender == Female && muscle >= 84.0 then 120.0
      else if ib.body.gender == Male && muscle >= 93.5 then 120.0
      else muscle;
    Clamp(capped, 10.0, 120.0)
  }

  /** BodyMetricsImpedance.metabolic_age: get_metabolic_age with every input present. */
  function MetabolicAge(ib: ImpedanceBody): (r: real)
    ensures 15.0 <= r <= 80.0
    ensures r == ImpedanceMetrics.MetabolicAge(ib.body.gender, Some(ib.body.height as real), Some(ib.body.weight),
                                               Some(ib.body.age as real), Some(ib.impedance))
  {
    var h := ib.body.height as real;
    var w := ib.body.weight;
    var a := ib.body.age as real;
    var i := ib.impedance;
    var m :=
      if ib.body.gender == Female then
        (h * -1.1165) + (w * 1.5784) + (a * 0.4615) + (i * 0.0415) + 83.2548
      else
        (h * -0.7471) + (w * 0.9161) + (a * 0.4184) + (i * 0.0517) + 54.2267;
    Clamp(m, 15.0, 80.0)
  }

  /** BodyMetricsImpedance.fat_mass_to_ideal: get_fat_mass_to_ideal_weight on the legacy
      fat percentage; the target comes from BodyScale.fat_percentage, which is None (and
      the subscript raises) outside ages [0, 100). */
  function FatMassToIdeal(ib: ImpedanceBody): (r: real)
    requires ib.body.weight != 0.0 && 0 <= ib.body.age < 100
    ensures ib.body.weight > 0.0 ==> SignOfDifference(r, LegacyScale.FatPercentage(ib.Scale()).value[2], FatPercentage(ib))
  {
    FatMassDifference(ib.body.weight, LegacyScale.FatPercentage(ib.Scale()).value[2], FatPercentage(ib))
  }

  /** d has the sign of a - b. */
  predicate SignOfDifference(d: real, a: real, b: real)
  {
    (d > 0.0 <==> b < a) && (d == 0.0 <==> a == b)
  }

  /** The fat mass that separates fat share fat from fat share target of a weight: for a
      positive weight it is positive exactly when fat is below target. */
  function FatMassDifference(weight: real, target: real, fat: real): (d: real)
    ensures weight > 0.0 ==> SignOfDifference(d, target, fat)
  {
    MassDifferenceSign(weight, target, fat);
    (weight * (target / 100.0)) - (weight * (fat / 100.0))
  }

  lemma MassDifferenceSign(w: real, a: real, b: real)
    ensures w > 0.0 ==> SignOfDifference((w * (a / 100.0)) - (w * (b / 100.0)), a, b)
  {
    var d := (w * (a / 100.0)) - (w * (b / 100.0));
    assert d == w * ((a - b) / 100.0);
    if w <= 0.0 {
    } else if b < a {
      assert (a - b) / 100.0 > 0.0;
      assert d > 0.0;
    } else if a == b {
      assert d == 0.0;
    } else {
      assert (a - b) / 100.0 < 0.0;
      assert d < 0.0;
    }
  }

  /** The legacy fat mass to the ideal is get_fat_mass_to_ideal_weight on the legacy fat
      percentage: the legacy table gives the same target. */
  lemma FatMassToIdealAgrees(ib: ImpedanceBody)
    requires ib.body.weight != 0.0 && 0 <= ib.body.age < 100
    ensures FatMassToIdeal(ib) ==
              ImpedanceMetrics.FatMassToIdealWeight(ib.body.gender, Some(ib.body.weight), Some(ib.body.age as real), Some(FatPercentage(ib)))
  {
    FatMassShape(ib.body.gender, ib.body.weight, ib.body.age as real, FatPercentage(ib),
                 LegacyScale.FatPercentage(ib.Scale()).value[2]);
  }

  lemma FatMassShape(gender: Gender, weight: real, age: real, fat: real, target: real)
    requires 0.0 <= age < 100.0 && target == ImpedanceMetrics.TargetFat(gender, age)
    ensures FatMassDifference(weight, target, fat) ==
              ImpedanceMetrics.FatMassToIdealWeight(gender, Some(weight), Some(age), Some(fat))
  {
  }

  /** BodyMetricsImpedance.protein_percentage: get_protein_percentage on the legacy muscle
      and water values. */
  function ProteinPercentage(ib: ImpedanceBody): (r: real)
    requires ib.body.weight != 0.0
    ensures 5.0 <= r <= 32.0
    ensures r == ImpedanceMetrics.ProteinPercentage(Some(MuscleMass(ib)), Some(ib.body.weight), Some(WaterPercentage(ib)))
  {
    var protein := (MuscleMass(ib) / ib.body.weight) * 100.0;
    Clamp(protein - WaterPercentage(ib), 5.0, 32.0)
  }

  const BodyTypeNames: seq<string> := [
    "Obese", "Overweight", "Thick-set",
    "Lack-exercise", "Balanced", "Balanced-muscular",
    "Skinny", "Balanced-skinny", "Skinny-muscular"
  ]

  /** What body_type needs: a weight to divide by, and an age and a height the BodyScale
      tables cover. */
  predicate TypeDefined(ib: ImpedanceBody)
  {
    ib.body.weight != 0.0 && 0 <= ib.body.age < 100 && ib.body.height >= 0
  }

  /** The fat factor of body_type on the legacy values: the factor of get_body_type. */
  function FatFactor(ib: ImpedanceBody): (f: nat)
    requires TypeDefined(ib)
    ensures f <= 2
    ensures f == ImpedanceMetrics.FatFactor(ib.body.gender, ib.body.age as real, FatPercentage(ib))
  {
    var scale := LegacyScale.FatPercentage(ib.Scale()).value;
    if FatPercentage(ib) > scale[2] then 0
    else if FatPercentage(ib) < scale[1] then 2
    else 1
  }

  /** BodyMetricsImpedance.body_type as written: the two muscle branches set type_num, but
      the next statement overwrites it unconditionally, so only that last assignment is
      modelled. The name is one of the three of the middle muscle class. */
  function BodyType(ib: ImpedanceBody): (name: string)
    requires TypeDefined(ib)
    ensures name in {"Overweight", "Balanced", "Balanced-skinny"}
  {
    var factor := FatFactor(ib);
    var typeNum := 1 + factor * 3;
    BodyTypeNames[typeNum]
  }

  /** The as-written body type is one of three names, and two people with the same fat
      factor get the same name whatever their muscle mass. */
  lemma BodyTypeIgnoresMuscle(ib1: ImpedanceBody, ib2: ImpedanceBody)
    requires TypeDefined(ib1) && TypeDefined(ib2)
    requires FatFactor(ib1) == FatFactor(ib2)
    ensures BodyType(ib1) in {"Overweight", "Balanced", "Balanced-skinny"}
    ensures BodyType(ib1) == BodyType(ib2)
  {
  }

  /** The muscle class body_type evidently means to use: 2 above the BodyScale range,
      0 below it, 1 inside. */
  function MuscleClass(ib: ImpedanceBody): (k: nat)
    requires TypeDefined(ib)
    ensures k <= 2
    ensures k == ImpedanceMetrics.MuscleClass(ib.body.gender, ib.body.height, MuscleMass(ib))
  {
    var range := LegacyScale.MuscleMass(ib.Scale()).value;
    if MuscleMass(ib) > range[1] then 2
    else if MuscleMass(ib) < range[0] then 0
    else 1
  }

  /** body_type with the muscle branches taking effect, as get_body_type does: the name at
      position 3 * fat factor + muscle class, the same position get_body_type picks. */
  function BodyTypeCorrected(ib: ImpedanceBody): (name: string)
    requires TypeDefined(ib)
    ensures name == BodyTypeNames[3 * FatFactor(ib) + MuscleClass(ib)]
    ensures 3 * FatFactor(ib) + MuscleClass(ib) ==
              ImpedanceMetrics.BodyTypeIndex(ib.body.gender, ib.body.height, ib.body.age as real, FatPercentage(ib), MuscleMass(ib))
  {
    var factor := FatFactor(ib);
    var range := LegacyScale.MuscleMass(ib.Scale()).value;
    var typeNum :=
      if MuscleMass(ib) > range[1] then 2 + factor * 3
      else if MuscleMass(ib) < range[0] then factor * 3
      else 1 + factor * 3;
    BodyTypeNames[typeNum]
  }
  /** The as-written body type is the corrected one exactly when the muscle mass lies
      inside the BodyScale range, the one case the overwritten branches leave alone. */
  lemma BodyTypeMatchesCorrected(ib: ImpedanceBody)
    requires TypeDefined(ib)
    ensures BodyType(ib) == BodyTypeCorrected(ib) <==> MuscleClass(ib) == 1
  {
  }


  /** A man of 180 cm and 80 kg, aged 30, measured at impedance 0: fat about 19.07 %
      (factor 1) and muscle about 61.45 kg, above the range [49.4, 59.5]. The legacy code
      calls him "Balanced" where the muscle branch means "Balanced-muscular". */
  lemma BodyTypeCounterexample()
    ensures var ib := ImpedanceBody(Body(80.0, 180, 30, Male), 0.0);
            NewBodyMetricsImpedance(80.0, 180, 30, Male, 0.0) == Accepted(ib)
            && BodyType(ib) == "Balanced" && BodyTypeCorrected(ib) == "Balanced-muscular"
  {
    var ib := ImpedanceBody(Body(80.0, 180, 30, Male), 0.0);
    assert LbmCoefficient(ib) == 65.54792;
    assert FatPercentage(ib) == 19.0651;
    assert BoneMass(ib) == 3.3007927736;
    assert MuscleMass(ib) == 61.4471272264;
    LegacyScale.TablesAgree();
    assert LegacyScale.FatPercentage(ib.Scale()).value == [11.0, 17.0, 22.0, 27.0];
    assert LegacyScale.MuscleMass(ib.Scale()).value == [49.4, 59.5];
  }

  /** A man of 180 cm and 60 kg, aged 30, measured at impedance 0: the fat percentage is
      clamped to 5, the corrected water value 66.5 * 0.98 = 65.17 reaches the cap, and the
      legacy code reports 73.5 where get_water_percentage reports 75. */
  lemma WaterCapCounterexample()
    ensures var ib := ImpedanceBody(Body(60.0, 180, 30, Male), 0.0);
            NewBodyMetricsImpedance(60.0, 180, 30, Male, 0.0) == Accepted(ib)
            && WaterPercentage(ib) == 73.5 && ImpedanceMetrics.WaterPercentage(Some(FatPercentage(ib))) == 75.0
  {
    var ib := ImpedanceBody(Body(60.0, 180, 30, Male), 0.0);
    assert LbmCoefficient(ib) == 59.14792;
    assert FatPercentage(ib) == 5.0;
  }
}
