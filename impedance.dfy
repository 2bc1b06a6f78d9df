/** The metrics of metrics/impedance.py, which need the impedance or metrics derived
    from it. An input that `to_float` could not produce (an absent metric) is `None`. */
module ImpedanceMetrics {
  import opened Util
  import Scale

  /** The linear lean-body-mass estimate of get_lbm. */
  function LbmFormula(height: real, weight: real, impedance: real, age: real): real
  {
    (height * 9.058 / 100.0) * (height / 100.0) + weight * 0.32 + 12.226 - impedance * 0.0068 - age * 0.0542
  }

  /** get_lbm: the estimate when all four inputs are present, 0.0 otherwise. */
  function Lbm(height: Option<real>, weight: Option<real>, impedance: Option<real>, age: Option<real>): (r: real)
    ensures height.None? || weight.None? || impedance.None? || age.None? ==> r == 0.0
    ensures height.Some? && weight.Some? && impedance.Some? && age.Some? ==>
              r == LbmFormula(height.value, weight.value, impedance.value, age.value)
  {
    if height.Some? && weight.Some? && impedance.Some? && age.Some? then
      LbmFormula(height.value, weight.value, impedance.value, age.value)
    else 0.0
  }

  /** More weight means more lean mass; more impedance or more age means less. */
  lemma LbmMonotone(height: real, w1: real, w2: real, i1: real, i2: real, a1: real, a2: real)
    requires w1 <= w2 && i2 <= i1 && a2 <= a1
    ensures Lbm(Some(height), Some(w1), Some(i1), Some(a1)) <= Lbm(Some(height), Some(w2), Some(i2), Some(a2))
  {
  }

  /** The constant subtracted from the lean body mass. */
  function FatConst(gender: Gender, age: real): real
  {
    if gender == Female then (if age <= 49.0 then 9.25 else 7.25) else 0.8
  }

  /** The weight- and height-dependent coefficient of get_fat_percentage. */
  function FatCoefficient(gender: Gender, height: real, weight: real): (c: real)
    ensures c > 0.0
  {
    if gender == Female then
      var c := if weight > 60.0 then 0.96 else if weight < 50.0 then 1.02 else 1.0;
      if height > 160.0 && (weight < 50.0 || weight > 60.0) then c * 1.03 else c
    else
      if weight < 61.0 then 0.98 else 1.0
  }

  function FatRaw(gender: Gender, height: real, weight: real, lbm: real, age: real): real
    requires weight != 0.0
  {
    (1.0 - ((lbm - FatConst(gender, age)) * FatCoefficient(gender, height, weight) / weight)) * 100.0
  }

  /** get_fat_percentage: 0.0 when an input is absent; otherwise the raw estimate, sent to
      75 above 63 and clamped to [5, 75]. A zero weight divides by zero in the source. */
  function FatPercentage(gender: Gender, height: Option<real>, weight: Option<real>, lbm: Option<real>, age: Option<real>): (r: real)
    requires weight.Some? ==> weight.value != 0.0
    ensures height.None? || weight.None? || lbm.None? || age.None? ==> r == 0.0
    ensures height.Some? && weight.Some? && lbm.Some? && age.Some? ==> 5.0 <= r <= 75.0
    ensures height.Some? && weight.Some? && lbm.Some? && age.Some? ==>
              var raw := FatRaw(gender, height.value, weight.value, lbm.value, age.value);
              (raw > 63.0 ==> r == 75.0) && (5.0 <= raw <= 63.0 ==> r == raw) && (raw < 5.0 ==> r == 5.0)
  {
    if weight.None? || lbm.None? || age.None? || height.None? then 0.0
    else
      var fat := FatRaw(gender, height.value, weight.value, lbm.value, age.value);
      var capped := if fat > 63.0 then 75.0 else fat;
      Clamp(capped, 5.0, 75.0)
  }

  /** For a positive weight, more lean mass never means more fat. */
  lemma FatDecreasesWithLbm(gender: Gender, height: real, weight: real, l1: real, l2: real, age: real)
    requires weight > 0.0 && l1 <= l2
    ensures FatPercentage(gender, Some(height), Some(weight), Some(l2), Some(age))
         <= FatPercentage(gender, Some(height), Some(weight), Some(l1), Some(age))
  {
    var c := FatCoefficient(gender, height, weight);
    var k := FatConst(gender, age);
    assert (l1 - k) * c <= (l2 - k) * c;
    assert (l1 - k) * c / weight <= (l2 - k) * c / weight;
    var raw1 := FatRaw(gender, height, weight, l1, age);
    var raw2 := FatRaw(gender, height, weight, l2, age);
    assert raw2 <= raw1;
  }

  /** The water estimate after the coefficient, before the cap and the clamp. */
  function WaterRaw(fat: real): real
  {
    var water := (100.0 - fat) * 0.7;
    var coefficient := if water <= 50.0 then 1.02 else 0.98;
    water * coefficient
  }

  /** get_water_percentage: an absent fat percentage counts as 0. */
  function WaterPercentage(fat: Option<real>): (r: real)
    ensures 35.0 <= r <= 75.0
    ensures WaterRaw(fat.GetOr(0.0)) >= 65.0 ==> r == 75.0
    ensures 35.0 <= WaterRaw(fat.GetOr(0.0)) < 65.0 ==> r == WaterRaw(fat.GetOr(0.0))
    ensures WaterRaw(fat.GetOr(0.0)) < 35.0 ==> r == 35.0
  {
    var water := WaterRaw(fat.GetOr(0.0));
    var capped := if water >= 65.0 then 75.0 else water;
    Clamp(capped, 35.0, 75.0)
  }

  /** The bone estimate after the +-0.1 step, before the cap and the clamp. */
  function BoneRaw(gender: Gender, lbm: real): real
  {
    var base := if gender == Female then 0.245691014 else 0.18016894;
    var bone := (base - (lbm * 0.05158)) * -1.0;
    if bone > 2.2 then bone + 0.1 else bone - 0.1
  }

  function BoneCap(gender: Gender): real
  {
    if gender == Female then 5.1 else 5.2
  }

  /** get_bone_mass: an absent lean body mass counts as 0. */
  function BoneMass(gender: Gender, lbm: Option<real>): (r: real)
    ensures 0.5 <= r <= 8.0
    ensures BoneRaw(gender, lbm.GetOr(0.0)) > BoneCap(gender) ==> r == 8.0
    ensures 0.5 <= BoneRaw(gender, lbm.GetOr(0.0)) <= BoneCap(gender) ==> r == BoneRaw(gender, lbm.GetOr(0.0))
    ensures BoneRaw(gender, lbm.GetOr(0.0)) < 0.5 ==> r == 0.5
  {
    var bone := BoneRaw(gender, lbm.GetOr(0.0));
    var capped := if bone > BoneCap(gender) then 8.0 else bone;
    Clamp(capped, 0.5, 8.0)
  }

  /** Bone mass never falls as lean body mass grows. */
  lemma BoneMonotone(gender: Gender, l1: real, l2: real)
    requires l1 <= l2
    ensures BoneMass(gender, Some(l1)) <= BoneMass(gender, Some(l2))
  {
  }

  function MuscleRaw(weight: real, fat: real, bone: real): real
  {
    weight - ((fat * 0.01) * weight) - bone
  }

  function MuscleCap(gender: Gender): real
  {
    if gender == Female then 84.0 else 93.5
  }

  /** get_muscle_mass: weight minus fat mass minus bone mass; absent inputs count as 0. */
  function MuscleMass(gender: Gender, weight: Option<real>, fat: Option<real>, bone: Option<real>): (r: real)
    ensures 10.0 <= r <= 120.0
    ensures MuscleRaw(weight.GetOr(0.0), fat.GetOr(0.0), bone.GetOr(0.0)) >= MuscleCap(gender) ==> r == 120.0
    ensures 10.0 <= MuscleRaw(weight.GetOr(0.0), fat.GetOr(0.0), bone.GetOr(0.0)) < MuscleCap(gender) ==>
              r == MuscleRaw(weight.GetOr(0.0), fat.GetOr(0.0), bone.GetOr(0.0))
    ensures MuscleRaw(weight.GetOr(0.0), fat.GetOr(0.0), bone.GetOr(0.0)) < 10.0 ==> r == 10.0
  {
    var muscle := MuscleRaw(weight.GetOr(0.0), fat.GetOr(0.0), bone.GetOr(0.0));
    var capped := if muscle >= MuscleCap(gender) then 120.0 else muscle;
    Clamp(capped, 10.0, 120.0)
  }

  function MetabolicAgeFormula(gender: Gender, height: real, weight: real, age: real, impedance: real): real
  {
    if gender == Female then
      (height * -1.1165) + (weight * 1.5784) + (age * 0.4615) + (impedance * 0.0415) + 83.2548
    else
      (height * -0.7471) + (weight * 0.9161) + (age * 0.4184) + (impedance * 0.0517) + 54.2267
  }

  /** get_metabolic_age: 15 when an input is absent, otherwise the clamped formula. */
  function MetabolicAge(gender: Gender, height: Option<real>, weight: Option<real>, age: Option<real>, impedance: Option<real>): (r: real)
    ensures 15.0 <= r <= 80.0
    ensures height.None? || weight.None? || age.None? || impedance.None? ==> r == 15.0
    ensures height.Some? && weight.Some? && age.Some? && impedance.Some? ==>
              var m := MetabolicAgeFormula(gender, height.value, weight.value, age.value, impedance.value);
              15.0 <= m <= 80.0 ==> r == m
  {
    var m :=
      if height.Some? && weight.Some? && age.Some? && impedance.Some? then
        MetabolicAgeFormula(gender, height.value, weight.value, age.value, impedance.value)
      else 15.0;
    Clamp(m, 15.0, 80.0)
  }

  /** get_protein_percentage: 0.0 for a zero (or absent) weight, otherwise the muscle share
      of the weight minus the water share, clamped to [5, 32]. */
  function ProteinPercentage(muscle: Option<real>, weight: Option<real>, water: Option<real>): (r: real)
    ensures weight.GetOr(0.0) == 0.0 ==> r == 0.0
    ensures weight.GetOr(0.0) != 0.0 ==> 5.0 <= r <= 32.0
    ensures weight.GetOr(0.0) != 0.0 ==>
              var p := (muscle.GetOr(0.0) / weight.GetOr(0.0)) * 100.0 - water.GetOr(0.0);
              5.0 <= p <= 32.0 ==> r == p
  {
    var w := weight.GetOr(0.0);
    if w == 0.0 then 0.0
    else Clamp((muscle.GetOr(0.0) / w) * 100.0 - water.GetOr(0.0), 5.0, 32.0)
  }

  /** The target fat percentage for an age: entry [2] of the age's fat band. */
  function TargetFat(gender: Gender, age: real): real
    requires 0.0 <= age < 100.0
  {
    Scale.FatPercentage(gender, age)[2]
  }

  /** get_fat_mass_to_ideal_weight: the fat mass to gain (positive) or lose (negative) to
      reach the target fat percentage. Absent inputs count as 0; the age band lookup raises
      outside [0, 100). */
  function FatMassToIdealWeight(gender: Gender, weight: Option<real>, age: Option<real>, fat: Option<real>): (r: real)
    requires 0.0 <= age.GetOr(0.0) < 100.0
    ensures r == weight.GetOr(0.0) * (TargetFat(gender, age.GetOr(0.0)) - fat.GetOr(0.0)) / 100.0
    ensures weight.GetOr(0.0) > 0.0 ==> (r > 0.0 <==> fat.GetOr(0.0) < TargetFat(gender, age.GetOr(0.0)))
  {
    var w := weight.GetOr(0.0);
    var target := Scale.FatPercentage(gender, age.GetOr(0.0))[2];
    var f := fat.GetOr(0.0);
    var r := w * (target / 100.0) - w * (f / 100.0);
    assert r == w * (target - f) / 100.0;
    r
  }

  /** 0 for more fat than the band's entry [2], 2 for less than entry [1], else 1. */
  function FatFactor(gender: Gender, age: real, fat: real): (f: nat)
    requires 0.0 <= age < 100.0
    ensures f <= 2
    ensures f == 0 <==> fat > Scale.FatPercentage(gender, age)[2]
    ensures f == 2 <==> fat < Scale.FatPercentage(gender, age)[1]
  {
    var scale := Scale.FatPercentage(gender, age);
    if fat > scale[2] then 0 else if fat < scale[1] then 2 else 1
  }

  /** 2 for more muscle than the range's upper bound, 0 for less than its lower bound, else 1. */
  function MuscleClass(gender: Gender, height: int, muscle: real): (k: nat)
    requires height >= 0
    ensures k <= 2
    ensures k == 2 <==> muscle > Scale.MuscleMass(gender, height)[1]
    ensures k == 0 <==> muscle < Scale.MuscleMass(gender, height)[0]
  {
    var mm := Scale.MuscleMass(gender, height);
    if muscle > mm[1] then 2 else if muscle < mm[0] then 0 else 1
  }

  const BodyTypeNames: seq<string> := [
    "obese", "overweight", "thick_set",
    "lack_exercise", "balanced", "balanced_muscular",
    "skinny", "balanced_skinny", "skinny_muscular"
  ]

  /** The position get_body_type picks in its list of nine names. */
  function BodyTypeIndex(gender: Gender, height: int, age: real, fat: real, muscle: real): (i: nat)
    requires 0.0 <= age < 100.0 && height >= 0
    ensures i < |BodyTypeNames|
    ensures i / 3 == FatFactor(gender, age, fat) && i % 3 == MuscleClass(gender, height, muscle)
  {
    var factor := FatFactor(gender, age, fat);
    var scale := Scale.MuscleMass(gender, height);
    if muscle > scale[1] then 2 + factor * 3
    else if muscle < scale[0] then factor * 3
    else 1 + factor * 3
  }

  /** get_body_type: absent inputs count as 0. */
  function BodyType(gender: Gender, height: int, fat: Option<real>, muscle: Option<real>, age: Option<real>): (name: string)
    requires 0.0 <= age.GetOr(0.0) < 100.0 && height >= 0
    ensures name in BodyTypeNames
    ensures name == BodyTypeNames[BodyTypeIndex(gender, height, age.GetOr(0.0), fat.GetOr(0.0), muscle.GetOr(0.0))]
  {
    BodyTypeNames[BodyTypeIndex(gender, height, age.GetOr(0.0), fat.GetOr(0.0), muscle.GetOr(0.0))]
  }

  /** The nine names are distinct, so the name fixes both the fat factor and the muscle class. */
  lemma BodyTypeDetermines(gender: Gender, height: int, a1: real, f1: real, m1: real, a2: real, f2: real, m2: real)
    requires 0.0 <= a1 < 100.0 && 0.0 <= a2 < 100.0 && height >= 0
    requires BodyType(gender, height, Some(f1), Some(m1), Some(a1)) == BodyType(gender, height, Some(f2), Some(m2), Some(a2))
    ensures FatFactor(gender, a1, f1) == FatFactor(gender, a2, f2)
    ensures MuscleClass(gender, height, m1) == MuscleClass(gender, height, m2)
  {
    var i := BodyTypeIndex(gender, height, a1, f1, m1);
    var j := BodyTypeIndex(gender, height, a2, f2, m2);
    assert BodyTypeNames[i] == BodyTypeNames[j];
    NamesDistinct(i, j);
  }

  lemma NamesDistinct(i: nat, j: nat)
    requires i < |BodyTypeNames| && j < |BodyTypeNames|
    requires BodyTypeNames[i] == BodyTypeNames[j]
    ensures i == j
  {
  }
}
