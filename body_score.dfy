/** The body score of metrics/body_score.py: 100 minus eight deductions, each a
    piecewise-linear penalty on one metric. */
module BodyScore {
  import opened Util
  import Scale

  /** _get_malus: the linear interpolation of data between maxData (giving 0) and minData
      (giving maxMalus - minMalus), with negative results replaced by 0. */
  function Malus(data: real, minData: real, maxData: real, maxMalus: real, minMalus: real): (r: real)
    requires minData != maxData
    ensures r >= 0.0
    ensures var raw := ((data - maxData) / (minData - maxData)) * (maxMalus - minMalus);
            (raw >= 0.0 ==> r == raw) && (raw < 0.0 ==> r == 0.0)
  {
    var result := ((data - maxData) / (minData - maxData)) * (maxMalus - minMalus);
    if result >= 0.0 then result else 0.0
  }

  /** Between its two anchors (maxData included, minData excluded) the malus lies in
      [0, maxMalus - minMalus), and is positive away from maxData. */
  lemma MalusBetween(data: real, minData: real, maxData: real, maxMalus: real, minMalus: real)
    requires minData != maxData && maxMalus > minMalus
    requires (minData < maxData && minData < data <= maxData) || (maxData < minData && maxData <= data < minData)
    ensures 0.0 <= Malus(data, minData, maxData, maxMalus, minMalus) < maxMalus - minMalus
    ensures data != maxData ==> Malus(data, minData, maxData, maxMalus, minMalus) > 0.0
  {
    MalusBelowSpan(data, minData, maxData, maxMalus, minMalus);
    if data != maxData {
      MalusPositive(data, minData, maxData, maxMalus, minMalus);
    }
  }

  lemma MalusBelowSpan(data: real, minData: real, maxData: real, maxMalus: real, minMalus: real)
    requires minData != maxData && maxMalus > minMalus
    requires (minData < maxData && minData < data <= maxData) || (maxData < minData && maxData <= data < minData)
    ensures 0.0 <= Malus(data, minData, maxData, maxMalus, minMalus) < maxMalus - minMalus
  {
    var t := (data - maxData) / (minData - maxData);
    var span := maxMalus - minMalus;
    if minData < maxData {
      DivideBelowOne(maxData - data, maxData - minData);
    } else {
      DivideBelowOne(data - maxData, minData - maxData);
    }
    MulBelow(t, maxMalus, minMalus);
    MalusIsProduct(data, minData, maxData, maxMalus, minMalus, t);
  }

  lemma MalusIsProduct(data: real, minData: real, maxData: real, maxMalus: real, minMalus: real, t: real)
    requires minData != maxData && maxMalus > minMalus
    requires t == (data - maxData) / (minData - maxData) && t >= 0.0
    ensures Malus(data, minData, maxData, maxMalus, minMalus) == t * (maxMalus - minMalus)
  {
  }

  lemma MulBelow(t: real, hi: real, lo: real)
    requires 0.0 <= t < 1.0 && hi > lo
    ensures 0.0 <= t * (hi - lo) < hi - lo
  {
    var u := 1.0 - t;
    assert u * (hi - lo) > 0.0;
    assert u * (hi - lo) == (hi - lo) - t * (hi - lo);
    assert t * (hi - lo) >= 0.0;
  }

  lemma MalusPositive(data: real, minData: real, maxData: real, maxMalus: real, minMalus: real)
    requires minData != maxData && maxMalus > minMalus && data != maxData
    requires (minData < maxData && minData <= data <= maxData) || (maxData < minData && maxData <= data <= minData)
    ensures Malus(data, minData, maxData, maxMalus, minMalus) > 0.0
  {
    var t := (data - maxData) / (minData - maxData);
    if minData < maxData { PositiveQuotient(maxData - data, maxData - minData); }
    else { PositiveQuotient(data - maxData, minData - maxData); }
    assert t > 0.0;
    assert t * (maxMalus - minMalus) > 0.0;
  }

  /** At minData exactly the malus is its full span. */
  lemma MalusAtMin(minData: real, maxData: real, maxMalus: real, minMalus: real)
    requires minData != maxData && maxMalus >= minMalus
    ensures Malus(minData, minData, maxData, maxMalus, minMalus) == maxMalus - minMalus
  {
  }

  /** From minData (included) up to maxData (excluded) the malus lies in (0, span]. */
  lemma MalusFromMin(data: real, minData: real, maxData: real, maxMalus: real, minMalus: real)
    requires minData < maxData && maxMalus > minMalus && minData <= data < maxData
    ensures 0.0 < Malus(data, minData, maxData, maxMalus, minMalus) <= maxMalus - minMalus
  {
    if data == minData {
      MalusAtMin(minData, maxData, maxMalus, minMalus);
    } else {
      MalusBetween(data, minData, maxData, maxMalus, minMalus);
    }
  }

  lemma DivideBelowOne(a: real, b: real)
    requires 0.0 <= a < b
    ensures 0.0 <= a / b < 1.0
    ensures a / b == (-a) / (-b)
  {
  }

  lemma PositiveQuotient(a: real, b: real)
    requires 0.0 < a && 0.0 < b
    ensures a / b > 0.0
    ensures a / b == (-a) / (-b)
  {
  }

  /** _calculate_bmi_deduct_score. The fat band is looked up only for heights of 90 cm
      and more, so only then must the age lie in [0, 100). */
  function BmiDeduct(gender: Gender, height: int, bmi: real, age: real, fat: real): (r: real)
    requires height >= 90 ==> 0.0 <= age < 100.0
    ensures 0.0 <= r <= 30.0
    ensures height < 90 ==> r == 0.0
    ensures height >= 90 && bmi <= 14.0 ==> r == 30.0
    ensures height >= 90 && 14.0 < bmi < 15.0 ==> 15.0 < r < 30.0
  {
    if height < 90 then 0.0
    else
      var fatScale := Scale.FatPercentage(gender, age);
      if bmi <= 14.0 then 30.0
      else if fat < fatScale[2] && ((bmi >= 18.5 && age >= 18.0) || (bmi >= 15.0 && age < 18.0)) then 0.0
      else if bmi < 15.0 then
        MalusBetween(bmi, 14.0, 15.0, 30.0, 15.0);
        Malus(bmi, 14.0, 15.0, 30.0, 15.0) + 15.0
      else if bmi < 18.5 && age >= 18.0 then
        MalusFromMin(bmi, 15.0, 18.5, 15.0, 5.0);
        Malus(bmi, 15.0, 18.5, 15.0, 5.0) + 5.0
      else if fat >= fatScale[2] then
        if bmi >= 32.0 then 10.0
        else if bmi > 28.0 then OverweightMalusVanishes(bmi); Malus(bmi, 28.0, 25.0, 5.0, 10.0) + 5.0
        else 0.0
      else 0.0
  }

  /** In the overweight band (28, 32) the malus has a negative span, so it is always 0 and
      the deduction there is exactly 5. */
  lemma OverweightMalusVanishes(bmi: real)
    requires bmi > 28.0
    ensures Malus(bmi, 28.0, 25.0, 5.0, 10.0) == 0.0
  {
    var t := (bmi - 25.0) / (28.0 - 25.0);
    assert t > 0.0;
  }

  /** The BMI deduction for an adult with a high fat share and a BMI in (28, 32) is 5. */
  lemma BmiDeductOverweight(gender: Gender, height: int, bmi: real, age: real, fat: real)
    requires height >= 90 && 0.0 <= age < 100.0 && 28.0 < bmi < 32.0
    requires fat >= Scale.FatPercentage(gender, age)[2]
    ensures BmiDeduct(gender, height, bmi, age, fat) == 5.0
  {
    OverweightMalusVanishes(bmi);
  }

  /** The best fat level of _calculate_body_fat_deduct_score: 3 points below entry [2]
      of the scale for a man, 2 points below it for a woman. */
  function BestFatLevel(gender: Gender, scale: seq<real>): (r: real)
    requires |scale| == 4
    ensures scale[2] - 3.0 <= r <= scale[2] - 2.0
    ensures r == scale[2] - 3.0 <==> gender == Male
  {
    if gender == Male then scale[2] - 3.0 else scale[2] - 2.0
  }

  /** _calculate_body_fat_deduct_score: 0 from entry [0] up to the best level, 20 at or
      above entry [3], and in [10, 20) for every other fat share. The chain of tests is
      exhaustive once fat < entry [3] is tried, so its later branches are never taken. */
  function FatDeduct(gender: Gender, age: real, fat: real): (r: real)
    requires 0.0 <= age < 100.0
    ensures var s := Scale.FatPercentage(gender, age);
            (s[0] <= fat < BestFatLevel(gender, s) ==> r == 0.0)
            && (fat >= s[3] ==> r == 20.0)
            && (!(s[0] <= fat < BestFatLevel(gender, s)) && fat < s[3] ==> 10.0 <= r < 20.0)
  {
    var scale := Scale.FatPercentage(gender, age);
    if scale[0] <= fat < BestFatLevel(gender, scale) then 0.0
    else if fat >= scale[3] then 20.0
    else
      FatMalusRange(fat, scale[3], scale[2]);
      Malus(fat, scale[3], scale[2], 20.0, 10.0) + 10.0
  }

  lemma FatMalusRange(fat: real, s3: real, s2: real)
    requires s2 < s3 && fat < s3
    ensures 0.0 <= Malus(fat, s3, s2, 20.0, 10.0) < 10.0
  {
    if fat >= s2 {
      MalusBetween(fat, s3, s2, 20.0, 10.0);
    } else {
      var t := (fat - s2) / (s3 - s2);
      assert fat - s2 < 0.0;
      assert t < 0.0;
    }
  }

  /** _calculate_common_deduct_score: 0 at or above maxValue, 10 below minValue, and in
      (5, 10] in between. */
  function CommonDeduct(minValue: real, maxValue: real, value: real): (r: real)
    ensures value >= maxValue ==> r == 0.0
    ensures value < minValue && value < maxValue ==> r == 10.0
    ensures minValue <= value < maxValue ==> 5.0 < r <= 10.0
    ensures 0.0 <= r <= 10.0
  {
    if value >= maxValue then 0.0
    else if value < minValue then 10.0
    else
      MalusFromMin(value, minValue, maxValue, 10.0, 5.0);
      Malus(value, minValue, maxValue, 10.0, 5.0) + 5.0
  }

  /** A larger value never costs a larger common deduction. */
  lemma CommonDeductAntitone(minValue: real, maxValue: real, v1: real, v2: real)
    requires minValue < maxValue && v1 <= v2
    ensures CommonDeduct(minValue, maxValue, v2) <= CommonDeduct(minValue, maxValue, v1)
  {
    if minValue <= v1 && v2 < maxValue {
      var d := minValue - maxValue;
      assert v1 - maxValue <= v2 - maxValue;
      assert (v2 - maxValue) / d <= (v1 - maxValue) / d by {
        QuotientAntitone(v1 - maxValue, v2 - maxValue, d);
      }
    }
  }

  lemma QuotientAntitone(a: real, b: real, d: real)
    requires a <= b && d < 0.0
    ensures b / d <= a / d
  {
    assert b / d == -(b / -d);
    assert a / d == -(a / -d);
    assert a / -d <= b / -d;
  }

  /** _calculate_muscle_deduct_score: the common deduction below the range's lower bound. */
  function MuscleDeduct(gender: Gender, height: int, muscle: real): (r: real)
    requires height >= 0
    ensures var low := Scale.MuscleMass(gender, height)[0];
            (muscle >= low ==> r == 0.0) && (muscle < low - 5.0 ==> r == 10.0)
            && (low - 5.0 <= muscle < low ==> 5.0 < r <= 10.0)
  {
    var scale := Scale.MuscleMass(gender, height);
    CommonDeduct(scale[0] - 5.0, scale[0], muscle)
  }

  /** The water share below which the water deduction starts: 55 % for a man, 45 % for a
      woman. */
  function NormalWater(gender: Gender): (r: real)
    ensures r == 55.0 || r == 45.0
    ensures r == 55.0 <==> gender == Male
  {
    if gender == Male then 55.0 else 45.0
  }

  /** _calculate_water_deduct_score: the common deduction below 55 % (male) or 45 %. */
  function WaterDeduct(gender: Gender, water: real): (r: real)
    ensures water >= NormalWater(gender) ==> r == 0.0
    ensures water < NormalWater(gender) - 5.0 ==> r == 10.0
    ensures NormalWater(gender) - 5.0 <= water < NormalWater(gender) ==> 5.0 < r <= 10.0
  {
    CommonDeduct(NormalWater(gender) - 5.0, NormalWater(gender), water)
  }

  /** A (minimum weight, expected bone mass) entry of the bone deduction. */
  datatype BoneEntry = BoneEntry(minWeight: real, boneMass: real)

  function BoneEntries(gender: Gender): (entries: seq<BoneEntry>)
    ensures |entries| == 3
  {
    if gender == Male then [BoneEntry(75.0, 2.0), BoneEntry(60.0, 1.9), BoneEntry(0.0, 1.6)]
    else [BoneEntry(60.0, 1.8), BoneEntry(45.0, 1.5), BoneEntry(0.0, 1.3)]
  }

  /** The bone mass of the first entry from position i on whose minimum weight is reached,
      or dflt when there is none. */
  function FirstBoneFrom(entries: seq<BoneEntry>, weight: real, dflt: real, i: nat): real
    requires i <= |entries|
    decreases |entries| - i
  {
    if i == |entries| then dflt
    else if weight >= entries[i].minWeight then entries[i].boneMass
    else FirstBoneFrom(entries, weight, dflt, i + 1)
  }

  /** The expected bone mass: the first entry whose minimum weight is reached, defaulting
      to the last entry. */
  function ExpectedBoneMass(gender: Gender, weight: real): (r: real)
    ensures gender == Male ==> 1.6 <= r <= 2.0
    ensures gender == Female ==> 1.3 <= r <= 1.8
    ensures weight < 0.0 ==> r == BoneEntries(gender)[2].boneMass
  {
    var entries := BoneEntries(gender);
    var d := entries[2].boneMass;
    assert FirstBoneFrom(entries, weight, d, 2) == (if weight >= entries[2].minWeight then entries[2].boneMass else d);
    assert FirstBoneFrom(entries, weight, d, 1) ==
             (if weight >= entries[1].minWeight then entries[1].boneMass else FirstBoneFrom(entries, weight, d, 2));
    FirstBoneFrom(entries, weight, entries[|entries| - 1].boneMass, 0)
  }

  /** The expected bone mass stated directly by weight band. */
  lemma ExpectedBoneMassBands(gender: Gender, weight: real)
    ensures gender == Male ==>
              ExpectedBoneMass(gender, weight) == (if weight >= 75.0 then 2.0 else if weight >= 60.0 then 1.9 else 1.6)
    ensures gender == Female ==>
              ExpectedBoneMass(gender, weight) == (if weight >= 60.0 then 1.8 else if weight >= 45.0 then 1.5 else 1.3)
  {
    var e := BoneEntries(gender);
    var d := e[2].boneMass;
    assert FirstBoneFrom(e, weight, d, 2) == (if weight >= e[2].minWeight then e[2].boneMass else d);
    assert FirstBoneFrom(e, weight, d, 1) == (if weight >= e[1].minWeight then e[1].boneMass else FirstBoneFrom(e, weight, d, 2));
  }

  /** A heavier person is never expected to have less bone mass. */
  lemma ExpectedBoneMassMonotone(gender: Gender, w1: real, w2: real)
    requires w1 <= w2
    ensures ExpectedBoneMass(gender, w1) <= ExpectedBoneMass(gender, w2)
  {
    ExpectedBoneMassBands(gender, w1);
    ExpectedBoneMassBands(gender, w2);
  }

  /** The for/break search of _calculate_bone_deduct_score. */
  method FindExpectedBoneMass(gender: Gender, weight: real) returns (expected: real)
    ensures expected == ExpectedBoneMass(gender, weight)
  {
    var entries := BoneEntries(gender);
    expected := entries[|entries| - 1].boneMass;
    var i := 0;
    while i < |entries|
      invariant 0 <= i <= |entries|
      invariant expected == entries[|entries| - 1].boneMass
      invariant FirstBoneFrom(entries, weight, expected, i) == ExpectedBoneMass(gender, weight)
    {
      if weight >= entries[i].minWeight {
        expected := entries[i].boneMass;
        return;
      }
      i := i + 1;
    }
  }

  /** _calculate_bone_deduct_score: the common deduction below the expected bone mass. */
  function BoneDeduct(gender: Gender, weight: real, bone: real): (r: real)
    ensures var e := ExpectedBoneMass(gender, weight);
            (bone >= e ==> r == 0.0) && (bone < e - 0.3 ==> r == 10.0) && (e - 0.3 <= bone < e ==> 5.0 < r <= 10.0)
  {
    var expected := ExpectedBoneMass(gender, weight);
    CommonDeduct(expected - 0.3, expected, bone)
  }

  /** _calculate_body_visceral_deduct_score. */
  function VisceralDeduct(visceral: real): (r: real)
    ensures visceral < 10.0 ==> r == 0.0
    ensures visceral >= 15.0 ==> r == 15.0
    ensures 10.0 <= visceral < 15.0 ==> 10.0 <= r < 15.0
  {
    if visceral < 10.0 then 0.0
    else if visceral >= 15.0 then 15.0
    else
      MalusBetween(visceral, 15.0, 10.0, 15.0, 10.0);
      Malus(visceral, 15.0, 10.0, 15.0, 10.0) + 10.0
  }

  /** An (exclusive age bound, coefficient) entry of the basal-metabolism deduction. */
  datatype BmrCoefficient = BmrCoefficient(ageBound: real, coefficient: real)

  function BmrCoefficients(gender: Gender): (entries: seq<BmrCoefficient>)
    ensures |entries| == 3
  {
    if gender == Male then [BmrCoefficient(30.0, 21.6), BmrCoefficient(50.0, 20.07), BmrCoefficient(100.0, 19.35)]
    else [BmrCoefficient(30.0, 21.24), BmrCoefficient(50.0, 19.53), BmrCoefficient(100.0, 18.63)]
  }

  /** weight times the coefficient of the first entry from i on whose bound exceeds age,
      or dflt when there is none. */
  function FirstBmrFrom(entries: seq<BmrCoefficient>, age: real, weight: real, dflt: real, i: nat): real
    requires i <= |entries|
    decreases |entries| - i
  {
    if i == |entries| then dflt
    else if age < entries[i].ageBound then weight * entries[i].coefficient
    else FirstBmrFrom(entries, age, weight, dflt, i + 1)
  }

  /** The normal basal metabolism: weight times the coefficient of the first age bound
      above age, or 20.0 when the age is 100 or more. */
  function NormalBmr(gender: Gender, age: real, weight: real): (r: real)
    ensures age >= 100.0 ==> r == 20.0
    ensures age < 100.0 && weight >= 0.0 ==> weight * 18.63 <= r <= weight * 21.6
  {
    var c := BmrCoefficients(gender);
    assert FirstBmrFrom(c, age, weight, 20.0, 3) == 20.0;
    assert FirstBmrFrom(c, age, weight, 20.0, 2) == (if age < c[2].ageBound then weight * c[2].coefficient else 20.0);
    assert FirstBmrFrom(c, age, weight, 20.0, 1) ==
             (if age < c[1].ageBound then weight * c[1].coefficient else FirstBmrFrom(c, age, weight, 20.0, 2));
    FirstBmrFrom(c, age, weight, 20.0, 0)
  }

  /** The normal basal metabolism stated directly by age band. */
  lemma NormalBmrBands(gender: Gender, age: real, weight: real)
    ensures gender == Male ==>
              NormalBmr(gender, age, weight) == (if age < 30.0 then weight * 21.6 else if age < 50.0 then weight * 20.07
                                                 else if age < 100.0 then weight * 19.35 else 20.0)
    ensures gender == Female ==>
              NormalBmr(gender, age, weight) == (if age < 30.0 then weight * 21.24 else if age < 50.0 then weight * 19.53
                                                 else if age < 100.0 then weight * 18.63 else 20.0)
  {
    var c := BmrCoefficients(gender);
    assert FirstBmrFrom(c, age, weight, 20.0, 3) == 20.0;
    assert FirstBmrFrom(c, age, weight, 20.0, 2) == (if age < c[2].ageBound then weight * c[2].coefficient else 20.0);
    assert FirstBmrFrom(c, age, weight, 20.0, 1) == (if age < c[1].ageBound then weight * c[1].coefficient else FirstBmrFrom(c, age, weight, 20.0, 2));
  }

  /** The for/break search of _calculate_basal_metabolism_deduct_score. */
  method FindNormalBmr(gender: Gender, age: real, weight: real) returns (normal: real)
    ensures normal == NormalBmr(gender, age, weight)
  {
    var coefficients := BmrCoefficients(gender);
    normal := 20.0;
    var i := 0;
    while i < |coefficients|
      invariant 0 <= i <= |coefficients|
      invariant normal == 20.0
      invariant FirstBmrFrom(coefficients, age, weight, normal, i) == NormalBmr(gender, age, weight)
    {
      if age < coefficients[i].ageBound {
        normal := weight * coefficients[i].coefficient;
        return;
      }
      i := i + 1;
    }
  }

  /** _calculate_basal_metabolism_deduct_score: 0 at or above normal, 6 at or below
      normal - 300, and in (5, 8) strictly between. */
  function BmrDeduct(gender: Gender, age: real, weight: real, bmr: real): (r: real)
    ensures var n := NormalBmr(gender, age, weight);
            (bmr >= n ==> r == 0.0) && (bmr <= n - 300.0 ==> r == 6.0) && (n - 300.0 < bmr < n ==> 5.0 < r < 8.0)
  {
    var normal := NormalBmr(gender, age, weight);
    if bmr >= normal then 0.0
    else if bmr <= normal - 300.0 then 6.0
    else
      MalusBetween(bmr, normal - 300.0, normal, 6.0, 3.0);
      Malus(bmr, normal - 300.0, normal, 6.0, 3.0) + 5.0
  }

  /** _calculate_protein_deduct_score. */
  function ProteinDeduct(protein: real): (r: real)
    ensures protein > 17.0 ==> r == 0.0
    ensures protein < 10.0 ==> r == 10.0
    ensures 10.0 <= protein <= 16.0 ==> 5.0 <= r <= 10.0
    ensures 16.0 < protein <= 17.0 ==> 3.0 <= r < 5.0
  {
    if protein > 17.0 then 0.0
    else if protein < 10.0 then 10.0
    else if protein <= 16.0 then
      ProteinMalusRange(protein);
      Malus(protein, 10.0, 16.0, 10.0, 5.0) + 5.0
    else
      MalusBetween(protein, 16.0, 17.0, 5.0, 3.0);
      Malus(protein, 16.0, 17.0, 5.0, 3.0) + 3.0
  }

  lemma ProteinMalusRange(protein: real)
    requires 10.0 <= protein <= 16.0
    ensures 0.0 <= Malus(protein, 10.0, 16.0, 10.0, 5.0) <= 5.0
  {
    if protein == 10.0 {
      MalusAtMin(10.0, 16.0, 10.0, 5.0);
    } else {
      MalusBetween(protein, 10.0, 16.0, 10.0, 5.0);
    }
  }

  /** The metric values get_body_score reads. */
  datatype Readings = Readings(
    bmi: real, fat: real, age: real, muscle: real, water: real,
    weight: real, bone: real, bmr: real, visceral: real, protein: real)

  /** The sum of the eight deductions. */
  function TotalDeduction(gender: Gender, height: int, m: Readings): (d: real)
    requires 0.0 <= m.age < 100.0 && height >= 0
    ensures 0.0 <= d <= 30.0 + 20.0 + 10.0 + 10.0 + 15.0 + 10.0 + 8.0 + 10.0
  {
    BmiDeduct(gender, height, m.bmi, m.age, m.fat)
    + FatDeduct(gender, m.age, m.fat)
    + MuscleDeduct(gender, height, m.muscle)
    + WaterDeduct(gender, m.water)
    + VisceralDeduct(m.visceral)
    + BoneDeduct(gender, m.weight, m.bone)
    + BmrDeduct(gender, m.age, m.weight, m.bmr)
    + ProteinDeduct(m.protein)
  }

  /** get_body_score: 100 minus the deductions, never below 0. */
  function Score(gender: Gender, height: int, m: Readings): (r: real)
    requires 0.0 <= m.age < 100.0 && height >= 0
    ensures 0.0 <= r <= 100.0
    ensures r == 0.0 || r == 100.0 - TotalDeduction(gender, height, m)
    ensures TotalDeduction(gender, height, m) <= 100.0 ==> r == 100.0 - TotalDeduction(gender, height, m)
  {
    var score := 100.0 - TotalDeduction(gender, height, m);
    if score > 0.0 then score else 0.0
  }

  /** get_body_score as written: the score is reduced deduction by deduction. */
  method ComputeScore(gender: Gender, height: int, m: Readings) returns (r: real)
    requires 0.0 <= m.age < 100.0 && height >= 0
    ensures r == Score(gender, height, m)
  {
    var score := 100.0;
    score := score - BmiDeduct(gender, height, m.bmi, m.age, m.fat);
    score := score - FatDeduct(gender, m.age, m.fat);
    score := score - MuscleDeduct(gender, height, m.muscle);
    score := score - WaterDeduct(gender, m.water);
    score := score - VisceralDeduct(m.visceral);
    score := score - BoneDeduct(gender, m.weight, m.bone);
    score := score - BmrDeduct(gender, m.age, m.weight, m.bmr);
    score := score - ProteinDeduct(m.protein);
    r := if 0.0 >= score then 0.0 else score;
  }
}
