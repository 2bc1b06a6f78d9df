/** The reference ranges of body_scales.py, the older self-contained variant of the
    tables: each property of BodyScale is a first-match lookup or a constant. A Python
    `None` (no row matched) is `None`. */
module LegacyScale {
  import opened Util
  import Scale
  import BodyScore

  /** A BodyScale object: the person the ranges are looked up for. */
  datatype BodyScale = BodyScale(age: int, height: int, gender: Gender, weight: real)

  /** The BMI thresholds of the old Mi Fit body figure. */
  const BmiScale: seq<real> := [18.5, 25.0, 28.0, 32.0]

  const FatTable: seq<Scale.FatRow> := [
    Scale.FatRow(0, 12, [12.0, 21.0, 30.0, 34.0], [7.0, 16.0, 25.0, 30.0]),
    Scale.FatRow(12, 14, [15.0, 24.0, 33.0, 37.0], [7.0, 16.0, 25.0, 30.0]),
    Scale.FatRow(14, 16, [18.0, 27.0, 36.0, 40.0], [7.0, 16.0, 25.0, 30.0]),
    Scale.FatRow(16, 18, [20.0, 28.0, 37.0, 41.0], [7.0, 16.0, 25.0, 30.0]),
    Scale.FatRow(18, 40, [21.0, 28.0, 35.0, 40.0], [11.0, 17.0, 22.0, 27.0]),
    Scale.FatRow(40, 60, [22.0, 29.0, 36.0, 41.0], [12.0, 18.0, 23.0, 28.0]),
    Scale.FatRow(60, 100, [23.0, 30.0, 37.0, 42.0], [14.0, 20.0, 25.0, 30.0])
  ]

  const MuscleTable: seq<Scale.MuscleRow> := [
    Scale.MuscleRow(170, 160, [36.5, 42.6], [49.4, 59.5]),
    Scale.MuscleRow(160, 150, [32.9, 37.6], [44.0, 52.5]),
    Scale.MuscleRow(0, 0, [29.1, 34.8], [38.5, 46.6])
  ]

  const VisceralFatScale: seq<real> := [10.0, 15.0]
  const ProteinScale: seq<real> := [16.0, 20.0]
  /** very bad, bad, normal, good, better */
  const BodyScoreScale: seq<real> := [50.0, 60.0, 80.0, 90.0]
  const BodyTypeScale: seq<string> := [
    "obese", "overweight", "thick-set",
    "lack-exercise", "balanced", "balanced-muscular",
    "skinny", "balanced-skinny", "skinny-muscular"
  ]

  /** The legacy table is the one metrics/scale.py uses. */
  lemma TablesAgree()
    ensures FatTable == Scale.FatRows
    ensures MuscleTable == Scale.MuscleRows
  {
  }

  /** The gender column of the first band from position i on that holds age. */
  function FatFrom(age: int, gender: Gender, i: nat): Option<seq<real>>
    requires i <= |FatTable|
    decreases |FatTable| - i
  {
    if i == |FatTable| then None
    else if FatTable[i].Holds(age as real) then Some(FatTable[i].Column(gender))
    else FatFrom(age, gender, i + 1)
  }

  /** The legacy search finds what Scale's search of the same table finds. */
  lemma {:induction false} FatFromIsFind(age: int, gender: Gender, i: nat)
    requires i <= |FatTable|
    ensures FatFrom(age, gender, i) ==
      (var f := Scale.FindFatRow(age as real, i); if f.Some? then Some(Scale.FatRows[f.value].Column(gender)) else None)
    decreases |FatTable| - i
  {
    TablesAgree();
    if i < |FatTable| && !FatTable[i].Holds(age as real) {
      FatFromIsFind(age, gender, i + 1);
    }
  }

  /** BodyScale.fat_percentage: for an age in [0, 100) the same column as
      Scale.get_fat_percentage, and None for any other age. */
  function FatPercentage(s: BodyScale): (r: Option<seq<real>>)
    ensures r.Some? <==> 0 <= s.age < 100
    ensures r.Some? ==> r.value == Scale.FatPercentage(s.gender, s.age as real)
  {
    FatFromIsFind(s.age, s.gender, 0);
    if 0 <= s.age < 100 then
      FatFrom(s.age, s.gender, 0)
    else
      FatTableInside(s.age);
      FatFrom(s.age, s.gender, 0)
  }

  /** The search loop of BodyScale.fat_percentage; it falls through to None. */
  method LookupFatPercentage(s: BodyScale) returns (r: Option<seq<real>>)
    ensures r == FatPercentage(s)
  {
    for i := 0 to |FatTable|
      invariant FatFrom(s.age, s.gender, i) == FatFrom(s.age, s.gender, 0)
    {
      if FatTable[i].Holds(s.age as real) {
        return Some(FatTable[i].Column(s.gender));
      }
    }
    return None;
  }

  /** Every band lies inside [0, 100), so an age outside holds in none. */
  lemma FatTableInside(age: int)
    requires age < 0 || age >= 100
    ensures forall j :: 0 <= j < |Scale.FatRows| ==> !Scale.FatRows[j].Holds(age as real)
  {
    Scale.FatRowsTile();
    forall j | 0 <= j < |Scale.FatRows|
      ensures !Scale.FatRows[j].Holds(age as real)
    {
      if j > 0 { Scale.FatRowsOrdered(0, j); }
      if j < |Scale.FatRows| - 1 { Scale.FatRowsOrdered(j, |Scale.FatRows| - 1); }
    }
  }

  /** The gender range of the first muscle row from position i on whose minimum is reached. */
  function MuscleFrom(height: int, gender: Gender, i: nat): Option<seq<real>>
    requires i <= |MuscleTable|
    decreases |MuscleTable| - i
  {
    if i == |MuscleTable| then None
    else if height >= MuscleTable[i].Min(gender) then Some(MuscleTable[i].Column(gender))
    else MuscleFrom(height, gender, i + 1)
  }

  lemma {:induction false} MuscleFromIsFind(height: int, gender: Gender, i: nat)
    requires i <= |MuscleTable|
    ensures MuscleFrom(height, gender, i) ==
      (var f := Scale.FindMuscleRow(gender, height, i); if f.Some? then Some(Scale.MuscleRows[f.value].Column(gender)) else None)
    decreases |MuscleTable| - i
  {
    TablesAgree();
    if i < |MuscleTable| && height < MuscleTable[i].Min(gender) {
      MuscleFromIsFind(height, gender, i + 1);
    }
  }

  /** BodyScale.muscle_mass: for a non-negative height the same range as Scale.muscle_mass,
      and None for a negative one. */
  function MuscleMass(s: BodyScale): (r: Option<seq<real>>)
    ensures r.Some? <==> s.height >= 0
    ensures r.Some? ==> r.value == Scale.MuscleMass(s.gender, s.height)
  {
    MuscleFromIsFind(s.height, s.gender, 0);
    Scale.MuscleRowsDescend(s.gender);
    MuscleFrom(s.height, s.gender, 0)
  }

  /** The search loop of BodyScale.muscle_mass; it falls through to None. */
  method LookupMuscleMass(s: BodyScale) returns (r: Option<seq<real>>)
    ensures r == MuscleMass(s)
  {
    for i := 0 to |MuscleTable|
      invariant MuscleFrom(s.height, s.gender, i) == MuscleFrom(s.height, s.gender, 0)
    {
      if s.height >= MuscleTable[i].Min(s.gender) {
        return Some(MuscleTable[i].Column(s.gender));
      }
    }
    return None;
  }

  /** BodyScale.water_percentage: one range per gender. */
  function WaterPercentage(gender: Gender): (r: seq<real>)
    ensures |r| == 2 && r[0] < r[1]
  {
    if gender == Male then [55.0, 65.1] else [45.0, 60.1]
  }

  /** The lower end of the legacy water range is the normal water level of the body
      score's water deduction. */
  lemma WaterMatchesBodyScore(gender: Gender)
    ensures WaterPercentage(gender)[0] == BodyScore.NormalWater(gender)
  {
  }

  /** A (minimum weight, range) entry of BodyScale.bone_mass. */
  datatype BoneBand = BoneBand(min: real, range: seq<real>)

  function BoneTable(gender: Gender): (bands: seq<BoneBand>)
    ensures |bands| == 3
  {
    if gender == Male then [BoneBand(75.0, [2.0, 4.2]), BoneBand(60.0, [1.9, 4.1]), BoneBand(0.0, [1.6, 3.9])]
    else [BoneBand(60.0, [1.8, 3.9]), BoneBand(45.0, [1.5, 3.8]), BoneBand(0.0, [1.3, 3.6])]
  }

  /** The range of the first bone band from position i on whose minimum weight is reached. */
  function BoneFrom(gender: Gender, weight: real, i: nat): Option<seq<real>>
    requires i <= 3
    decreases 3 - i
  {
    if i == 3 then None
    else if weight >= BoneTable(gender)[i].min then Some(BoneTable(gender)[i].range)
    else BoneFrom(gender, weight, i + 1)
  }

  /** BodyScale.bone_mass: a range, lower end first, exactly for a non-negative weight. */
  function BoneMass(s: BodyScale): (r: Option<seq<real>>)
    ensures r.Some? <==> s.weight >= 0.0
    ensures r.Some? ==> |r.value| == 2 && r.value[0] < r.value[1]
  {
    var t := BoneTable(s.gender);
    assert BoneFrom(s.gender, s.weight, 2) == (if s.weight >= t[2].min then Some(t[2].range) else BoneFrom(s.gender, s.weight, 3));
    assert BoneFrom(s.gender, s.weight, 1) == (if s.weight >= t[1].min then Some(t[1].range) else BoneFrom(s.gender, s.weight, 2));
    BoneFrom(s.gender, s.weight, 0)
  }

  /** The search loop of BodyScale.bone_mass; it falls through to None. */
  method LookupBoneMass(s: BodyScale) returns (r: Option<seq<real>>)
    ensures r == BoneMass(s)
  {
    var bands := BoneTable(s.gender);
    for i := 0 to 3
      invariant BoneFrom(s.gender, s.weight, i) == BoneFrom(s.gender, s.weight, 0)
    {
      if s.weight >= bands[i].min {
        return Some(bands[i].range);
      }
    }
    return None;
  }

  /** The bone ranges stated directly by weight band: a band is found exactly for a
      non-negative weight, and every range has lower < upper. */
  lemma BoneMassBands(s: BodyScale)
    ensures BoneMass(s).Some? <==> s.weight >= 0.0
    ensures s.gender == Male ==>
              BoneMass(s) == (if s.weight >= 75.0 then Some([2.0, 4.2]) else if s.weight >= 60.0 then Some([1.9, 4.1])
                              else if s.weight >= 0.0 then Some([1.6, 3.9]) else None)
    ensures s.gender == Female ==>
              BoneMass(s) == (if s.weight >= 60.0 then Some([1.8, 3.9]) else if s.weight >= 45.0 then Some([1.5, 3.8])
                              else if s.weight >= 0.0 then Some([1.3, 3.6]) else None)
    ensures BoneMass(s).Some? ==> |BoneMass(s).value| == 2 && BoneMass(s).value[0] < BoneMass(s).value[1]
  {
    var t := BoneTable(s.gender);
    assert BoneFrom(s.gender, s.weight, 2) == (if s.weight >= t[2].min then Some(t[2].range) else BoneFrom(s.gender, s.weight, 3));
    assert BoneFrom(s.gender, s.weight, 1) == (if s.weight >= t[1].min then Some(t[1].range) else BoneFrom(s.gender, s.weight, 2));
  }

  /** For a non-negative weight the lower end of the legacy bone range is the expected
      bone mass of the body score's bone deduction. */
  lemma BoneMatchesBodyScore(s: BodyScale)
    requires s.weight >= 0.0
    ensures BoneMass(s).Some? && |BoneMass(s).value| == 2
    ensures BoneMass(s).value[0] == BodyScore.ExpectedBoneMass(s.gender, s.weight)
  {
    BoneMassBands(s);
    BodyScore.ExpectedBoneMassBands(s.gender, s.weight);
  }

  /** An (exclusive age bound, coefficient) entry of BodyScale.bmr, in dictionary order. */
  datatype BmrBand = BmrBand(ageBound: int, coefficient: real)

  function BmrTable(gender: Gender): (bands: seq<BmrBand>)
    ensures |bands| == 3
  {
    if gender == Male then [BmrBand(30, 21.6), BmrBand(50, 20.07), BmrBand(100, 19.35)]
    else [BmrBand(30, 21.24), BmrBand(50, 19.53), BmrBand(100, 18.63)]
  }

  /** [weight * coefficient] for the first band from position i on whose bound exceeds age. */
  function BmrFrom(gender: Gender, age: int, weight: real, i: nat): (r: Option<seq<real>>)
    requires i <= 3
    decreases 3 - i
  {
    if i == 3 then None
    else if age < BmrTable(gender)[i].ageBound then Some([weight * BmrTable(gender)[i].coefficient])
    else BmrFrom(gender, age, weight, i + 1)
  }

  /** BodyScale.bmr: for an age under 100 the one-element list holding the normal basal
      metabolism of the body score's deduction, and None from 100 on. */
  function Bmr(s: BodyScale): (r: Option<seq<real>>)
    ensures r.Some? <==> s.age < 100
    ensures r.Some? ==> r.value == [BodyScore.NormalBmr(s.gender, s.age as real, s.weight)]
  {
    var t := BmrTable(s.gender);
    assert BmrFrom(s.gender, s.age, s.weight, 2) == (if s.age < t[2].ageBound then Some([s.weight * t[2].coefficient]) else None);
    assert BmrFrom(s.gender, s.age, s.weight, 1) ==
      (if s.age < t[1].ageBound then Some([s.weight * t[1].coefficient]) else BmrFrom(s.gender, s.age, s.weight, 2));
    BodyScore.NormalBmrBands(s.gender, s.age as real, s.weight);
    BmrFrom(s.gender, s.age, s.weight, 0)
  }

  /** The search loop of BodyScale.bmr over the coefficients in dictionary order; it
      falls through to None. */
  method LookupBmr(s: BodyScale) returns (r: Option<seq<real>>)
    ensures r == Bmr(s)
  {
    var bands := BmrTable(s.gender);
    for i := 0 to 3
      invariant BmrFrom(s.gender, s.age, s.weight, i) == BmrFrom(s.gender, s.age, s.weight, 0)
    {
      if s.age < bands[i].ageBound {
        return Some([s.weight * bands[i].coefficient]);
      }
    }
    return None;
  }

  /** The weight at which a person of height cm reaches each BMI of bmis. */
  function IdealWeightsFor(bmis: seq<real>, height: int): (r: seq<real>)
    ensures |r| == |bmis|
    ensures forall i :: 0 <= i < |r| ==> r[i] == ThresholdWeight(bmis[i], height)
  {
    if bmis == [] then []
    else [ThresholdWeight(bmis[0], height)] + IdealWeightsFor(bmis[1..], height)
  }

  /** The weight at which a person of height cm reaches the given BMI. */
  function ThresholdWeight(bmi: real, height: int): real
  {
    (bmi * height as real) * height as real / 10000.0
  }

  /** BodyScale.ideal_weight: the BMI scale converted to weights. */
  function IdealWeight(s: BodyScale): (r: seq<real>)
    ensures |r| == |BmiScale|
  {
    IdealWeightsFor(BmiScale, s.height)
  }

  /** The loop of BodyScale.ideal_weight: one weight appended per BMI threshold. */
  method BuildIdealWeight(s: BodyScale) returns (scale: seq<real>)
    ensures scale == IdealWeight(s)
  {
    scale := [];
    for i := 0 to |BmiScale|
      invariant |scale| == i
      invariant forall j :: 0 <= j < i ==> scale[j] == ThresholdWeight(BmiScale[j], s.height)
    {
      scale := scale + [ThresholdWeight(BmiScale[i], s.height)];
    }
  }

  /** For a non-zero height the ideal weights are strictly increasing, as the BMI
      thresholds are. */
  lemma IdealWeightIncreasing(s: BodyScale)
    requires s.height != 0
    ensures StrictlyIncreasing(IdealWeight(s))
  {
    var h := s.height as real;
    var r := IdealWeight(s);
    forall i, j | 0 <= i < j < |r|
      ensures r[i] < r[j]
    {
      ScaledIncreasing(BmiScale[i], BmiScale[j], h);
    }
  }

  /** Each ideal weight is its BMI threshold times the height in metres squared: the
      weight at which get_bmi's quotient reaches that threshold. */
  lemma IdealWeightIsThresholdWeight(s: BodyScale, i: nat)
    requires i < |BmiScale|
    ensures IdealWeight(s)[i] == BmiScale[i] * ((s.height as real / 100.0) * (s.height as real / 100.0))
  {
  }

  lemma SquarePositive(h: real)
    requires h != 0.0
    ensures h * h > 0.0
  {
    if h < 0.0 { assert h * h == (-h) * (-h); }
  }

  lemma ScaledIncreasing(a: real, b: real, h: real)
    requires a < b && h != 0.0
    ensures (a * h) * h / 10000.0 < (b * h) * h / 10000.0
  {
    SquarePositive(h);
    assert (b * h) * h - (a * h) * h == (b - a) * (h * h);
  }

}
