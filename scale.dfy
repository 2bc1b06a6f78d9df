/** The reference tables of metrics/scale.py: fat-percentage bands by age and
    muscle-mass ranges by height, each searched for the first matching row. */
module Scale {
  import opened Util

  /** One age band [min, max) of the fat-percentage table, with a column per gender. */
  datatype FatRow = FatRow(min: int, max: int, female: seq<real>, male: seq<real>)
  {
    predicate Holds(age: real) { min as real <= age < max as real }

    function Column(gender: Gender): seq<real>
    {
      if gender == Female then female else male
    }
  }

  /** One height row of the muscle-mass table: a minimum height and a range per gender. */
  datatype MuscleRow = MuscleRow(minMale: int, minFemale: int, female: seq<real>, male: seq<real>)
  {
    function Min(gender: Gender): int
    {
      if gender == Female then minFemale else minMale
    }

    function Column(gender: Gender): seq<real>
    {
      if gender == Female then female else male
    }
  }

  const FatRows: seq<FatRow> := [
    FatRow(0, 12, [12.0, 21.0, 30.0, 34.0], [7.0, 16.0, 25.0, 30.0]),
    FatRow(12, 14, [15.0, 24.0, 33.0, 37.0], [7.0, 16.0, 25.0, 30.0]),
    FatRow(14, 16, [18.0, 27.0, 36.0, 40.0], [7.0, 16.0, 25.0, 30.0]),
    FatRow(16, 18, [20.0, 28.0, 37.0, 41.0], [7.0, 16.0, 25.0, 30.0]),
    FatRow(18, 40, [21.0, 28.0, 35.0, 40.0], [11.0, 17.0, 22.0, 27.0]),
    FatRow(40, 60, [22.0, 29.0, 36.0, 41.0], [12.0, 18.0, 23.0, 28.0]),
    FatRow(60, 100, [23.0, 30.0, 37.0, 42.0], [14.0, 20.0, 25.0, 30.0])
  ]

  const MuscleRows: seq<MuscleRow> := [
    MuscleRow(170, 160, [36.5, 42.6], [49.4, 59.5]),
    MuscleRow(160, 150, [32.9, 37.6], [44.0, 52.5]),
    MuscleRow(0, 0, [29.1, 34.8], [38.5, 46.6])
  ]

  /** The first fat row at or after position i whose band holds age. */
  function FindFatRow(age: real, i: nat): (r: Option<nat>)
    requires i <= |FatRows|
    ensures r.Some? ==> i <= r.value < |FatRows| && FatRows[r.value].Holds(age)
    ensures r.Some? ==> forall j :: i <= j < r.value ==> !FatRows[j].Holds(age)
    ensures r.None? <==> forall j :: i <= j < |FatRows| ==> !FatRows[j].Holds(age)
    decreases |FatRows| - i
  {
    if i == |FatRows| then None
    else if FatRows[i].Holds(age) then Some(i)
    else FindFatRow(age, i + 1)
  }

  /** The bands are consecutive, non-empty and cover [0, 100) exactly. */
  lemma FatRowsTile()
    ensures FatRows[0].min == 0 && FatRows[|FatRows| - 1].max == 100
    ensures forall i :: 0 <= i < |FatRows| ==> FatRows[i].min < FatRows[i].max
    ensures forall i :: 0 <= i < |FatRows| - 1 ==> FatRows[i].max == FatRows[i + 1].min
  {
  }

  /** No age lies in two bands. */
  lemma FatRowUnique(age: real, i: nat, j: nat)
    requires i < |FatRows| && j < |FatRows|
    requires FatRows[i].Holds(age) && FatRows[j].Holds(age)
    ensures i == j
  {
    FatRowsTile();
    if i < j {
      FatRowsOrdered(i, j);
    } else if j < i {
      FatRowsOrdered(j, i);
    }
  }

  /** An earlier band ends no later than a later band begins. */
  lemma {:induction false} FatRowsOrdered(i: nat, j: nat)
    requires i < j < |FatRows|
    ensures FatRows[i].max <= FatRows[j].min
    decreases j - i
  {
    FatRowsTile();
    if i + 1 < j {
      FatRowsOrdered(i + 1, j);
    }
  }

  /** The band of an age in [0, 100). */
  function FatRowIndex(age: real): (k: nat)
    requires 0.0 <= age < 100.0
    ensures k < |FatRows| && FatRows[k].Holds(age)
    ensures forall j :: 0 <= j < |FatRows| && FatRows[j].Holds(age) ==> j == k
  {
    FatRowCovered(age);
    var r := FindFatRow(age, 0);
    FatRowUniqueAll(age, r.value);
    r.value
  }

  lemma FatRowCovered(age: real)
    requires 0.0 <= age < 100.0
    ensures exists j :: 0 <= j < |FatRows| && FatRows[j].Holds(age)
  {
    if age < 12.0 { assert FatRows[0].Holds(age); }
    else if age < 14.0 { assert FatRows[1].Holds(age); }
    else if age < 16.0 { assert FatRows[2].Holds(age); }
    else if age < 18.0 { assert FatRows[3].Holds(age); }
    else if age < 40.0 { assert FatRows[4].Holds(age); }
    else if age < 60.0 { assert FatRows[5].Holds(age); }
    else { assert FatRows[6].Holds(age); }
  }

  lemma FatRowUniqueAll(age: real, k: nat)
    requires k < |FatRows| && FatRows[k].Holds(age)
    ensures forall j :: 0 <= j < |FatRows| && FatRows[j].Holds(age) ==> j == k
  {
    forall j | 0 <= j < |FatRows| && FatRows[j].Holds(age)
      ensures j == k
    {
      FatRowUnique(age, j, k);
    }
  }

  /** Scale.get_fat_percentage: the gender column of the band holding age, four strictly
      increasing thresholds. Ages outside [0, 100) raise in the source. */
  function FatPercentage(gender: Gender, age: real): (r: seq<real>)
    requires 0.0 <= age < 100.0
    ensures |r| == 4 && StrictlyIncreasing(r)
    ensures exists k :: 0 <= k < |FatRows| && FatRows[k].Holds(age) && r == FatRows[k].Column(gender)
  {
    var k := FatRowIndex(age);
    FatRowsIncreasing(k, gender);
    FatRows[k].Column(gender)
  }

  /** The search loop of get_fat_percentage: the bands are tried in order and the
      first one holding age gives the column. */
  method LookupFatPercentage(gender: Gender, age: real) returns (r: seq<real>)
    requires 0.0 <= age < 100.0
    ensures r == FatPercentage(gender, age)
  {
    var i := 0;
    while !FatRows[i].Holds(age)
      invariant 0 <= i <= FatRowIndex(age)
      decreases FatRowIndex(age) - i
    {
      i := i + 1;
    }
    r := FatRows[i].Column(gender);
  }

  lemma FatRowsIncreasing(k: nat, gender: Gender)
    requires k < |FatRows|
    ensures |FatRows[k].Column(gender)| == 4 && StrictlyIncreasing(FatRows[k].Column(gender))
  {
  }

  /** The first muscle row at or after position i whose minimum height is reached. */
  function FindMuscleRow(gender: Gender, height: int, i: nat): (r: Option<nat>)
    requires i <= |MuscleRows|
    ensures r.Some? ==> i <= r.value < |MuscleRows| && MuscleRows[r.value].Min(gender) <= height
    ensures r.Some? ==> forall j :: i <= j < r.value ==> height < MuscleRows[j].Min(gender)
    ensures r.None? <==> forall j :: i <= j < |MuscleRows| ==> height < MuscleRows[j].Min(gender)
    decreases |MuscleRows| - i
  {
    if i == |MuscleRows| then None
    else if height >= MuscleRows[i].Min(gender) then Some(i)
    else FindMuscleRow(gender, height, i + 1)
  }

  /** The row thresholds fall strictly from row to row and the last one is 0, so a
      non-negative height always finds a row. */
  lemma MuscleRowsDescend(gender: Gender)
    ensures MuscleRows[|MuscleRows| - 1].Min(gender) == 0
    ensures forall i :: 0 <= i < |MuscleRows| - 1 ==> MuscleRows[i + 1].Min(gender) < MuscleRows[i].Min(gender)
  {
  }

  /** Scale.muscle_mass: the range of the first row whose gender minimum is at most the
      height; a lower and an upper bound with lower < upper. */
  function MuscleMass(gender: Gender, height: int): (r: seq<real>)
    requires height >= 0
    ensures |r| == 2 && r[0] < r[1]
    ensures exists k :: 0 <= k < |MuscleRows| && MuscleRows[k].Min(gender) <= height
              && (forall j :: 0 <= j < k ==> height < MuscleRows[j].Min(gender))
              && r == MuscleRows[k].Column(gender)
  {
    assert MuscleRows[2].Min(gender) <= height;
    var f := FindMuscleRow(gender, height, 0);
    MuscleRowRange(f.value, gender);
    MuscleRows[f.value].Column(gender)
  }

  /** The search loop of muscle_mass: the rows are tried in order and the first one
      whose minimum the height reaches gives the range. */
  method LookupMuscleMass(gender: Gender, height: int) returns (r: seq<real>)
    requires height >= 0
    ensures r == MuscleMass(gender, height)
  {
    assert MuscleRows[2].Min(gender) <= height;
    var i := 0;
    while height < MuscleRows[i].Min(gender)
      invariant 0 <= i < |MuscleRows|
      invariant FindMuscleRow(gender, height, i) == FindMuscleRow(gender, height, 0)
      invariant FindMuscleRow(gender, height, i).Some?
      decreases |MuscleRows| - i
    {
      i := i + 1;
    }
    r := MuscleRows[i].Column(gender);
  }

  lemma MuscleRowRange(k: nat, gender: Gender)
    requires k < |MuscleRows|
    ensures |MuscleRows[k].Column(gender)| == 2 && MuscleRows[k].Column(gender)[0] < MuscleRows[k].Column(gender)[1]
  {
  }
}
