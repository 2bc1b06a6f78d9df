/** The metric table of metrics/__init__.py: the eighteen metrics, what each depends
    on, how many decimals its subscribers see, the reverse "depended by" index built
    from the table, and the dispatch from a metric to the formula that computes it. */
module Metrics {
  import opened Util
  import WeightMetrics
  import ImpedanceMetrics
  import BodyScoreMetrics = BodyScore

  datatype Metric =
    | Status | Age | Weight | Impedance | Bmi | Bmr | VisceralFat | Lbm
    | FatPercentage | WaterPercentage | BoneMass | MuscleMass | MetabolicAge
    | ProteinPercentage | FatMassToIdealWeight | BodyType | BodyScore
    | LastMeasurementTime

  /** The metrics in the order of the dependency table. */
  const Table: seq<Metric> := [
    Status, Age, Weight, Impedance, Bmi, Bmr, VisceralFat, Lbm,
    FatPercentage, WaterPercentage, BoneMass, MuscleMass, MetabolicAge,
    ProteinPercentage, FatMassToIdealWeight, BodyType, BodyScore,
    LastMeasurementTime
  ]

  /** The position of a metric in the table. */
  function Index(m: Metric): (i: nat)
    ensures i < |Table| && Table[i] == m
  {
    match m
    case Status => 0
    case Age => 1
    case Weight => 2
    case Impedance => 3
    case Bmi => 4
    case Bmr => 5
    case VisceralFat => 6
    case Lbm => 7
    case FatPercentage => 8
    case WaterPercentage => 9
    case BoneMass => 10
    case MuscleMass => 11
    case MetabolicAge => 12
    case ProteinPercentage => 13
    case FatMassToIdealWeight => 14
    case BodyType => 15
    case BodyScore => 16
    case LastMeasurementTime => 17
  }

  /** Every metric occurs in the table exactly once, at the position Index gives. */
  lemma IndexOfTable(i: nat)
    requires i < |Table|
    ensures Index(Table[i]) == i
  {
    if i == 0 {
    }
    else if i == 1 {
    }
    else if i == 2 {
    }
    else if i == 3 {
    }
    else if i == 4 {
    }
    else if i == 5 {
    }
    else if i == 6 {
    }
    else if i == 7 {
    }
    else if i == 8 {
    }
    else if i == 9 {
    }
    else if i == 10 {
    }
    else if i == 11 {
    }
    else if i == 12 {
    }
    else if i == 13 {
    }
    else if i == 14 {
    }
    else if i == 15 {
    }
    else if i == 16 {
    }
    else {
      assert i == 17;
    }
  }

  /** depends_on of each row, in the order written. */
  function DependsOn(m: Metric): seq<Metric>
  {
    match m
    case Bmi => [Weight]
    case Bmr => [Age, Weight]
    case VisceralFat => [Age, Weight]
    case Lbm => [Age, Weight, Impedance]
    case FatPercentage => [Age, Weight, Lbm]
    case WaterPercentage => [FatPercentage]
    case BoneMass => [Lbm]
    case MuscleMass => [Weight, FatPercentage, BoneMass]
    case MetabolicAge => [Weight, Age, Impedance]
    case ProteinPercentage => [Weight, MuscleMass, WaterPercentage]
    case FatMassToIdealWeight => [Weight, FatPercentage, Age]
    case BodyType => [MuscleMass, FatPercentage, Age]
    case BodyScore => [
      Bmi, FatPercentage, Age, MuscleMass, WaterPercentage,
      Weight, BoneMass, Bmr, VisceralFat, ProteinPercentage]
    case _ => []
  }

  /** A metric with a formula; the others (status, age, the sensor readings and the
      measurement time) are only ever written directly. */
  predicate Derived(m: Metric)
  {
    DependsOn(m) != []
  }

  /** decimals of each row: how far a number is rounded before subscribers see it. */
  function Decimals(m: Metric): Option<nat>
  {
    match m
    case Status => None
    case BodyType => None
    case LastMeasurementTime => None
    case Age => Some(0)
    case Weight => Some(2)
    case Impedance => Some(0)
    case Bmi => Some(1)
    case Bmr => Some(0)
    case VisceralFat => Some(0)
    case Lbm => Some(1)
    case FatPercentage => Some(1)
    case WaterPercentage => Some(1)
    case BoneMass => Some(2)
    case MuscleMass => Some(2)
    case MetabolicAge => Some(0)
    case ProteinPercentage => Some(1)
    case FatMassToIdealWeight => Some(2)
    case BodyScore => Some(0)
  }

  /** Every dependency is declared earlier in the table than the metric that needs it,
      so the graph is acyclic and the table index decreases along every edge. */
  lemma DependenciesEarlier(m: Metric, d: Metric)
    requires d in DependsOn(m)
    ensures Index(d) < Index(m)
  {
  }

  /** No row lists a dependency twice. */
  lemma DependsOnDistinct(m: Metric, i: nat, j: nat)
    requires i < j < |DependsOn(m)|
    ensures DependsOn(m)[i] != DependsOn(m)[j]
  {
  }

  predicate IncreasingIndices(s: seq<Metric>)
  {
    forall i, j :: 0 <= i < j < |s| ==> Index(s[i]) < Index(s[j])
  }

  /** depended_by of d after the construction loop has seen the first n rows: every
      metric among them that lists d, in table order. */
  function DependedByUpTo(d: Metric, n: nat): seq<Metric>
    requires n <= |Table|
  {
    if n == 0 then []
    else DependedByUpTo(d, n - 1) + (if d in DependsOn(Table[n - 1]) then [Table[n - 1]] else [])
  }

  /** The reverse index the constructor builds. */
  function DependedBy(d: Metric): seq<Metric>
  {
    DependedByUpTo(d, |Table|)
  }

  lemma {:induction false} DependedByUpToMembers(d: Metric, n: nat)
    requires n <= |Table|
    ensures forall k :: k in DependedByUpTo(d, n) <==> Index(k) < n && d in DependsOn(k)
  {
    if n > 0 {
      DependedByUpToMembers(d, n - 1);
      IndexOfTable(n - 1);
    }
  }

  lemma DependedByUpToLater(d: Metric, n: nat)
    requires n <= |Table|
    ensures forall k :: k in DependedByUpTo(d, n) ==> Index(d) < Index(k)
  {
    DependedByUpToMembers(d, n);
    forall k | k in DependedByUpTo(d, n)
      ensures Index(d) < Index(k)
    {
      DependenciesEarlier(k, d);
    }
  }

  lemma {:induction false} DependedByUpToIncreasing(d: Metric, n: nat)
    requires n <= |Table|
    ensures IncreasingIndices(DependedByUpTo(d, n))
  {
    if n > 0 {
      DependedByUpToIncreasing(d, n - 1);
      DependedByUpToMembers(d, n - 1);
      IndexOfTable(n - 1);
    }
  }

  /** Nothing before a metric's own row depends on it. */
  lemma {:induction false} DependedByBeforeOwnRow(d: Metric, n: nat)
    requires n <= Index(d)
    ensures DependedByUpTo(d, n) == []
  {
    if n > 0 {
      DependedByBeforeOwnRow(d, n - 1);
      IndexOfTable(n - 1);
      if d in DependsOn(Table[n - 1]) {
        DependenciesEarlier(Table[n - 1], d);
      }
    }
  }

  /** The reverse index is exact: k is in depended_by of d exactly when d is in
      depends_on of k. */
  lemma DependedByIff(d: Metric, k: Metric)
    ensures k in DependedBy(d) <==> d in DependsOn(k)
  {
    DependedByUpToMembers(d, |Table|);
  }

  /** depended_by lists later metrics only, each once, in table order. */
  lemma DependedByLater(d: Metric)
    ensures forall k :: k in DependedBy(d) ==> Index(d) < Index(k)
    ensures IncreasingIndices(DependedBy(d))
  {
    DependedByUpToLater(d, |Table|);
    DependedByUpToIncreasing(d, |Table|);
  }

  /** The index after the construction loop has registered the first n rows. */
  predicate RegisteredUpTo(index: map<Metric, seq<Metric>>, n: nat)
    requires n <= |Table|
  {
    && (forall m :: m in index <==> Index(m) < n)
    && (forall m :: m in index ==> index[m] == DependedByUpTo(m, n))
  }

  /** The constructor's loop: rows are registered in table order, and each row is
      appended to depended_by of each of its dependencies. */
  method BuildDependedBy() returns (index: map<Metric, seq<Metric>>)
    ensures forall m :: m in index
    ensures forall m :: m in index ==> index[m] == DependedBy(m)
  {
    index := map[];
    var i := 0;
    while i < |Table|
      invariant 0 <= i <= |Table|
      invariant RegisteredUpTo(index, i)
    {
      index := RegisterRow(index, i);
      i := i + 1;
    }
    forall m | true
      ensures m in index
    {
      assert Index(m) < |Table|;
    }
  }

  /** One pass of the constructor's outer loop. Every dependency of the row is already
      registered, because it comes earlier: the lookup of the dependency never fails. */
  method RegisterRow(index0: map<Metric, seq<Metric>>, i: nat) returns (index: map<Metric, seq<Metric>>)
    requires i < |Table| && RegisteredUpTo(index0, i)
    ensures RegisteredUpTo(index, i + 1)
  {
    var key := Table[i];
    IndexOfTable(i);
    DependedByBeforeOwnRow(key, i);
    var deps := DependsOn(key);
    forall j | 0 <= j < |deps|
      ensures deps[j] !in deps[..j] && Index(deps[j]) < i
    {
      DependsOnFresh(key, j);
      DependenciesEarlier(key, deps[j]);
    }
    index := AppendDependent(index0[key := []], key, deps);
  }

  /** The inner loop: key is appended to the list of each of its dependencies. */
  method AppendDependent(index0: map<Metric, seq<Metric>>, key: Metric, deps: seq<Metric>)
    returns (index: map<Metric, seq<Metric>>)
    requires forall j :: 0 <= j < |deps| ==> deps[j] in index0 && deps[j] !in deps[..j]
    ensures forall m :: m in index <==> m in index0
    ensures forall m :: m in index ==> index[m] == index0[m] + (if m in deps then [key] else [])
  {
    index := index0;
    var j := 0;
    while j < |deps|
      invariant 0 <= j <= |deps|
      invariant forall m :: m in index <==> m in index0
      invariant forall m :: m in index ==> index[m] == index0[m] + (if m in deps[..j] then [key] else [])
    {
      var dep := deps[j];
      assert deps[..j + 1] == deps[..j] + [dep];
      index := index[dep := index[dep] + [key]];
      j := j + 1;
    }
    assert deps[..|deps|] == deps;
  }

  /** The j-th dependency of a row does not occur before position j. */
  lemma DependsOnFresh(m: Metric, j: nat)
    requires j < |DependsOn(m)|
    ensures DependsOn(m)[j] !in DependsOn(m)[..j]
  {
    forall j' | 0 <= j' < j
      ensures DependsOn(m)[j'] != DependsOn(m)[j]
    {
      DependsOnDistinct(m, j', j);
    }
  }

  /** A stored metric value: a number, a string (status, body type) or a point in time. */
  datatype Value = Num(n: real) | Str(s: string) | Time(t: int)

  predicate WellTyped(m: Metric, v: Value)
  {
    if m == Status || m == BodyType then v.Str?
    else if m == LastMeasurementTime then v.Time?
    else v.Num?
  }

  /** _modify_state_for_subscriber: a number is rounded to the metric's decimals when it
      has some; anything else is passed on as it is. */
  function ForSubscriber(m: Metric, v: Value): (r: Value)
    ensures r.Num? <==> v.Num?
    ensures !v.Num? || Decimals(m).None? ==> r == v
    ensures v.Num? && Decimals(m).Some? ==>
              -0.5 / Pow10(Decimals(m).value) as real <= r.n - v.n <= 0.5 / Pow10(Decimals(m).value) as real
  {
    if v.Num? && Decimals(m).Some? then
      RoundClose(v.n, Decimals(m).value);
      Num(Round(v.n, Decimals(m).value))
    else v
  }

  /** Rounding for a subscriber is idempotent. */
  lemma ForSubscriberIdempotent(m: Metric, v: Value)
    ensures ForSubscriber(m, ForSubscriber(m, v)) == ForSubscriber(m, v)
  {
    if v.Num? && Decimals(m).Some? {
      RoundIdempotent(v.n, Decimals(m).value);
    }
  }

  /** A whole number reaches subscribers unchanged, so it does not matter that the model
      uses reals where Python mixes integers (which are never rounded) and floats. */
  lemma ForSubscriberWhole(m: Metric, k: int)
    ensures ForSubscriber(m, Num(k as real)) == Num(k as real)
  {
    if Decimals(m).Some? {
      RoundWhole(k, Decimals(m).value);
    }
  }

  /** The user data the formulas read: gender, height in cm, and the age get_age gives
      for the birthday today. */
  datatype Config = Config(gender: Gender, height: int, age: int)

  /** Heights the configuration accepts; ages the fat-band table covers. */
  predicate ValidConfig(cfg: Config)
  {
    50 <= cfg.height <= 220 && 0 <= cfg.age < 100
  }

  /** The range each formula clamps its value to (and the body-type names), which every
      stored value keeps. */
  predicate InRange(m: Metric, v: Value)
  {
    match m
    case Weight => v.Num? && v.n > 0.0
    case Bmi => v.Num? && 10.0 <= v.n <= 90.0
    case Bmr => v.Num? && 500.0 <= v.n <= 5000.0
    case VisceralFat => v.Num? && 1.0 <= v.n <= 50.0
    case FatPercentage => v.Num? && 5.0 <= v.n <= 75.0
    case WaterPercentage => v.Num? && 35.0 <= v.n <= 75.0
    case BoneMass => v.Num? && 0.5 <= v.n <= 8.0
    case MuscleMass => v.Num? && 10.0 <= v.n <= 120.0
    case MetabolicAge => v.Num? && 15.0 <= v.n <= 80.0
    case ProteinPercentage => v.Num? && 5.0 <= v.n <= 32.0
    case BodyScore => v.Num? && 0.0 <= v.n <= 100.0
    case BodyType => v.Str? && v.s in ImpedanceMetrics.BodyTypeNames
    case _ => true
  }

  /** What a value written for m must satisfy: the right kind, the metric's range, and
      for the age the configured age (the only age ever stored). */
  predicate Admissible(cfg: Config, m: Metric, v: Value)
  {
    WellTyped(m, v) && InRange(m, v) && (m == Age ==> v == Num(cfg.age as real))
  }

  /** The store invariant: every stored value is admissible for its metric. */
  predicate StoreOk(cfg: Config, store: map<Metric, Value>)
  {
    forall m :: m in store ==> Admissible(cfg, m, store[m])
  }

  predicate DepsIn(store: map<Metric, Value>, d: Metric)
  {
    forall m :: m in DependsOn(d) ==> m in store
  }

  /** to_float on a stored metric: its number, or absent. */
  function NumOf(store: map<Metric, Value>, m: Metric): (r: Option<real>)
    ensures r.Some? <==> m in store && store[m].Num?
  {
    if m in store && store[m].Num? then Some(store[m].n) else None
  }

  /** The `calculate` entry of a row, with the configuration and the store as arguments.
      The rows without a formula give None; every formula returns an admissible value. */
  function Calculate(cfg: Config, store: map<Metric, Value>, d: Metric): (r: Option<Value>)
    requires ValidConfig(cfg) && StoreOk(cfg, store) && DepsIn(store, d)
    ensures r.Some? <==> Derived(d)
    ensures r.Some? ==> Admissible(cfg, d, r.value)
  {
    match d
    case Bmi => Some(CalculateBmi(cfg, store))
    case Bmr => Some(CalculateBmr(cfg, store))
    case VisceralFat => Some(CalculateVisceralFat(cfg, store))
    case Lbm => Some(CalculateLbm(cfg, store))
    case FatPercentage => Some(CalculateFatPercentage(cfg, store))
    case WaterPercentage => Some(CalculateWaterPercentage(cfg, store))
    case BoneMass => Some(CalculateBoneMass(cfg, store))
    case MuscleMass => Some(CalculateMuscleMass(cfg, store))
    case MetabolicAge => Some(CalculateMetabolicAge(cfg, store))
    case ProteinPercentage => Some(CalculateProteinPercentage(cfg, store))
    case FatMassToIdealWeight => Some(CalculateFatMassToIdealWeight(cfg, store))
    case BodyType => Some(CalculateBodyType(cfg, store))
    case BodyScore => Some(CalculateBodyScore(cfg, store))
    case _ => None
  }

  /** get_bmi, reading its inputs from the store. */
  function CalculateBmi(cfg: Config, store: map<Metric, Value>): (r: Value)
    requires ValidConfig(cfg) && StoreOk(cfg, store) && DepsIn(store, Bmi)
    ensures Admissible(cfg, Bmi, r)
  {
    Num(WeightMetrics.Bmi(cfg.height as real, store[Weight].n))
  }

  /** get_bmr, reading its inputs from the store. */
  function CalculateBmr(cfg: Config, store: map<Metric, Value>): (r: Value)
    requires ValidConfig(cfg) && StoreOk(cfg, store) && DepsIn(store, Bmr)
    ensures Admissible(cfg, Bmr, r)
  {
    Num(WeightMetrics.Bmr(cfg.gender, cfg.height as real, store[Weight].n, store[Age].n))
  }

  /** get_visceral_fat, reading its inputs from the store. */
  function CalculateVisceralFat(cfg: Config, store: map<Metric, Value>): (r: Value)
    requires ValidConfig(cfg) && StoreOk(cfg, store) && DepsIn(store, VisceralFat)
    ensures Admissible(cfg, VisceralFat, r)
  {
    WeightMetrics.FemaleDivisorPositive(cfg.height as real);
    Num(WeightMetrics.VisceralFat(cfg.gender, cfg.height as real, store[Weight].n, store[Age].n))
  }

  /** get_lbm, reading its inputs from the store. */
  function CalculateLbm(cfg: Config, store: map<Metric, Value>): (r: Value)
    requires ValidConfig(cfg) && StoreOk(cfg, store) && DepsIn(store, Lbm)
    ensures Admissible(cfg, Lbm, r)
  {
    Num(ImpedanceMetrics.Lbm(Some(cfg.height as real), NumOf(store, Weight), NumOf(store, Impedance), NumOf(store, Age)))
  }

  /** get_fat_percentage, reading its inputs from the store. */
  function CalculateFatPercentage(cfg: Config, store: map<Metric, Value>): (r: Value)
    requires ValidConfig(cfg) && StoreOk(cfg, store) && DepsIn(store, FatPercentage)
    ensures Admissible(cfg, FatPercentage, r)
  {
    Num(ImpedanceMetrics.FatPercentage(cfg.gender, Some(cfg.height as real), NumOf(store, Weight), NumOf(store, Lbm), NumOf(store, Age)))
  }

  /** get_water_percentage, reading its inputs from the store. */
  function CalculateWaterPercentage(cfg: Config, store: map<Metric, Value>): (r: Value)
    requires ValidConfig(cfg) && StoreOk(cfg, store) && DepsIn(store, WaterPercentage)
    ensures Admissible(cfg, WaterPercentage, r)
  {
    Num(ImpedanceMetrics.WaterPercentage(NumOf(store, FatPercentage)))
  }

  /** get_bone_mass, reading its inputs from the store. */
  function CalculateBoneMass(cfg: Config, store: map<Metric, Value>): (r: Value)
    requires ValidConfig(cfg) && StoreOk(cfg, store) && DepsIn(store, BoneMass)
    ensures Admissible(cfg, BoneMass, r)
  {
    Num(ImpedanceMetrics.BoneMass(cfg.gender, NumOf(store, Lbm)))
  }

  /** get_muscle_mass, reading its inputs from the store. */
  function CalculateMuscleMass(cfg: Config, store: map<Metric, Value>): (r: Value)
    requires ValidConfig(cfg) && StoreOk(cfg, store) && DepsIn(store, MuscleMass)
    ensures Admissible(cfg, MuscleMass, r)
  {
    Num(ImpedanceMetrics.MuscleMass(cfg.gender, NumOf(store, Weight), NumOf(store, FatPercentage), NumOf(store, BoneMass)))
  }

  /** get_metabolic_age, reading its inputs from the store. */
  function CalculateMetabolicAge(cfg: Config, store: map<Metric, Value>): (r: Value)
    requires ValidConfig(cfg) && StoreOk(cfg, store) && DepsIn(store, MetabolicAge)
    ensures Admissible(cfg, MetabolicAge, r)
  {
    Num(ImpedanceMetrics.MetabolicAge(cfg.gender, Some(cfg.height as real), NumOf(store, Weight), NumOf(store, Age), NumOf(store, Impedance)))
  }

  /** get_protein_percentage, reading its inputs from the store. */
  function CalculateProteinPercentage(cfg: Config, store: map<Metric, Value>): (r: Value)
    requires ValidConfig(cfg) && StoreOk(cfg, store) && DepsIn(store, ProteinPercentage)
    ensures Admissible(cfg, ProteinPercentage, r)
  {
    Num(ImpedanceMetrics.ProteinPercentage(NumOf(store, MuscleMass), NumOf(store, Weight), NumOf(store, WaterPercentage)))
  }

  /** get_fat_mass_to_ideal_weight, reading its inputs from the store. */
  function CalculateFatMassToIdealWeight(cfg: Config, store: map<Metric, Value>): (r: Value)
    requires ValidConfig(cfg) && StoreOk(cfg, store) && DepsIn(store, FatMassToIdealWeight)
    ensures Admissible(cfg, FatMassToIdealWeight, r)
  {
    Num(ImpedanceMetrics.FatMassToIdealWeight(cfg.gender, NumOf(store, Weight), NumOf(store, Age), NumOf(store, FatPercentage)))
  }

  /** get_body_type, reading its inputs from the store. */
  function CalculateBodyType(cfg: Config, store: map<Metric, Value>): (r: Value)
    requires ValidConfig(cfg) && StoreOk(cfg, store) && DepsIn(store, BodyType)
    ensures Admissible(cfg, BodyType, r)
  {
    Str(ImpedanceMetrics.BodyType(cfg.gender, cfg.height, NumOf(store, FatPercentage), NumOf(store, MuscleMass), NumOf(store, Age)))
  }

  /** get_body_score, reading its inputs from the store. */
  function CalculateBodyScore(cfg: Config, store: map<Metric, Value>): (r: Value)
    requires ValidConfig(cfg) && StoreOk(cfg, store) && DepsIn(store, BodyScore)
    ensures Admissible(cfg, BodyScore, r)
  {
    BodyScoreInputsPresent(cfg, store);
    var readings := BodyScoreMetrics.Readings(
      store[Bmi].n, store[FatPercentage].n, store[Age].n, store[MuscleMass].n,
      store[WaterPercentage].n, store[Weight].n, store[BoneMass].n, store[Bmr].n,
      store[VisceralFat].n, store[ProteinPercentage].n);
    Num(BodyScoreMetrics.Score(cfg.gender, cfg.height, readings))
  }

  /** The ten dependencies of the body score are stored numbers. */
  lemma BodyScoreInputsPresent(cfg: Config, store: map<Metric, Value>)
    requires StoreOk(cfg, store) && DepsIn(store, BodyScore)
    ensures Bmi in store && FatPercentage in store && Age in store && MuscleMass in store
    ensures WaterPercentage in store && Weight in store && BoneMass in store
    ensures Bmr in store && VisceralFat in store && ProteinPercentage in store
    ensures store[Bmi].Num? && store[FatPercentage].Num? && store[Age].Num? && store[MuscleMass].Num?
    ensures store[WaterPercentage].Num? && store[Weight].Num? && store[BoneMass].Num?
    ensures store[Bmr].Num? && store[VisceralFat].Num? && store[ProteinPercentage].Num?
    ensures store[Age] == Num(cfg.age as real)
  {
    BodyScoreDepsListed();
    var deps := DependsOn(BodyScore);
    forall i | 0 <= i < 10
      ensures deps[i] in store && store[deps[i]].Num?
    {
      assert deps[i] in deps;
      assert WellTyped(deps[i], store[deps[i]]);
    }
    assert Admissible(cfg, Age, store[Age]);
  }

  lemma BodyScoreDepsListed()
    ensures var deps := DependsOn(BodyScore);
      && |deps| == 10
      && deps[0] == Bmi && deps[1] == FatPercentage && deps[2] == Age && deps[3] == MuscleMass
      && deps[4] == WaterPercentage && deps[5] == Weight && deps[6] == BoneMass
      && deps[7] == Bmr && deps[8] == VisceralFat && deps[9] == ProteinPercentage
  {
  }

  /** A formula reads nothing but its declared dependencies: two stores that agree on
      them give the same result. This is what makes recomputing on a change of a
      dependency sufficient. */
  lemma CalculateReadsOnlyDependencies(cfg: Config, s1: map<Metric, Value>, s2: map<Metric, Value>, d: Metric)
    requires ValidConfig(cfg) && StoreOk(cfg, s1) && StoreOk(cfg, s2)
    requires DepsIn(s1, d) && DepsIn(s2, d)
    requires forall m :: m in DependsOn(d) ==> s1[m] == s2[m]
    ensures Calculate(cfg, s1, d) == Calculate(cfg, s2, d)
  {
    if d == BodyScore {
      BodyScoreReadsOnlyDependencies(cfg, s1, s2);
    } else {
      forall m | m in DependsOn(d)
        ensures NumOf(s1, m) == NumOf(s2, m)
      {
      }
    }
  }

  lemma BodyScoreReadsOnlyDependencies(cfg: Config, s1: map<Metric, Value>, s2: map<Metric, Value>)
    requires ValidConfig(cfg) && StoreOk(cfg, s1) && StoreOk(cfg, s2)
    requires DepsIn(s1, BodyScore) && DepsIn(s2, BodyScore)
    requires forall m :: m in DependsOn(BodyScore) ==> s1[m] == s2[m]
    ensures CalculateBodyScore(cfg, s1) == CalculateBodyScore(cfg, s2)
  {
    var deps := DependsOn(BodyScore);
    assert deps[0] == Bmi && deps[1] == FatPercentage && deps[2] == Age && deps[3] == MuscleMass;
    assert deps[4] == WaterPercentage && deps[5] == Weight && deps[6] == BoneMass;
    assert deps[7] == Bmr && deps[8] == VisceralFat && deps[9] == ProteinPercentage;
    forall i | 0 <= i < 10
      ensures s1[deps[i]] == s2[deps[i]]
    {
      assert deps[i] in deps;
    }
  }
}
