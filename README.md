# bodymiscale, modelled in Dafny

bodymiscale is a Home Assistant integration. It turns the readings of a smart scale (weight, impedance and, optionally, a last-measurement time) into body-composition metrics. This project models its computational core and proves properties of the model.

- **Metrics handler** (`metrics/__init__.py`): `BodyScaleMetricsHandler` and its dependency table over 18 metrics.
  - `Metrics` holds the table, the reverse `depended_by` index and the `calculate` dispatch.
  - `Propagation` writes one metric value, then runs the wave of recomputations it starts and the full recalculation pass. Both are written as functions on the handler state.
  - `Problems` holds the status string of problem tokens.
  - `Ingest` validates sensor states and turns each into a write or a problem.
  - `Handler` is a class whose methods update the store, the key order, the status and the subscriber lists in place. Each method is proved to follow those functions.
- **Formula library:**
  - `WeightMetrics`: BMI, BMR and visceral fat.
  - `ImpedanceMetrics`: lean body mass, fat, water, bone, muscle, metabolic age, protein, fat mass to the ideal figure, and body type.
  - `BodyScore`: the eight deductions and the score.
- **Lookup tables:** `Scale` holds the fat-percentage and muscle-mass tables. `Util` holds the shared clamp, the ideal weight and the BMI label.
- **Older variant:**
  - `LegacyMetrics`: `BodyMetrics` and `BodyMetricsImpedance`. Each formula is proved equal to its counterpart in the new library, or its difference is pinned down.
  - `LegacyScale`: the `BodyScale` tables.
  - `Coordinator`: `BodyScaleCoordinator`, the older problem aggregator, as a class.

Numbers are mathematical reals. The handler's store is a map together with its iteration order. That order is the order of last write, because the time-limited cache moves a key that is set again to the end. The subscriber callbacks are opaque ids, and a ghost log records every call made to them.

## Model

| member | source | states |
|---|---|---|
| Util.Clamp | custom_components/bodymiscale/util.py:11-17 | the result lies in [minimum, maximum] when minimum <= maximum; a value in range is returned unchanged, one below the minimum becomes the minimum, and one above the maximum but not below the minimum becomes the maximum |
| Util.ClampIdempotent | custom_components/bodymiscale/util.py:11-17 | clamping twice to the same bounds is clamping once |
| Util.ClampMonotone | custom_components/bodymiscale/util.py:11-17 | clamping preserves the order of two values |
| Util.RoundHalfEven | custom_components/bodymiscale/util.py:27 | Python round to an integer: within one half of the argument, and exact on integers |
| Util.Round | custom_components/bodymiscale/metrics/__init__.py:133-139 | round(x, n) on the exact value: the result is within half a unit of the n-th decimal of x and has at most n decimals |
| Util.RoundWhole | custom_components/bodymiscale/util.py:27 | rounding an integral value to any number of decimals gives it back |
| Util.RoundScaledWhole | custom_components/bodymiscale/util.py:27 | rounding an integer at any scale gives it back |
| Util.RoundHalfEvenWhole | custom_components/bodymiscale/util.py:27 | rounding an integer to 0 decimals gives it back |
| Util.RoundIdempotent | custom_components/bodymiscale/util.py:27 | rounding a rounded value to the same decimals changes nothing |
| Util.RoundScaledIdempotent | custom_components/bodymiscale/util.py:27 | rounding at a scale is idempotent |
| Util.RoundScaledUnfold | custom_components/bodymiscale/util.py:27 | rounding at scale s is the half-to-even integer of x*s divided by s |
| Util.RoundClose | custom_components/bodymiscale/util.py:27 | rounding to n decimals moves a value by at most half a unit of the n-th decimal |
| Util.RoundScaledClose | custom_components/bodymiscale/util.py:27 | rounding at scale s moves a value by at most 0.5/s |
| Util.RoundScaledMultiple | custom_components/bodymiscale/util.py:27 | a value rounded at scale s times s is a whole number |
| Util.IdealWeight | custom_components/bodymiscale/util.py:20-27 | get_ideal_weight: an integral value within 0.5 of (h-70)*0.6 for a female and of (h-80)*0.7 otherwise |
| Util.BmiBand | custom_components/bodymiscale/util.py:30-44 | the band of a BMI: one of the seven bands, every lower threshold before it is <= bmi, and bmi is below the threshold that ends it |
| Util.BmiLabel | custom_components/bodymiscale/util.py:30-44 | get_bmi_label is total: the label is one of the seven and is the label of the BMI band |
| Util.BmiBandMonotone | custom_components/bodymiscale/util.py:30-44 | a larger BMI never yields an earlier label |
| Util.BmiBandExact | custom_components/bodymiscale/util.py:30-44 | the thresholds are lower-inclusive: a BMI between threshold k-1 (inclusive) and threshold k (exclusive) is in band k |
| WeightMetrics.Bmi | custom_components/bodymiscale/metrics/weight.py:14-18 | get_bmi is in [10, 90]; it equals the raw quotient weight/(height/100)^2 when that is in range, and is 10 below the range and 90 above it |
| WeightMetrics.Bmr | custom_components/bodymiscale/metrics/weight.py:21-38 | get_bmr is in [500, 5000]; above the gender cap (2996 female, 2322 male) it is 5000, between 500 and the cap it is the gender-specific linear expression, below 500 it is 500 |
| WeightMetrics.MaleDivisorPositive | custom_components/bodymiscale/metrics/weight.py:59-60 | the male visceral divisor is positive for every height |
| WeightMetrics.FemaleDivisorPositive | custom_components/bodymiscale/metrics/weight.py:51-52 | the female visceral divisor is positive for heights of at least 50 |
| WeightMetrics.VisceralFat | custom_components/bodymiscale/metrics/weight.py:41-65 | get_visceral_fat is in [1, 50]; a female takes the first formula exactly when weight > -(13 - 0.5*height), a male exactly when height < 1.6*weight, and the chosen formula is clamped to [1, 50] |
| ImpedanceMetrics.Lbm | custom_components/bodymiscale/metrics/impedance.py:14-36 | get_lbm is 0 when height, weight, impedance or age is absent, and the linear lean-body-mass formula otherwise |
| ImpedanceMetrics.LbmMonotone | custom_components/bodymiscale/metrics/impedance.py:14-36 | lean body mass grows with weight and shrinks with impedance and age |
| ImpedanceMetrics.FatCoefficient | custom_components/bodymiscale/metrics/impedance.py:55-66 | the gender- and size-dependent coefficient that divides the lean mass is positive |
| ImpedanceMetrics.FatPercentage | custom_components/bodymiscale/metrics/impedance.py:39-74 | get_fat_percentage is 0 when an input is absent; otherwise it is in [5, 75], it is 75 for a raw value above 63, the raw value on [5, 63] and 5 below |
| ImpedanceMetrics.FatDecreasesWithLbm | custom_components/bodymiscale/metrics/impedance.py:39-74 | for a positive weight, more lean mass never gives a higher fat percentage |
| ImpedanceMetrics.WaterPercentage | custom_components/bodymiscale/metrics/impedance.py:77-89 | get_water_percentage is in [35, 75]; a post-coefficient value of 65 or more becomes 75, one below 35 becomes 35, the rest is kept |
| ImpedanceMetrics.BoneMass | custom_components/bodymiscale/metrics/impedance.py:92-111 | get_bone_mass is in [0.5, 8]; a raw value above the gender cap (5.1 female, 5.2 male) becomes 8, one below 0.5 becomes 0.5 |
| ImpedanceMetrics.BoneMonotone | custom_components/bodymiscale/metrics/impedance.py:92-111 | bone mass grows with lean body mass |
| ImpedanceMetrics.MuscleMass | custom_components/bodymiscale/metrics/impedance.py:114-129 | get_muscle_mass is in [10, 120]; a raw value at or above the gender cap (84 female, 93.5 male) becomes 120, one below 10 becomes 10 |
| ImpedanceMetrics.MetabolicAge | custom_components/bodymiscale/metrics/impedance.py:132-166 | get_metabolic_age is in [15, 80], is 15 when an input is absent, and equals the gender formula when that is in range |
| ImpedanceMetrics.ProteinPercentage | custom_components/bodymiscale/metrics/impedance.py:169-181 | get_protein_percentage is 0 when the weight is 0 or absent; otherwise it is in [5, 32] and equals muscle/weight*100 - water when that is in range |
| ImpedanceMetrics.FatMassToIdealWeight | custom_components/bodymiscale/metrics/impedance.py:184-197 | weight*(target - fat)/100, with target the entry [2] of the age row of the fat table; for a positive weight it is positive exactly when fat < target |
| ImpedanceMetrics.FatFactor | custom_components/bodymiscale/metrics/impedance.py:212-219 | the fat factor is 0 exactly when fat > scale[2], 2 exactly when fat < scale[1], and 1 otherwise |
| ImpedanceMetrics.MuscleClass | custom_components/bodymiscale/metrics/impedance.py:220-228 | the muscle class is 2 exactly when muscle > muscle_mass[1], 0 exactly when muscle < muscle_mass[0], and 1 otherwise |
| ImpedanceMetrics.BodyTypeIndex | custom_components/bodymiscale/metrics/impedance.py:229-232 | the index factor*3 + k is always one of the nine positions, its quotient by 3 is the fat factor and its remainder the muscle class |
| ImpedanceMetrics.BodyType | custom_components/bodymiscale/metrics/impedance.py:200-232 | get_body_type is one of the nine names, the one at the index of the fat factor and the muscle class |
| ImpedanceMetrics.BodyTypeDetermines | custom_components/bodymiscale/metrics/impedance.py:200-232 | the body type names its fat factor and muscle class: two readings with the same body type have the same of both |
| ImpedanceMetrics.NamesDistinct | custom_components/bodymiscale/metrics/impedance.py:204-211 | the nine body-type names are distinct |
| BodyScore.Malus | custom_components/bodymiscale/metrics/body_score.py:14-25 | _get_malus is never negative and equals ((data - max)/(min - max))*(max_malus - min_malus) whenever that is >= 0; it requires min_data != max_data |
| BodyScore.MalusBetween | custom_components/bodymiscale/metrics/body_score.py:14-25 | for data strictly inside the data range (the max end included) the malus is below the malus span, and positive away from the max end |
| BodyScore.MalusBelowSpan | custom_components/bodymiscale/metrics/body_score.py:14-25 | for data inside the data range (the max end included) the malus is in [0, span) |
| BodyScore.MalusIsProduct | custom_components/bodymiscale/metrics/body_score.py:14-25 | a non-negative quotient t gives the malus t times the malus span |
| BodyScore.MalusPositive | custom_components/bodymiscale/metrics/body_score.py:14-25 | data inside the data range but not at the max end gives a positive malus |
| BodyScore.MalusAtMin | custom_components/bodymiscale/metrics/body_score.py:14-25 | data at min_data gives the whole malus span |
| BodyScore.MalusFromMin | custom_components/bodymiscale/metrics/body_score.py:14-25 | data in [min, max) of an increasing data range gives a malus in (0, span] |
| BodyScore.BmiDeduct | custom_components/bodymiscale/metrics/body_score.py:28-65 | the BMI deduction is always in [0, 30]; it is 0 when height < 90, 30 when bmi <= 14, and strictly between 15 and 30 on (14, 15) |
| BodyScore.OverweightMalusVanishes | custom_components/bodymiscale/metrics/body_score.py:55-62 | above a BMI of 28 the overweight malus on [25, 28] is 0 |
| BodyScore.BmiDeductOverweight | custom_components/bodymiscale/metrics/body_score.py:55-62 | with 28 < bmi < 32 and fat at or above scale[2], the BMI deduction is 5 |
| BodyScore.FatDeduct | custom_components/bodymiscale/metrics/body_score.py:68-93 | the fat deduction is 0 from scale[0] up to the best level, 20 at or above scale[3], and in [10, 20) otherwise |
| BodyScore.BestFatLevel | custom_components/bodymiscale/metrics/body_score.py:77 | the best fat level is 3 points below entry [2] of the fat scale for a man and 2 points below it for a woman |
| BodyScore.FatMalusRange | custom_components/bodymiscale/metrics/body_score.py:81-84 | below scale[3] the fat malus on [scale[2], scale[3]] stays below 10 |
| BodyScore.CommonDeduct | custom_components/bodymiscale/metrics/body_score.py:96-104 | _calculate_common_deduct_score is 0 when value >= max, 10 when value < min, and in (5, 10] in between; always in [0, 10] |
| BodyScore.CommonDeductAntitone | custom_components/bodymiscale/metrics/body_score.py:96-104 | a larger value never gives a larger common deduction |
| BodyScore.MuscleDeduct | custom_components/bodymiscale/metrics/body_score.py:107-112 | the muscle deduction is 0 at or above the lower muscle bound, 10 more than 5 below it, and in (5, 10] in between |
| BodyScore.WaterDeduct | custom_components/bodymiscale/metrics/body_score.py:115-122 | the water deduction is 0 at or above the normal water (55 male, 45 female), 10 more than 5 below it, and in (5, 10] in between |
| BodyScore.NormalWater | custom_components/bodymiscale/metrics/body_score.py:119 | the normal water share is 55 for a man and 45 for a woman |
| BodyScore.BoneEntries | custom_components/bodymiscale/metrics/body_score.py:128-145 | the bone table has three rows per gender |
| BodyScore.ExpectedBoneMassBands | custom_components/bodymiscale/metrics/body_score.py:125-150 | the expected bone mass is that of the first row whose min weight <= weight: 2.0/1.9/1.6 male at 75/60/0, 1.8/1.5/1.3 female at 60/45/0 |
| BodyScore.ExpectedBoneMass | custom_components/bodymiscale/metrics/body_score.py:125-150 | the expected bone mass is between 1.6 and 2.0 for a man and between 1.3 and 1.8 for a woman, the last row's for a negative weight |
| BodyScore.ExpectedBoneMassMonotone | custom_components/bodymiscale/metrics/body_score.py:125-150 | the expected bone mass never decreases with weight |
| BodyScore.FindExpectedBoneMass | custom_components/bodymiscale/metrics/body_score.py:146-150 | the for/break search of the bone table yields the first-match expected bone mass |
| BodyScore.BoneDeduct | custom_components/bodymiscale/metrics/body_score.py:125-154 | the bone deduction is 0 at or above the expected mass, 10 more than 0.3 below, and in (5, 10] in between |
| BodyScore.VisceralDeduct | custom_components/bodymiscale/metrics/body_score.py:157-166 | the visceral deduction is 0 below 10, 15 at or above 15, and in [10, 15) in between |
| BodyScore.BmrCoefficients | custom_components/bodymiscale/metrics/body_score.py:172-181 | the coefficient table has three age bounds per gender |
| BodyScore.NormalBmrBands | custom_components/bodymiscale/metrics/body_score.py:169-187 | normal BMR is weight times the coefficient of the first age bound above the age (30, 50, 100), and the default 20 from age 100 on |
| BodyScore.NormalBmr | custom_components/bodymiscale/metrics/body_score.py:169-187 | the normal BMR is 20 from age 100 on and otherwise between 18.63 and 21.6 times a non-negative weight |
| BodyScore.FindNormalBmr | custom_components/bodymiscale/metrics/body_score.py:183-187 | the for/break search of the coefficient table yields the first-match normal BMR |
| BodyScore.BmrDeduct | custom_components/bodymiscale/metrics/body_score.py:169-193 | the BMR deduction is 0 at or above normal, 6 at or below normal - 300, and in (5, 8) strictly between |
| BodyScore.ProteinDeduct | custom_components/bodymiscale/metrics/body_score.py:196-206 | the protein deduction is 0 above 17, 10 below 10, in [5, 10] on [10, 16] and in [3, 5) on (16, 17] |
| BodyScore.ProteinMalusRange | custom_components/bodymiscale/metrics/body_score.py:201-202 | on [10, 16] the protein malus is in [0, 5] |
| BodyScore.TotalDeduction | custom_components/bodymiscale/metrics/body_score.py:209-231 | the sum of the eight deductions lies between 0 and 113, the sum of their maxima |
| BodyScore.Score | custom_components/bodymiscale/metrics/body_score.py:209-231 | get_body_score is in [0, 100]; it is 100 minus the deductions whenever they do not exceed 100, and 0 otherwise |
| BodyScore.ComputeScore | custom_components/bodymiscale/metrics/body_score.py:209-231 | subtracting the deductions from 100 step by step and flooring at 0 gives Score |
| Scale.FindFatRow | custom_components/bodymiscale/metrics/scale.py:64-66 | the search returns the first row from i on whose [min, max) holds the age, and nothing exactly when no such row exists |
| Scale.FatRowsTile | custom_components/bodymiscale/metrics/scale.py:19-62 | the fat rows tile [0, 100): the first starts at 0, the last ends at 100, each is non-empty and ends where the next starts |
| Scale.FatRowUnique | custom_components/bodymiscale/metrics/scale.py:19-62 | no two fat rows hold the same age |
| Scale.FatRowsOrdered | custom_components/bodymiscale/metrics/scale.py:19-62 | an earlier fat row ends no later than a later one starts |
| Scale.FatRowIndex | custom_components/bodymiscale/metrics/scale.py:15-69 | every age in [0, 100) has a row holding it, and that row is unique |
| Scale.FatRowCovered | custom_components/bodymiscale/metrics/scale.py:15-69 | every age in [0, 100) is held by some row |
| Scale.FatRowUniqueAll | custom_components/bodymiscale/metrics/scale.py:19-62 | a row holding an age is the only one |
| Scale.FatPercentage | custom_components/bodymiscale/metrics/scale.py:15-69 | get_fat_percentage returns the gender column of the row with min <= age < max: four strictly increasing values |
| Scale.LookupFatPercentage | custom_components/bodymiscale/metrics/scale.py:64-66 | the loop over the rows returns FatPercentage |
| Scale.FatRowsIncreasing | custom_components/bodymiscale/metrics/scale.py:19-62 | every fat row is four strictly increasing values per gender |
| Scale.FindMuscleRow | custom_components/bodymiscale/metrics/scale.py:92-94 | the search returns the first row from i on whose gender minimum <= height, and nothing exactly when no such row exists |
| Scale.MuscleRowsDescend | custom_components/bodymiscale/metrics/scale.py:75-90 | the muscle thresholds (male 170/160/0, female 160/150/0) strictly decrease to 0 |
| Scale.MuscleMass | custom_components/bodymiscale/metrics/scale.py:72-97 | muscle_mass returns the range of the first row whose gender minimum <= height, a pair with lower < upper; one exists for every height >= 0 |
| Scale.LookupMuscleMass | custom_components/bodymiscale/metrics/scale.py:92-94 | the loop over the rows returns MuscleMass |
| Scale.MuscleRowRange | custom_components/bodymiscale/metrics/scale.py:75-90 | every muscle range is two values with lower < upper |
| Metrics.Index | custom_components/bodymiscale/metrics/__init__.py:75-130 | every metric has a position in the table, the 18 members in table order (LAST_MEASUREMENT_TIME last though models.py lacks it) |
| Metrics.IndexOfTable | custom_components/bodymiscale/metrics/__init__.py:75-130 | the position of the metric at table position i is i |
| Metrics.DependenciesEarlier | custom_components/bodymiscale/metrics/__init__.py:75-130 | every dependency is declared earlier in the table, so the dependency graph is acyclic and the lookup in the constructor never fails |
| Metrics.DependsOnDistinct | custom_components/bodymiscale/metrics/__init__.py:75-130 | no row lists a dependency twice |
| Metrics.DependedByUpToMembers | custom_components/bodymiscale/metrics/__init__.py:168-173 | after the first n rows of the constructor loop, k is in the index of d exactly when k is among them and depends on d |
| Metrics.DependedByUpToLater | custom_components/bodymiscale/metrics/__init__.py:168-173 | every metric in the index of d comes after d in the table |
| Metrics.DependedByUpToIncreasing | custom_components/bodymiscale/metrics/__init__.py:168-173 | the index of d lists its dependents in table order |
| Metrics.DependedByBeforeOwnRow | custom_components/bodymiscale/metrics/__init__.py:168-173 | before the row of d, nothing has been appended to its index |
| Metrics.DependedByIff | custom_components/bodymiscale/metrics/__init__.py:168-173 | after construction, k is in d.depended_by exactly when d is in k.depends_on |
| Metrics.DependedByLater | custom_components/bodymiscale/metrics/__init__.py:168-173 | every dependent of d comes after d in the table, in table order |
| Metrics.BuildDependedBy | custom_components/bodymiscale/metrics/__init__.py:168-173 | the constructor loop yields, for every metric, the reverse index of the table |
| Metrics.RegisterRow | custom_components/bodymiscale/metrics/__init__.py:168-173 | one iteration of the loop appends the row to the index of each of its dependencies, extending the index from the first i rows to the first i+1 |
| Metrics.AppendDependent | custom_components/bodymiscale/metrics/__init__.py:171-173 | the inner loop appends key exactly to the lists of its dependencies and leaves the others alone |
| Metrics.DependsOnFresh | custom_components/bodymiscale/metrics/__init__.py:75-130 | a dependency does not occur earlier in its own row |
| Metrics.ValidConfig | custom_components/bodymiscale/const.py:59-60 | the configurations the model covers: a height within the config flow bounds and an age in [0, 100), the rows of the fat table |
| Metrics.InRange | custom_components/bodymiscale/metrics/impedance.py:74-181 | the range each metric's formula clamps its value to, and a body-type name for the body type |
| Metrics.Admissible | custom_components/bodymiscale/metrics/__init__.py:449-465 | a value that may be stored for a metric: the kind the metric holds, its clamped range, and the configured age for the age |
| Metrics.ForSubscriber | custom_components/bodymiscale/metrics/__init__.py:133-139 | _modify_state_for_subscriber keeps the kind of value; only a number of a metric with decimals changes, by at most half a unit of its last decimal |
| Metrics.ForSubscriberIdempotent | custom_components/bodymiscale/metrics/__init__.py:133-139 | preparing a value twice for subscribers is preparing it once |
| Metrics.ForSubscriberWhole | custom_components/bodymiscale/metrics/__init__.py:133-139 | a whole number reaches subscribers unchanged |
| Metrics.NumOf | custom_components/bodymiscale/metrics/impedance.py:18-21 | to_float of a stored metric: a number exactly when the metric is stored as one |
| Metrics.Calculate | custom_components/bodymiscale/metrics/__init__.py:75-130 | the calculate entry of a row gives a value exactly for the 13 derived metrics, and that value is admissible: of the right kind and within the range its formula clamps the value to (BMI in [10, 90], fat in [5, 75], body type one of the nine names, and so on) |
| Metrics.CalculateBmi | custom_components/bodymiscale/metrics/__init__.py:81 | the row, on a store of admissible inputs that holds its dependencies, gives a BMI in [10, 90] |
| Metrics.CalculateBmr | custom_components/bodymiscale/metrics/__init__.py:82 | the row, on a store of admissible inputs that holds its dependencies, gives a BMR in [500, 5000] |
| Metrics.CalculateVisceralFat | custom_components/bodymiscale/metrics/__init__.py:83 | the row, on a store of admissible inputs that holds its dependencies, gives a visceral fat in [1, 50] |
| Metrics.CalculateLbm | custom_components/bodymiscale/metrics/__init__.py:85 | the row, on a store of admissible inputs that holds its dependencies, gives a number |
| Metrics.CalculateFatPercentage | custom_components/bodymiscale/metrics/__init__.py:86-88 | the row, on a store of admissible inputs that holds its dependencies, gives a fat percentage in [5, 75] |
| Metrics.CalculateWaterPercentage | custom_components/bodymiscale/metrics/__init__.py:89-91 | the row, on a store of admissible inputs that holds its dependencies, gives a water percentage in [35, 75] |
| Metrics.CalculateBoneMass | custom_components/bodymiscale/metrics/__init__.py:92 | the row, on a store of admissible inputs that holds its dependencies, gives a bone mass in [0.5, 8] |
| Metrics.CalculateMuscleMass | custom_components/bodymiscale/metrics/__init__.py:93-95 | the row, on a store of admissible inputs that holds its dependencies, gives a muscle mass in [10, 120] |
| Metrics.CalculateMetabolicAge | custom_components/bodymiscale/metrics/__init__.py:96-98 | the row, on a store of admissible inputs that holds its dependencies, gives a metabolic age in [15, 80] |
| Metrics.CalculateProteinPercentage | custom_components/bodymiscale/metrics/__init__.py:99-103 | the row, on a store of admissible inputs that holds its dependencies, gives a protein percentage in [5, 32] |
| Metrics.CalculateFatMassToIdealWeight | custom_components/bodymiscale/metrics/__init__.py:104-108 | the row, on a store of admissible inputs that holds its dependencies, gives a number |
| Metrics.CalculateBodyType | custom_components/bodymiscale/metrics/__init__.py:109-112 | the row, on a store of admissible inputs that holds its dependencies, gives one of the nine body-type names |
| Metrics.CalculateBodyScore | custom_components/bodymiscale/metrics/__init__.py:113-128 | the row, on a store of admissible inputs that holds its dependencies, gives a score in [0, 100] |
| Metrics.BodyScoreInputsPresent | custom_components/bodymiscale/metrics/__init__.py:113-128 | when the ten dependencies of the body score are available, they are stored numbers and the age is the configured one |
| Metrics.CalculateReadsOnlyDependencies | custom_components/bodymiscale/metrics/__init__.py:75-130 | a formula reads only its declared dependencies: two stores that agree on them give the same result |
| Metrics.BodyScoreReadsOnlyDependencies | custom_components/bodymiscale/metrics/__init__.py:113-128 | the body score reads only its ten declared dependencies |
| Propagation.Notify | custom_components/bodymiscale/metrics/__init__.py:469-473 | one call per subscriber, in list order, all with the same value |
| Propagation.Relink | custom_components/bodymiscale/metrics/__init__.py:150-152 | setting a key of the time-limited cache: the keys are the old ones plus the set one, which comes last, and each is listed once if they were before |
| Propagation.RelinkKeepsOrder | custom_components/bodymiscale/metrics/__init__.py:150-152 | relinking a key leaves the order of the other keys unchanged |
| Propagation.Without | custom_components/bodymiscale/metrics/__init__.py:150-152 | dropping a key from the order keeps exactly the other keys |
| Propagation.WithoutDistinct | custom_components/bodymiscale/metrics/__init__.py:150-152 | dropping a key keeps each remaining key listed once |
| Propagation.WithoutConcat | custom_components/bodymiscale/metrics/__init__.py:150-152 | dropping a key from two orders one after the other is dropping it from each |
| Propagation.WithoutTwice | custom_components/bodymiscale/metrics/__init__.py:150-152 | dropping a key twice is dropping it once |
| Propagation.DistinctAppend | custom_components/bodymiscale/metrics/__init__.py:150-152 | appending a key not listed keeps each key listed once |
| Propagation.FieldsOkWithout | custom_components/bodymiscale/metrics/__init__.py:150-152 | expiring a key keeps the handler invariant |
| Propagation.Store | custom_components/bodymiscale/metrics/__init__.py:457-473 | a store of an admissible value keeps the handler invariant (every stored value admissible, the key order of the time-limited cache listing each stored metric once, a stored status equal to the status field) |
| Propagation.Write | custom_components/bodymiscale/metrics/__init__.py:449-483 | _update_available_metric keeps the handler invariant |
| Propagation.Recalculate | custom_components/bodymiscale/metrics/__init__.py:478-482 | recomputing one dependent keeps the handler invariant |
| Propagation.Recompute | custom_components/bodymiscale/metrics/__init__.py:476-482 | the wave over the dependents of a metric keeps the handler invariant; it terminates by table position |
| Propagation.RecalculateKeys | custom_components/bodymiscale/metrics/__init__.py:487-501 | the pass over a snapshot of the keys keeps the handler invariant |
| Propagation.Trigger | custom_components/bodymiscale/metrics/__init__.py:485-501 | _trigger_dependent_recalculation keeps the handler invariant |
| Propagation.StoreFrame | custom_components/bodymiscale/metrics/__init__.py:457-473 | a store removes nothing and only appends to the log, fixes every metric before the written one (age aside), sets the value, and moves the written key to the end of the key order while the others keep theirs |
| Propagation.StoreGrows | custom_components/bodymiscale/metrics/__init__.py:457-461 | a store removes nothing and only appends to the log |
| Propagation.StoreOrders | custom_components/bodymiscale/metrics/__init__.py:458-461 | after a store the written key is last in the key order, and the other keys, with the age appended when setdefault added it, keep their order: the cache relinks a key that is set again |
| Propagation.StoreFields | custom_components/bodymiscale/metrics/__init__.py:457-473 | a store is the state whose map and key order are those the method builds step by step, with the status and log it sets |
| Propagation.StoreFixed | custom_components/bodymiscale/metrics/__init__.py:457-461 | a store changes no metric before the written one except the age |
| Propagation.StoreSetsValue | custom_components/bodymiscale/metrics/__init__.py:458-465 | a store sets the written value, makes the age present, sets the status field exactly on a status write, and appends exactly one call per subscriber of the metric with the value prepared for subscribers |
| Propagation.StoreCallsAbove | custom_components/bodymiscale/metrics/__init__.py:469-473 | the calls of a store all concern a metric at or after the written one |
| Propagation.WriteFrame | custom_components/bodymiscale/metrics/__init__.py:449-483 | a write with its wave removes nothing, changes no metric before the written one (age aside), leaves the written value stored, makes the age present when it writes, and changes the status only for a status write |
| Propagation.WriteStoredFrame | custom_components/bodymiscale/metrics/__init__.py:457-483 | a write that is not skipped stores the value, makes the age present, and with its wave removes nothing and changes no metric before the written one (age aside) |
| Propagation.RecalculateFrame | custom_components/bodymiscale/metrics/__init__.py:478-482 | recomputing d removes nothing, changes nothing before d, keeps the status and keeps the age present |
| Propagation.RecomputeFrame | custom_components/bodymiscale/metrics/__init__.py:476-482 | the wave of a metric removes nothing, changes nothing up to it, keeps the status and keeps the age present |
| Propagation.WriteSkipsEqual | custom_components/bodymiscale/metrics/__init__.py:452-455 | a write reports an update exactly when the stored value differs or is absent; an equal value changes nothing: no store write, no call, no recomputation |
| Propagation.WriteNotifies | custom_components/bodymiscale/metrics/__init__.py:467-473 | a successful write calls each subscriber of the metric exactly once, in order, with the value prepared for subscribers; every later call concerns a metric after it |
| Propagation.RecalculateCallsAbove | custom_components/bodymiscale/metrics/__init__.py:478-482 | recomputing d only calls subscribers of d or later metrics |
| Propagation.WriteCallsAbove | custom_components/bodymiscale/metrics/__init__.py:449-483 | a write only calls subscribers of the written metric or later ones |
| Propagation.WriteStoredCallsAbove | custom_components/bodymiscale/metrics/__init__.py:457-483 | a write that is not skipped only calls subscribers of the written metric or later ones |
| Propagation.RecomputeCallsAbove | custom_components/bodymiscale/metrics/__init__.py:476-482 | the wave of a metric only calls subscribers of later metrics |
| Propagation.WriteKeepsClosed | custom_components/bodymiscale/metrics/__init__.py:476-482 | with the age present, a write leaves no derived metric open (all dependencies present, itself absent) that was not open before |
| Propagation.RecalculateKeepsClosed | custom_components/bodymiscale/metrics/__init__.py:478-482 | recomputing d opens nothing and leaves d closed |
| Propagation.RecomputeKeepsClosed | custom_components/bodymiscale/metrics/__init__.py:476-482 | the wave opens nothing and closes every dependent it visits |
| Propagation.RecalculateKeysKeepsClosed | custom_components/bodymiscale/metrics/__init__.py:487-501 | the pass opens nothing and closes every dependent of every key it visits |
| Propagation.TriggerCloses | custom_components/bodymiscale/metrics/__init__.py:485-501 | after _trigger_dependent_recalculation (with the age present), every derived metric whose dependencies are all present is in the store |
| Propagation.StatusWrite | custom_components/bodymiscale/metrics/__init__.py:457-473 | a status write sets the status field, keeps every other metric (age aside) and calls only the status subscribers |
| Propagation.StatusWriteSets | custom_components/bodymiscale/metrics/__init__.py:464-465 | a status write sets the status field |
| Propagation.StatusWriteIsStore | custom_components/bodymiscale/metrics/__init__.py:452-483 | a status write is skipped for an equal status and otherwise is a plain store with no recomputation |
| Propagation.StoreOnly | custom_components/bodymiscale/metrics/__init__.py:457-461 | a store changes no metric other than the written one and the age |
| Propagation.StatusHasNoDependents | custom_components/bodymiscale/metrics/__init__.py:75 | nothing depends on the status |
| Propagation.DependentsDerived | custom_components/bodymiscale/metrics/__init__.py:75-130 | every dependent is a derived metric |
| Propagation.WriteRootsFixed | custom_components/bodymiscale/metrics/__init__.py:476-482 | writing a derived metric changes no sensor metric, age aside |
| Propagation.WriteStoredRootsFixed | custom_components/bodymiscale/metrics/__init__.py:457-483 | a write of a derived metric that is not skipped changes no sensor metric, age aside |
| Propagation.RecalculateRootsFixed | custom_components/bodymiscale/metrics/__init__.py:478-482 | recomputing changes no sensor metric, age aside |
| Propagation.RecomputeRootsFixed | custom_components/bodymiscale/metrics/__init__.py:476-482 | a wave changes no sensor metric, age aside |
| Propagation.RecalculateKeysFrame | custom_components/bodymiscale/metrics/__init__.py:487-501 | the pass removes nothing, changes no sensor metric, keeps the status and keeps the age present |
| Propagation.TriggerFrame | custom_components/bodymiscale/metrics/__init__.py:485-501 | the recalculation pass removes nothing, changes no sensor metric, keeps the status and keeps the age present |
| Problems.FindSeparator | custom_components/bodymiscale/metrics/__init__.py:365 | the first occurrence of "_and_" at or after i, or none exactly when there is none |
| Problems.Split | custom_components/bodymiscale/metrics/__init__.py:365 | str.split("_and_") always yields at least one part |
| Problems.SafeHasNoSeparator | custom_components/bodymiscale/metrics/__init__.py:361 | a safe token contains no "_and_" |
| Problems.FirstSeparatorAfter | custom_components/bodymiscale/metrics/__init__.py:365 | in token + "_and_" + rest, the first separator is the one after the token |
| Problems.SplitJoin | custom_components/bodymiscale/metrics/__init__.py:362-396 | splitting a join of tokens without "_and_" gives the tokens back |
| Problems.Strip | custom_components/bodymiscale/metrics/__init__.py:364 | str.strip leaves no leading or trailing space and keeps a string without spaces |
| Problems.TrimStartSpec | custom_components/bodymiscale/metrics/__init__.py:364 | the leading trim leaves no leading space and keeps a string without spaces |
| Problems.TrimEndSpec | custom_components/bodymiscale/metrics/__init__.py:364 | the trailing trim leaves no trailing space, keeps a string without spaces, and yields a prefix |
| Problems.ProblemIsToken | custom_components/bodymiscale/metrics/__init__.py:353-361 | every problem token key_kind, for a sensor key and a problem kind, is non-empty, has no whitespace, contains no "_and_" and is not "none" |
| Problems.LessIrreflexive | custom_components/bodymiscale/metrics/__init__.py:378 | the string order of sorted is irreflexive |
| Problems.LessTransitive | custom_components/bodymiscale/metrics/__init__.py:378 | the string order of sorted is transitive |
| Problems.LessTotal | custom_components/bodymiscale/metrics/__init__.py:378 | the string order of sorted is total on distinct strings |
| Problems.LessAsymmetric | custom_components/bodymiscale/metrics/__init__.py:378 | the string order of sorted is asymmetric |
| Problems.Insert | custom_components/bodymiscale/metrics/__init__.py:378 | inserting into a sorted list keeps it sorted and adds exactly the element |
| Problems.SortedSet | custom_components/bodymiscale/metrics/__init__.py:378 | sorted(list(set(parts))) is strictly sorted and has exactly the elements of parts |
| Problems.SortedUnique | custom_components/bodymiscale/metrics/__init__.py:378 | two strictly sorted lists with the same elements are equal, so the result depends only on the set of tokens |
| Problems.Category | custom_components/bodymiscale/metrics/__init__.py:379-386 | the group of a part: weight_, impedance_, last_time_ or other |
| Problems.Pick | custom_components/bodymiscale/metrics/__init__.py:379-386 | the parts of one group are exactly the parts of the input in that group |
| Problems.GroupElements | custom_components/bodymiscale/metrics/__init__.py:388-391 | grouping keeps exactly the elements |
| Problems.PickSorted | custom_components/bodymiscale/metrics/__init__.py:378-386 | a group of a sorted list is sorted |
| Problems.PickOrdered | custom_components/bodymiscale/metrics/__init__.py:378-386 | a group of a sorted list is in group order and sorted |
| Problems.OrderedConcat | custom_components/bodymiscale/metrics/__init__.py:388-391 | concatenating ordered groups of increasing category stays ordered |
| Problems.GroupIsOrdered | custom_components/bodymiscale/metrics/__init__.py:372-391 | grouping a sorted list puts the weight group first, then impedance, then last_time, then the others, each group sorted |
| Problems.PickStep | custom_components/bodymiscale/metrics/__init__.py:378-386 | one more part extends exactly its own group |
| Problems.GroupParts | custom_components/bodymiscale/metrics/__init__.py:372-391 | the grouping loop yields the groups concatenated in order |
| Problems.CleanParts | custom_components/bodymiscale/metrics/__init__.py:363-367 | the cleaned parts have no empty part and no "none" |
| Problems.DropSensor | custom_components/bodymiscale/metrics/__init__.py:410-414 | the parts without a sensor's prefix are exactly those of the input that do not start with key_ |
| Problems.CleanTokens | custom_components/bodymiscale/metrics/__init__.py:363-367 | cleaning a list of tokens changes nothing |
| Problems.RemainingTokens | custom_components/bodymiscale/metrics/__init__.py:410-414 | on a list of tokens, the filter of _remove_sensor_problem (strip, drop empty parts, drop parts with the sensor's prefix) only drops the sensor's tokens, front to back |
| Problems.DropFrontIsDrop | custom_components/bodymiscale/metrics/__init__.py:410-414 | the front-to-back drop of the sensor's tokens is DropSensor: it keeps exactly the parts without key_, in order |
| Problems.DropConcat | custom_components/bodymiscale/metrics/__init__.py:410-414 | dropping a sensor distributes over concatenation |
| Problems.PickDrop | custom_components/bodymiscale/metrics/__init__.py:379-414 | dropping a sensor commutes with picking a group |
| Problems.DropSorted | custom_components/bodymiscale/metrics/__init__.py:410-414 | dropping a sensor keeps a list sorted |
| Problems.GroupDrop | custom_components/bodymiscale/metrics/__init__.py:372-414 | dropping a sensor commutes with grouping, so removal keeps the canonical order |
| Problems.RenderParts | custom_components/bodymiscale/metrics/__init__.py:393-396 | a non-empty token list renders as the join of its sorted, grouped tokens, and splitting the status gives them back |
| Problems.RenderNoProblems | custom_components/bodymiscale/metrics/__init__.py:393-396 | the empty list renders as "none", which splits into ["none"] |
| Problems.RenderSet | custom_components/bodymiscale/metrics/__init__.py:378 | the status depends only on the set of tokens |
| Problems.AddRender | custom_components/bodymiscale/metrics/__init__.py:360-396 | _add_sensor_problem on a status of tokens is the status of the tokens plus the new one: deduplicated, "none" dropped, grouped, sorted, joined |
| Problems.RemoveRender | custom_components/bodymiscale/metrics/__init__.py:398-418 | on a status rendered from tokens, _remove_sensor_problem gives the rendering of the tokens without the sensor's own, so the rest stays in canonical order and the status becomes "none" when nothing is left |
| Problems.AddIdempotent | custom_components/bodymiscale/metrics/__init__.py:369-370 | adding a token twice is adding it once |
| Problems.AddCommutes | custom_components/bodymiscale/metrics/__init__.py:360-396 | the order of two additions does not matter |
| Problems.RenderNone | custom_components/bodymiscale/metrics/__init__.py:393-396 | the status is "none" exactly when there are no tokens |
| Problems.AddProblem | custom_components/bodymiscale/metrics/__init__.py:350-396 | _add_sensor_problem once the key is known: never empty, and the status that lists the cleaned parts already there plus the new problem, whether or not it was among them |
| Problems.RemoveProblem | custom_components/bodymiscale/metrics/__init__.py:398-418 | _remove_sensor_problem once the key is known: never empty, and "none" when no part is left |
| Problems.Render | custom_components/bodymiscale/metrics/__init__.py:393-396 | the status of a problem list: "none" for no problem, never empty, and for tokens never "none" and splitting back into the sorted, sensor-grouped set of the problems |
| Problems.Compose | custom_components/bodymiscale/metrics/__init__.py:393-396 | the joined parts, never empty, "none" for no part |
| Problems.OneProblemPerSensor | custom_components/bodymiscale/metrics/__init__.py:350-418 | a remove followed by an add of the same sensor leaves exactly one token of that sensor in the status |
| Ingest.Key | custom_components/bodymiscale/metrics/__init__.py:353-358 | the sensor key is one of weight, impedance, last_time |
| Ingest.MetricOf | custom_components/bodymiscale/metrics/__init__.py:284-313 | a numeric sensor writes the weight or the impedance metric |
| Ingest.SensorOf | custom_components/bodymiscale/metrics/__init__.py:240-247 | the entity is tried in the order weight, impedance, last time; the weight wins, and no sensor is found exactly when the entity is none of the three |
| Ingest.IsValid | custom_components/bodymiscale/metrics/__init__.py:420-447 | _is_valid rejects "unavailable", needs a parsable time for the time sensor, and for a number with bounds is true exactly when it is within the inclusive bounds |
| Ingest.Categorize | custom_components/bodymiscale/metrics/__init__.py:341-348 | _categorize_problem is "low" exactly below the minimum, "high" exactly above the maximum otherwise, and "invalid" exactly within both |
| Ingest.RemoveSensorProblem | custom_components/bodymiscale/metrics/__init__.py:398-418 | the state after _remove_sensor_problem has the status without the sensor's tokens |
| Ingest.AddSensorProblem | custom_components/bodymiscale/metrics/__init__.py:350-396 | for an entity of a configured sensor the status gains key_error; for any other entity nothing changes |
| Ingest.ProcessNumeric | custom_components/bodymiscale/metrics/__init__.py:256-316 | a reported problem is one of the kinds and comes with no update |
| Ingest.ProcessLastMeasurementTime | custom_components/bodymiscale/metrics/__init__.py:318-339 | the time sensor never reports an update, and a problem it reports is one of the kinds |
| Ingest.StateChanged | custom_components/bodymiscale/metrics/__init__.py:229-254 | a missing entity or state, the "unknown" state, and an entity of no configured sensor change nothing |
| Ingest.Finish | custom_components/bodymiscale/metrics/__init__.py:249-254 | recording the problem and running the pass keep the state well formed |
| Ingest.Process | custom_components/bodymiscale/metrics/__init__.py:237-247 | an entity of no sensor gives no change, no update and no problem |
| Ingest.OutOfRangeKeepsValue | custom_components/bodymiscale/metrics/__init__.py:270-278 | a reading outside the inclusive range leaves the stored value of its metric as it was (sticky last good value) |
| Ingest.OutOfRangeRecordsProblem | custom_components/bodymiscale/metrics/__init__.py:270-278 | a reading outside the inclusive range adds key_low below the minimum and key_high otherwise |
| Ingest.OutOfRangeIsStatusWrite | custom_components/bodymiscale/metrics/__init__.py:249-278 | an out-of-range reading is nothing but the status write of the problem |
| Ingest.ProcessOutOfRange | custom_components/bodymiscale/metrics/__init__.py:270-278 | processing an out-of-range reading changes nothing and reports low or high |
| Ingest.PoundsRangeCheckedRaw | custom_components/bodymiscale/metrics/__init__.py:270-282 | the range check runs on the raw pound reading: a pound weight above 200 is reported high although its kilograms would be in range |
| Ingest.ProcessGood | custom_components/bodymiscale/metrics/__init__.py:280-316 | a good reading is converted (pounds after the range validation), written, and clears the sensor's problems only if the write changed the store |
| Ingest.NumericGood | custom_components/bodymiscale/metrics/__init__.py:280-316 | the numeric processing of a good reading is the write followed, when it updated, by the removal of the sensor's problems |
| Ingest.ConvertedAdmissible | custom_components/bodymiscale/metrics/__init__.py:280-282 | a good reading, converted, is an admissible weight or impedance |
| Ingest.GoodReadingStored | custom_components/bodymiscale/metrics/__init__.py:229-287 | a new good reading is stored, its sensor's problems are removed, and afterwards no derived metric is open |
| Ingest.RepeatedReadingChangesNothing | custom_components/bodymiscale/metrics/__init__.py:452-455 | a good reading equal to the stored value changes nothing at all, its sensor's problems included |
| Ingest.ProcessResets | custom_components/bodymiscale/metrics/__init__.py:256-327 | an unavailable or unparsable reading removes the sensor's problems and reports its kind |
| Ingest.ResetLeavesOneToken | custom_components/bodymiscale/metrics/__init__.py:249-301 | after an unavailable or invalid reading the sensor has exactly one token in the status |
| Ingest.ProcessTime | custom_components/bodymiscale/metrics/__init__.py:329-337 | a good time is written, its problems removed, and the recalculation pass run, with no update reported |
| Ingest.GoodTimeStored | custom_components/bodymiscale/metrics/__init__.py:318-337 | a new good time is stored, its problems are removed, and afterwards no derived metric is open |
| Ingest.StateChangedTime | custom_components/bodymiscale/metrics/__init__.py:229-337 | the time sensor's state change is the write, the removal and the pass |
| Ingest.TimeSteps | custom_components/bodymiscale/metrics/__init__.py:329-337 | after writing a new time and removing its problems, the time is stored, the age is present and the status has no time token |
| Handler.RemoveFirst | custom_components/bodymiscale/metrics/__init__.py:212 | list.remove drops one element when present and changes nothing otherwise |
| Handler.RemoveFirstMultiset | custom_components/bodymiscale/metrics/__init__.py:212 | list.remove takes away exactly one occurrence |
| Handler.RemoveFirstAppended | custom_components/bodymiscale/metrics/__init__.py:205-212 | the remover of a fresh callback undoes its subscribe |
| Handler.RemoveFirstAt | custom_components/bodymiscale/metrics/__init__.py:212 | list.remove removes the first occurrence |
| Handler.NotifyAppend | custom_components/bodymiscale/metrics/__init__.py:472-473 | one more subscriber adds exactly its call at the end |
| Handler.CallSubscribers | custom_components/bodymiscale/metrics/__init__.py:469-473 | the loop calls each subscriber once, in order, with the prepared value |
| Handler.StatusWith | custom_components/bodymiscale/metrics/__init__.py:360-396 | the parts-and-grouping code of _add_sensor_problem computes AddProblem |
| Handler.StatusWithout | custom_components/bodymiscale/metrics/__init__.py:408-418 | the filter code of _remove_sensor_problem computes RemoveProblem |
| Handler.MetricsHandler.constructor | custom_components/bodymiscale/metrics/__init__.py:145-173 | a new handler has status "none", an empty store, no subscribers, and the reverse index of the table |
| Handler.MetricsHandler.Subscribe | custom_components/bodymiscale/metrics/__init__.py:201-221 | subscribe appends the callback and calls it at once with the prepared value exactly when the metric has a value; nothing else changes |
| Handler.MetricsHandler.Unsubscribe | custom_components/bodymiscale/metrics/__init__.py:210-212 | the remover reports whether the callback was subscribed and deletes only its first occurrence; nothing else changes |
| Handler.MetricsHandler.Evict | custom_components/bodymiscale/metrics/__init__.py:150-152 | a cache expiry removes exactly that metric and its key and nothing else |
| Handler.MetricsHandler.UpdateAvailableMetric | custom_components/bodymiscale/metrics/__init__.py:449-483 | the recursive method leaves the handler in the state of Write and returns its update flag |
| Handler.MetricsHandler.StoreValue | custom_components/bodymiscale/metrics/__init__.py:457-473 | the store part of a write leaves the handler in the state of Store: the age set by setdefault, the value set and its key moved to the end of the key order, the status field on a status write, and one call per subscriber |
| Handler.MetricsHandler.RecomputeDependents | custom_components/bodymiscale/metrics/__init__.py:476-482 | the dependent loop leaves the handler in the state of Recompute |
| Handler.MetricsHandler.RecalculateDependent | custom_components/bodymiscale/metrics/__init__.py:478-482 | one loop body leaves the handler in the state of Recalculate |
| Handler.MetricsHandler.TriggerDependentRecalculation | custom_components/bodymiscale/metrics/__init__.py:485-501 | the pass leaves the handler in the state of Trigger |
| Handler.MetricsHandler.WriteStatus | custom_components/bodymiscale/metrics/__init__.py:393-418 | a status write of a rendered token list is the Write of the status in Propagation, and afterwards the status is the rendering of the new tokens |
| Handler.MetricsHandler.RemoveSensorProblem | custom_components/bodymiscale/metrics/__init__.py:398-418 | the method computes the state of Ingest.RemoveSensorProblem and drops the sensor's tokens |
| Handler.MetricsHandler.AddSensorProblem | custom_components/bodymiscale/metrics/__init__.py:350-396 | the method computes the state of Ingest.AddSensorProblem |
| Handler.MetricsHandler.ProcessNumeric | custom_components/bodymiscale/metrics/__init__.py:256-316 | the method computes the outcome of Ingest.ProcessNumeric |
| Handler.MetricsHandler.ProcessLastMeasurementTime | custom_components/bodymiscale/metrics/__init__.py:318-339 | the method computes the outcome of Ingest.ProcessLastMeasurementTime |
| Handler.MetricsHandler.StateChanged | custom_components/bodymiscale/metrics/__init__.py:229-254 | the method computes the state of Ingest.StateChanged and keeps the status the rendering of the problem tokens |
| LegacyMetrics.NewBodyMetrics | custom_components/bodymiscale/body_metrics.py:26-40 | BodyMetrics is built exactly when height <= 220, 10 < weight < 200 and age <= 99; otherwise it raises for the height first, then the weight, then the age |
| LegacyMetrics.NewBodyMetricsCorrected | custom_components/bodymiscale/body_metrics.py:30-33 | the inclusive weight check [10, 200] matching the coordinator; it agrees wherever the original accepts |
| LegacyMetrics.NewBodyMetricsImpedance | custom_components/bodymiscale/body_metrics.py:153-162 | BodyMetricsImpedance is built exactly when BodyMetrics is and impedance <= 3000, with the base error first |
| LegacyMetrics.Bmi | custom_components/bodymiscale/body_metrics.py:63-66 | bmi is in [10, 90] and equals get_bmi |
| LegacyMetrics.Bmr | custom_components/bodymiscale/body_metrics.py:69-86 | bmr is in [500, 5000] with the 2996/2322 caps, and equals get_bmr |
| LegacyMetrics.FemaleDivisorNonZero | custom_components/bodymiscale/body_metrics.py:89-121 | the female visceral divisor is non-zero for every integer height |
| LegacyMetrics.VisceralFat | custom_components/bodymiscale/body_metrics.py:89-121 | visceral_fat is in [1, 50] and equals get_visceral_fat |
| LegacyMetrics.IdealWeight | custom_components/bodymiscale/body_metrics.py:124-129 | ideal_weight is the unrounded (h-70)*0.6 or (h-80)*0.7, whose rounding is the new get_ideal_weight |
| LegacyMetrics.BmiLabel | custom_components/bodymiscale/body_metrics.py:132-147 | bmi_label uses the bands of get_bmi_label |
| LegacyMetrics.LbmCoefficient | custom_components/bodymiscale/body_metrics.py:170-177 | lbm_coefficient is the lean-body-mass formula of get_lbm |
| LegacyMetrics.FatPercentage | custom_components/bodymiscale/body_metrics.py:180-208 | fat_percentage is in [5, 75] |
| LegacyMetrics.FatPercentageAgrees | custom_components/bodymiscale/body_metrics.py:180-208 | fat_percentage equals get_fat_percentage on the same inputs |
| LegacyMetrics.WaterPercentage | custom_components/bodymiscale/body_metrics.py:211-220 | water_percentage is in [35, 75]; where the new one caps at 75 the legacy one gives 73.5, otherwise they agree |
| LegacyMetrics.BoneMass | custom_components/bodymiscale/body_metrics.py:223-243 | bone_mass is in [0.5, 8] and equals get_bone_mass |
| LegacyMetrics.MuscleMass | custom_components/bodymiscale/body_metrics.py:246-260 | muscle_mass is in [10, 120] and equals get_muscle_mass |
| LegacyMetrics.MetabolicAge | custom_components/bodymiscale/body_metrics.py:263-281 | metabolic_age is in [15, 80] and equals get_metabolic_age |
| LegacyMetrics.FatMassToIdealAgrees | custom_components/bodymiscale/body_metrics.py:284-289 | fat_mass_to_ideal equals get_fat_mass_to_ideal_weight |
| LegacyMetrics.FatMassToIdeal | custom_components/bodymiscale/body_metrics.py:284-289 | fat_mass_to_ideal: for a positive weight it is positive exactly when the fat share is below entry [2] of the legacy fat scale, and 0 exactly when it equals it |
| LegacyMetrics.FatMassDifference | custom_components/bodymiscale/body_metrics.py:286-288 | the fat mass between two fat shares of a positive weight has the sign of their difference |
| LegacyMetrics.MassDifferenceSign | custom_components/bodymiscale/body_metrics.py:286-288 | the sign of weight*(a/100) - weight*(b/100) for a positive weight |
| LegacyMetrics.FatMassShape | custom_components/bodymiscale/body_metrics.py:286-288 | the legacy difference with the target of the shared fat table is get_fat_mass_to_ideal_weight |
| LegacyMetrics.ProteinPercentage | custom_components/bodymiscale/body_metrics.py:291-297 | protein_percentage is in [5, 32] and equals get_protein_percentage |
| LegacyMetrics.FatFactor | custom_components/bodymiscale/body_metrics.py:304-320 | the legacy fat factor is the new one |
| LegacyMetrics.BodyType | custom_components/bodymiscale/body_metrics.py:300-327 | body_type as written is one of Overweight, Balanced and Balanced-skinny: line 326 overwrites what the muscle branches set |
| LegacyMetrics.BodyTypeIgnoresMuscle | custom_components/bodymiscale/body_metrics.py:321-326 | body_type is Overweight, Balanced or Balanced-skinny and depends only on the fat factor |
| LegacyMetrics.MuscleClass | custom_components/bodymiscale/body_metrics.py:321-325 | the legacy muscle class is the new one |
| LegacyMetrics.BodyTypeCorrected | custom_components/bodymiscale/body_metrics.py:300-327 | the evidently intended body type types[3*factor + k], the same index as get_body_type |
| LegacyMetrics.BodyTypeMatchesCorrected | custom_components/bodymiscale/body_metrics.py:311-326 | the as-written body type is the intended one exactly when the muscle mass lies inside the BodyScale range |
| LegacyMetrics.BodyTypeCounterexample | custom_components/bodymiscale/body_metrics.py:321-326 | an accepted 80 kg, 180 cm, 30-year-old male at impedance 0 gets Balanced as written, where the intended code gives Balanced-muscular |
| LegacyMetrics.WaterCapCounterexample | custom_components/bodymiscale/body_metrics.py:211-220 | an accepted 60 kg, 180 cm, 30-year-old male at impedance 0 gets water 73.5 as written, where the new library gives 75 |
| LegacyScale.TablesAgree | custom_components/bodymiscale/body_scales.py:20-95 | the legacy fat and muscle tables are those of metrics/scale.py |
| LegacyScale.FatFromIsFind | custom_components/bodymiscale/body_scales.py:69-71 | the legacy first-match search is the new one |
| LegacyScale.FatPercentage | custom_components/bodymiscale/body_scales.py:20-71 | fat_percentage is the age row of the shared table, and None exactly for ages outside [0, 100) |
| LegacyScale.LookupFatPercentage | custom_components/bodymiscale/body_scales.py:69-71 | the loop returns FatPercentage |
| LegacyScale.FatTableInside | custom_components/bodymiscale/body_scales.py:20-71 | no row holds an age outside [0, 100) |
| LegacyScale.MuscleFromIsFind | custom_components/bodymiscale/body_scales.py:93-95 | the legacy first-match search is the new one |
| LegacyScale.MuscleMass | custom_components/bodymiscale/body_scales.py:74-95 | muscle_mass is the first row with gender minimum <= height (170/160/0 male, 160/150/0 female), found exactly for heights >= 0 |
| LegacyScale.LookupMuscleMass | custom_components/bodymiscale/body_scales.py:93-95 | the loop returns MuscleMass |
| LegacyScale.WaterPercentage | custom_components/bodymiscale/body_scales.py:98-102 | water_percentage is a pair lower < upper for each gender |
| LegacyScale.WaterMatchesBodyScore | custom_components/bodymiscale/body_scales.py:98-102 | its lower bound (55 male, 45 female) is the normal water of the body score |
| LegacyScale.BoneTable | custom_components/bodymiscale/body_scales.py:110-125 | the bone table has three rows per gender |
| LegacyScale.LookupBoneMass | custom_components/bodymiscale/body_scales.py:126-128 | the loop returns BoneMass |
| LegacyScale.BoneMassBands | custom_components/bodymiscale/body_scales.py:110-128 | bone_mass is the first row with gender minimum <= weight (75/60/0 male, 60/45/0 female), found exactly for weights >= 0, each a pair lower < upper |
| LegacyScale.BoneMass | custom_components/bodymiscale/body_scales.py:110-128 | bone_mass finds a range, lower end first, exactly for a non-negative weight |
| LegacyScale.BoneMatchesBodyScore | custom_components/bodymiscale/body_scales.py:110-128 | its lower bound is the expected bone mass of the body score |
| LegacyScale.BmrTable | custom_components/bodymiscale/body_scales.py:132-135 | the coefficient table has three age bounds per gender |
| LegacyScale.Bmr | custom_components/bodymiscale/body_scales.py:131-139 | bmr is [weight * coefficient] of the first age bound above the age, the normal BMR of the body score, and None exactly from age 100 on |
| LegacyScale.LookupBmr | custom_components/bodymiscale/body_scales.py:137-139 | the loop returns Bmr |
| LegacyScale.IdealWeightsFor | custom_components/bodymiscale/body_scales.py:147-152 | one weight b*h*h/10000 per BMI threshold, in order |
| LegacyScale.IdealWeight | custom_components/bodymiscale/body_scales.py:147-152 | ideal_weight has one entry per threshold of the BMI scale |
| LegacyScale.BuildIdealWeight | custom_components/bodymiscale/body_scales.py:149-152 | the append loop returns IdealWeight |
| LegacyScale.IdealWeightIncreasing | custom_components/bodymiscale/body_scales.py:147-152 | for a non-zero height the ideal weights are four strictly increasing values |
| LegacyScale.IdealWeightIsThresholdWeight | custom_components/bodymiscale/body_scales.py:147-152 | entry i is threshold i times (h/100)^2 |
| Coordinator.Age | custom_components/bodymiscale/coordinator.py:37-43 | _get_age is the number of completed years: that anniversary has been reached by today and the next has not |
| Coordinator.AgeUnique | custom_components/bodymiscale/coordinator.py:37-43 | the completed years are unique, so the year difference is lowered exactly when (month, day) precedes the birthday |
| Coordinator.ReadingOf | custom_components/bodymiscale/coordinator.py:119-120 | "unavailable" is kept, any other text is a number if it parses and an error otherwise |
| Coordinator.StateChange | custom_components/bodymiscale/coordinator.py:109-131 | an absent or unknown state changes nothing; an entity of neither sensor raises; a pound weight is converted, with no range check; an unavailable pound weight raises |
| Coordinator.StateChangeCorrected | custom_components/bodymiscale/coordinator.py:119-125 | the conversion applied only to numbers: never raises for an unavailable pound scale and otherwise agrees with StateChange |
| Coordinator.PoundsCounterexample | custom_components/bodymiscale/coordinator.py:119-125 | an unavailable pound scale raises as written and is recorded as unavailable when corrected |
| Coordinator.SensorRows | custom_components/bodymiscale/coordinator.py:137-145 | the rows walked are weight, then impedance when configured, with their READINGS bounds |
| Coordinator.RowProblem | custom_components/bodymiscale/coordinator.py:142-151 | a row contributes nothing for an unset reading or one in [min, max], otherwise "<key> unavailable", "<key> low" below min or "<key> high" above max |
| Coordinator.RowProblems | custom_components/bodymiscale/coordinator.py:142-151 | at most one problem per row |
| Coordinator.Problems | custom_components/bodymiscale/coordinator.py:137-151 | the problem list of _update_state: at most one problem per row walked, and none exactly when the weight row, and the impedance row when configured, are fine |
| Coordinator.RowProblemsPair | custom_components/bodymiscale/coordinator.py:142-151 | the problems of one or two rows are the first row's followed by the second's |
| Coordinator.JoinComma | custom_components/bodymiscale/coordinator.py:153-154 | ", ".join: the first part starts the text |
| Coordinator.ProblemsText | custom_components/bodymiscale/coordinator.py:153-156 | the problems string is "none" for no problem and otherwise starts with the first problem |
| Coordinator.ProblemsOrder | custom_components/bodymiscale/coordinator.py:137-151 | the weight problem comes before the impedance problem |
| Coordinator.WeightKeyReported | custom_components/bodymiscale/coordinator.py:153-156 | the problems string contains "weight" exactly when the weight row has a problem |
| Coordinator.ImpedanceKeyReported | custom_components/bodymiscale/coordinator.py:153-156 | the problems string contains "impedance" exactly when an impedance is configured and its row has a problem |
| Coordinator.ImpedanceProblemReported | custom_components/bodymiscale/coordinator.py:153-156 | with a configured impedance whose row has a problem, the problems string contains "impedance" |
| Coordinator.ImpedanceProblemAbsent | custom_components/bodymiscale/coordinator.py:153-156 | otherwise the problems string does not contain "impedance" |
| Coordinator.ProblemsNone | custom_components/bodymiscale/coordinator.py:153-156 | the problems string is "none" exactly when there is no problem |
| Coordinator.MetricsOf | custom_components/bodymiscale/coordinator.py:183-199 | metrics is None when "weight" is in the problems or no weight is set; the impedance variant is used only without an impedance problem and with an impedance set |
| Coordinator.BoundaryCounterexample | custom_components/bodymiscale/coordinator.py:148-151 | a weight of exactly 10 has no problem, yet metrics raises because BodyMetrics rejects it |
| Coordinator.ValidSettings | custom_components/bodymiscale/config_flow.py:156-159 | the height is at least the config flow's minimum and BodyMetrics accepts the height and the age with a weight in range, so with any weight strictly inside its range |
| Coordinator.MetricsOfCorrected | custom_components/bodymiscale/coordinator.py:183-199 | metrics with the inclusive weight check keeps the None conditions |
| Coordinator.MetricsCorrectedNeverRaises | custom_components/bodymiscale/coordinator.py:183-199 | with the inclusive check, metrics never raises for a valid configuration; it is None exactly when the weight has a problem or is unset, and the impedance variant exactly when both readings are set and fine |
| Coordinator.CollectProblems | custom_components/bodymiscale/coordinator.py:142-151 | the loop collects the row problems in order |
| Coordinator.AppendNext | custom_components/bodymiscale/coordinator.py:159-160 | calling one more subscriber extends the calls by the next one of the list |
| Coordinator.BodyScaleCoordinator.constructor | custom_components/bodymiscale/coordinator.py:60-72 | a new coordinator has the age computed from the birthday, no readings, problems "none", no subscriptions and no listener |
| Coordinator.BodyScaleCoordinator.Metrics | custom_components/bodymiscale/coordinator.py:183-199 | metrics on the current state: None exactly without a weight or with a weight problem; raises only with BodyMetrics's reason; the impedance variant exactly when an impedance is configured, set and fine |
| Coordinator.BodyScaleCoordinator.UpdateState | custom_components/bodymiscale/coordinator.py:135-160 | rebuilds problems from the readings and calls every subscriber once, in order, changing no reading and no subscription |
| Coordinator.BodyScaleCoordinator.StateChanged | custom_components/bodymiscale/coordinator.py:109-133 | applies StateChange: the failure is reported exactly when it fails, the reading it sets is stored, problems again describe the readings, and the subscribers are called exactly when a reading was set |
| Coordinator.BodyScaleCoordinator.Subscribe | custom_components/bodymiscale/coordinator.py:74-91 | the callback is appended and the listener is registered, with readings, problems and calls unchanged |
| Coordinator.BodyScaleCoordinator.Unsubscribe | custom_components/bodymiscale/coordinator.py:93-99 | reports whether the callback was subscribed, deletes its first occurrence, and keeps the listener registered exactly while someone is subscribed |

## Left out

- Home Assistant I/O is not modelled: the state-change listeners, the replay of current sensor states through `hass.states.get` at startup (`metrics/__init__.py:175-189`, `coordinator.py:78-91`) and `async_track_state_change_event`. An event reaches the model as a call of `StateChanged` with the entity and the new state.
- The TTL cache of the available metrics (`metrics/__init__.py:150-152`) is modelled through two effects. An expiry removes one metric (`Handler.MetricsHandler.Evict`). Setting a key moves it to the end of the iteration order, whether or not it was present (`Propagation.Relink`); `setdefault` on a present key and `get` do not move it. The cachetools library is not part of this model: the model states its relinking directly. Timers, the expiry policy and the `maxsize` bound are not modelled.
- The host functions are parameters of the `Ingest.Host` and `Coordinator.Settings` records, not definitions: `float()` on a state string, `datetime.fromisoformat` and `str()` of a number. The unit attribute is a field of the reading. The time zone that is attached to a parsed time is left out, and a time is a plain integer.
- All arithmetic is on mathematical reals, not IEEE doubles. Python's `round(x, n)` is modelled as exact half-to-even rounding of `x * 10^n` (`Util.Round`), so results that floating-point error would shift at a tie are not modelled.
- The dependency table is a constant. The source appends to the module-level `depended_by` lists each time a handler is constructed, so a second handler in the same process would see every dependent twice. The model builds the index once per handler (`Metrics.BuildDependedBy`) and does not model that sharing.
- The `invalid_format` branch of `_process_last_measurement_time` (`metrics/__init__.py:338-339`) cannot be reached, because `_is_valid` has already parsed the same string with `fromisoformat`. The model has no such branch.
- The `ValueError` that `list.remove` raises when a remover is called twice is modelled as a `false` result of `Unsubscribe` (`Handler.MetricsHandler.Unsubscribe`, `Coordinator.BodyScaleCoordinator.Unsubscribe`).
- The model follows these behaviours of the code, which a reader might not expect:
  - a good reading clears its sensor's problems only when it changed the stored value (`metrics/__init__.py:284-287`, `Ingest.RepeatedReadingChangesNothing`);
  - a state change for an entity that belongs to no configured sensor is ignored by the new handler (`metrics/__init__.py:240-247`);
  - an unparsable last-measurement time is reported as `invalid`, not as `invalid_format` (`metrics/__init__.py:324-326`).
- Metric values are numbers, strings or times. Whether Python passes an `int` or a `float` to a subscriber after `round` is not modelled.
- The age is `get_age` of the configured birthday, which the first write stores with `setdefault` (`metrics/__init__.py:458-460`). The model takes that value as the field `Config.age`. When the cache expires the age and a later write stores it again, the source may compute a different age on a later day; the model reuses the same one.
- The configuration keys of the sensors are an enumeration (`Ingest.Sensor`), not dictionary lookups. A configured impedance or time entity is an `Option`.
- `WeightMetrics.Bmi`, `LegacyMetrics.Bmi` and the formulas that divide by the weight require a non-zero height or weight. The source would raise `ZeroDivisionError` there, but the configuration and the sensor ranges exclude both values.
- LegacyMetrics.FatPercentage: its own contract states only the range [5, 75]; its equality with the new formula is stated separately in `LegacyMetrics.FatPercentageAgrees`.
- Propagation.TriggerCloses: requires the age to be stored, as it is after any write. Without the age, every metric that depends on it stays uncomputed, and the lemma says nothing in that case.
- Metrics.ValidConfig: the model covers only ages in [0, 100). BodyScore.FatDeduct, BodyScore.BmiDeduct, ImpedanceMetrics.FatFactor and the other members that look up the fat table require such an age, and the handler's constructor requires `ValidConfig`. The config flow checks the birthday only as a date (`config_flow.py:117-120`; the field is a free date text at `config_flow.py:136-141`), so a birthday in the future or 100 or more years ago is accepted. With such an age, `Scale.get_fat_percentage` raises `NotImplementedError` (`metrics/scale.py:64-69`) at the first metric of a write's recalculation that looks up the fat table: the fat mass to the ideal weight, the body type or the body score. The metrics the write stored before that point, such as BMI, BMR and visceral fat, stay stored, and the rest of the recalculation does not run. The model does not cover this partial recalculation.
- `NotImplementedError`, raised by `Scale.MuscleMass` and `Scale.FatPercentage` for a height or age the tables do not cover, becomes a precondition (height >= 0, 0 <= age < 100). `LegacyScale` models the same lookups with an `Option` result, as `body_scales.py` returns `None` there.
- Logging is left out.

## Findings

| source | as written | input that shows it | evidently intended | confidence | as-written member | corrected member |
|---|---|---|---|---|---|---|
| custom_components/bodymiscale/body_metrics.py:321-326 | the last assignment of `body_type` overwrites the muscle branches, so the type depends only on the fat factor | 80 kg, 180 cm, 30 years, male, impedance 0: `Balanced` | index `3 * fat_factor + muscle_class`, as `get_body_type` computes it (`Balanced-muscular` here) | not executed | LegacyMetrics.BodyType, LegacyMetrics.BodyTypeCounterexample | LegacyMetrics.BodyTypeCorrected |
| custom_components/bodymiscale/body_metrics.py:211-220 | the water cap gives 73.5 when the raw value is 65 or more | 60 kg, 180 cm, 30 years, male, impedance 0: water 73.5 | 75, the cap of `get_water_percentage` | not executed | LegacyMetrics.WaterPercentage, LegacyMetrics.WaterCapCounterexample | ImpedanceMetrics.WaterPercentage |
| custom_components/bodymiscale/coordinator.py:119-125 | an `unavailable` weight from a scale that reports pounds is multiplied by 0.45359237 and raises `TypeError` | weight state `unavailable` with unit `lb` | record the weight as unavailable, as for a kilogram scale | not executed | Coordinator.StateChange, Coordinator.PoundsCounterexample | Coordinator.StateChangeCorrected |
| custom_components/bodymiscale/coordinator.py:148-151 | the problem check accepts a weight in the closed range [10, 200], but `BodyMetrics` (`body_metrics.py:30-33`) accepts only the open range (10, 200), so `metrics` raises | weight exactly 10 kg | the same inclusive bounds in both places, so that `metrics` never raises for a weight the problem check accepts | not executed | Coordinator.MetricsOf, Coordinator.BoundaryCounterexample | Coordinator.MetricsOfCorrected, Coordinator.MetricsCorrectedNeverRaises |
