/** BodyScaleCoordinator of coordinator.py, the legacy aggregator: it keeps the last
    weight and impedance readings, a problems string built from them, and the list of
    subscribers it calls after every accepted reading; its metrics property builds a
    legacy BodyMetrics or BodyMetricsImpedance object. */
module Coordinator {
  import opened Util
  import Propagation
  import Handler
  import LegacyMetrics

  type SubscriberId = Propagation.SubscriberId

  /** A calendar date as strptime yields it. */
  datatype Date = Date(year: int, month: int, day: int)

  /** Tuple order on (year, month, day). */
  predicate DateLe(a: Date, b: Date)
  {
    a.year < b.year || (a.year == b.year && (a.month < b.month || (a.month == b.month && a.day <= b.day)))
  }

  /** The n-th anniversary of a birthday. */
  function Anniversary(born: Date, n: int): Date
  {
    Date(born.year + n, born.month, born.day)
  }

  /** _get_age: the number of completed years, i.e. the one n whose anniversary has been
      reached by today while the next has not. */
  function Age(born: Date, today: Date): (age: int)
    ensures DateLe(Anniversary(born, age), today)
    ensures !DateLe(Anniversary(born, age + 1), today)
  {
    var age := today.year - born.year;
    // the tuple comparison (today.month, today.day) < (born.month, born.day)
    if today.month < born.month || (today.month == born.month && today.day < born.day) then age - 1 else age
  }

  /** The completed years are unique, so Age is the only count with that property. */
  lemma AgeUnique(born: Date, today: Date, n: int)
    requires DateLe(Anniversary(born, n), today) && !DateLe(Anniversary(born, n + 1), today)
    ensures n == Age(born, today)
  {
  }

  /** The coordinator's configuration: the sensor entities (the impedance one is
      optional), the user data, and float(str) as a partial function. */
  datatype Settings = Settings(
    weightEntity: string,
    impedanceEntity: Option<string>,
    height: int,
    gender: Gender,
    birthday: Date,
    parseFloat: string -> Option<real>)

  /** A stored reading: "unavailable" is kept as such, anything else is a number. */
  datatype Reading = Unavailable | Number(value: real)

  /** A sensor's new state: its text and its unit-of-measurement attribute. */
  datatype NewState = NewState(state: string, unit: Option<string>)

  /** The exceptions _state_changed can raise. */
  datatype Failure =
    | InvalidNumber        // float(value) raises ValueError
    | PoundsOfUnavailable  // "unavailable" * 0.45359237 raises TypeError
    | UnknownSensor        // HomeAssistantError for any other entity

  /** What one call of _state_changed does to the readings. */
  datatype Change =
    | NoChange
    | SetWeight(weight: Reading)
    | SetImpedance(impedance: Reading)
    | Fails(failure: Failure)

  const StateUnknown: string := "unknown"
  const StateUnavailable: string := "unavailable"
  const UnitPounds: string := "lb"
  const PoundsToKilograms: real := 0.45359237

  /** The text of a new state as the reading stored for it: "unavailable" stays as
      such, any other text must parse as a number. */
  function ReadingOf(s: Settings, state: string): (r: Option<Reading>)
    ensures state == StateUnavailable ==> r == Some(Unavailable)
    ensures state != StateUnavailable && s.parseFloat(state).Some? ==> r == Some(Number(s.parseFloat(state).value))
    ensures state != StateUnavailable && s.parseFloat(state).None? ==> r.None?
  {
    if state == StateUnavailable then Some(Unavailable)
    else match s.parseFloat(state)
      case None => None
      case Some(v) => Some(Number(v))
  }

  /** _state_changed as written: nothing for an absent or unknown state; the text is
      converted before the entity is looked at; a pound weight is multiplied by the
      conversion factor, which for an unavailable weight raises. */
  function StateChange(s: Settings, entity: string, newState: Option<NewState>): (c: Change)
    ensures newState.None? || newState.value.state == StateUnknown ==> c == NoChange
    ensures c.SetImpedance? ==> entity != s.weightEntity && s.impedanceEntity == Some(entity)
    ensures c.Fails? && c.failure == UnknownSensor ==> entity != s.weightEntity && s.impedanceEntity != Some(entity)
    ensures c.Fails? && c.failure == PoundsOfUnavailable <==>
              newState.Some? && newState.value.state == StateUnavailable && entity == s.weightEntity
              && newState.value.unit == Some(UnitPounds)
    ensures c.SetWeight? && newState.Some? && newState.value.unit == Some(UnitPounds) ==>
              s.parseFloat(newState.value.state).Some?
              && c.weight == Number(s.parseFloat(newState.value.state).value * PoundsToKilograms)
    ensures c.SetWeight? && newState.Some? && newState.value.unit != Some(UnitPounds) ==>
              Some(c.weight) == ReadingOf(s, newState.value.state)
  {
    if newState.None? || newState.value.state == StateUnknown then NoChange
    else match ReadingOf(s, newState.value.state)
      case None => Fails(InvalidNumber)
      case Some(value) =>
        if entity == s.weightEntity then
          if newState.value.unit == Some(UnitPounds) then
            match value
            case Unavailable => Fails(PoundsOfUnavailable)
            case Number(v) => SetWeight(Number(v * PoundsToKilograms))
          else SetWeight(value)
        else if s.impedanceEntity == Some(entity) then SetImpedance(value)
        else Fails(UnknownSensor)
  }

  /** _state_changed with the conversion applied only to numbers, so an unavailable
      pound scale is recorded as unavailable like any other. */
  function StateChangeCorrected(s: Settings, entity: string, newState: Option<NewState>): (c: Change)
    ensures !(c.Fails? && c.failure == PoundsOfUnavailable)
    ensures StateChange(s, entity, newState) != Fails(PoundsOfUnavailable) ==> c == StateChange(s, entity, newState)
    ensures StateChange(s, entity, newState) == Fails(PoundsOfUnavailable) ==> c == SetWeight(Unavailable)
  {
    if newState.None? || newState.value.state == StateUnknown then NoChange
    else match ReadingOf(s, newState.value.state)
      case None => Fails(InvalidNumber)
      case Some(value) =>
        if entity == s.weightEntity then
          match value
          case Number(v) =>
            if newState.value.unit == Some(UnitPounds) then SetWeight(Number(v * PoundsToKilograms))
            else SetWeight(value)
          case Unavailable => SetWeight(Unavailable)
        else if s.impedanceEntity == Some(entity) then SetImpedance(value)
        else Fails(UnknownSensor)
  }

  /** An unavailable pound scale makes the coordinator raise. */
  lemma PoundsCounterexample(s: Settings)
    ensures StateChange(s, s.weightEntity, Some(NewState(StateUnavailable, Some(UnitPounds)))) == Fails(PoundsOfUnavailable)
    ensures StateChangeCorrected(s, s.weightEntity, Some(NewState(StateUnavailable, Some(UnitPounds)))) == SetWeight(Unavailable)
  {
  }

  const WeightKey: string := "weight"
  const ImpedanceKey: string := "impedance"
  const ProblemSeparator: string := ", "
  const NoProblem: string := "none"

  /** A sensor row of READINGS together with its stored reading. */
  datatype SensorRow = SensorRow(key: string, reading: Option<Reading>, min: real, max: real)

  /** The rows _update_state walks: the weight, then the impedance when one is configured. */
  function SensorRows(s: Settings, weight: Option<Reading>, impedance: Option<Reading>): (rows: seq<SensorRow>)
    ensures 1 <= |rows| <= 2
    ensures rows[0] == SensorRow(WeightKey, weight, LegacyMetrics.WeightMin, LegacyMetrics.WeightMax)
    ensures |rows| == 2 <==> s.impedanceEntity.Some?
    ensures |rows| == 2 ==> rows[1] == SensorRow(ImpedanceKey, impedance, 50.0, LegacyMetrics.ImpedanceMax)
  {
    [SensorRow(WeightKey, weight, LegacyMetrics.WeightMin, LegacyMetrics.WeightMax)]
    + if s.impedanceEntity.Some? then [SensorRow(ImpedanceKey, impedance, 50.0, LegacyMetrics.ImpedanceMax)] else []
  }

  /** The problem one row contributes: nothing for an unset reading or one inside
      [min, max], otherwise "<key> unavailable", "<key> low" or "<key> high". */
  function RowProblem(row: SensorRow): (p: seq<string>)
    ensures |p| <= 1
    ensures p == [] <==> row.reading.None? || (row.reading.value.Number? && row.min <= row.reading.value.value <= row.max)
    ensures p != [] ==> p[0] == row.key + (if row.reading.value.Unavailable? then " unavailable"
                                         else if row.reading.value.value < row.min then " low" else " high")
  {
    match row.reading
    case None => []
    case Some(Unavailable) => [row.key + " unavailable"]
    case Some(Number(v)) =>
      if v < row.min then [row.key + " low"]
      else if v > row.max then [row.key + " high"]
      else []
  }

  /** The problems of the rows, in row order. */
  function RowProblems(rows: seq<SensorRow>): (ps: seq<string>)
    ensures |ps| <= |rows|
  {
    if rows == [] then [] else RowProblems(rows[..|rows| - 1]) + RowProblem(rows[|rows| - 1])
  }

  /** ", ".join(parts). */
  function JoinComma(parts: seq<string>): (r: string)
    ensures parts != [] ==> parts[0] <= r
  {
    if parts == [] then "" else if |parts| == 1 then parts[0] else parts[0] + ProblemSeparator + JoinComma(parts[1..])
  }

  /** The problems string: the joined list, or "none" for an empty list. */
  function ProblemsText(problems: seq<string>): (r: string)
    ensures problems == [] ==> r == NoProblem
    ensures problems != [] ==> problems[0] <= r
  {
    if problems == [] then NoProblem else JoinComma(problems)
  }

  /** The problem list _update_state builds: at most one problem per row walked, and
      none exactly when every row is fine. */
  function Problems(s: Settings, weight: Option<Reading>, impedance: Option<Reading>): (ps: seq<string>)
    ensures var rows := SensorRows(s, weight, impedance);
            |ps| <= |rows| && (ps == [] <==> RowProblem(rows[0]) == [] && (|rows| == 2 ==> RowProblem(rows[1]) == []))
  {
    var rows := SensorRows(s, weight, impedance);
    RowProblemsPair(rows);
    RowProblems(rows)
  }

  lemma RowProblemsPair(rows: seq<SensorRow>)
    requires 1 <= |rows| <= 2
    ensures RowProblems(rows) == RowProblem(rows[0]) + (if |rows| == 2 then RowProblem(rows[1]) else [])
  {
    var first := rows[..1];
    assert first[..0] == [] && first[0] == rows[0];
    assert RowProblems(first) == RowProblem(rows[0]);
    if |rows| == 2 {
      assert rows[..1] == first;
    } else {
      assert rows == first;
    }
  }

  /** The problem list is the weight's problem followed by the impedance's. */
  lemma ProblemsOrder(s: Settings, weight: Option<Reading>, impedance: Option<Reading>)
    ensures var rows := SensorRows(s, weight, impedance);
            Problems(s, weight, impedance) ==
              RowProblem(rows[0]) + (if s.impedanceEntity.Some? then RowProblem(rows[1]) else [])
  {
    RowProblemsPair(SensorRows(s, weight, impedance));
  }

  /** Python's `key in text`: key occurs in text at some position. */
  predicate Contains(text: string, key: string)
    decreases |text|
  {
    key <= text || (|text| > 0 && Contains(text[1..], key))
  }

  /** A text that occurs at the end of a longer text occurs in it. */
  lemma {:induction false} ContainsInSuffix(a: string, b: string, key: string)
    requires Contains(b, key)
    ensures Contains(a + b, key)
  {
    if a == [] {
      assert a + b == b;
    } else {
      assert (a + b)[1..] == a[1..] + b;
      ContainsInSuffix(a[1..], b, key);
    }
  }

  /** Every character of a key that occurs in a text is a character of the text. */
  lemma {:induction false} ContainsChar(text: string, key: string, c: char)
    requires Contains(text, key) && c in key
    ensures c in text
  {
    if key <= text {
      var i :| 0 <= i < |key| && key[i] == c;
      assert text[i] == c;
    } else {
      ContainsChar(text[1..], key, c);
      var j :| 0 <= j < |text[1..]| && text[1..][j] == c;
      assert text[j + 1] == c;
    }
  }

  /** The first part starts the join; the last part ends it. */
  lemma {:induction false} JoinCommaEnds(parts: seq<string>)
    requires parts != []
    ensures parts[0] <= JoinComma(parts)
    ensures |parts[|parts| - 1]| <= |JoinComma(parts)|
    ensures JoinComma(parts)[|JoinComma(parts)| - |parts[|parts| - 1]|..] == parts[|parts| - 1]
  {
    if |parts| > 1 {
      JoinCommaEnds(parts[1..]);
      assert JoinComma(parts) == (parts[0] + ProblemSeparator) + JoinComma(parts[1..]);
    }
  }

  /** metrics tests the problems string with `"weight" in problems`: that holds exactly
      when the weight has a problem, since neither an impedance problem nor "none"
      contains a 't'. */
  lemma WeightKeyReported(s: Settings, weight: Option<Reading>, impedance: Option<Reading>)
    ensures Contains(ProblemsText(Problems(s, weight, impedance)), WeightKey) <==>
              RowProblem(SensorRows(s, weight, impedance)[0]) != []
  {
    var rows := SensorRows(s, weight, impedance);
    var ps := Problems(s, weight, impedance);
    ProblemsOrder(s, weight, impedance);
    var text := ProblemsText(ps);
    if RowProblem(rows[0]) != [] {
      JoinCommaEnds(ps);
      assert WeightKey <= ps[0];
      assert WeightKey <= text;
    } else {
      assert 't' !in text;
      if Contains(text, WeightKey) {
        ContainsChar(text, WeightKey, 't');
        assert false;
      }
    }
  }

  /** The weight row's problem, if any, has no 'p', so it cannot contain "impedance". */
  lemma WeightProblemHasNoP(row: SensorRow)
    requires row.key == WeightKey
    ensures forall x :: x in RowProblem(row) ==> 'p' !in x
  {
  }

  /** `"impedance" in problems` holds exactly when an impedance is configured and has a
      problem, since neither a weight problem nor "none" contains a 'p'. */
  lemma ImpedanceKeyReported(s: Settings, weight: Option<Reading>, impedance: Option<Reading>)
    ensures Contains(ProblemsText(Problems(s, weight, impedance)), ImpedanceKey) <==>
              s.impedanceEntity.Some? && RowProblem(SensorRows(s, weight, impedance)[1]) != []
  {
    if s.impedanceEntity.Some? && RowProblem(SensorRows(s, weight, impedance)[1]) != [] {
      ImpedanceProblemReported(s, weight, impedance);
    } else {
      ImpedanceProblemAbsent(s, weight, impedance);
    }
  }

  lemma ImpedanceProblemReported(s: Settings, weight: Option<Reading>, impedance: Option<Reading>)
    requires s.impedanceEntity.Some? && RowProblem(SensorRows(s, weight, impedance)[1]) != []
    ensures Contains(ProblemsText(Problems(s, weight, impedance)), ImpedanceKey)
  {
    var ps := Problems(s, weight, impedance);
    ProblemsOrder(s, weight, impedance);
    var text := ProblemsText(ps);
    JoinCommaEnds(ps);
    var last := ps[|ps| - 1];
    assert ImpedanceKey <= last;
    assert text == text[..|text| - |last|] + last;
    ContainsInSuffix(text[..|text| - |last|], last, ImpedanceKey);
  }

  lemma ImpedanceProblemAbsent(s: Settings, weight: Option<Reading>, impedance: Option<Reading>)
    requires !(s.impedanceEntity.Some? && RowProblem(SensorRows(s, weight, impedance)[1]) != [])
    ensures !Contains(ProblemsText(Problems(s, weight, impedance)), ImpedanceKey)
  {
    var rows := SensorRows(s, weight, impedance);
    var ps := Problems(s, weight, impedance);
    ProblemsOrder(s, weight, impedance);
    var text := ProblemsText(ps);
    assert ps == RowProblem(rows[0]);
    WeightProblemHasNoP(rows[0]);
    if ps == [] {
      assert text == NoProblem;
    } else {
      assert text == ps[0] && ps[0] in RowProblem(rows[0]);
    }
    assert 'p' in ImpedanceKey && 'p' !in text;
    MissingChar(text, ImpedanceKey, 'p');
  }

  /** A key with a character the text lacks does not occur in it. */
  lemma MissingChar(text: string, key: string, c: char)
    requires c in key && c !in text
    ensures !Contains(text, key)
  {
    if Contains(text, key) {
      ContainsChar(text, key, c);
    }
  }

  /** The problems string is "none" exactly when there is no problem: a joined list
      starts with its first entry, which starts with "weight" or "impedance". */
  lemma ProblemsNone(s: Settings, weight: Option<Reading>, impedance: Option<Reading>)
    ensures ProblemsText(Problems(s, weight, impedance)) == NoProblem <==> Problems(s, weight, impedance) == []
  {
    var ps := Problems(s, weight, impedance);
    ProblemsOrder(s, weight, impedance);
    if ps != [] {
      JoinCommaEnds(ps);
      assert ps[0][0] == 'w' || ps[0][0] == 'i';
      assert JoinComma(ps)[0] == ps[0][0];
    }
  }

  /** What the metrics property yields. */
  datatype MetricsResult =
    | NoMetrics
    | Raises(reason: LegacyMetrics.Rejection)
    | Plain(body: LegacyMetrics.Body)
    | WithImpedance(impedanceBody: LegacyMetrics.ImpedanceBody)

  /** The metrics property as written: nothing when the problems mention the weight or
      there is no weight; otherwise a BodyMetrics object, replaced by a
      BodyMetricsImpedance one when the problems do not mention the impedance and there is
      an impedance. Either constructor may raise. */
  function MetricsOf(s: Settings, age: int, problems: string, weight: Option<Reading>, impedance: Option<Reading>): (r: MetricsResult)
    ensures Contains(problems, WeightKey) || weight.None? ==> r == NoMetrics
    ensures r.Plain? ==> weight == Some(Number(r.body.weight))
    ensures r.WithImpedance? ==> !Contains(problems, ImpedanceKey) && impedance == Some(Number(r.impedanceBody.impedance))
  {
    if Contains(problems, WeightKey) || weight.None? then NoMetrics
    else match weight.value
      // an unavailable weight is always reported in the problems
      case Unavailable => NoMetrics
      case Number(w) =>
        match LegacyMetrics.NewBodyMetrics(w, s.height, age, s.gender)
        case Rejected(reason) => Raises(reason)
        case Accepted(body) =>
          if !Contains(problems, ImpedanceKey) && impedance.Some? then
            match impedance.value
            // an unavailable impedance is always reported in the problems
            case Unavailable => Plain(body)
            case Number(i) =>
              match LegacyMetrics.NewBodyMetricsImpedance(w, s.height, age, s.gender, i)
              case Rejected(reason) => Raises(reason)
              case Accepted(ib) => WithImpedance(ib)
          else Plain(body)
  }

  /** The configuration the config flow enforces, and an age the constructor accepts:
      the height is at least 50, and BodyMetrics accepts the height and the age with
      any weight strictly inside its range. */
  function ValidSettings(s: Settings, age: int): (b: bool)
    ensures b <==> 50 <= s.height && LegacyMetrics.NewBodyMetrics(50.0, s.height, age, s.gender).Accepted?
    ensures b ==> forall w :: LegacyMetrics.WeightMin < w < LegacyMetrics.WeightMax ==>
                    LegacyMetrics.NewBodyMetrics(w, s.height, age, s.gender).Accepted?
  {
    50 <= s.height <= LegacyMetrics.HeightMax && age <= LegacyMetrics.AgeMax
  }

  /** A weight of exactly 10 (or 200) kg passes the coordinator's inclusive range check,
      so there is no problem, yet BodyMetrics demands a weight strictly inside the range
      and the metrics property raises. */
  lemma BoundaryCounterexample(s: Settings)
    requires ValidSettings(s, 30) && s.impedanceEntity.None?
    ensures Problems(s, Some(Number(10.0)), None) == []
    ensures MetricsOf(s, 30, ProblemsText([]), Some(Number(10.0)), None) == Raises(LegacyMetrics.WeightOutOfRange)
  {
    if Contains(NoProblem, WeightKey) {
      ContainsChar(NoProblem, WeightKey, 't');
      assert false;
    }
  }

  /** metrics with the inclusive weight bounds of the problem check. */
  function MetricsOfCorrected(s: Settings, age: int, problems: string, weight: Option<Reading>, impedance: Option<Reading>): (r: MetricsResult)
    ensures Contains(problems, WeightKey) || weight.None? ==> r == NoMetrics
  {
    if Contains(problems, WeightKey) || weight.None? then NoMetrics
    else match weight.value
      case Unavailable => NoMetrics
      case Number(w) =>
        match LegacyMetrics.NewBodyMetricsCorrected(w, s.height, age, s.gender)
        case Rejected(reason) => Raises(reason)
        case Accepted(body) =>
          if !Contains(problems, ImpedanceKey) && impedance.Some? then
            match impedance.value
            case Unavailable => Plain(body)
            case Number(i) =>
              if i > LegacyMetrics.ImpedanceMax then Raises(LegacyMetrics.ImpedanceTooHigh)
              else WithImpedance(LegacyMetrics.ImpedanceBody(body, i))
          else Plain(body)
  }

  /** With the inclusive bounds the metrics property never raises on a problems string
      the coordinator built: it yields a body exactly when there is a weight without a
      problem, and the impedance variant exactly when the impedance also has none. */
  lemma MetricsCorrectedNeverRaises(s: Settings, age: int, weight: Option<Reading>, impedance: Option<Reading>)
    requires ValidSettings(s, age)
    requires s.impedanceEntity.None? ==> impedance.None?
    ensures var r := MetricsOfCorrected(s, age, ProblemsText(Problems(s, weight, impedance)), weight, impedance);
            !r.Raises?
            && (r == NoMetrics <==> RowProblem(SensorRows(s, weight, impedance)[0]) != [] || weight.None?)
            && (r.WithImpedance? <==>
                  (weight.Some? && RowProblem(SensorRows(s, weight, impedance)[0]) == []
                   && impedance.Some? && RowProblem(SensorRows(s, weight, impedance)[1]) == []))
  {
    WeightKeyReported(s, weight, impedance);
    ImpedanceKeyReported(s, weight, impedance);
  }

  /** The loop of _update_state over the sensor rows. */
  method CollectProblems(rows: seq<SensorRow>) returns (found: seq<string>)
    ensures found == RowProblems(rows)
  {
    found := [];
    for i := 0 to |rows|
      invariant found == RowProblems(rows[..i])
    {
      assert rows[..i + 1][..i] == rows[..i];
      found := found + RowProblem(rows[i]);
    }
    assert rows[..|rows|] == rows;
  }

  /** One more subscriber called extends the calls by the next one of the list. */
  lemma AppendNext(before: seq<SubscriberId>, subs: seq<SubscriberId>, i: nat)
    requires i < |subs|
    ensures before + subs[..i + 1] == (before + subs[..i]) + [subs[i]]
  {
    assert subs[..i + 1] == subs[..i] + [subs[i]];
  }

  class BodyScaleCoordinator {
    /** The configuration and the age computed from the birthday once. */
    const settings: Settings
    const age: int
    /** _weight and _impedance. */
    var weight: Option<Reading>
    var impedance: Option<Reading>
    /** _problems. */
    var problems: string
    /** _subscriptions. */
    var subscriptions: seq<SubscriberId>
    /** Whether the state listener is registered. */
    var listening: bool
    /** Every subscriber call made so far. */
    ghost var calls: seq<SubscriberId>

    /** The problems string describes the stored readings, an impedance is only stored
        when one is configured, and the listener is registered exactly while someone is
        subscribed. */
    ghost predicate Valid()
      reads this
    {
      && problems == ProblemsText(Problems(settings, weight, impedance))
      && (settings.impedanceEntity.None? ==> impedance.None?)
      && (listening <==> |subscriptions| > 0)
    }

    constructor (settings: Settings, today: Date)
      ensures Valid()
      ensures this.settings == settings && age == Age(settings.birthday, today)
      ensures weight.None? && impedance.None? && problems == NoProblem
      ensures subscriptions == [] && !listening && calls == []
    {
      ProblemsOrder(settings, None, None);
      this.settings := settings;
      age := Age(settings.birthday, today);
      weight := None;
      impedance := None;
      problems := NoProblem;
      subscriptions := [];
      listening := false;
      calls := [];
    }

    /** metrics on the current state: nothing exactly when there is no weight or it has
        a problem; a raised exception only from BodyMetrics; the impedance variant exactly
        when an impedance is configured, stored and without a problem. */
    function Metrics(): (r: MetricsResult)
      reads this
      requires Valid()
      ensures r == NoMetrics <==> weight.None? || RowProblem(SensorRows(settings, weight, impedance)[0]) != []
      ensures r.Raises? ==> weight.Some? && weight.value.Number?
                            && LegacyMetrics.NewBodyMetrics(weight.value.value, settings.height, age, settings.gender).Rejected?
                            && r.reason == LegacyMetrics.NewBodyMetrics(weight.value.value, settings.height, age, settings.gender).reason
      ensures r.WithImpedance? <==> r != NoMetrics && !r.Raises? && settings.impedanceEntity.Some? && impedance.Some?
                                    && RowProblem(SensorRows(settings, weight, impedance)[1]) == []
    {
      WeightKeyReported(settings, weight, impedance);
      ImpedanceKeyReported(settings, weight, impedance);
      MetricsOf(settings, age, problems, weight, impedance)
    }

    /** _update_state: rebuild the problems string, then call every subscriber once. */
    method UpdateState()
      requires settings.impedanceEntity.None? ==> impedance.None?
      requires listening <==> |subscriptions| > 0
      modifies this
      ensures Valid()
      ensures weight == old(weight) && impedance == old(impedance)
      ensures subscriptions == old(subscriptions) && listening == old(listening)
      ensures calls == old(calls) + subscriptions
    {
      var found := CollectProblems(SensorRows(settings, weight, impedance));
      var text := if found != [] then JoinComma(found) else NoProblem;
      assert text == ProblemsText(Problems(settings, weight, impedance));
      var subs := subscriptions;
      ghost var made := calls;
      ghost var before := calls;
      for i := 0 to |subs|
        invariant made == before + subs[..i]
      {
        AppendNext(before, subs, i);
        made := made + [subs[i]];
      }
      assert subs[..|subs|] == subs;
      problems, calls := text, made;
    }

    /** _state_changed: apply the change of one new state; a change that stores a reading
        is followed by _update_state, an absent or unknown state and a raised exception
        change nothing. */
    method StateChanged(entity: string, newState: Option<NewState>) returns (failure: Option<Failure>)
      requires Valid()
      modifies this
      ensures Valid()
      ensures subscriptions == old(subscriptions) && listening == old(listening)
      ensures var c := StateChange(settings, entity, newState);
              && failure == (if c.Fails? then Some(c.failure) else None)
              && weight == (if c.SetWeight? then Some(c.weight) else old(weight))
              && impedance == (if c.SetImpedance? then Some(c.impedance) else old(impedance))
              && calls == old(calls) + (if c.SetWeight? || c.SetImpedance? then subscriptions else [])
    {
      var c := StateChange(settings, entity, newState);
      if c.NoChange? {
        return None;
      }
      if c.Fails? {
        return Some(c.failure);
      }
      if c.SetWeight? {
        weight := Some(c.weight);
      } else {
        impedance := Some(c.impedance);
      }
      UpdateState();
      failure := None;
    }

    /** subscribe: append the callback and register the state listener for the first. */
    method Subscribe(id: SubscriberId)
      requires Valid()
      modifies this
      ensures Valid()
      ensures subscriptions == old(subscriptions) + [id] && listening
      ensures weight == old(weight) && impedance == old(impedance) && problems == old(problems) && calls == old(calls)
    {
      subscriptions := subscriptions + [id];
      if |subscriptions| == 1 {
        listening := true;
      }
    }

    /** The remover subscribe returns: list.remove of the callback (a callback no longer
        subscribed raises ValueError, reported as false), then the listener is released
        when no one is left. */
    method Unsubscribe(id: SubscriberId) returns (removed: bool)
      requires Valid()
      modifies this
      ensures Valid()
      ensures removed <==> id in old(subscriptions)
      ensures subscriptions == Handler.RemoveFirst(old(subscriptions), id)
      ensures listening <==> |subscriptions| > 0
      ensures weight == old(weight) && impedance == old(impedance) && problems == old(problems) && calls == old(calls)
    {
      if id !in subscriptions {
        return false;
      }
      subscriptions := Handler.RemoveFirst(subscriptions, id);
      if |subscriptions| == 0 {
        listening := false;
      }
      return true;
    }
  }
}
