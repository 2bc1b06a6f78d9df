/** Sensor ingestion of BodyScaleMetricsHandler (metrics/__init__.py:229-447) as
    functions on the handler state: a new sensor state is validated, turns into either
    a store write or a problem token, and the status string records the problem. */
module Ingest {
  import opened Util
  import opened Metrics
  import opened Propagation
  import opened Problems

  /** The three sensor roles of the configuration. */
  datatype Sensor = WeightSensor | ImpedanceSensor | LastTimeSensor

  /** The sensor key that prefixes the sensor's problem tokens. */
  function Key(sensor: Sensor): (k: string)
    ensures k in SensorKeys
  {
    match sensor
    case WeightSensor => "weight"
    case ImpedanceSensor => "impedance"
    case LastTimeSensor => "last_time"
  }

  /** The metric a numeric sensor writes. */
  function MetricOf(sensor: Sensor): (m: Metric)
    requires sensor != LastTimeSensor
    ensures m == Weight || m == Impedance
  {
    if sensor == WeightSensor then Weight else Impedance
  }

  const WeightMin: real := 10.0
  const WeightMax: real := 200.0
  const ImpedanceMin: real := 50.0
  const ImpedanceMax: real := 3000.0

  function MinOf(sensor: Sensor): real
    requires sensor != LastTimeSensor
  {
    if sensor == WeightSensor then WeightMin else ImpedanceMin
  }

  function MaxOf(sensor: Sensor): real
    requires sensor != LastTimeSensor
  {
    if sensor == WeightSensor then WeightMax else ImpedanceMax
  }

  const Unknown: string := "unknown"
  const Unavailable: string := "unavailable"
  const Pounds: string := "lb"
  const PoundInKg: real := 0.45359237

  /** What the handler gets from its host: the configured entity ids (the weight sensor
      is mandatory) and the library conversions float(str), datetime.fromisoformat (a
      time as a whole number of units) and str(float), as partial or total functions. */
  datatype Host = Host(
    weightEntity: string,
    impedanceEntity: Option<string>,
    lastTimeEntity: Option<string>,
    parseFloat: string -> Option<real>,
    parseTime: string -> Option<int>,
    formatFloat: real -> string)

  /** A sensor's new state: its text and its unit-of-measurement attribute. */
  datatype Reading = Reading(state: string, unit: Option<string>)

  /** The sensor an entity id belongs to, tried in the order weight, impedance, last
      measurement time, as in _state_changed and _add_sensor_problem. */
  function SensorOf(host: Host, entity: string): (r: Option<Sensor>)
    ensures r == Some(WeightSensor) <==> entity == host.weightEntity
    ensures r.None? <==> entity != host.weightEntity && host.impedanceEntity != Some(entity) && host.lastTimeEntity != Some(entity)
  {
    if entity == host.weightEntity then Some(WeightSensor)
    else if host.impedanceEntity == Some(entity) then Some(ImpedanceSensor)
    else if host.lastTimeEntity == Some(entity) then Some(LastTimeSensor)
    else None
  }

  // ---------------------------------------------------------------- validity

  /** A state as _is_valid receives it: the sensor text or an already parsed number. */
  datatype Raw = RawText(text: string) | RawNum(num: real)

  function FloatOf(host: Host, state: Raw): Option<real>
  {
    match state
    case RawNum(x) => Some(x)
    case RawText(t) => host.parseFloat(t)
  }

  function TextOf(host: Host, state: Raw): string
  {
    match state
    case RawNum(x) => host.formatFloat(x)
    case RawText(t) => t
  }

  /** Neither below a given minimum nor above a given maximum: both bounds inclusive. */
  predicate InBounds(x: real, lo: Option<real>, hi: Option<real>)
  {
    !(lo.Some? && x < lo.value) && !(hi.Some? && x > hi.value)
  }

  /** _is_valid. */
  function IsValid(host: Host, sensor: Sensor, state: Raw, lo: Option<real>, hi: Option<real>): (r: bool)
    ensures r ==> state != RawText(Unavailable)
    ensures r && sensor == LastTimeSensor ==> host.parseTime(TextOf(host, state)).Some?
    ensures sensor != LastTimeSensor && state.RawNum? ==> (r <==> InBounds(state.num, lo, hi))
    ensures sensor == LastTimeSensor && state.RawText? && lo.None? && hi.None? ==>
              (r <==> state.text != Unavailable && host.parseTime(state.text).Some?)
  {
    if state == RawText(Unavailable) then false
    else if sensor == LastTimeSensor && host.parseTime(TextOf(host, state)).None? then false
    else if lo.Some? || hi.Some? then
      match FloatOf(host, state)
      case None => false
      case Some(x) => InBounds(x, lo, hi)
    else true
  }

  /** _categorize_problem: "low" below the minimum, "high" above the maximum, and
      "invalid" for a value within both. */
  function Categorize(value: real, lo: Option<real>, hi: Option<real>): (r: string)
    ensures r in Kinds
    ensures r == "low" <==> lo.Some? && value < lo.value
    ensures r == "high" <==> !(lo.Some? && value < lo.value) && hi.Some? && value > hi.value
    ensures r == "invalid" <==> InBounds(value, lo, hi)
  {
    if lo.Some? && value < lo.value then "low"
    else if hi.Some? && value > hi.value then "high"
    else "invalid"
  }

  // ---------------------------------------------------------------- status writes

  /** _remove_sensor_problem: the status without the sensor's tokens, written as the
      status metric. */
  function RemoveSensorProblem(env: Env, h: State, sensor: Sensor): (r: State)
    requires StateOk(env.cfg, h)
    ensures StateOk(env.cfg, r)
    ensures r.status == RemoveProblem(h.status, Key(sensor))
  {
    StatusWrite(env, h, RemoveProblem(h.status, Key(sensor)));
    Write(env, h, Status, Str(RemoveProblem(h.status, Key(sensor)))).0
  }

  /** _add_sensor_problem: for an entity of a configured sensor, the status with the
      token key_error added, written as the status metric; otherwise nothing. */
  function AddSensorProblem(env: Env, host: Host, h: State, entity: string, error: string): (r: State)
    requires StateOk(env.cfg, h)
    ensures StateOk(env.cfg, r)
    ensures SensorOf(host, entity).None? ==> r == h
    ensures SensorOf(host, entity).Some? ==> r.status == AddProblem(h.status, Key(SensorOf(host, entity).value) + "_" + error)
  {
    match SensorOf(host, entity)
    case None => h
    case Some(sensor) =>
      var status := AddProblem(h.status, Key(sensor) + "_" + error);
      StatusWrite(env, h, status);
      Write(env, h, Status, Str(status)).0
  }

  // ---------------------------------------------------------------- readings

  /** What processing a reading yields: the new state, whether the metric store was
      updated, and the problem kind to record. */
  datatype Outcome = Outcome(state: State, updated: bool, problem: Option<string>)

  /** _process_weight and _process_impedance: an unavailable or unparsable reading
      clears the sensor's problems and reports one; a reading outside the inclusive
      range reports "low" or "high" and leaves everything as it is; a good reading is
      converted from pounds (weight only, after the range check) and written, and its
      sensor's problems are cleared only if the write changed the store. */
  function ProcessNumeric(env: Env, host: Host, h: State, sensor: Sensor, reading: Reading): (o: Outcome)
    requires StateOk(env.cfg, h) && sensor != LastTimeSensor
    ensures StateOk(env.cfg, o.state)
    ensures o.problem.Some? ==> o.problem.value in Kinds && !o.updated
  {
    if reading.state == Unavailable then
      Outcome(RemoveSensorProblem(env, h, sensor), false, Some("unavailable"))
    else
      match host.parseFloat(reading.state)
      case None => Outcome(RemoveSensorProblem(env, h, sensor), false, Some("invalid_format"))
      case Some(x) =>
        if !IsValid(host, sensor, RawNum(x), Some(MinOf(sensor)), Some(MaxOf(sensor))) then
          Outcome(h, false, Some(Categorize(x, Some(MinOf(sensor)), Some(MaxOf(sensor)))))
        else
          var w := Write(env, h, MetricOf(sensor), Num(Converted(sensor, reading, x)));
          Outcome(if w.1 then RemoveSensorProblem(env, w.0, sensor) else w.0, w.1, None)
  }

  /** _process_last_measurement_time: an unavailable or unparsable time clears the
      sensor's problems and reports "unavailable" or "invalid"; a good one is written,
      clears the problems and runs the recalculation pass. The update flag is never
      set. */
  function ProcessLastMeasurementTime(env: Env, host: Host, h: State, reading: Reading): (o: Outcome)
    requires StateOk(env.cfg, h)
    ensures StateOk(env.cfg, o.state)
    ensures !o.updated
    ensures o.problem.Some? ==> o.problem.value in Kinds
  {
    if reading.state == Unavailable then
      Outcome(RemoveSensorProblem(env, h, LastTimeSensor), false, Some("unavailable"))
    else if !IsValid(host, LastTimeSensor, RawText(reading.state), None, None) then
      Outcome(RemoveSensorProblem(env, h, LastTimeSensor), false, Some("invalid"))
    else
      var t := host.parseTime(reading.state).value;
      var h1 := Write(env, h, LastMeasurementTime, Time(t)).0;
      var h2 := RemoveSensorProblem(env, h1, LastTimeSensor);
      Outcome(Trigger(env, h2), false, None)
  }

  /** _state_changed: ignore a missing entity or state and the "unknown" state; process
      the reading by the sensor it comes from (an entity of no configured sensor is
      ignored); record a reported problem; run the recalculation pass after a write of
      weight or impedance. */
  function StateChanged(env: Env, host: Host, h: State, entity: Option<string>, newState: Option<Reading>): (r: State)
    requires StateOk(env.cfg, h)
    ensures StateOk(env.cfg, r)
    ensures entity.None? || newState.None? || newState.value.state == Unknown ==> r == h
    ensures entity.Some? && SensorOf(host, entity.value).None? ==> r == h
  {
    if entity.None? || newState.None? || newState.value.state == Unknown then h
    else Finish(env, host, entity.value, Process(env, host, h, entity.value, newState.value))
  }

  /** The end of _state_changed: record the reported problem, then run the
      recalculation pass if weight or impedance was written. */
  function Finish(env: Env, host: Host, entity: string, o: Outcome): (r: State)
    requires StateOk(env.cfg, o.state)
    ensures StateOk(env.cfg, r)
  {
    var h1 := if o.problem.Some? then AddSensorProblem(env, host, o.state, entity, o.problem.value) else o.state;
    if o.updated then Trigger(env, h1) else h1
  }

  /** The dispatch of _state_changed to the processing of the entity's sensor. */
  function Process(env: Env, host: Host, h: State, entity: string, reading: Reading): (o: Outcome)
    requires StateOk(env.cfg, h)
    ensures StateOk(env.cfg, o.state)
    ensures SensorOf(host, entity).None? ==> o == Outcome(h, false, None)
    ensures o.problem.Some? ==> o.problem.value in Kinds
  {
    match SensorOf(host, entity)
    case None => Outcome(h, false, None)
    case Some(sensor) =>
      if sensor == LastTimeSensor then ProcessLastMeasurementTime(env, host, h, reading)
      else ProcessNumeric(env, host, h, sensor, reading)
  }

  // ---------------------------------------------------------------- properties

  /** The problem kind of a reading outside the inclusive range of its sensor. */
  function RangeKind(sensor: Sensor, x: real): string
    requires sensor != LastTimeSensor
  {
    if x < MinOf(sensor) then "low" else "high"
  }

  /** A reading outside the inclusive range keeps the last good value of its metric. */
  lemma OutOfRangeKeepsValue(env: Env, host: Host, h: State, entity: string, reading: Reading, x: real)
    requires StateOk(env.cfg, h)
    requires SensorOf(host, entity).Some? && SensorOf(host, entity).value != LastTimeSensor
    requires reading.state != Unknown && reading.state != Unavailable
    requires host.parseFloat(reading.state) == Some(x)
    requires var sensor := SensorOf(host, entity).value; !(MinOf(sensor) <= x <= MaxOf(sensor))
    ensures var m := MetricOf(SensorOf(host, entity).value);
            var r := StateChanged(env, host, h, Some(entity), Some(reading));
            && (m in r.store <==> m in h.store)
            && (m in h.store ==> r.store[m] == h.store[m])
  {
    var sensor := SensorOf(host, entity).value;
    var status := AddProblem(h.status, Key(sensor) + "_" + RangeKind(sensor, x));
    OutOfRangeIsStatusWrite(env, host, h, entity, reading, x);
    StatusWrite(env, h, status);
    assert MetricOf(sensor) != Status && MetricOf(sensor) != Age;
  }

  /** A reading outside the inclusive range records "low" below the minimum and "high"
      above the maximum. The range is checked on the reading as received, so for the
      weight before any pound conversion. */
  lemma OutOfRangeRecordsProblem(env: Env, host: Host, h: State, entity: string, reading: Reading, x: real)
    requires StateOk(env.cfg, h)
    requires SensorOf(host, entity).Some? && SensorOf(host, entity).value != LastTimeSensor
    requires reading.state != Unknown && reading.state != Unavailable
    requires host.parseFloat(reading.state) == Some(x)
    requires var sensor := SensorOf(host, entity).value; !(MinOf(sensor) <= x <= MaxOf(sensor))
    ensures var sensor := SensorOf(host, entity).value;
            StateChanged(env, host, h, Some(entity), Some(reading)).status
              == AddProblem(h.status, Key(sensor) + "_" + (if x < MinOf(sensor) then "low" else "high"))
  {
    var sensor := SensorOf(host, entity).value;
    OutOfRangeIsStatusWrite(env, host, h, entity, reading, x);
    StatusWriteSets(env, h, AddProblem(h.status, Key(sensor) + "_" + RangeKind(sensor, x)));
  }

  lemma OutOfRangeIsStatusWrite(env: Env, host: Host, h: State, entity: string, reading: Reading, x: real)
    requires StateOk(env.cfg, h)
    requires SensorOf(host, entity).Some? && SensorOf(host, entity).value != LastTimeSensor
    requires reading.state != Unknown && reading.state != Unavailable
    requires host.parseFloat(reading.state) == Some(x)
    requires var sensor := SensorOf(host, entity).value; !(MinOf(sensor) <= x <= MaxOf(sensor))
    ensures var sensor := SensorOf(host, entity).value;
            StateChanged(env, host, h, Some(entity), Some(reading))
              == Write(env, h, Status, Str(AddProblem(h.status, Key(sensor) + "_" + RangeKind(sensor, x)))).0
  {
    var o := Process(env, host, h, entity, reading);
    ProcessOutOfRange(env, host, h, entity, reading, x);
    assert StateChanged(env, host, h, Some(entity), Some(reading)) == Finish(env, host, entity, o);
  }

  lemma ProcessOutOfRange(env: Env, host: Host, h: State, entity: string, reading: Reading, x: real)
    requires StateOk(env.cfg, h)
    requires SensorOf(host, entity).Some? && SensorOf(host, entity).value != LastTimeSensor
    requires reading.state != Unavailable
    requires host.parseFloat(reading.state) == Some(x)
    requires var sensor := SensorOf(host, entity).value; !(MinOf(sensor) <= x <= MaxOf(sensor))
    ensures var sensor := SensorOf(host, entity).value;
            Process(env, host, h, entity, reading) == Outcome(h, false, Some(RangeKind(sensor, x)))
  {
  }

  /** A weight of 200 to 440 pounds is rejected as "high" though it is under 200 kg. */
  lemma PoundsRangeCheckedRaw(env: Env, host: Host, h: State, reading: Reading, x: real)
    requires StateOk(env.cfg, h)
    requires reading.state != Unknown && reading.state != Unavailable && reading.unit == Some(Pounds)
    requires host.parseFloat(reading.state) == Some(x) && WeightMax < x <= 440.0
    ensures x * PoundInKg < WeightMax
    ensures StateChanged(env, host, h, Some(host.weightEntity), Some(reading)).status == AddProblem(h.status, "weight_high")
  {
    ScaleBelow(x, 440.0, PoundInKg);
    assert SensorOf(host, host.weightEntity) == Some(WeightSensor);
    assert Key(WeightSensor) + "_" + "high" == "weight_high";
    OutOfRangeRecordsProblem(env, host, h, host.weightEntity, reading, x);
  }

  lemma ScaleBelow(x: real, bound: real, c: real)
    requires x <= bound && c > 0.0
    ensures x * c <= bound * c
  {
    assert bound * c - x * c == (bound - x) * c;
  }

  /** The value a good reading of a numeric sensor is stored as. */
  function Converted(sensor: Sensor, reading: Reading, x: real): real
  {
    if sensor == WeightSensor && reading.unit == Some(Pounds) then x * PoundInKg else x
  }

  lemma ProcessGood(env: Env, host: Host, h: State, entity: string, reading: Reading, x: real)
    requires StateOk(env.cfg, h)
    requires SensorOf(host, entity).Some? && SensorOf(host, entity).value != LastTimeSensor
    requires reading.state != Unavailable
    requires host.parseFloat(reading.state) == Some(x)
    requires var sensor := SensorOf(host, entity).value; MinOf(sensor) <= x <= MaxOf(sensor)
    ensures var sensor := SensorOf(host, entity).value;
            var m := MetricOf(sensor);
            var value := Converted(sensor, reading, x);
            && Admissible(env.cfg, m, Num(value))
            && var w := Write(env, h, m, Num(value));
               Process(env, host, h, entity, reading) ==
                 Outcome(if w.1 then RemoveSensorProblem(env, w.0, sensor) else w.0, w.1, None)
  {
    var sensor := SensorOf(host, entity).value;
    ConvertedAdmissible(env.cfg, sensor, reading, x);
    assert Process(env, host, h, entity, reading) == ProcessNumeric(env, host, h, sensor, reading);
    NumericGood(env, host, h, sensor, reading, x);
  }

  lemma NumericGood(env: Env, host: Host, h: State, sensor: Sensor, reading: Reading, x: real)
    requires StateOk(env.cfg, h) && sensor != LastTimeSensor
    requires reading.state != Unavailable
    requires host.parseFloat(reading.state) == Some(x)
    requires MinOf(sensor) <= x <= MaxOf(sensor)
    requires Admissible(env.cfg, MetricOf(sensor), Num(Converted(sensor, reading, x)))
    ensures var w := Write(env, h, MetricOf(sensor), Num(Converted(sensor, reading, x)));
            ProcessNumeric(env, host, h, sensor, reading) ==
              Outcome(if w.1 then RemoveSensorProblem(env, w.0, sensor) else w.0, w.1, None)
  {
    assert IsValid(host, sensor, RawNum(x), Some(MinOf(sensor)), Some(MaxOf(sensor)));
  }

  /** A reading in range is an admissible value of its metric: a weight of at least
      10 stays positive through the pound conversion. */
  lemma ConvertedAdmissible(cfg: Config, sensor: Sensor, reading: Reading, x: real)
    requires sensor != LastTimeSensor && MinOf(sensor) <= x <= MaxOf(sensor)
    ensures Admissible(cfg, MetricOf(sensor), Num(Converted(sensor, reading, x)))
  {
    if sensor == WeightSensor && reading.unit == Some(Pounds) {
      ScaleBelow(WeightMin, x, PoundInKg);
    }
  }

  /** A good reading that changes the stored value stores it (converted to kilograms
      for a weight in pounds), clears every problem of its sensor, and leaves no derived
      metric missing whose dependencies are all available. */
  lemma GoodReadingStored(env: Env, host: Host, h: State, entity: string, reading: Reading, x: real)
    requires StateOk(env.cfg, h)
    requires SensorOf(host, entity).Some? && SensorOf(host, entity).value != LastTimeSensor
    requires reading.state != Unknown && reading.state != Unavailable
    requires host.parseFloat(reading.state) == Some(x)
    requires var sensor := SensorOf(host, entity).value; MinOf(sensor) <= x <= MaxOf(sensor)
    requires var sensor := SensorOf(host, entity).value;
             !(MetricOf(sensor) in h.store && h.store[MetricOf(sensor)] == Num(Converted(sensor, reading, x)))
    ensures var sensor := SensorOf(host, entity).value;
            var r := StateChanged(env, host, h, Some(entity), Some(reading));
            && MetricOf(sensor) in r.store && r.store[MetricOf(sensor)] == Num(Converted(sensor, reading, x))
            && r.status == RemoveProblem(h.status, Key(sensor))
            && forall d :: !Open(r.store, d)
  {
    var sensor := SensorOf(host, entity).value;
    var m := MetricOf(sensor);
    var value := Converted(sensor, reading, x);
    ProcessGood(env, host, h, entity, reading, x);
    var w := Write(env, h, m, Num(value));
    WriteFrame(env, h, m, Num(value));
    WriteSkipsEqual(env, h, m, Num(value));
    var h2 := RemoveSensorProblem(env, w.0, sensor);
    StatusWrite(env, w.0, RemoveProblem(w.0.status, Key(sensor)));
    var o := Process(env, host, h, entity, reading);
    assert o == Outcome(h2, true, None);
    assert StateChanged(env, host, h, Some(entity), Some(reading)) == Finish(env, host, entity, o);
    assert Finish(env, host, entity, o) == Trigger(env, h2);
    TriggerFrame(env, h2);
    TriggerCloses(env, h2);
  }

  /** A good reading equal to the stored value changes nothing at all; in particular an
      earlier problem of the sensor stays in the status. */
  lemma RepeatedReadingChangesNothing(env: Env, host: Host, h: State, entity: string, reading: Reading, x: real)
    requires StateOk(env.cfg, h)
    requires SensorOf(host, entity).Some? && SensorOf(host, entity).value != LastTimeSensor
    requires reading.state != Unknown && reading.state != Unavailable
    requires host.parseFloat(reading.state) == Some(x)
    requires var sensor := SensorOf(host, entity).value; MinOf(sensor) <= x <= MaxOf(sensor)
    requires var sensor := SensorOf(host, entity).value;
             MetricOf(sensor) in h.store && h.store[MetricOf(sensor)] == Num(Converted(sensor, reading, x))
    ensures StateChanged(env, host, h, Some(entity), Some(reading)) == h
  {
    var sensor := SensorOf(host, entity).value;
    ProcessGood(env, host, h, entity, reading, x);
    WriteSkipsEqual(env, h, MetricOf(sensor), Num(Converted(sensor, reading, x)));
    var o := Process(env, host, h, entity, reading);
    assert o == Outcome(h, false, None);
    assert StateChanged(env, host, h, Some(entity), Some(reading)) == Finish(env, host, entity, o);
  }

  /** The readings that clear the sensor's problems before reporting one: unavailable,
      or not parsable as a number (as a time for the last-measurement sensor). */
  predicate Resets(host: Host, sensor: Sensor, reading: Reading, kind: string)
  {
    if reading.state == Unavailable then kind == "unavailable"
    else if sensor == LastTimeSensor then host.parseTime(reading.state).None? && kind == "invalid"
    else host.parseFloat(reading.state).None? && kind == "invalid_format"
  }

  lemma ProcessResets(env: Env, host: Host, h: State, entity: string, reading: Reading, kind: string)
    requires StateOk(env.cfg, h)
    requires SensorOf(host, entity).Some?
    requires Resets(host, SensorOf(host, entity).value, reading, kind)
    ensures Process(env, host, h, entity, reading) ==
            Outcome(RemoveSensorProblem(env, h, SensorOf(host, entity).value), false, Some(kind))
  {
  }

  /** After such a reading the status lists the earlier problems of the other sensors
      and exactly one token of this sensor. */
  lemma ResetLeavesOneToken(env: Env, host: Host, h: State, problems: seq<string>, entity: string, reading: Reading, kind: string)
    requires StateOk(env.cfg, h) && Tokens(problems) && h.status == Render(problems)
    requires SensorOf(host, entity).Some? && reading.state != Unknown
    requires Resets(host, SensorOf(host, entity).value, reading, kind)
    ensures var sensor := SensorOf(host, entity).value;
            var token := Key(sensor) + "_" + kind;
            var r := StateChanged(env, host, h, Some(entity), Some(reading));
            && r.status == Render(DropSensor(problems, Key(sensor)) + [token])
            && forall p :: p in Split(r.status) && StartsWith(p, Key(sensor) + "_") <==> p == token
  {
    var sensor := SensorOf(host, entity).value;
    var key := Key(sensor);
    var token := key + "_" + kind;
    ProcessResets(env, host, h, entity, reading, kind);
    var o := Process(env, host, h, entity, reading);
    var h1 := RemoveSensorProblem(env, h, sensor);
    assert StateChanged(env, host, h, Some(entity), Some(reading)) == Finish(env, host, entity, o);
    assert Finish(env, host, entity, o) == AddSensorProblem(env, host, h1, entity, kind);
    RemoveRender(problems, key);
    assert kind in Kinds;
    ProblemIsToken(key, kind);
    var rest := DropSensor(problems, key);
    AddRender(rest, token);
    assert token[..|key + "_"|] == key + "_";
    OneProblemPerSensor(problems, key, token);
  }

  lemma ProcessTime(env: Env, host: Host, h: State, entity: string, reading: Reading, t: int)
    requires StateOk(env.cfg, h)
    requires SensorOf(host, entity) == Some(LastTimeSensor)
    requires reading.state != Unavailable
    requires host.parseTime(reading.state) == Some(t)
    ensures Process(env, host, h, entity, reading) ==
            Outcome(Trigger(env, RemoveSensorProblem(env, Write(env, h, LastMeasurementTime, Time(t)).0, LastTimeSensor)), false, None)
  {
  }

  /** A good time is stored, clears the sensor's problems and is followed by the
      recalculation pass. */
  lemma GoodTimeStored(env: Env, host: Host, h: State, entity: string, reading: Reading, t: int)
    requires StateOk(env.cfg, h)
    requires SensorOf(host, entity) == Some(LastTimeSensor)
    requires reading.state != Unknown && reading.state != Unavailable
    requires host.parseTime(reading.state) == Some(t)
    requires !(LastMeasurementTime in h.store && h.store[LastMeasurementTime] == Time(t))
    ensures var r := StateChanged(env, host, h, Some(entity), Some(reading));
            && LastMeasurementTime in r.store && r.store[LastMeasurementTime] == Time(t)
            && r.status == RemoveProblem(h.status, Key(LastTimeSensor))
            && forall d :: !Open(r.store, d)
  {
    var h2 := RemoveSensorProblem(env, Write(env, h, LastMeasurementTime, Time(t)).0, LastTimeSensor);
    TimeSteps(env, h, t);
    StateChangedTime(env, host, h, entity, reading, t);
    TriggerFrame(env, h2);
    assert !Derived(LastMeasurementTime);
    TriggerCloses(env, h2);
  }

  lemma StateChangedTime(env: Env, host: Host, h: State, entity: string, reading: Reading, t: int)
    requires StateOk(env.cfg, h)
    requires SensorOf(host, entity) == Some(LastTimeSensor)
    requires reading.state != Unknown && reading.state != Unavailable
    requires host.parseTime(reading.state) == Some(t)
    ensures StateChanged(env, host, h, Some(entity), Some(reading)) ==
            Trigger(env, RemoveSensorProblem(env, Write(env, h, LastMeasurementTime, Time(t)).0, LastTimeSensor))
  {
    ProcessTime(env, host, h, entity, reading, t);
    var o := Process(env, host, h, entity, reading);
    assert StateChanged(env, host, h, Some(entity), Some(reading)) == Finish(env, host, entity, o);
  }

  /** The two writes of a new time, before the pass: the time is stored, the age is
      present, and the status loses the sensor's tokens. */
  lemma TimeSteps(env: Env, h: State, t: int)
    requires StateOk(env.cfg, h)
    requires !(LastMeasurementTime in h.store && h.store[LastMeasurementTime] == Time(t))
    ensures var h2 := RemoveSensorProblem(env, Write(env, h, LastMeasurementTime, Time(t)).0, LastTimeSensor);
            && LastMeasurementTime in h2.store && h2.store[LastMeasurementTime] == Time(t)
            && Age in h2.store
            && h2.status == RemoveProblem(h.status, Key(LastTimeSensor))
  {
    var w := Write(env, h, LastMeasurementTime, Time(t));
    WriteFrame(env, h, LastMeasurementTime, Time(t));
    WriteSkipsEqual(env, h, LastMeasurementTime, Time(t));
    assert w.0.status == h.status && Age in w.0.store;
    var s := RemoveProblem(w.0.status, Key(LastTimeSensor));
    var h2 := RemoveSensorProblem(env, w.0, LastTimeSensor);
    assert h2 == Write(env, w.0, Status, Str(s)).0;
    StatusWrite(env, w.0, s);
  }
}
