/** BodyScaleMetricsHandler (metrics/__init__.py:140-501) as a class whose fields the
    methods update in place. Every method is proved to leave the object in the state
    that the functions of Propagation and Ingest compute from the old state, and to
    keep the class invariant: the handler state is well formed, the reverse index is
    the one of the dependency table, and the status field is always the rendering of
    a list of problem tokens. The properties of those functions are the properties of
    the handler. */
module Handler {
  import opened Util
  import opened Metrics
  import opened Propagation
  import opened Problems
  import Ingest

  /** list.remove: the sequence without the first occurrence of x. */
  function RemoveFirst(s: seq<SubscriberId>, x: SubscriberId): (r: seq<SubscriberId>)
    ensures x in s ==> |r| == |s| - 1
    ensures x !in s ==> r == s
  {
    if s == [] then []
    else if s[0] == x then s[1..]
    else [s[0]] + RemoveFirst(s[1..], x)
  }

  /** Removing x takes away one x and leaves every other subscriber as it was. */
  lemma {:induction false} RemoveFirstMultiset(s: seq<SubscriberId>, x: SubscriberId)
    requires x in s
    ensures multiset(RemoveFirst(s, x)) == multiset(s) - multiset{x}
  {
    assert s == [s[0]] + s[1..];
    if s[0] != x {
      RemoveFirstMultiset(s[1..], x);
    }
  }

  /** The remover returned by a subscribe undoes it when the callback was not already
      subscribed. */
  lemma {:induction false} RemoveFirstAppended(s: seq<SubscriberId>, x: SubscriberId)
    requires x !in s
    ensures RemoveFirst(s + [x], x) == s
  {
    if s != [] {
      assert (s + [x])[1..] == s[1..] + [x];
      RemoveFirstAppended(s[1..], x);
    }
  }

  /** The first position holding x splits the sequence for RemoveFirst. */
  lemma {:induction false} RemoveFirstAt(s: seq<SubscriberId>, x: SubscriberId, i: nat)
    requires i < |s| && s[i] == x && x !in s[..i]
    ensures RemoveFirst(s, x) == s[..i] + s[i + 1..]
  {
    if i > 0 {
      assert s[0] in s[..i];
      assert s[1..][..i - 1] == s[1..i];
      RemoveFirstAt(s[1..], x, i - 1);
    }
  }

  lemma NotifyAppend(subs: seq<SubscriberId>, id: SubscriberId, m: Metric, v: Value)
    ensures Notify(subs + [id], m, v) == Notify(subs, m, v) + [Notification(id, m, v)]
  {
    var a := Notify(subs + [id], m, v);
    var b := Notify(subs, m, v) + [Notification(id, m, v)];
    assert |a| == |b|;
    forall i | 0 <= i < |a|
      ensures a[i] == b[i]
    {
      if i < |subs| {
        assert (subs + [id])[i] == subs[i];
      }
    }
  }

  /** Lines 469-473: every subscriber is called once, in list order, with the value
      prepared for subscribers. */
  method CallSubscribers(subs: seq<SubscriberId>, m: Metric, sv: Value) returns (calls: seq<Notification>)
    ensures calls == Notify(subs, m, sv)
  {
    calls := [];
    var i := 0;
    while i < |subs|
      invariant 0 <= i <= |subs| && |calls| == i
      invariant forall j :: 0 <= j < i ==> calls[j] == Notification(subs[j], m, sv)
    {
      calls := calls + [Notification(subs[i], m, sv)];
      i := i + 1;
    }
  }

  /** Lines 360-393: the status parts without blanks and "none", the problem appended
      if new, deduplicated, sorted, grouped by sensor and joined. */
  method StatusWith(status: string, problem: string) returns (newStatus: string)
    ensures newStatus == AddProblem(status, problem)
  {
    var statusParts := CleanParts(Split(status));
    if problem !in statusParts {
      statusParts := statusParts + [problem];
    }
    var orderedProblems := GroupParts(SortedSet(statusParts));
    var finalStatus := Join(orderedProblems);
    newStatus := if finalStatus == "" then NoProblem else finalStatus;
  }

  /** Lines 409-415: the status parts that are not blank and do not start with the
      sensor's key, joined. */
  method StatusWithout(status: string, key: string) returns (newStatus: string)
    ensures newStatus == RemoveProblem(status, key)
  {
    var statusParts := RemainingParts(Split(status), key);
    var finalStatus := Join(statusParts);
    newStatus := if finalStatus == "" then NoProblem else finalStatus;
  }

  class MetricsHandler {
    /** The user data: gender, height and (computed once) age. */
    const cfg: Config
    /** The configured sensor entities and the parsing of their states. */
    const host: Ingest.Host
    /** depended_by of every row, built by the constructor. */
    var dependedBy: map<Metric, seq<Metric>>
    /** _available_metrics and its iteration order (the order of last write). */
    var store: map<Metric, Value>
    var keys: seq<Metric>
    /** _status. */
    var status: string
    /** _subscribers. */
    var subscribers: map<Metric, seq<SubscriberId>>
    /** Every subscriber call made so far. */
    ghost var log: seq<Notification>
    /** The problem tokens the status lists. */
    ghost var problems: seq<string>

    function EnvOf(): Env
      reads this
    {
      Env(cfg, subscribers)
    }

    ghost function StateOf(): State
      reads this
    {
      State(store, keys, status, log)
    }

    /** The invariant every write keeps. */
    ghost predicate Core()
      reads this`store, this`keys, this`status, this`dependedBy
    {
      && FieldsOk(cfg, store, keys, status)
      && (forall m :: m in dependedBy && dependedBy[m] == DependedBy(m))
    }

    /** The invariant of the handler between events: also the status is the canonical
        rendering of its problem tokens. */
    ghost predicate Valid()
      reads this
    {
      Core() && Tokens(problems) && status == Render(problems)
    }

    /** __init__ without the entity listener: the status is "none", nothing is stored
        or subscribed, and the reverse index is built from the table. */
    constructor (cfg: Config, host: Ingest.Host)
      requires ValidConfig(cfg)
      ensures Valid()
      ensures this.cfg == cfg && this.host == host
      ensures store == map[] && keys == [] && status == NoProblem && subscribers == map[]
      ensures log == [] && problems == []
    {
      var index := BuildDependedBy();
      this.cfg := cfg;
      this.host := host;
      dependedBy := index;
      store := map[];
      keys := [];
      status := NoProblem;
      subscribers := map[];
      log := [];
      problems := [];
      new;
      RenderNoProblems();
    }

    /** subscribe: the callback is appended to the metric's list and called at once with
        the current value if the metric has one. */
    method Subscribe(m: Metric, id: SubscriberId)
      requires Valid()
      modifies this
      ensures store == old(store) && keys == old(keys) && status == old(status)
      ensures dependedBy == old(dependedBy) && problems == old(problems)
      ensures Valid()
      ensures subscribers == old(subscribers)[m := Subscribers(old(EnvOf()), m) + [id]]
      ensures log == old(log) + (if m in store then [Notification(id, m, ForSubscriber(m, store[m]))] else [])
    {
      subscribers := subscribers[m := Subscribers(EnvOf(), m) + [id]];
      if m in store {
        log := log + [Notification(id, m, ForSubscriber(m, store[m]))];
      }
    }

    /** The remover returned by subscribe: the first occurrence of the callback leaves
        the metric's list. A callback that is not subscribed (list.remove raises) is
        reported by a false result and changes nothing. */
    method Unsubscribe(m: Metric, id: SubscriberId) returns (removed: bool)
      requires Valid()
      modifies this
      ensures store == old(store) && keys == old(keys) && status == old(status) && log == old(log)
      ensures dependedBy == old(dependedBy) && problems == old(problems)
      ensures Valid()
      ensures removed <==> id in Subscribers(old(EnvOf()), m)
      ensures subscribers == if removed then old(subscribers)[m := RemoveFirst(old(subscribers)[m], id)]
                             else old(subscribers)
    {
      if m !in subscribers {
        return false;
      }
      var subs := subscribers[m];
      var i := 0;
      while i < |subs| && subs[i] != id
        invariant 0 <= i <= |subs|
        invariant id !in subs[..i]
      {
        assert subs[..i + 1] == subs[..i] + [subs[i]];
        i := i + 1;
      }
      if i == |subs| {
        assert subs[..i] == subs;
        return false;
      }
      RemoveFirstAt(subs, id, i);
      subscribers := subscribers[m := subs[..i] + subs[i + 1..]];
      removed := true;
    }

    /** The expiry of one entry of the time-limited store: the entry leaves the store
        and the key order; the status field is kept. */
    method Evict(m: Metric)
      requires Valid()
      modifies this
      ensures status == old(status) && log == old(log) && subscribers == old(subscribers)
      ensures dependedBy == old(dependedBy) && problems == old(problems)
      ensures Valid()
      ensures store == old(store) - {m} && keys == Without(old(keys), m)
    {
      FieldsOkWithout(cfg, store, keys, status, m);
      store, keys := store - {m}, Without(keys, m);
    }

    /** _update_available_metric: the new state and the result are those of Write. */
    method UpdateAvailableMetric(m: Metric, v: Value) returns (updated: bool)
      requires Core() && Admissible(cfg, m, v)
      modifies this
      ensures subscribers == old(subscribers) && dependedBy == old(dependedBy) && problems == old(problems)
      ensures Core()
      ensures (StateOf(), updated) == Write(EnvOf(), old(StateOf()), m, v)
      decreases |Table| - Index(m), 2
    {
      if m in store && store[m] == v {
        return false;
      }
      StoreValue(m, v);
      DependedByLater(m);
      RecomputeDependents(m, dependedBy[m]);
      updated := true;
    }

    /** Lines 457-473: the age is stored if absent, then the value; a status write sets
        the status field; the subscribers are called. */
    method StoreValue(m: Metric, v: Value)
      requires StateOk(cfg, StateOf()) && Admissible(cfg, m, v)
      modifies this
      ensures subscribers == old(subscribers) && dependedBy == old(dependedBy) && problems == old(problems)
      ensures StateOf() == Store(EnvOf(), old(StateOf()), m, v)
    {
      var calls := CallSubscribers(Subscribers(EnvOf(), m), m, ForSubscriber(m, v));
      assert subscribers == old(subscribers) && dependedBy == old(dependedBy) && problems == old(problems);
      assert StateOf() == old(StateOf()) && EnvOf() == old(EnvOf());
      var available, order := store, keys;
      if Age !in available {
        available := available[Age := Num(cfg.age as real)];
        order := order + [Age];
      }
      available := available[m := v];
      order := Relink(order, m);
      StoreFields(EnvOf(), StateOf(), m, v, available, order);
      store, keys, status, log := available, order, (if m == Status then v.s else status), log + calls;
    }

    /** The loop of lines 477-482 (and 491-501) over the dependents ds of `from`. */
    method RecomputeDependents(from: Metric, ds: seq<Metric>)
      requires Core() && forall d :: d in ds ==> Index(from) < Index(d)
      modifies this
      ensures subscribers == old(subscribers) && dependedBy == old(dependedBy) && problems == old(problems)
      ensures Core()
      ensures StateOf() == Recompute(EnvOf(), old(StateOf()), from, ds)
      decreases |Table| - Index(from), 1
    {
      var i := 0;
      while i < |ds|
        invariant 0 <= i <= |ds|
        invariant Core()
        invariant subscribers == old(subscribers) && dependedBy == old(dependedBy) && problems == old(problems)
        invariant Recompute(EnvOf(), StateOf(), from, ds[i..]) == Recompute(EnvOf(), old(StateOf()), from, ds)
      {
        assert ds[i..] == [ds[i]] + ds[i + 1..];
        RecalculateDependent(ds[i]);
        i := i + 1;
      }
    }

    /** One pass of that loop: d is recomputed if all its dependencies are available
        and its formula gives a value. */
    method RecalculateDependent(d: Metric)
      requires Core()
      modifies this
      ensures subscribers == old(subscribers) && dependedBy == old(dependedBy) && problems == old(problems)
      ensures Core()
      ensures StateOf() == Recalculate(EnvOf(), old(StateOf()), d)
      decreases |Table| - Index(d), 3
    {
      if DepsIn(store, d) {
        var value := Calculate(cfg, store, d);
        if value.Some? {
          var _ := UpdateAvailableMetric(d, value.value);
        }
      }
    }

    /** _trigger_dependent_recalculation: the dependents of every metric stored at the
        start, in insertion order. */
    method TriggerDependentRecalculation()
      requires Core()
      modifies this
      ensures subscribers == old(subscribers) && dependedBy == old(dependedBy) && problems == old(problems)
      ensures Core()
      ensures StateOf() == Trigger(EnvOf(), old(StateOf()))
    {
      var updatedMetrics := keys;
      var i := 0;
      while i < |updatedMetrics|
        invariant 0 <= i <= |updatedMetrics|
        invariant Core()
        invariant subscribers == old(subscribers) && dependedBy == old(dependedBy) && problems == old(problems)
        invariant RecalculateKeys(EnvOf(), StateOf(), updatedMetrics[i..]) == Trigger(EnvOf(), old(StateOf()))
      {
        var metric := updatedMetrics[i];
        assert updatedMetrics[i..] == [metric] + updatedMetrics[i + 1..];
        DependedByLater(metric);
        RecomputeDependents(metric, dependedBy[metric]);
        i := i + 1;
      }
    }

    /** The status write shared by both operations: the new status renders the new
        problem tokens. */
    method WriteStatus(newStatus: string, ghost newProblems: seq<string>)
      requires Core() && Tokens(newProblems) && newStatus == Render(newProblems)
      modifies this
      ensures subscribers == old(subscribers) && dependedBy == old(dependedBy)
      ensures Valid()
      ensures StateOf() == Write(EnvOf(), old(StateOf()), Status, Str(newStatus)).0
      ensures problems == newProblems
    {
      ghost var h0 := StateOf();
      var _ := UpdateAvailableMetric(Status, Str(newStatus));
      StatusWriteSets(EnvOf(), h0, newStatus);
      assert Core() && status == newStatus;
      problems := newProblems;
    }

    /** _remove_sensor_problem: the sensor's tokens leave the status and the problems. */
    method RemoveSensorProblem(sensor: Ingest.Sensor)
      requires Valid()
      modifies this
      ensures subscribers == old(subscribers) && dependedBy == old(dependedBy)
      ensures Valid()
      ensures StateOf() == Ingest.RemoveSensorProblem(EnvOf(), old(StateOf()), sensor)
      ensures problems == DropSensor(old(problems), Ingest.Key(sensor))
    {
      var key := Ingest.Key(sensor);
      var newStatus := StatusWithout(status, key);
      RemoveRender(problems, key);
      WriteStatus(newStatus, DropSensor(problems, key));
    }

    /** _add_sensor_problem: for an entity of a configured sensor, the token key_error
        joins the status and the problems; otherwise nothing happens. */
    method AddSensorProblem(entity: string, errorType: string)
      requires Valid() && errorType in Kinds
      modifies this
      ensures subscribers == old(subscribers) && dependedBy == old(dependedBy)
      ensures Valid()
      ensures StateOf() == Ingest.AddSensorProblem(EnvOf(), host, old(StateOf()), entity, errorType)
    {
      var sensor := Ingest.SensorOf(host, entity);
      if sensor.Some? {
        var problemString := Ingest.Key(sensor.value) + "_" + errorType;
        var newStatus := StatusWith(status, problemString);
        ProblemIsToken(Ingest.Key(sensor.value), errorType);
        AddRender(problems, problemString);
        WriteStatus(newStatus, problems + [problemString]);
      }
    }

    /** _process_weight and _process_impedance: the result pair and the new state are
        those of ProcessNumeric. */
    method ProcessNumeric(sensor: Ingest.Sensor, reading: Ingest.Reading) returns (updated: bool, problem: Option<string>)
      requires Valid() && sensor != Ingest.LastTimeSensor
      modifies this
      ensures subscribers == old(subscribers) && dependedBy == old(dependedBy)
      ensures Valid()
      ensures Ingest.Outcome(StateOf(), updated, problem) == Ingest.ProcessNumeric(EnvOf(), host, old(StateOf()), sensor, reading)
    {
      if reading.state == Ingest.Unavailable {
        RemoveSensorProblem(sensor);
        return false, Some("unavailable");
      }
      var parsed := host.parseFloat(reading.state);
      if parsed.None? {
        RemoveSensorProblem(sensor);
        return false, Some("invalid_format");
      }
      var x := parsed.value;
      var lo, hi := Some(Ingest.MinOf(sensor)), Some(Ingest.MaxOf(sensor));
      if !Ingest.IsValid(host, sensor, Ingest.RawNum(x), lo, hi) {
        return false, Some(Ingest.Categorize(x, lo, hi));
      }
      var value := Ingest.Converted(sensor, reading, x);
      Ingest.ConvertedAdmissible(cfg, sensor, reading, x);
      ghost var h0 := StateOf();
      updated := UpdateAvailableMetric(Ingest.MetricOf(sensor), Num(value));
      WriteFrame(EnvOf(), h0, Ingest.MetricOf(sensor), Num(value));
      if updated {
        RemoveSensorProblem(sensor);
      }
      problem := None;
    }

    /** _process_last_measurement_time: the problem and the new state are those of
        ProcessLastMeasurementTime. */
    method ProcessLastMeasurementTime(reading: Ingest.Reading) returns (problem: Option<string>)
      requires Valid()
      modifies this
      ensures subscribers == old(subscribers) && dependedBy == old(dependedBy)
      ensures Valid()
      ensures Ingest.Outcome(StateOf(), false, problem) == Ingest.ProcessLastMeasurementTime(EnvOf(), host, old(StateOf()), reading)
    {
      if reading.state == Ingest.Unavailable {
        RemoveSensorProblem(Ingest.LastTimeSensor);
        return Some("unavailable");
      }
      if !Ingest.IsValid(host, Ingest.LastTimeSensor, Ingest.RawText(reading.state), None, None) {
        RemoveSensorProblem(Ingest.LastTimeSensor);
        return Some("invalid");
      }
      var t := host.parseTime(reading.state).value;
      ghost var h0 := StateOf();
      var _ := UpdateAvailableMetric(LastMeasurementTime, Time(t));
      WriteFrame(EnvOf(), h0, LastMeasurementTime, Time(t));
      RemoveSensorProblem(Ingest.LastTimeSensor);
      ghost var h2 := StateOf();
      TriggerDependentRecalculation();
      TriggerFrame(EnvOf(), h2);
      problem := None;
    }

    /** _state_changed: the new state is the one StateChanged computes. */
    method StateChanged(entity: Option<string>, newState: Option<Ingest.Reading>)
      requires Valid()
      modifies this
      ensures subscribers == old(subscribers) && dependedBy == old(dependedBy)
      ensures Valid()
      ensures StateOf() == Ingest.StateChanged(EnvOf(), host, old(StateOf()), entity, newState)
    {
      if entity.None? || newState.None? || newState.value.state == Ingest.Unknown {
        return;
      }
      var entityId := entity.value;
      var reading := newState.value;
      var problem: Option<string> := None;
      var updated := false;
      var sensor := Ingest.SensorOf(host, entityId);
      if sensor.Some? {
        if sensor.value == Ingest.LastTimeSensor {
          problem := ProcessLastMeasurementTime(reading);
        } else {
          updated, problem := ProcessNumeric(sensor.value, reading);
        }
      }
      ghost var h1 := StateOf();
      if problem.Some? {
        AddSensorProblem(entityId, problem.value);
      }
      if updated {
        ghost var h2 := StateOf();
        TriggerDependentRecalculation();
        TriggerFrame(EnvOf(), h2);
      }
    }
  }
}
