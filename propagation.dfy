/** The write-and-propagate step of BodyScaleMetricsHandler (metrics/__init__.py)
    as functions on the handler's state: a write of a metric value, the wave of
    recomputations it starts, and the full recalculation pass. The class in
    handler.dfy is proved to follow these functions step by step. */
module Propagation {
  import opened Util
  import opened Metrics

  /** A subscriber callback, identified by an opaque number. */
  type SubscriberId = nat

  /** One call of a subscriber callback with a value. */
  datatype Notification = Notification(subscriber: SubscriberId, metric: Metric, value: Value)

  /** What a write reads but does not change: the user data and the subscriber lists. */
  datatype Env = Env(cfg: Config, subscribers: map<Metric, seq<SubscriberId>>)

  /** What a write changes: the available metrics, their insertion order (which the
      recalculation pass iterates), the status field and the calls made so far. */
  datatype State = State(store: map<Metric, Value>, keys: seq<Metric>, status: string, log: seq<Notification>)

  predicate Distinct<T(==)>(s: seq<T>)
  {
    forall i, j :: 0 <= i < j < |s| ==> s[i] != s[j]
  }

  /** keys lists the stored metrics, each once. */
  predicate KeysOk(store: map<Metric, Value>, keys: seq<Metric>)
  {
    (forall m :: m in store <==> m in keys) && Distinct(keys)
  }

  /** The metrics in keys other than m, in their order: the key order once m expires. */
  function Without(keys: seq<Metric>, m: Metric): (r: seq<Metric>)
    ensures forall k :: k in r <==> k in keys && k != m
  {
    if keys == [] then []
    else (if keys[0] == m then [] else [keys[0]]) + Without(keys[1..], m)
  }

  lemma {:induction false} WithoutDistinct(keys: seq<Metric>, m: Metric)
    requires Distinct(keys)
    ensures Distinct(Without(keys, m))
  {
    if keys != [] {
      WithoutDistinct(keys[1..], m);
      var rest := Without(keys[1..], m);
      if keys[0] != m {
        assert keys[0] !in keys[1..];
        assert keys[0] !in rest;
        assert Without(keys, m) == [keys[0]] + rest;
        forall i, j | 0 <= i < j < |[keys[0]] + rest|
          ensures ([keys[0]] + rest)[i] != ([keys[0]] + rest)[j]
        {
          if i == 0 {
            assert ([keys[0]] + rest)[j] == rest[j - 1];
            assert rest[j - 1] in rest;
          }
        }
      }
    }
  }

  lemma {:induction false} WithoutConcat(a: seq<Metric>, b: seq<Metric>, m: Metric)
    ensures Without(a + b, m) == Without(a, m) + Without(b, m)
  {
    if a != [] {
      assert (a + b)[0] == a[0] && (a + b)[1..] == a[1..] + b;
      WithoutConcat(a[1..], b, m);
    } else {
      assert a + b == b;
    }
  }

  lemma {:induction false} WithoutTwice(keys: seq<Metric>, m: Metric)
    ensures Without(Without(keys, m), m) == Without(keys, m)
  {
    if keys != [] {
      var head := if keys[0] == m then [] else [keys[0]];
      WithoutConcat(head, Without(keys[1..], m), m);
      WithoutTwice(keys[1..], m);
      assert Without(head, m) == head;
    }
  }

  lemma DistinctAppend(s: seq<Metric>, m: Metric)
    requires Distinct(s) && m !in s
    ensures Distinct(s + [m])
  {
    forall i, j | 0 <= i < j < |s + [m]|
      ensures (s + [m])[i] != (s + [m])[j]
    {
      if j == |s| {
        assert (s + [m])[i] == s[i] && s[i] in s;
      } else {
        assert (s + [m])[i] == s[i] && (s + [m])[j] == s[j];
      }
    }
  }

  /** Setting key m of the time-limited cache: m is linked at the end of the iteration
      order, whether or not it was present, and the other keys keep their order. */
  function Relink(keys: seq<Metric>, m: Metric): (r: seq<Metric>)
    ensures forall k :: k in r <==> k in keys || k == m
    ensures |r| > 0 && r[|r| - 1] == m
    ensures Distinct(keys) ==> Distinct(r)
  {
    if Distinct(keys) then
      WithoutDistinct(keys, m);
      DistinctAppend(Without(keys, m), m);
      Without(keys, m) + [m]
    else
      Without(keys, m) + [m]
  }

  /** Relinking m leaves the order of the other keys as it was. */
  lemma RelinkKeepsOrder(keys: seq<Metric>, m: Metric)
    ensures Without(Relink(keys, m), m) == Without(keys, m)
  {
    WithoutConcat(Without(keys, m), [m], m);
    WithoutTwice(keys, m);
    assert Without([m], m) == [];
  }

  /** The invariant of the handler state: the configuration is valid, every stored
      value is admissible, the key order lists the store, and a stored status is the
      status field. */
  predicate StateOk(cfg: Config, h: State)
  {
    FieldsOk(cfg, h.store, h.keys, h.status)
  }

  /** The same invariant on the fields themselves (the calls made so far play no
      part in it). */
  predicate FieldsOk(cfg: Config, store: map<Metric, Value>, keys: seq<Metric>, status: string)
  {
    && ValidConfig(cfg)
    && StoreOk(cfg, store)
    && KeysOk(store, keys)
    && (Status in store ==> store[Status] == Str(status))
  }

  /** Removing one metric from the store and the key order keeps the invariant. */
  lemma FieldsOkWithout(cfg: Config, store: map<Metric, Value>, keys: seq<Metric>, status: string, m: Metric)
    requires FieldsOk(cfg, store, keys, status)
    ensures FieldsOk(cfg, store - {m}, Without(keys, m), status)
  {
    WithoutDistinct(keys, m);
  }

  /** _subscribers.get(metric, []). */
  function Subscribers(env: Env, m: Metric): seq<SubscriberId>
  {
    if m in env.subscribers then env.subscribers[m] else []
  }

  /** One call per subscriber, in list order, all with the same value. */
  function Notify(subs: seq<SubscriberId>, m: Metric, v: Value): (r: seq<Notification>)
    ensures |r| == |subs|
    ensures forall i :: 0 <= i < |subs| ==> r[i] == Notification(subs[i], m, v)
  {
    if subs == [] then [] else [Notification(subs[0], m, v)] + Notify(subs[1..], m, v)
  }

  /** Lines 457-473 of a write that is not skipped: the age is stored if it is absent,
      the value is stored, the status field follows a status write, and every
      subscriber of the metric is called with the value rounded for subscribers. */
  function Store(env: Env, h: State, m: Metric, v: Value): (r: State)
    requires StateOk(env.cfg, h) && Admissible(env.cfg, m, v)
    ensures StateOk(env.cfg, r)
  {
    var store1 := if Age in h.store then h.store else h.store[Age := Num(env.cfg.age as real)];
    var keys1 := if Age in h.store then h.keys else h.keys + [Age];
    var keys2 := Relink(keys1, m);
    var status := if m == Status then v.s else h.status;
    State(store1[m := v], keys2, status, h.log + Notify(Subscribers(env, m), m, ForSubscriber(m, v)))
  }

  /** Store, field by field, as the handler's method computes it. */
  lemma StoreFields(env: Env, h: State, m: Metric, v: Value, store: map<Metric, Value>, keys: seq<Metric>)
    requires StateOk(env.cfg, h) && Admissible(env.cfg, m, v)
    requires store == (if Age in h.store then h.store else h.store[Age := Num(env.cfg.age as real)])[m := v]
    requires keys == Relink(if Age in h.store then h.keys else h.keys + [Age], m)
    ensures Store(env, h, m, v)
            == State(store, keys, if m == Status then v.s else h.status, h.log + Notify(Subscribers(env, m), m, ForSubscriber(m, v)))
  {
  }

  /** _update_available_metric: the new state and whether anything was written. */
  function Write(env: Env, h: State, m: Metric, v: Value): (r: (State, bool))
    requires StateOk(env.cfg, h) && Admissible(env.cfg, m, v)
    ensures StateOk(env.cfg, r.0)
    decreases |Table| - Index(m), 2, 0
  {
    if m in h.store && h.store[m] == v then (h, false)
    else
      DependedByLater(m);
      (Recompute(env, Store(env, h, m, v), m, DependedBy(m)), true)
  }

  /** The loop body of lines 477-482 and 491-501 for one dependent d: recompute d if
      all its dependencies are available and its formula gives a value. */
  function Recalculate(env: Env, h: State, d: Metric): (r: State)
    requires StateOk(env.cfg, h)
    ensures StateOk(env.cfg, r)
    decreases |Table| - Index(d), 3, 0
  {
    if DepsIn(h.store, d) then
      var value := Calculate(env.cfg, h.store, d);
      if value.Some? then Write(env, h, d, value.value).0 else h
    else h
  }

  /** The loop of lines 477-482 over the dependents ds of `from`, in order. */
  function Recompute(env: Env, h: State, from: Metric, ds: seq<Metric>): (r: State)
    requires StateOk(env.cfg, h)
    requires forall d :: d in ds ==> Index(from) < Index(d)
    ensures StateOk(env.cfg, r)
    decreases |Table| - Index(from), 1, |ds|
  {
    if ds == [] then h
    else Recompute(env, Recalculate(env, h, ds[0]), from, ds[1..])
  }

  /** Lines 488-501 from the k-th metric of the snapshot on. */
  function RecalculateKeys(env: Env, h: State, ks: seq<Metric>): (r: State)
    requires StateOk(env.cfg, h)
    ensures StateOk(env.cfg, r)
    decreases |ks|
  {
    if ks == [] then h
    else
      DependedByLater(ks[0]);
      RecalculateKeys(env, Recompute(env, h, ks[0], DependedBy(ks[0])), ks[1..])
  }

  /** _trigger_dependent_recalculation: every stored metric, in insertion order, has its
      dependents recomputed. */
  function Trigger(env: Env, h: State): (r: State)
    requires StateOk(env.cfg, h)
    ensures StateOk(env.cfg, r)
  {
    RecalculateKeys(env, h, h.keys)
  }

  /** Nothing stored is removed and calls are only ever added. */
  predicate Grows(h: State, r: State)
  {
    && (forall k :: k in h.store ==> k in r.store)
    && h.log <= r.log
  }

  /** Every metric at or before table position bound, the age aside, keeps its
      presence and its value, and so does the status field. */
  predicate FixedUpTo(h: State, r: State, bound: int)
  {
    && (forall k :: Index(k) <= bound && k != Age ==> (k in h.store <==> k in r.store))
    && (forall k :: Index(k) <= bound && k != Age && k in h.store ==> r.store[k] == h.store[k])
  }

  lemma GrowsTransitive(a: State, b: State, c: State)
    requires Grows(a, b) && Grows(b, c)
    ensures Grows(a, c)
  {
  }

  lemma FixedTransitive(a: State, b: State, c: State, bound1: int, bound2: int, bound: int)
    requires FixedUpTo(a, b, bound1) && FixedUpTo(b, c, bound2) && bound <= bound1 && bound <= bound2
    ensures FixedUpTo(a, c, bound)
  {
  }

  /** The storing part of a write: it adds the age and the value, appends the calls,
      and changes no other metric. */
  lemma StoreFrame(env: Env, h: State, m: Metric, v: Value)
    requires StateOk(env.cfg, h) && Admissible(env.cfg, m, v)
    ensures Grows(h, Store(env, h, m, v))
    ensures FixedUpTo(h, Store(env, h, m, v), Index(m) - 1)
    ensures StoreSets(env, h, m, v)
    ensures StoreOrder(env, h, m, v)
  {
    StoreGrows(env, h, m, v);
    StoreFixed(env, h, m, v);
    StoreSetsValue(env, h, m, v);
    StoreOrders(env, h, m, v);
  }

  lemma StoreGrows(env: Env, h: State, m: Metric, v: Value)
    requires StateOk(env.cfg, h) && Admissible(env.cfg, m, v)
    ensures Grows(h, Store(env, h, m, v))
  {
    var r := Store(env, h, m, v);
    assert h.log <= r.log;
  }

  lemma StoreFixed(env: Env, h: State, m: Metric, v: Value)
    requires StateOk(env.cfg, h) && Admissible(env.cfg, m, v)
    ensures FixedUpTo(h, Store(env, h, m, v), Index(m) - 1)
  {
  }

  lemma StoreSetsValue(env: Env, h: State, m: Metric, v: Value)
    requires StateOk(env.cfg, h) && Admissible(env.cfg, m, v)
    ensures StoreSets(env, h, m, v)
  {
  }

  /** The calls of the storing part all concern m. */
  lemma StoreCallsAbove(env: Env, h: State, m: Metric, v: Value)
    requires StateOk(env.cfg, h) && Admissible(env.cfg, m, v)
    ensures CallsAbove(Store(env, h, m, v).log, |h.log|, Index(m) - 1)
  {
    var r := Store(env, h, m, v);
    var calls := Notify(Subscribers(env, m), m, ForSubscriber(m, v));
    assert r.log == h.log + calls;
    forall i | 0 <= |h.log| <= i < |r.log|
      ensures Index(r.log[i].metric) > Index(m) - 1
    {
      assert r.log[i] == calls[i - |h.log|];
    }
  }

  predicate StoreSets(env: Env, h: State, m: Metric, v: Value)
    requires StateOk(env.cfg, h) && Admissible(env.cfg, m, v)
  {
    var r := Store(env, h, m, v);
    && m in r.store && r.store[m] == v && Age in r.store
    && r.status == (if m == Status then v.s else h.status)
    && r.log == h.log + Notify(Subscribers(env, m), m, ForSubscriber(m, v))
  }
  /** The key order after a store: m comes last (set again, it is relinked at the end),
      and the other keys, with the age appended if it was absent, keep their order. */
  predicate StoreOrder(env: Env, h: State, m: Metric, v: Value)
    requires StateOk(env.cfg, h) && Admissible(env.cfg, m, v)
  {
    var r := Store(env, h, m, v);
    && |r.keys| > 0 && r.keys[|r.keys| - 1] == m
    && Without(r.keys, m) == Without(if Age in h.store then h.keys else h.keys + [Age], m)
  }

  lemma StoreOrders(env: Env, h: State, m: Metric, v: Value)
    requires StateOk(env.cfg, h) && Admissible(env.cfg, m, v)
    ensures StoreOrder(env, h, m, v)
  {
    RelinkKeepsOrder(if Age in h.store then h.keys else h.keys + [Age], m);
  }


  /** A write only adds, leaves every earlier metric alone, stores the value, and
      sets the status field exactly when the status is written. */
  lemma {:induction false} WriteFrame(env: Env, h: State, m: Metric, v: Value)
    requires StateOk(env.cfg, h) && Admissible(env.cfg, m, v)
    ensures var r := Write(env, h, m, v);
            && Grows(h, r.0)
            && FixedUpTo(h, r.0, Index(m) - 1)
            && m in r.0.store && r.0.store[m] == v
            && (r.1 ==> Age in r.0.store)
            && r.0.status == (if m == Status then v.s else h.status)
    decreases |Table| - Index(m), 2, 1
  {
    if !(m in h.store && h.store[m] == v) {
      WriteStoredFrame(env, h, m, v);
    }
  }

  /** WriteFrame for a write that is not skipped: the store, then the wave. */
  lemma {:induction false} WriteStoredFrame(env: Env, h: State, m: Metric, v: Value)
    requires StateOk(env.cfg, h) && Admissible(env.cfg, m, v)
    requires !(m in h.store && h.store[m] == v)
    ensures var r := Write(env, h, m, v);
            && Grows(h, r.0)
            && FixedUpTo(h, r.0, Index(m) - 1)
            && m in r.0.store && r.0.store[m] == v
            && Age in r.0.store
            && r.0.status == (if m == Status then v.s else h.status)
    decreases |Table| - Index(m), 2, 0
  {
    DependedByLater(m);
    var h1 := Store(env, h, m, v);
    StoreGrows(env, h, m, v);
    StoreFixed(env, h, m, v);
    StoreSetsValue(env, h, m, v);
    var r := Recompute(env, h1, m, DependedBy(m));
    assert Write(env, h, m, v).0 == r;
    RecomputeFrame(env, h1, m, DependedBy(m));
    GrowsTransitive(h, h1, r);
    FixedTransitive(h, h1, r, Index(m) - 1, Index(m), Index(m) - 1);
  }

  lemma {:induction false} RecalculateFrame(env: Env, h: State, d: Metric)
    requires StateOk(env.cfg, h)
    ensures var r := Recalculate(env, h, d);
            Grows(h, r) && FixedUpTo(h, r, Index(d) - 1) && r.status == h.status
            && (Age in h.store ==> Age in r.store)
    decreases |Table| - Index(d), 3, 0
  {
    if DepsIn(h.store, d) {
      var value := Calculate(env.cfg, h.store, d);
      if value.Some? {
        WriteFrame(env, h, d, value.value);
      }
    }
  }

  /** A wave from `from` changes nothing at or before `from` (the age aside). */
  lemma {:induction false} RecomputeFrame(env: Env, h: State, from: Metric, ds: seq<Metric>)
    requires StateOk(env.cfg, h)
    requires forall d :: d in ds ==> Index(from) < Index(d)
    ensures var r := Recompute(env, h, from, ds);
            Grows(h, r) && FixedUpTo(h, r, Index(from)) && r.status == h.status
            && (Age in h.store ==> Age in r.store)
    decreases |Table| - Index(from), 1, |ds|
  {
    if ds != [] {
      var h1 := Recalculate(env, h, ds[0]);
      RecalculateFrame(env, h, ds[0]);
      RecomputeFrame(env, h1, from, ds[1..]);
    }
  }

  /** A write of the value already stored changes nothing and reports no update; any
      other write reports one. */
  lemma WriteSkipsEqual(env: Env, h: State, m: Metric, v: Value)
    requires StateOk(env.cfg, h) && Admissible(env.cfg, m, v)
    ensures Write(env, h, m, v).1 <==> !(m in h.store && h.store[m] == v)
    ensures !Write(env, h, m, v).1 ==> Write(env, h, m, v).0 == h
  {
  }

  /** Every call made after position `from` of the log concerns a metric past table
      position bound. */
  predicate CallsAbove(log: seq<Notification>, from: int, bound: int)
  {
    forall i :: 0 <= from <= i < |log| ==> Index(log[i].metric) > bound
  }

  lemma CallsAboveCombine(mid: seq<Notification>, r: seq<Notification>, from: int, bound1: int, bound2: int, bound: int)
    requires 0 <= from <= |mid| && mid <= r
    requires CallsAbove(mid, from, bound1) && CallsAbove(r, |mid|, bound2)
    requires bound <= bound1 && bound <= bound2
    ensures CallsAbove(r, from, bound)
  {
  }

  /** An effective write calls each subscriber of m exactly once, first, with the
      rounded value; every later call in the same write concerns a later metric, so
      no subscriber of m is called again. */
  lemma {:induction false} WriteNotifies(env: Env, h: State, m: Metric, v: Value)
    requires StateOk(env.cfg, h) && Admissible(env.cfg, m, v)
    requires Write(env, h, m, v).1
    ensures var r := Write(env, h, m, v).0;
            var calls := Notify(Subscribers(env, m), m, ForSubscriber(m, v));
            && h.log + calls <= r.log
            && CallsAbove(r.log, |h.log| + |calls|, Index(m))
  {
    DependedByLater(m);
    var h1 := Store(env, h, m, v);
    RecomputeCallsAbove(env, h1, m, DependedBy(m));
    RecomputeFrame(env, h1, m, DependedBy(m));
  }

  lemma {:induction false} RecalculateCallsAbove(env: Env, h: State, d: Metric)
    requires StateOk(env.cfg, h)
    ensures CallsAbove(Recalculate(env, h, d).log, |h.log|, Index(d) - 1)
    decreases |Table| - Index(d), 3, 0
  {
    if DepsIn(h.store, d) {
      var value := Calculate(env.cfg, h.store, d);
      if value.Some? && Write(env, h, d, value.value).1 {
        WriteCallsAbove(env, h, d, value.value);
      }
    }
  }

  lemma {:induction false} WriteCallsAbove(env: Env, h: State, m: Metric, v: Value)
    requires StateOk(env.cfg, h) && Admissible(env.cfg, m, v)
    ensures CallsAbove(Write(env, h, m, v).0.log, |h.log|, Index(m) - 1)
    decreases |Table| - Index(m), 2, 1
  {
    if !(m in h.store && h.store[m] == v) {
      WriteStoredCallsAbove(env, h, m, v);
    }
  }

  lemma {:induction false} WriteStoredCallsAbove(env: Env, h: State, m: Metric, v: Value)
    requires StateOk(env.cfg, h) && Admissible(env.cfg, m, v)
    requires !(m in h.store && h.store[m] == v)
    ensures CallsAbove(Write(env, h, m, v).0.log, |h.log|, Index(m) - 1)
    decreases |Table| - Index(m), 2, 0
  {
    DependedByLater(m);
    var h1 := Store(env, h, m, v);
    var r := Recompute(env, h1, m, DependedBy(m));
    assert Write(env, h, m, v).0 == r;
    StoreCallsAbove(env, h, m, v);
    StoreGrows(env, h, m, v);
    RecomputeCallsAbove(env, h1, m, DependedBy(m));
    RecomputeFrame(env, h1, m, DependedBy(m));
    CallsAboveCombine(h1.log, r.log, |h.log|, Index(m) - 1, Index(m), Index(m) - 1);
  }

  /** A wave from `from` only calls subscribers of later metrics. */
  lemma {:induction false} RecomputeCallsAbove(env: Env, h: State, from: Metric, ds: seq<Metric>)
    requires StateOk(env.cfg, h)
    requires forall d :: d in ds ==> Index(from) < Index(d)
    ensures CallsAbove(Recompute(env, h, from, ds).log, |h.log|, Index(from))
    decreases |Table| - Index(from), 1, |ds|
  {
    if ds != [] {
      var h1 := Recalculate(env, h, ds[0]);
      var r := Recompute(env, h1, from, ds[1..]);
      assert Recompute(env, h, from, ds) == r;
      RecalculateCallsAbove(env, h, ds[0]);
      RecalculateFrame(env, h, ds[0]);
      RecomputeCallsAbove(env, h1, from, ds[1..]);
      RecomputeFrame(env, h1, from, ds[1..]);
      CallsAboveCombine(h1.log, r.log, |h.log|, Index(ds[0]) - 1, Index(from), Index(from));
    }
  }

  /** A derived metric whose dependencies are all available but which is not. */
  predicate Open(store: map<Metric, Value>, d: Metric)
  {
    Derived(d) && DepsIn(store, d) && d !in store
  }

  /** Once the age is available, a write leaves no metric open that was not open
      before: each dependent it makes computable is computed by its wave. */
  lemma {:induction false} WriteKeepsClosed(env: Env, h: State, m: Metric, v: Value)
    requires StateOk(env.cfg, h) && Admissible(env.cfg, m, v) && Age in h.store
    ensures forall d :: Open(Write(env, h, m, v).0.store, d) ==> Open(h.store, d)
    decreases |Table| - Index(m), 2, 0
  {
    if !(m in h.store && h.store[m] == v) {
      DependedByLater(m);
      var h1 := Store(env, h, m, v);
      RecomputeKeepsClosed(env, h1, m, DependedBy(m));
      forall d | Open(h1.store, d) && d !in DependedBy(m)
        ensures Open(h.store, d)
      {
        DependedByIff(m, d);
      }
    }
  }

  lemma {:induction false} RecalculateKeepsClosed(env: Env, h: State, d: Metric)
    requires StateOk(env.cfg, h) && Age in h.store
    ensures forall e :: Open(Recalculate(env, h, d).store, e) ==> Open(h.store, e)
    ensures !Open(Recalculate(env, h, d).store, d)
    decreases |Table| - Index(d), 3, 0
  {
    if DepsIn(h.store, d) {
      var value := Calculate(env.cfg, h.store, d);
      if value.Some? {
        WriteKeepsClosed(env, h, d, value.value);
        WriteFrame(env, h, d, value.value);
      }
    }
  }

  /** A wave leaves no metric open that was not open before, and none of the
      dependents it visits. */
  lemma {:induction false} RecomputeKeepsClosed(env: Env, h: State, from: Metric, ds: seq<Metric>)
    requires StateOk(env.cfg, h) && Age in h.store
    requires forall d :: d in ds ==> Index(from) < Index(d)
    ensures forall e :: Open(Recompute(env, h, from, ds).store, e) ==> Open(h.store, e)
    ensures forall d :: d in ds ==> !Open(Recompute(env, h, from, ds).store, d)
    decreases |Table| - Index(from), 1, |ds|
  {
    if ds != [] {
      var h1 := Recalculate(env, h, ds[0]);
      RecalculateKeepsClosed(env, h, ds[0]);
      RecalculateFrame(env, h, ds[0]);
      RecomputeKeepsClosed(env, h1, from, ds[1..]);
      RecomputeFrame(env, h1, from, ds[1..]);
    }
  }

  lemma {:induction false} RecalculateKeysKeepsClosed(env: Env, h: State, ks: seq<Metric>)
    requires StateOk(env.cfg, h) && Age in h.store
    ensures forall e :: Open(RecalculateKeys(env, h, ks).store, e) ==> Open(h.store, e)
    ensures forall k, d :: k in ks && d in DependedBy(k) ==> !Open(RecalculateKeys(env, h, ks).store, d)
    decreases |ks|
  {
    if ks != [] {
      DependedByLater(ks[0]);
      var h1 := Recompute(env, h, ks[0], DependedBy(ks[0]));
      var r := RecalculateKeys(env, h1, ks[1..]);
      assert RecalculateKeys(env, h, ks) == r;
      RecomputeKeepsClosed(env, h, ks[0], DependedBy(ks[0]));
      RecomputeFrame(env, h, ks[0], DependedBy(ks[0]));
      RecalculateKeysKeepsClosed(env, h1, ks[1..]);
      forall k, d | k in ks && d in DependedBy(k)
        ensures !Open(r.store, d)
      {
        if k != ks[0] {
          assert k in ks[1..];
        }
      }
    }
  }

  /** After the recalculation pass, every derived metric whose dependencies are all
      available is available too, provided the age was available when it began. */
  lemma TriggerCloses(env: Env, h: State)
    requires StateOk(env.cfg, h) && Age in h.store
    ensures forall d :: !Open(Trigger(env, h).store, d)
  {
    var r := Trigger(env, h);
    RecalculateKeysKeepsClosed(env, h, h.keys);
    forall d | Open(r.store, d)
      ensures false
    {
      var e := DependsOn(d)[0];
      assert e in DependsOn(d);
      DependedByIff(e, d);
    }
  }

  /** No metric depends on the status, so a status write starts no wave: it stores the
      status (and the age if absent), calls the status subscribers, and nothing else. */
  lemma StatusWrite(env: Env, h: State, s: string)
    requires StateOk(env.cfg, h)
    ensures var r := Write(env, h, Status, Str(s));
            && r.0.status == s
            && (forall k :: k != Status && k != Age ==> (k in r.0.store <==> k in h.store))
            && (forall k :: k != Status && k != Age && k in h.store ==> r.0.store[k] == h.store[k])
            && (Age in h.store ==> Age in r.0.store)
            && r.0.log == h.log + (if r.1 then Notify(Subscribers(env, Status), Status, Str(s)) else [])
  {
    StatusWriteIsStore(env, h, s);
    if !(Status in h.store && h.store[Status] == Str(s)) {
      StoreSetsValue(env, h, Status, Str(s));
      StoreOnly(env, h, Status, Str(s));
    }
  }

  /** The status field after a status write is the written status. */
  lemma StatusWriteSets(env: Env, h: State, s: string)
    requires StateOk(env.cfg, h)
    ensures Write(env, h, Status, Str(s)).0.status == s
  {
    StatusWrite(env, h, s);
  }

  lemma StatusWriteIsStore(env: Env, h: State, s: string)
    requires StateOk(env.cfg, h)
    ensures Write(env, h, Status, Str(s)) ==
            if Status in h.store && h.store[Status] == Str(s) then (h, false)
            else (Store(env, h, Status, Str(s)), true)
  {
    StatusHasNoDependents();
  }

  /** The storing part of a write changes no metric but m and the age. */
  lemma StoreOnly(env: Env, h: State, m: Metric, v: Value)
    requires StateOk(env.cfg, h) && Admissible(env.cfg, m, v)
    ensures forall k :: k != m && k != Age ==> (k in Store(env, h, m, v).store <==> k in h.store)
    ensures forall k :: k != m && k != Age && k in h.store ==> Store(env, h, m, v).store[k] == h.store[k]
  {
  }

  lemma StatusHasNoDependents()
    ensures DependedBy(Status) == []
  {
    var s := DependedBy(Status);
    if |s| > 0 {
      DependedByIff(Status, s[0]);
    }
  }

  /** Every metric that is not derived, the age aside, keeps its presence and value. */
  predicate RootsFixed(h: State, r: State)
  {
    && (forall k :: !Derived(k) && k != Age ==> (k in h.store <==> k in r.store))
    && (forall k :: !Derived(k) && k != Age && k in h.store ==> r.store[k] == h.store[k])
  }

  lemma RootsFixedTransitive(a: State, b: State, c: State)
    requires RootsFixed(a, b) && RootsFixed(b, c)
    ensures RootsFixed(a, c)
  {
  }

  /** Only derived metrics are ever recomputed. */
  lemma DependentsDerived(k: Metric)
    ensures forall d :: d in DependedBy(k) ==> Derived(d)
  {
    forall d | d in DependedBy(k)
      ensures Derived(d)
    {
      DependedByIff(k, d);
      assert k in DependsOn(d);
    }
  }

  /** A write of a derived metric, wave included, changes derived metrics and the age
      only. */
  lemma {:induction false} WriteRootsFixed(env: Env, h: State, m: Metric, v: Value)
    requires StateOk(env.cfg, h) && Admissible(env.cfg, m, v) && Derived(m)
    ensures RootsFixed(h, Write(env, h, m, v).0)
    decreases |Table| - Index(m), 2, 1
  {
    if !(m in h.store && h.store[m] == v) {
      WriteStoredRootsFixed(env, h, m, v);
    }
  }

  lemma {:induction false} WriteStoredRootsFixed(env: Env, h: State, m: Metric, v: Value)
    requires StateOk(env.cfg, h) && Admissible(env.cfg, m, v) && Derived(m)
    requires !(m in h.store && h.store[m] == v)
    ensures RootsFixed(h, Write(env, h, m, v).0)
    decreases |Table| - Index(m), 2, 0
  {
    DependedByLater(m);
    DependentsDerived(m);
    var h1 := Store(env, h, m, v);
    StoreOnly(env, h, m, v);
    var r := Recompute(env, h1, m, DependedBy(m));
    assert Write(env, h, m, v).0 == r;
    RecomputeRootsFixed(env, h1, m, DependedBy(m));
    RootsFixedTransitive(h, h1, r);
  }

  lemma {:induction false} RecalculateRootsFixed(env: Env, h: State, d: Metric)
    requires StateOk(env.cfg, h)
    ensures RootsFixed(h, Recalculate(env, h, d))
    decreases |Table| - Index(d), 3, 0
  {
    if DepsIn(h.store, d) {
      var value := Calculate(env.cfg, h.store, d);
      if value.Some? {
        WriteRootsFixed(env, h, d, value.value);
      }
    }
  }

  lemma {:induction false} RecomputeRootsFixed(env: Env, h: State, from: Metric, ds: seq<Metric>)
    requires StateOk(env.cfg, h)
    requires forall d :: d in ds ==> Index(from) < Index(d)
    ensures RootsFixed(h, Recompute(env, h, from, ds))
    decreases |Table| - Index(from), 1, |ds|
  {
    if ds != [] {
      var h1 := Recalculate(env, h, ds[0]);
      RecalculateRootsFixed(env, h, ds[0]);
      RecomputeRootsFixed(env, h1, from, ds[1..]);
      var r := Recompute(env, h, from, ds);
      assert Recompute(env, h1, from, ds[1..]) == r;
      RootsFixedTransitive(h, h1, r);
    }
  }

  lemma {:induction false} RecalculateKeysFrame(env: Env, h: State, ks: seq<Metric>)
    requires StateOk(env.cfg, h)
    ensures var r := RecalculateKeys(env, h, ks);
            Grows(h, r) && RootsFixed(h, r) && r.status == h.status
            && (Age in h.store ==> Age in r.store)
    decreases |ks|
  {
    if ks != [] {
      DependedByLater(ks[0]);
      var h1 := Recompute(env, h, ks[0], DependedBy(ks[0]));
      RecomputeFrame(env, h, ks[0], DependedBy(ks[0]));
      RecomputeRootsFixed(env, h, ks[0], DependedBy(ks[0]));
      RecalculateKeysFrame(env, h1, ks[1..]);
      var r := RecalculateKeys(env, h, ks);
      assert RecalculateKeys(env, h1, ks[1..]) == r;
      GrowsTransitive(h, h1, r);
      RootsFixedTransitive(h, h1, r);
    }
  }

  /** The recalculation pass adds values only: it keeps every stored metric, never
      touches the status or a metric that is not derived, and keeps the age. */
  lemma TriggerFrame(env: Env, h: State)
    requires StateOk(env.cfg, h)
    ensures var r := Trigger(env, h);
            Grows(h, r) && RootsFixed(h, r) && r.status == h.status
            && (Age in h.store ==> Age in r.store)
  {
    RecalculateKeysFrame(env, h, h.keys);
  }
}
