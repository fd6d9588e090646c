/** The measurement engine's arithmetic: the per-channel runtime record,
    the filtered read (first sample discarded, mean of the next ten, scaled
    to volts), and the update `takeMeasurements` makes from three filtered
    reads. The reads themselves live in `Tester.Bench`. */
module Measurement {
  import opened Config

  /** A raw count of the 10-bit ADC. */
  type Count = x: int | 0 <= x <= ADC_MAX

  /** Samples averaged by one filtered read, after the discarded one. */
  const FILTER_SAMPLES: nat := 10

  /** `BatteryData`: the last measurement of one channel. Capacity is in
      ampere-hours; `lastCurrent` is reset but never read. */
  datatype BatteryData = BatteryData(
    voltage: real,
    shuntHigh: real,
    shuntLow: real,
    deff: real,
    current: real,
    capacity: real,
    lastCurrent: real)

  /** The zero-initialised global record. */
  const ZERO_DATA: BatteryData := BatteryData(0.0, 0.0, 0.0, 0.0, 0.0, 0.0, 0.0)

  function Sum(s: seq<Count>): int {
    if s == [] then 0 else Sum(s[..|s| - 1]) + s[|s| - 1]
  }

  lemma {:induction false} SumBounds(s: seq<Count>)
    ensures 0 <= Sum(s) <= |s| * ADC_MAX
  {
    if s != [] {
      SumBounds(s[..|s| - 1]);
    }
  }

  lemma {:induction false} SumOfConstant(s: seq<Count>, c: Count)
    requires forall k :: 0 <= k < |s| ==> s[k] == c
    ensures Sum(s) == |s| * c
  {
    if s != [] {
      SumOfConstant(s[..|s| - 1], c);
    }
  }

  /** The value `readFilteredAnalog` returns for the ten samples it averages:
      their mean converted with the factor V_REF / 1023. With raw counts in
      0..1023 it lies in 0..V_REF. */
  function FilteredValue(samples: seq<Count>): (v: real)
    requires |samples| == FILTER_SAMPLES
    ensures 0.0 <= v <= V_REF
  {
    SumBounds(samples);
    (Sum(samples) as real / 10.0) * (V_REF / 1023.0)
  }

  /** Ten equal counts give exactly that count in volts. */
  lemma FilteredOfConstant(samples: seq<Count>, c: Count)
    requires |samples| == FILTER_SAMPLES
    requires forall k :: 0 <= k < |samples| ==> samples[k] == c
    ensures FilteredValue(samples) == c as real * (V_REF / 1023.0)
  {
    SumOfConstant(samples, c);
  }

  /** The record after one `takeMeasurements` that read voltage `v` and
      shunt voltages `high` and `low` at elapsed second `sec`. */
  function Measure(d: BatteryData, sec: int, v: real, high: real, low: real): BatteryData {
    var deff := high - low;
    var current := deff / SHUNT_RESISTANCE;
    d.(voltage := v, shuntHigh := high, shuntLow := low, deff := deff, current := current,
       capacity := if sec > 0 then d.capacity + current / 3600.0 else d.capacity)
  }

  /** One `takeMeasurements` update seen from outside: the voltage is the
      one read, the current is the shunt drop over the shunt resistance,
      the capacity gains one second's share of that current exactly when
      the elapsed second is positive, and of the old record only the
      capacity and `lastCurrent` matter. */
  lemma MeasureOnce(d: BatteryData, d': BatteryData, sec: int, v: real, high: real, low: real)
    requires d'.capacity == d.capacity && d'.lastCurrent == d.lastCurrent
    ensures var e := Measure(d, sec, v, high, low);
      e.voltage == v && e.current * SHUNT_RESISTANCE == high - low && e.deff == high - low &&
      e.capacity == d.capacity + (if sec > 0 then e.current / 3600.0 else 0.0) &&
      e.lastCurrent == d.lastCurrent && Measure(d', sec, v, high, low) == e
  {
  }

  /** The filtered values one measurement call obtained, and the number of
      the first `analogRead` it made. */
  datatype Reading = Reading(sec: int, at: nat, voltage: real, shuntHigh: real, shuntLow: real)

  /** The record after one measurement call that obtained `r`. */
  function Apply(d: BatteryData, r: Reading): BatteryData {
    Measure(d, r.sec, r.voltage, r.shuntHigh, r.shuntLow)
  }

  /** The record as a test switches a channel's load on: capacity cleared,
      and `lastCurrent` too when `clearLast`. */
  function Restart(d: BatteryData, clearLast: bool): BatteryData {
    d.(capacity := 0.0, lastCurrent := if clearLast then 0.0 else d.lastCurrent)
  }

  /** Successive measurements of one channel, oldest first. */
  function Replay(d: BatteryData, rs: seq<Reading>): BatteryData {
    if rs == [] then d
    else Apply(Replay(d, rs[..|rs| - 1]), rs[|rs| - 1])
  }

  lemma ReplaySnoc(d: BatteryData, rs: seq<Reading>, r: Reading)
    ensures Replay(d, rs + [r]) == Apply(Replay(d, rs), r)
  {
    assert (rs + [r])[..|rs|] == rs;
  }

  /** The record a test shows after the first `m + 1` readings of its
      log: the no-load reading applied to the record from before the
      test; from then on the record restarted as the load went on, with
      the later readings applied in turn. */
  function TestRecord(d0: BatteryData, log: seq<Reading>, m: nat, clearLast: bool): BatteryData
    requires m < |log|
  {
    if m == 0 then Apply(d0, log[0]) else Replay(Restart(Apply(d0, log[0]), clearLast), log[1..m + 1])
  }

  /** Readings taken later do not change what an earlier record showed. */
  lemma TestRecordPrefix(d0: BatteryData, log: seq<Reading>, log': seq<Reading>, m: nat, clearLast: bool)
    requires m < |log| && log <= log'
    ensures TestRecord(d0, log', m, clearLast) == TestRecord(d0, log, m, clearLast)
  {
    assert log'[0] == log[0];
    assert log'[1..m + 1] == log[1..m + 1];
  }

  function CurrentOf(r: Reading): real {
    (r.shuntHigh - r.shuntLow) / SHUNT_RESISTANCE
  }

  /** Number of readings taken at a positive elapsed second. */
  function Loaded(rs: seq<Reading>): (n: nat)
    ensures n <= |rs|
  {
    if rs == [] then 0
    else Loaded(rs[..|rs| - 1]) + (if rs[|rs| - 1].sec > 0 then 1 else 0)
  }

  /** With a constant current `i`, capacity grows by i/3600 Ah for each
      reading at a positive second and for no other. */
  lemma CapacityOfConstantCurrent(d: BatteryData, rs: seq<Reading>, i: real)
    requires forall k :: 0 <= k < |rs| ==> CurrentOf(rs[k]) == i
    ensures Replay(d, rs).capacity == d.capacity + Loaded(rs) as real * i / 3600.0
  {
    ChargeOfConstantCurrent(d, rs, i);
    ChargeIsProduct(Loaded(rs), i / 3600.0);
  }

  /** `n` charges of `q` each. */
  function Charge(n: nat, q: real): real {
    if n == 0 then 0.0 else Charge(n - 1, q) + q
  }

  lemma {:induction false} ChargeIsProduct(n: nat, q: real)
    ensures Charge(n, q) == n as real * q
  {
    if n > 0 {
      ChargeIsProduct(n - 1, q);
    }
  }

  lemma {:induction false} ChargeOfConstantCurrent(d: BatteryData, rs: seq<Reading>, i: real)
    requires forall k :: 0 <= k < |rs| ==> CurrentOf(rs[k]) == i
    ensures Replay(d, rs).capacity == d.capacity + Charge(Loaded(rs), i / 3600.0)
  {
    if rs != [] {
      var init, r := rs[..|rs| - 1], rs[|rs| - 1];
      ChargeOfConstantCurrent(d, init, i);
      assert CurrentOf(r) == i;
    }
  }

  /** N readings at positive seconds with constant current `i` accumulate
      N * i / 3600 Ah. */
  lemma LoadedCapacity(d: BatteryData, rs: seq<Reading>, i: real)
    requires forall k :: 0 <= k < |rs| ==> CurrentOf(rs[k]) == i && rs[k].sec > 0
    ensures Replay(d, rs).capacity == d.capacity + |rs| as real * i / 3600.0
  {
    CapacityOfConstantCurrent(d, rs, i);
    AllLoaded(rs);
  }

  lemma {:induction false} AllLoaded(rs: seq<Reading>)
    requires forall k :: 0 <= k < |rs| ==> rs[k].sec > 0
    ensures Loaded(rs) == |rs|
  {
    if rs != [] {
      AllLoaded(rs[..|rs| - 1]);
    }
  }

  /** Measurements at elapsed seconds <= 0 never change the capacity,
      whatever the current. */
  lemma {:induction false} NoLoadKeepsCapacity(d: BatteryData, rs: seq<Reading>)
    requires forall k :: 0 <= k < |rs| ==> rs[k].sec <= 0
    ensures Replay(d, rs).capacity == d.capacity
  {
    if rs != [] {
      NoLoadKeepsCapacity(d, rs[..|rs| - 1]);
    }
  }

  /** While the current is not negative the capacity never decreases;
      nothing clamps a negative current. */
  lemma {:induction false} CapacityMonotone(d: BatteryData, rs: seq<Reading>)
    requires forall k :: 0 <= k < |rs| ==> CurrentOf(rs[k]) >= 0.0
    ensures Replay(d, rs).capacity >= d.capacity
  {
    if rs != [] {
      CapacityMonotone(d, rs[..|rs| - 1]);
    }
  }

  /** The voltage, shunt difference and current of a record come from its
      last reading alone. */
  lemma ReplayLast(d: BatteryData, rs: seq<Reading>)
    requires rs != []
    ensures var r, e := rs[|rs| - 1], Replay(d, rs);
      e.voltage == r.voltage && e.deff == r.shuntHigh - r.shuntLow && e.current == CurrentOf(r)
  {
  }

  /** No measurement touches `lastCurrent`. */
  lemma {:induction false} ReplayKeepsLastCurrent(d: BatteryData, rs: seq<Reading>)
    ensures Replay(d, rs).lastCurrent == d.lastCurrent
  {
    if rs != [] {
      ReplayKeepsLastCurrent(d, rs[..|rs| - 1]);
    }
  }

  /** Readings at seconds 0, 1, 2, ... in turn: all but the first are loaded. */
  lemma {:induction false} LoadedRun(rs: seq<Reading>)
    requires forall k :: 0 <= k < |rs| ==> rs[k].sec == k
    ensures Loaded(rs) == if rs == [] then 0 else |rs| - 1
  {
    if rs != [] {
      LoadedRun(rs[..|rs| - 1]);
    }
  }
}
