/** The tester itself: the sketch's globals (`activeBatteries`,
    `testDuration`, `battData`, the relay pins) as the fields of a `Bench`,
    and its routines as methods that change them. The analog inputs are a
    fixed function from pin and read number to a raw count; the serial port
    and the relay pins are the event sequence `trace`. */
module Tester {
  import opened ArduinoString
  import opened Config
  import opened Commands
  import opened Measurement
  import opened Trace

  /** The raw counts of `FILTER_SAMPLES` consecutive reads of `pin`, the
      first of them read number `t`. */
  function Window(adc: (int, nat) -> Count, pin: int, t: nat): seq<Count> {
    seq(FILTER_SAMPLES, j requires 0 <= j < FILTER_SAMPLES => adc(pin, t + j))
  }

  /** The pin `takeMeasurements` reads the battery voltage from: the
      direct (no-load) pin before the test, the loaded one from second 0
      on. The direct pin was never initialised, so it is pin 0. */
  function VoltagePin(battNum: int, sec: int): (pin: int)
    requires 0 <= battNum < NUM_BATTERIES
    ensures sec < 0 ==> pin == 0
    ensures sec >= 0 ==> pin == if battNum == 0 then A0 else A3
  {
    if sec < 0 then BATTERIES[battNum].directVoltagePin else BATTERIES[battNum].voltagePin
  }

  /** What one call of `takeMeasurements(battNum, sec)` reads when it
      starts at read number `t`: three filtered reads of eleven samples
      each, voltage first. */
  function Sampled(adc: (int, nat) -> Count, battNum: int, sec: int, t: nat): (r: Reading)
    requires 0 <= battNum < NUM_BATTERIES
    ensures r.sec == sec && r.at == t
    ensures 0.0 <= r.voltage <= V_REF && 0.0 <= r.shuntHigh <= V_REF && 0.0 <= r.shuntLow <= V_REF
    ensures -V_REF / SHUNT_RESISTANCE <= CurrentOf(r) <= V_REF / SHUNT_RESISTANCE
  {
    Reading(sec, t,
            FilteredValue(Window(adc, VoltagePin(battNum, sec), t + 1)),
            FilteredValue(Window(adc, BATTERIES[battNum].shuntHigh, t + 12)),
            FilteredValue(Window(adc, BATTERIES[battNum].shuntLow, t + 23)))
  }

  /** Every reading in channel `i`'s log is what `takeMeasurements` read
      for that channel at the reading's second, from the reading's first
      read number on. */
  ghost predicate Genuine(adc: (int, nat) -> Count, i: int, log: seq<Reading>)
    requires 0 <= i < NUM_BATTERIES
  {
    forall k :: 0 <= k < |log| ==> GenuineAt(adc, i, log, k)
  }

  ghost predicate GenuineAt(adc: (int, nat) -> Count, i: int, log: seq<Reading>, k: nat)
    requires 0 <= i < NUM_BATTERIES && k < |log|
  {
    log[k] == Sampled(adc, i, log[k].sec, log[k].at)
  }

  /** A reading sampled from the converter keeps a genuine log genuine. */
  lemma GenuineSnoc(adc: (int, nat) -> Count, i: int, log: seq<Reading>, r: Reading)
    requires 0 <= i < NUM_BATTERIES && Genuine(adc, i, log) && r == Sampled(adc, i, r.sec, r.at)
    ensures Genuine(adc, i, log + [r])
  {
    forall k | 0 <= k < |log| + 1
      ensures GenuineAt(adc, i, log + [r], k)
    {
      if k < |log| {
        assert GenuineAt(adc, i, log, k);
      }
    }
  }

  /** The number of `analogRead`s one `takeMeasurements` makes: three
      filtered reads of one discarded and ten kept samples each. */
  const SPAN: nat := 33

  /** How many of the first `i` channels are active: the place of channel
      `i` in a pass over the active channels. */
  function Rank(active: seq<bool>, i: nat): (n: nat)
    requires i <= |active|
    ensures n <= i
  {
    if i == 0 then 0 else Rank(active, i - 1) + (if active[i - 1] then 1 else 0)
  }

  /** An active channel comes before every later active channel, and
      before the end of the pass. */
  lemma {:induction false} RankGrows(active: seq<bool>, i: nat, j: nat)
    requires i < j <= |active| && active[i]
    ensures Rank(active, i) < Rank(active, j)
    decreases j - i
  {
    if j > i + 1 {
      RankGrows(active, i, j - 1);
    }
  }

  /** A log in read order: the reads of each reading end before those of
      the next begin, and those of the last before read number `clock`. */
  ghost predicate Spaced(log: seq<Reading>, clock: nat) {
    (forall k :: 0 <= k < |log| - 1 ==> Precedes(log, k)) && (|log| > 0 ==> log[|log| - 1].at + SPAN <= clock)
  }

  ghost predicate Precedes(log: seq<Reading>, k: nat)
    requires k + 1 < |log|
  {
    log[k].at + SPAN <= log[k + 1].at
  }

  /** A reading whose reads begin at or after `clock` keeps a log spaced. */
  lemma SpacedSnoc(log: seq<Reading>, clock: nat, r: Reading, clock': nat)
    requires Spaced(log, clock) && clock <= r.at && r.at + SPAN <= clock'
    ensures Spaced(log + [r], clock')
  {
    var log' := log + [r];
    forall k | 0 <= k < |log'| - 1
      ensures Precedes(log', k)
    {
      if k + 1 < |log| {
        assert Precedes(log, k);
      }
    }
  }

  /** No two readings of a spaced log share an `analogRead`: readings `k`
      and `l > k` begin at least `SPAN` reads per reading between them. */
  lemma {:induction false} SpacedApart(log: seq<Reading>, clock: nat, k: nat, l: nat)
    requires Spaced(log, clock) && k < l < |log|
    ensures log[k].at + SPAN * (l - k) <= log[l].at
    decreases l - k
  {
    assert Precedes(log, l - 1);
    if l > k + 1 {
      SpacedApart(log, clock, k, l - 1);
    }
  }

  /** Every reading of a spaced log was read before `clock`. */
  lemma SpacedPast(log: seq<Reading>, clock: nat, k: nat)
    requires Spaced(log, clock) && k < |log|
    ensures log[k].at + SPAN <= clock
  {
    if k + 1 < |log| {
      SpacedApart(log, clock, k, |log| - 1);
    }
  }

  /** Two readings that claim the same first read cannot both be in a
      spaced log, whatever the clock. */
  lemma SharedReadRejected(log: seq<Reading>, clock: nat, k: nat, l: nat)
    requires k < l < |log| && log[k].at == log[l].at
    ensures !Spaced(log, clock)
  {
    if Spaced(log, clock) {
      SpacedApart(log, clock, k, l);
    }
  }

  /** The number of active channels: the measurements in one pass. */
  function ActiveCount(active: seq<bool>): nat {
    Rank(active, |active|)
  }

  /** The measurements in `m` passes over `w` active channels. */
  function Passes(w: nat, m: nat): nat {
    if m == 0 then 0 else Passes(w, m - 1) + w
  }

  /** `m` passes over `w` channels are `w·m` measurements. */
  lemma {:induction false} PassesProduct(w: nat, m: nat)
    ensures Passes(w, m) == w * m
  {
    if m > 0 {
      PassesProduct(w, m - 1);
    }
  }

  /** A later pass begins once an earlier one has ended. */
  lemma {:induction false} PassesApart(w: nat, k1: nat, k2: nat)
    requires k1 < k2
    ensures Passes(w, k1) + w <= Passes(w, k2)
    decreases k2
  {
    if k1 + 1 < k2 {
      PassesApart(w, k1, k2 - 1);
    }
  }

  /** Channel `i`'s readings `log[first..]` of a timed test that began at
      read number `c0`, in which every pass measures the active channels
      in channel order: reading `k` of the test began `SPAN` reads for
      each measurement before it, those of the `k` earlier passes and
      those of the active channels before `i` in its own. */
  ghost predicate Paced(log: seq<Reading>, first: nat, c0: nat, active: seq<bool>, i: nat)
    requires i <= |active|
  {
    forall k :: first <= k < |log| ==> log[k].at == c0 + SPAN * (Passes(ActiveCount(active), k - first) + Rank(active, i))
  }

  /** A pass, `m` passes into the test, extends each active channel's
      paced log by one reading. */
  lemma PacedPass(r0: seq<seq<Reading>>, rs: seq<seq<Reading>>, rs': seq<seq<Reading>>, active: seq<bool>,
                  c0: nat, m: nat, c: nat)
    requires |r0| == |rs| == |rs'| == |active|
    requires c == c0 + SPAN * Passes(ActiveCount(active), m)
    requires forall j :: 0 <= j < |active| && active[j] ==>
      |rs[j]| == |r0[j]| + m && rs[j] <= rs'[j] && Paced(rs[j], |r0[j]|, c0, active, j)
    requires forall j :: 0 <= j < |active| ==> StampedStep(rs[j], rs'[j], active[j], c, active, j)
    requires forall j :: 0 <= j < |active| && active[j] ==> |rs'[j]| == |rs[j]| + 1
    ensures forall j :: 0 <= j < |active| && active[j] ==> Paced(rs'[j], |r0[j]|, c0, active, j)
  {
    forall j | 0 <= j < |active| && active[j]
      ensures Paced(rs'[j], |r0[j]|, c0, active, j)
    {
      assert StampedStep(rs[j], rs'[j], active[j], c, active, j);
      PacedSnoc(rs[j], rs'[j], |r0[j]|, c0, active, j, m);
    }
  }

  lemma PacedSnoc(log: seq<Reading>, log': seq<Reading>, first: nat, c0: nat, active: seq<bool>, i: nat, m: nat)
    requires i <= |active| && Paced(log, first, c0, active, i) && |log| == first + m
    requires |log'| == |log| + 1 && log <= log'
    requires log'[|log|].at == c0 + SPAN * Passes(ActiveCount(active), m) + SPAN * Rank(active, i)
    ensures Paced(log', first, c0, active, i)
  {
    forall k | first <= k < |log'|
      ensures log'[k].at == c0 + SPAN * (Passes(ActiveCount(active), k - first) + Rank(active, i))
    {
      if k < |log| {
        assert log'[k] == log[k];
      }
    }
  }

  /** In a timed test no two active channels share an `analogRead`: any
      reading of one and any of the other begin at least `SPAN` reads
      apart. */
  lemma PacedApart(li: seq<Reading>, fi: nat, lj: seq<Reading>, fj: nat, c0: nat, active: seq<bool>,
                   i: nat, j: nat, k: nat, l: nat)
    requires i < j < |active| && active[i] && active[j]
    requires Paced(li, fi, c0, active, i) && Paced(lj, fj, c0, active, j)
    requires fi <= k < |li| && fj <= l < |lj|
    ensures li[k].at + SPAN <= lj[l].at || lj[l].at + SPAN <= li[k].at
  {
    var w := ActiveCount(active);
    RankGrows(active, i, j);
    RankGrows(active, j, |active|);
    if k - fi < l - fj {
      PassesApart(w, k - fi, l - fj);
    } else if l - fj < k - fi {
      PassesApart(w, l - fj, k - fi);
    }
  }

  /** The last pass of a timed test of `d` seconds, at second d+3, ends
      each active channel's paced log, `d + 2` passes after the test
      began. */
  lemma FinalPass(active: seq<bool>, d: nat, r0: seq<seq<Reading>>, r2: seq<seq<Reading>>, rs: seq<seq<Reading>>,
                  c0: nat, c: nat, c': nat)
    requires |r0| == |r2| == |rs| == |active| == NUM_BATTERIES
    requires c == c0 + SPAN * Passes(ActiveCount(active), d + 1)
    requires c' == c + SPAN * Rank(active, NUM_BATTERIES)
    requires forall j :: 0 <= j < |active| && active[j] ==>
      |r2[j]| == |r0[j]| + d + 1 && r2[j] <= rs[j] && |rs[j]| == |r2[j]| + 1 && Paced(r2[j], |r0[j]|, c0, active, j)
    requires forall j :: 0 <= j < |active| ==> StampedStep(r2[j], rs[j], active[j], c, active, j)
    ensures forall j :: 0 <= j < |active| && active[j] ==> Paced(rs[j], |r0[j]|, c0, active, j)
    ensures c' == c0 + SPAN * Passes(ActiveCount(active), d + 2)
  {
    PacedPass(r0, r2, rs, active, c0, d + 1, c);
  }

  /** Channel `i`'s readings from `log[first]` on, one per tick of the
      tick loop whose events are `run` and which began at read number `c`:
      the reading of tick `s` began `SPAN` reads for every record sent
      before channel `i`'s record of tick `s`. */
  ghost predicate Stamped(run: seq<Event>, i: int, log: seq<Reading>, first: nat, c: nat) {
    forall p :: 0 <= p < |run| ==> StampedAt(run, i, log, first, c, p)
  }

  ghost predicate StampedAt(run: seq<Event>, i: int, log: seq<Reading>, first: nat, c: nat, p: nat)
    requires p < |run|
  {
    run[p].Record? && run[p].battery == i + 1 && 0 <= run[p].sec && first + run[p].sec < |log| ==>
      log[first + run[p].sec].at == c + SPAN * RecordsIn(run[..p])
  }

  /** A turn of channel `i` at `sec`, whose reading begins at the read
      after every record so far, keeps channel `j`'s readings stamped. */
  lemma StampTurn(run: seq<Event>, i: int, sec: nat, d: BatteryData, j: int, log: seq<Reading>, log': seq<Reading>,
                  first: nat, c: nat)
    requires Stamped(run, j, log, first, c) && RecordsBefore(run, sec, i)
    requires j == i ==> |log| == first + sec && |log'| == |log| + 1 && log <= log' &&
                        log'[|log|].at == c + SPAN * RecordsIn(run)
    requires j != i ==> log' == log
    ensures Stamped(run + Turn(i, sec, d), j, log', first, c)
  {
    var run' := run + Turn(i, sec, d);
    forall p | 0 <= p < |run'|
      ensures StampedAt(run', j, log', first, c, p)
    {
      if p < |run| {
        assert run'[p] == run[p] && run'[..p] == run[..p];
        assert StampedAt(run, j, log, first, c, p);
        if run[p].Record? && run[p].battery == j + 1 && 0 <= run[p].sec && first + run[p].sec < |log'| {
          assert run[p].sec < sec || (run[p].sec == sec && run[p].battery <= i);
          if j == i {
            assert log'[first + run[p].sec] == log[first + run[p].sec];
          }
        }
      } else if p == |run| {
        assert run'[..p] == run;
      } else {
        assert !run'[p].Record?;
      }
    }
  }

  /** Two records of a stamped run show readings whose reads are `SPAN`
      apart at least: a later record's reading began after the earlier
      one's reads. */
  lemma StampedApart(run: seq<Event>, i: int, j: int, li: seq<Reading>, lj: seq<Reading>, fi: nat, fj: nat, c: nat,
                     p: nat, q: nat)
    requires Stamped(run, i, li, fi, c) && Stamped(run, j, lj, fj, c) && p < q < |run|
    requires run[p].Record? && run[p].battery == i + 1 && 0 <= run[p].sec && fi + run[p].sec < |li|
    requires run[q].Record? && run[q].battery == j + 1 && 0 <= run[q].sec && fj + run[q].sec < |lj|
    ensures li[fi + run[p].sec].at + SPAN <= lj[fj + run[q].sec].at
  {
    assert StampedAt(run, i, li, fi, c, p) && StampedAt(run, j, lj, fj, c, q);
    RecordsInPrefix(run, p, q);
  }

  /** A channel's log and record across one pass of a test: one reading at
      `sec` appended and applied when the channel was measured, nothing
      otherwise. */
  ghost predicate Stepped(rs0: seq<Reading>, rs1: seq<Reading>, d0: BatteryData, d1: BatteryData,
                          measured: bool, sec: int)
  {
    if measured then
      |rs1| == |rs0| + 1 && rs1[..|rs0|] == rs0 && rs1[|rs0|].sec == sec && d1 == Apply(d0, rs1[|rs0|])
    else rs1 == rs0 && d1 == d0
  }

  /** Channel `j`'s reading in a pass over the active channels that began
      at read number `c0`, if the pass measured it: it began `SPAN` reads
      for each active channel before `j`. */
  ghost predicate StampedStep(rs0: seq<Reading>, rs1: seq<Reading>, measured: bool, c0: nat, active: seq<bool>, j: nat)
    requires j <= |active|
  {
    measured ==> |rs0| < |rs1| && rs1[|rs0|].at == c0 + SPAN * Rank(active, j)
  }

  /** An inactive channel `i`, skipped by a pass, leaves the pass as it
      was: no reading, no read. */
  lemma SkippedPass(r0: seq<seq<Reading>>, rs: seq<seq<Reading>>, d0: seq<BatteryData>, ds: seq<BatteryData>,
                    active: seq<bool>, i: nat, sec: int, c0: nat)
    requires |r0| == |rs| == |d0| == |ds| == |active| == NUM_BATTERIES && i < NUM_BATTERIES && !active[i]
    requires forall j :: 0 <= j < NUM_BATTERIES ==> Stepped(r0[j], rs[j], d0[j], ds[j], j < i && active[j], sec)
    requires forall j :: 0 <= j < NUM_BATTERIES ==> StampedStep(r0[j], rs[j], j < i && active[j], c0, active, j)
    ensures forall j :: 0 <= j < NUM_BATTERIES ==> Stepped(r0[j], rs[j], d0[j], ds[j], j < i + 1 && active[j], sec)
    ensures forall j :: 0 <= j < NUM_BATTERIES ==> StampedStep(r0[j], rs[j], j < i + 1 && active[j], c0, active, j)
    ensures Rank(active, i + 1) == Rank(active, i)
  {
    forall j | 0 <= j < NUM_BATTERIES
      ensures Stepped(r0[j], rs[j], d0[j], ds[j], j < i + 1 && active[j], sec)
      ensures StampedStep(r0[j], rs[j], j < i + 1 && active[j], c0, active, j)
    {
      assert (j < i + 1 && active[j]) == (j < i && active[j]);
    }
  }

  /** Channel `i`'s measurement `x` in a pass that began at read `c0`,
      made at read `c`, extends the pass: its log and record take the
      reading, and it is stamped after the active channels before it. */
  lemma MeasuredPass(r0: seq<seq<Reading>>, rs: seq<seq<Reading>>, rs': seq<seq<Reading>>,
                     d0: seq<BatteryData>, ds: seq<BatteryData>, ds': seq<BatteryData>,
                     active: seq<bool>, i: nat, sec: int, c0: nat, c: nat, x: Reading)
    requires |r0| == |rs| == |d0| == |ds| == |ds'| == |active| == NUM_BATTERIES && i < NUM_BATTERIES && active[i]
    requires forall j :: 0 <= j < NUM_BATTERIES ==> Stepped(r0[j], rs[j], d0[j], ds[j], j < i && active[j], sec)
    requires forall j :: 0 <= j < NUM_BATTERIES ==> StampedStep(r0[j], rs[j], j < i && active[j], c0, active, j)
    requires c == c0 + SPAN * Rank(active, i) && x.sec == sec && x.at == c
    requires rs' == rs[i := rs[i] + [x]]
    requires ds'[i] == Apply(ds[i], x) && forall k :: 0 <= k < NUM_BATTERIES && k != i ==> ds'[k] == ds[k]
    ensures forall j :: 0 <= j < NUM_BATTERIES ==> Stepped(r0[j], rs'[j], d0[j], ds'[j], j < i + 1 && active[j], sec)
    ensures forall j :: 0 <= j < NUM_BATTERIES ==> StampedStep(r0[j], rs'[j], j < i + 1 && active[j], c0, active, j)
    ensures c + SPAN == c0 + SPAN * Rank(active, i + 1)
  {
    forall j | 0 <= j < NUM_BATTERIES
      ensures Stepped(r0[j], rs'[j], d0[j], ds'[j], j < i + 1 && active[j], sec)
      ensures StampedStep(r0[j], rs'[j], j < i + 1 && active[j], c0, active, j)
    {
      if j == i {
        assert rs[i] == r0[i];
        assert rs'[i][..|r0[i]|] == r0[i];
      } else {
        assert Stepped(r0[j], rs[j], d0[j], ds[j], j < i && active[j], sec);
        assert StampedStep(r0[j], rs[j], j < i && active[j], c0, active, j);
      }
    }
  }


  /** A channel's log and record part-way through a test that started with
      log `rs0` and record `d0`: the no-load reading at -2, then one
      reading per second 0 .. n-1; the record is the no-load measurement,
      restarted as the load went on, then every later reading applied. */
  ghost predicate Loading(rs0: seq<Reading>, rs1: seq<Reading>, d0: BatteryData, d1: BatteryData,
                          n: nat, clearLast: bool)
  {
    |rs1| == |rs0| + 1 + n && rs1[..|rs0|] == rs0 && rs1[|rs0|].sec == -2 &&
    (forall j :: |rs0| < j < |rs1| ==> rs1[j].sec == j - |rs0| - 1) &&
    d1 == Replay(Restart(Apply(d0, rs1[|rs0|]), clearLast), rs1[|rs0| + 1..])
  }

  /** A channel's log and record after a timed test of `d` seconds: the
      no-load reading, `d` loaded ones, and the reading at second d+3 after
      the relays went off, all applied in turn. */
  ghost predicate TimedHistory(rs0: seq<Reading>, rs1: seq<Reading>, d0: BatteryData, d1: BatteryData, d: nat)
  {
    |rs1| == |rs0| + d + 2 && rs1[..|rs0|] == rs0 && rs1[|rs0|].sec == -2 &&
    (forall j :: |rs0| < j < |rs1| - 1 ==> rs1[j].sec == j - |rs0| - 1) && rs1[|rs1| - 1].sec == d + 3 &&
    d1 == Replay(Restart(Apply(d0, rs1[|rs0|]), true), rs1[|rs0| + 1..])
  }

  /** Every channel after a timed test of `d` seconds that began with logs
      `r0` and records `d0`: an active channel has its `TimedHistory`, an
      inactive one keeps its log and record. */
  ghost predicate TimedOutcome(active: seq<bool>, d: nat, r0: seq<seq<Reading>>, rs: seq<seq<Reading>>,
                               d0: seq<BatteryData>, ds: seq<BatteryData>)
    requires |active| == |r0| == |rs| == |d0| == |ds| == NUM_BATTERIES
  {
    forall i :: 0 <= i < NUM_BATTERIES ==>
      if active[i] then TimedHistory(r0[i], rs[i], d0[i], ds[i], d)
      else rs[i] == r0[i] && ds[i] == d0[i]
  }

  lemma LoadingStart(rs0: seq<Reading>, rs1: seq<Reading>, d0: BatteryData, d1: BatteryData,
                     clearLast: bool)
    requires Stepped(rs0, rs1, d0, d1, true, -2)
    ensures Loading(rs0, rs1, d0, Restart(d1, clearLast), 0, clearLast)
  {
    assert rs1[|rs0| + 1..] == [];
  }

  lemma LoadingStep(rs0: seq<Reading>, rs1: seq<Reading>, rs2: seq<Reading>,
                    d0: BatteryData, d1: BatteryData, d2: BatteryData, n: nat, clearLast: bool)
    requires Loading(rs0, rs1, d0, d1, n, clearLast)
    requires Stepped(rs1, rs2, d1, d2, true, n)
    ensures Loading(rs0, rs2, d0, d2, n + 1, clearLast)
  {
    var r := rs2[|rs1|];
    assert rs2 == rs1 + [r];
    assert rs2[|rs0| + 1..] == rs1[|rs0| + 1..] + [r];
    assert rs2[..|rs0|] == rs0 && rs2[|rs0|] == rs1[|rs0|];
    assert forall j :: 0 <= j < |rs1| ==> rs2[j] == rs1[j];
    ReplaySnoc(Restart(Apply(d0, rs1[|rs0|]), clearLast), rs1[|rs0| + 1..], r);
  }

  lemma TimedEnd(rs0: seq<Reading>, rs1: seq<Reading>, rs2: seq<Reading>,
                 d0: BatteryData, d1: BatteryData, d2: BatteryData, d: nat)
    requires Loading(rs0, rs1, d0, d1, d, true)
    requires Stepped(rs1, rs2, d1, d2, true, d + 3)
    ensures TimedHistory(rs0, rs2, d0, d2, d)
  {
    var r := rs2[|rs1|];
    assert rs2 == rs1 + [r];
    assert rs2[|rs0| + 1..] == rs1[|rs0| + 1..] + [r];
    assert rs2[..|rs0|] == rs0 && rs2[|rs0|] == rs1[|rs0|];
    assert forall j :: 0 <= j < |rs1| ==> rs2[j] == rs1[j];
    assert rs2[|rs2| - 1] == r && r.sec == d + 3;
    ReplaySnoc(Restart(Apply(d0, rs1[|rs0|]), true), rs1[|rs0| + 1..], r);
  }

  /** The timed test clears `lastCurrent` when the load goes on; the
      full-discharge test keeps the value from before the test. */
  lemma LoadingLastCurrent(rs0: seq<Reading>, rs1: seq<Reading>, d0: BatteryData, d1: BatteryData,
                           n: nat, clearLast: bool)
    requires Loading(rs0, rs1, d0, d1, n, clearLast)
    ensures clearLast ==> d1.lastCurrent == 0.0
    ensures !clearLast ==> d1.lastCurrent == d0.lastCurrent
  {
    ReplayKeepsLastCurrent(Restart(Apply(d0, rs1[|rs0|]), clearLast), rs1[|rs0| + 1..]);
  }

  /** `n` seconds into a test whose shunt readings give a constant current
      `i`, the capacity (cleared as the load went on) holds one share of
      i/3600 Ah for each of the seconds 1 .. n-1: second 0 adds nothing. */
  lemma LoadingCapacity(rs0: seq<Reading>, rs1: seq<Reading>, d0: BatteryData, d1: BatteryData,
                        n: nat, clearLast: bool, i: real)
    requires Loading(rs0, rs1, d0, d1, n, clearLast)
    requires forall j :: |rs0| < j < |rs1| ==> CurrentOf(rs1[j]) == i
    ensures d1.capacity == (if n == 0 then 0 else n - 1) as real * i / 3600.0
  {
    var rest := rs1[|rs0| + 1..];
    assert forall k :: 0 <= k < |rest| ==> rest[k] == rs1[|rs0| + 1 + k];
    LoadedRun(rest);
    CapacityOfConstantCurrent(Restart(Apply(d0, rs1[|rs0|]), clearLast), rest, i);
  }

  /** After a timed test of `d` seconds with a constant current `i`, the
      capacity holds one share of i/3600 Ah for each of the seconds
      1 .. d-1 and one more for the reading at second d+3, taken after
      every relay went off. */
  lemma TimedCapacity(rs0: seq<Reading>, rs1: seq<Reading>, d0: BatteryData, d1: BatteryData, d: nat, i: real)
    requires TimedHistory(rs0, rs1, d0, d1, d)
    requires forall j :: |rs0| < j < |rs1| ==> CurrentOf(rs1[j]) == i
    ensures d1.capacity == (if d == 0 then 1 else d) as real * i / 3600.0
  {
    var rest := rs1[|rs0| + 1..];
    var loaded := rest[..d];
    assert forall k :: 0 <= k < |rest| ==> rest[k] == rs1[|rs0| + 1 + k];
    assert forall k :: 0 <= k < d ==> loaded[k] == rest[k];
    LoadedRun(loaded);
    assert rest[..|rest| - 1] == loaded;
    assert Loaded(rest) == Loaded(loaded) + 1;
    CapacityOfConstantCurrent(Restart(Apply(d0, rs1[|rs0|]), true), rest, i);
  }

  /** Part-way through a test (after second 0 at least), a channel's
      record is the one `TestRecord` gives for its test log. */
  lemma LoadingRecord(rs0: seq<Reading>, rs1: seq<Reading>, d0: BatteryData, d1: BatteryData,
                      n: nat, clearLast: bool)
    requires Loading(rs0, rs1, d0, d1, n, clearLast) && n > 0
    ensures |rs0| < |rs1| && d1 == TestRecord(d0, rs1[|rs0|..], n, clearLast)
  {
    var log := rs1[|rs0|..];
    assert log[0] == rs1[|rs0|] && log[1..n + 1] == rs1[|rs0| + 1..];
  }

  /** After a timed test of `d` seconds, the record after the reading at
      d+3 is the one `TestRecord` gives for the whole test log. */
  lemma TimedRecord(rs0: seq<Reading>, rs1: seq<Reading>, d0: BatteryData, d1: BatteryData, d: nat)
    requires TimedHistory(rs0, rs1, d0, d1, d)
    ensures d1 == TestRecord(d0, rs1[|rs0|..], d + 1, true)
  {
    var log := rs1[|rs0|..];
    assert log[0] == rs1[|rs0|] && log[1..d + 2] == rs1[|rs0| + 1..];
  }

  /** Each channel's readings past its log `r0`. */
  function Logs(r0: seq<seq<Reading>>, rs: seq<seq<Reading>>): (logs: seq<seq<Reading>>)
    requires |r0| == |rs| && forall j :: 0 <= j < |rs| ==> |r0[j]| <= |rs[j]|
    ensures |logs| == |rs| && forall j :: 0 <= j < |rs| ==> logs[j] == rs[j][|r0[j]|..]
  {
    seq(|rs|, j requires 0 <= j < |rs| => rs[j][|r0[j]|..])
  }

  lemma LogsGrow(r0: seq<seq<Reading>>, r1: seq<seq<Reading>>, r2: seq<seq<Reading>>)
    requires |r0| == |r1| == |r2| && forall j :: 0 <= j < |r0| ==> |r0[j]| <= |r1[j]| && r1[j] <= r2[j]
    ensures forall j :: 0 <= j < |r0| ==> |r0[j]| <= |r2[j]|
    ensures forall j :: 0 <= j < |r0| ==> Logs(r0, r1)[j] <= Logs(r0, r2)[j]
  {
    forall j | 0 <= j < |r0|
      ensures Logs(r0, r1)[j] <= Logs(r0, r2)[j]
    {
      assert r1[j][|r0[j]|..] == r2[j][|r0[j]|..|r1[j]|];
    }
  }

  /** The no-load phase: what the measured channels report is what the
      prelude shows for their test logs. */
  lemma PreludeRecords(active: seq<bool>, d0: seq<BatteryData>, r0: seq<seq<Reading>>, r1: seq<seq<Reading>>,
                       d1: seq<BatteryData>)
    requires |active| == |d0| == |r0| == |r1| == |d1| == NUM_BATTERIES
    requires forall j :: 0 <= j < NUM_BATTERIES ==> Stepped(r0[j], r1[j], d0[j], d1[j], active[j], -2)
    ensures forall j :: 0 <= j < NUM_BATTERIES ==> |r0[j]| <= |r1[j]|
    ensures PhaseEvents(active, NUM_BATTERIES, -2, d1) ==
            PhaseEvents(active, NUM_BATTERIES, -2, Shown(active, d0, Logs(r0, r1), 0, false))
  {
    var logs := Logs(r0, r1);
    var ds := Shown(active, d0, logs, 0, false);
    forall j | 0 <= j < NUM_BATTERIES && active[j]
      ensures d1[j] == ds[j]
    {
      assert logs[j][0] == r1[j][|r0[j]|];
    }
    PhaseEventsSame(active, NUM_BATTERIES, -2, d1, ds);
  }

  /** One second of `startTesting`'s loop, as sent: the records of the
      measured channels are what that second shows for their test logs,
      and the seconds before stay as they were sent. */
  lemma SampleStep(active: seq<bool>, sec: nat, d0: seq<BatteryData>, r0: seq<seq<Reading>>,
                   rs: seq<seq<Reading>>, rs': seq<seq<Reading>>, ds': seq<BatteryData>)
    requires |active| == |d0| == |r0| == |rs| == |rs'| == |ds'| == NUM_BATTERIES
    requires forall j :: 0 <= j < NUM_BATTERIES ==>
      if active[j] then
        |rs[j]| == |r0[j]| + 1 + sec && rs[j] <= rs'[j] && Loading(r0[j], rs'[j], d0[j], ds'[j], sec + 1, true)
      else rs[j] == r0[j] && rs'[j] == r0[j]
    ensures forall j :: 0 <= j < NUM_BATTERIES ==> |r0[j]| <= |rs[j]| && |r0[j]| <= |rs'[j]|
    ensures SampleEvents(active, sec + 1, d0, Logs(r0, rs')) ==
            SampleEvents(active, sec, d0, Logs(r0, rs)) + PhaseEvents(active, NUM_BATTERIES, sec, ds')
  {
    LogsGrow(r0, rs, rs');
    var logs, logs' := Logs(r0, rs), Logs(r0, rs');
    SampleEventsGrow(active, sec, d0, logs, logs');
    var ds := Shown(active, d0, logs', sec + 1, true);
    forall j | 0 <= j < NUM_BATTERIES && active[j]
      ensures ds'[j] == ds[j]
    {
      LoadingRecord(r0[j], rs'[j], d0[j], ds'[j], sec + 1, true);
    }
    PhaseEventsSame(active, NUM_BATTERIES, sec, ds', ds);
  }

  /** One second of the seconds loop, from the logs `r2` and records `d2`
      before its pass to `rs` and `ds` after it: each active channel's
      test goes one second further, and the second's records join the
      sampling events. */
  lemma SecondAdvance(active: seq<bool>, sec: nat, d0: seq<BatteryData>, r0: seq<seq<Reading>>,
                      r2: seq<seq<Reading>>, d2: seq<BatteryData>, rs: seq<seq<Reading>>, ds: seq<BatteryData>,
                      c0: nat, c: nat, c': nat)
    requires |active| == |d0| == |r0| == |r2| == |d2| == |rs| == |ds| == NUM_BATTERIES
    requires forall i :: 0 <= i < NUM_BATTERIES ==>
      if active[i] then Loading(r0[i], r2[i], d0[i], d2[i], sec, true) else r2[i] == r0[i]
    requires PacedPasses(r0, r2, active, c0, c, sec + 1)
    requires forall i :: 0 <= i < NUM_BATTERIES ==>
      Stepped(r2[i], rs[i], d2[i], ds[i], active[i], sec) && StampedStep(r2[i], rs[i], active[i], c, active, i)
    requires c' == c + SPAN * Rank(active, NUM_BATTERIES)
    ensures forall i :: 0 <= i < NUM_BATTERIES ==> r2[i] <= rs[i] && |r0[i]| <= |r2[i]|
    ensures forall i :: 0 <= i < NUM_BATTERIES ==>
      if active[i] then Loading(r0[i], rs[i], d0[i], ds[i], sec + 1, true)
      else rs[i] == r2[i] && ds[i] == d2[i]
    ensures PacedPasses(r0, rs, active, c0, c', sec + 2)
    ensures SampleEvents(active, sec + 1, d0, Logs(r0, rs)) ==
            SampleEvents(active, sec, d0, Logs(r0, r2)) + PhaseEvents(active, NUM_BATTERIES, sec, ds)
  {
    forall i | 0 <= i < NUM_BATTERIES && active[i]
      ensures Loading(r0[i], rs[i], d0[i], ds[i], sec + 1, true) && r2[i] <= rs[i]
    {
      LoadingStep(r0[i], r2[i], rs[i], d0[i], d2[i], ds[i], sec, true);
    }
    PacedPass(r0, r2, rs, active, c0, sec + 1, c);
    SampleStep(active, sec, d0, r0, r2, rs, ds);
  }

  /** The parts of a timed test, as sent, put together: each part shows
      the test logs as they were when it was sent, which the final logs
      extend. */
  lemma TimedAssemble(active: seq<bool>, d: nat, d0: seq<BatteryData>, r0: seq<seq<Reading>>,
                      r1: seq<seq<Reading>>, r2: seq<seq<Reading>>, rf: seq<seq<Reading>>, df: seq<BatteryData>)
    requires |active| == |d0| == |r0| == |r1| == |r2| == |rf| == |df| == NUM_BATTERIES
    requires forall j :: 0 <= j < NUM_BATTERIES ==>
      if active[j] then
        |r0[j]| < |r1[j]| && r1[j] <= r2[j] && |r2[j]| == |r0[j]| + 1 + d && r2[j] <= rf[j] &&
        TimedHistory(r0[j], rf[j], d0[j], df[j], d)
      else r1[j] == r0[j] && r2[j] == r0[j] && rf[j] == r0[j]
    ensures forall j :: 0 <= j < NUM_BATTERIES ==> |r0[j]| <= |r1[j]| && |r0[j]| <= |r2[j]| && |r0[j]| <= |rf[j]|
    ensures PreludeEvents(active, d0, Logs(r0, r1)) + SampleEvents(active, d, d0, Logs(r0, r2)) +
            AllOffEvents(NUM_BATTERIES) + PhaseEvents(active, NUM_BATTERIES, d + 3, df) + [TestComplete] ==
            TimedEvents(active, d, d0, Logs(r0, rf))
  {
    TimedGrow(active, d, d0, r0, r1, r2, rf);
    TimedLast(active, d, d0, r0, rf, df);
  }

  /** A timed test's last reading, at `d + 3`, completes each active
      channel's history, and the events as the phases sent them are
      `TimedEvents` of the test's logs. `r1` and `r2` are the logs after
      the prelude and after the sampling seconds. */
  lemma TimedFinish(active: seq<bool>, d: nat, d0: seq<BatteryData>, r0: seq<seq<Reading>>,
                    r1: seq<seq<Reading>>, r2: seq<seq<Reading>>, rf: seq<seq<Reading>>,
                    d2: seq<BatteryData>, df: seq<BatteryData>)
    requires |active| == |d0| == |r0| == |r1| == |r2| == |rf| == |d2| == |df| == NUM_BATTERIES
    requires forall j :: 0 <= j < NUM_BATTERIES ==>
      if active[j] then |r0[j]| < |r1[j]| && r1[j] <= r2[j] && Loading(r0[j], r2[j], d0[j], d2[j], d, true)
      else r1[j] == r0[j] && r2[j] == r0[j] && d2[j] == d0[j]
    requires forall j :: 0 <= j < NUM_BATTERIES ==> Stepped(r2[j], rf[j], d2[j], df[j], active[j], d + 3)
    ensures forall j :: 0 <= j < NUM_BATTERIES ==>
      if active[j] then TimedHistory(r0[j], rf[j], d0[j], df[j], d)
      else rf[j] == r0[j] && df[j] == d0[j]
    ensures forall j :: 0 <= j < NUM_BATTERIES ==>
      r0[j] <= rf[j] && |r0[j]| <= |r1[j]| && |r0[j]| <= |r2[j]|
    ensures PreludeEvents(active, d0, Logs(r0, r1)) + SampleEvents(active, d, d0, Logs(r0, r2)) +
            AllOffEvents(NUM_BATTERIES) + PhaseEvents(active, NUM_BATTERIES, d + 3, df) + [TestComplete] ==
            TimedEvents(active, d, d0, Logs(r0, rf))
  {
    forall j | 0 <= j < NUM_BATTERIES
      ensures if active[j] then TimedHistory(r0[j], rf[j], d0[j], df[j], d) else rf[j] == r0[j] && df[j] == d0[j]
      ensures r0[j] <= rf[j] && (active[j] ==> r2[j] <= rf[j])
    {
      if active[j] {
        TimedEnd(r0[j], r2[j], rf[j], d0[j], d2[j], df[j], d);
        assert rf[j][..|r2[j]|] == r2[j];
      }
    }
    TimedAssemble(active, d, d0, r0, r1, r2, rf, df);
  }

  lemma TimedGrow(active: seq<bool>, d: nat, d0: seq<BatteryData>, r0: seq<seq<Reading>>,
                  r1: seq<seq<Reading>>, r2: seq<seq<Reading>>, rf: seq<seq<Reading>>)
    requires |active| == |d0| == |r0| == |r1| == |r2| == |rf| == NUM_BATTERIES
    requires forall j :: 0 <= j < NUM_BATTERIES ==> |r0[j]| <= |r1[j]| && r1[j] <= r2[j] && r2[j] <= rf[j]
    requires forall j :: 0 <= j < NUM_BATTERIES && active[j] ==> |r0[j]| < |r1[j]| && |r2[j]| == |r0[j]| + 1 + d
    ensures forall j :: 0 <= j < NUM_BATTERIES ==> |r0[j]| <= |r2[j]| && |r0[j]| <= |rf[j]|
    ensures PreludeEvents(active, d0, Logs(r0, rf)) == PreludeEvents(active, d0, Logs(r0, r1))
    ensures SampleEvents(active, d, d0, Logs(r0, rf)) == SampleEvents(active, d, d0, Logs(r0, r2))
  {
    assert forall j :: 0 <= j < NUM_BATTERIES ==> r1[j] <= rf[j];
    LogsGrow(r0, r1, rf);
    LogsGrow(r0, r2, rf);
    PreludeGrow(active, d0, Logs(r0, r1), Logs(r0, rf));
    SampleEventsGrow(active, d, d0, Logs(r0, r2), Logs(r0, rf));
  }

  lemma TimedLast(active: seq<bool>, d: nat, d0: seq<BatteryData>, r0: seq<seq<Reading>>,
                  rf: seq<seq<Reading>>, df: seq<BatteryData>)
    requires |active| == |d0| == |r0| == |rf| == |df| == NUM_BATTERIES
    requires forall j :: 0 <= j < NUM_BATTERIES ==>
      if active[j] then TimedHistory(r0[j], rf[j], d0[j], df[j], d) else rf[j] == r0[j]
    ensures forall j :: 0 <= j < NUM_BATTERIES ==> |r0[j]| <= |rf[j]|
    ensures PhaseEvents(active, NUM_BATTERIES, d + 3, df) ==
            PhaseEvents(active, NUM_BATTERIES, d + 3, Shown(active, d0, Logs(r0, rf), d + 1, true))
  {
    var ds := Shown(active, d0, Logs(r0, rf), d + 1, true);
    forall j | 0 <= j < NUM_BATTERIES && active[j]
      ensures df[j] == ds[j]
    {
      TimedRecord(r0[j], rf[j], d0[j], df[j], d);
    }
    PhaseEventsSame(active, NUM_BATTERIES, d + 3, df, ds);
  }

  /** A channel's log and record `n` ticks into the loop of a
      full-discharge test that it entered with log `rs0` and record `d0`:
      one reading per tick 0 .. n-1, applied in turn. */
  ghost predicate Ticking(rs0: seq<Reading>, rs1: seq<Reading>, d0: BatteryData, d1: BatteryData, n: nat)
  {
    |rs1| == |rs0| + n && rs1[..|rs0|] == rs0 &&
    (forall j :: |rs0| <= j < |rs1| ==> rs1[j].sec == j - |rs0|) &&
    d1 == Replay(d0, rs1[|rs0|..])
  }

  lemma TickingStep(rs0: seq<Reading>, rs1: seq<Reading>, rs2: seq<Reading>,
                    d0: BatteryData, d1: BatteryData, d2: BatteryData, n: nat)
    requires Ticking(rs0, rs1, d0, d1, n)
    requires Stepped(rs1, rs2, d1, d2, true, n)
    ensures Ticking(rs0, rs2, d0, d2, n + 1) && rs1 <= rs2
  {
    var r := rs2[|rs1|];
    assert rs2 == rs1 + [r];
    assert rs2[|rs0|..] == rs1[|rs0|..] + [r];
    assert rs2[..|rs0|] == rs0;
    assert forall j :: 0 <= j < |rs1| ==> rs2[j] == rs1[j];
    ReplaySnoc(d0, rs1[|rs0|..], r);
  }

  /** Channel `i`'s records in the tick loop, entered with log `rs0` and
      record `d0`: the one of tick `k` shows the record after the readings
      of ticks 0 .. k. */
  ghost predicate ReportedSince(p: seq<Event>, i: int, rs0: seq<Reading>, rs1: seq<Reading>, d0: BatteryData)
  {
    |rs0| <= |rs1| &&
    forall k :: 0 <= k < RecordCount(p) && |rs0| + k < |rs1| ==>
      p[k] == Report(i, k, Replay(d0, rs1[|rs0|..|rs0| + k + 1]))
  }

  /** Channel `i`'s records in the tick loop of a full-discharge test whose
      readings were `log` (the no-load one first) and which began with
      record `d0`: the one of tick `k` shows the record after the readings
      up to that tick. */
  ghost predicate Reported(p: seq<Event>, i: int, log: seq<Reading>, d0: BatteryData)
  {
    forall k :: 0 <= k < RecordCount(p) && k + 1 < |log| ==> p[k] == Report(i, k, TestRecord(d0, log, k + 1, false))
  }

  /** Every channel after a full-discharge test whose tick loop sent `run`,
      begun with logs `r0`, records `d0` and relays `o0`: an active channel
      has its no-load reading and one reading per record it sent, every
      record showing its record at that point, and its relay on exactly
      while it is unfinished; an inactive channel keeps its log, record and
      relay. A loop that stopped by itself left every active relay off. */
  ghost predicate FullOutcome(active: seq<bool>, run: seq<Event>, completed: bool,
                              r0: seq<seq<Reading>>, rs: seq<seq<Reading>>, d0: seq<BatteryData>, ds: seq<BatteryData>,
                              o0: seq<bool>, os: seq<bool>)
    requires |active| == |r0| == |rs| == |d0| == |ds| == |o0| == |os| == NUM_BATTERIES
  {
    (forall i :: 0 <= i < NUM_BATTERIES ==>
      if active[i] then
        Loading(r0[i], rs[i], d0[i], ds[i], RecordCount(Of(run, i)), false) &&
        Reported(Of(run, i), i, rs[i][|r0[i]|..], d0[i]) &&
        os[i] == !Finished(Of(run, i))
      else rs[i] == r0[i] && ds[i] == d0[i] && os[i] == o0[i]) &&
    (completed ==> forall i :: 0 <= i < NUM_BATTERIES && active[i] ==> !os[i])
  }

  /** A turn's record shows the record after its tick's reading; the
      records before it are unchanged. */
  lemma ReportedTurn(p: seq<Event>, i: int, sec: nat, rs0: seq<Reading>, rs1: seq<Reading>, rs2: seq<Reading>,
                     d0: BatteryData, d1: BatteryData, d2: BatteryData)
    requires |p| == sec && RecordCount(p) == sec && RecordCount(p + Turn(i, sec, d2)) == sec + 1
    requires Ticking(rs0, rs1, d0, d1, sec) && ReportedSince(p, i, rs0, rs1, d0)
    requires Ticking(rs0, rs2, d0, d2, sec + 1) && rs1 <= rs2
    ensures ReportedSince(p + Turn(i, sec, d2), i, rs0, rs2, d0)
  {
    var q := p + Turn(i, sec, d2);
    forall k | 0 <= k < sec + 1 && |rs0| + k < |rs2|
      ensures q[k] == Report(i, k, Replay(d0, rs2[|rs0|..|rs0| + k + 1]))
    {
      if k < sec {
        assert q[k] == p[k];
        assert rs2[|rs0|..|rs0| + k + 1] == rs1[|rs0|..|rs0| + k + 1];
      } else {
        assert rs2[|rs0|..|rs0| + k + 1] == rs2[|rs0|..];
      }
    }
  }

  /** The tick loop's view of a channel read back as the test's: entered
      right after the no-load reading and the restart. */
  lemma LoadingTicking(p: seq<Event>, i: int, r0: seq<Reading>, r1: seq<Reading>, rf: seq<Reading>,
                       d0: BatteryData, dp: BatteryData, df: BatteryData, n: nat)
    requires Loading(r0, r1, d0, dp, 0, false) && Ticking(r1, rf, dp, df, n) && ReportedSince(p, i, r1, rf, dp)
    ensures r1 <= rf && Loading(r0, rf, d0, df, n, false) && Reported(p, i, rf[|r0|..], d0)
  {
    assert r1[|r0| + 1..] == [];
    assert rf[..|r0|] == r1[..|r0|] == r0 && rf[|r0|] == r1[|r0|];
    assert rf[|r0| + 1..] == rf[|r1|..];
    var log := rf[|r0|..];
    forall k | 0 <= k < RecordCount(p) && k + 1 < |log|
      ensures p[k] == Report(i, k, TestRecord(d0, log, k + 1, false))
    {
      assert log[0] == r1[|r0|];
      assert log[1..k + 2] == rf[|r1|..|r1| + k + 1];
    }
  }

  /** The read numbers of a test that began at read `c0` and has made
      `passes` passes over the active channels by read `c`: every active
      channel's test log, the logs past `r0`, paced from `c0`. */
  ghost predicate PacedPasses(r0: seq<seq<Reading>>, rf: seq<seq<Reading>>, active: seq<bool>, c0: nat, c: nat, passes: nat)
    requires |r0| == |rf| == |active| == NUM_BATTERIES
  {
    (forall i :: 0 <= i < NUM_BATTERIES && active[i] ==> Paced(rf[i], |r0[i]|, c0, active, i)) &&
    c == c0 + SPAN * Passes(ActiveCount(active), passes)
  }

  /** The read numbers of a full-discharge test that began at read `c0`
      and sent `run` from its tick loop: each active channel's no-load
      reading is its prelude measurement, made after those of the active
      channels before it, and its tick readings are stamped from the end
      of the prelude on. */
  ghost predicate FullStamped(r0: seq<seq<Reading>>, rf: seq<seq<Reading>>, run: seq<Event>, active: seq<bool>, c0: nat)
    requires |r0| == |rf| == |active| == NUM_BATTERIES
  {
    forall i :: 0 <= i < NUM_BATTERIES && active[i] ==>
      StampedStep(r0[i], rf[i], true, c0, active, i) &&
      Stamped(run, i, rf[i], |r0[i]| + 1, c0 + SPAN * ActiveCount(active))
  }

  /** The read numbers of a full-discharge test that began at read `c0`:
      each active channel's no-load reading in its place in the prelude,
      and its tick readings stamped by the tick loop, which began once the
      prelude's reads were done. */
  lemma FullStamps(active: seq<bool>, r0: seq<seq<Reading>>, r1: seq<seq<Reading>>, rf: seq<seq<Reading>>,
                   c0: nat, run: seq<Event>, c1: nat)
    requires |active| == |r0| == |r1| == |rf| == NUM_BATTERIES
    requires forall i :: 0 <= i < NUM_BATTERIES && active[i] ==>
      |r1[i]| == |r0[i]| + 1 && r1[i] <= rf[i] && Paced(r1[i], |r0[i]|, c0, active, i)
    requires c1 == c0 + SPAN * ActiveCount(active)
    requires forall i :: 0 <= i < NUM_BATTERIES ==> Stamped(run, i, rf[i], |r1[i]|, c1)
    ensures FullStamped(r0, rf, run, active, c0)
  {
    forall i | 0 <= i < NUM_BATTERIES && active[i]
      ensures StampedStep(r0[i], rf[i], true, c0, active, i)
    {
      assert rf[i][|r0[i]|] == r1[i][|r0[i]|];
    }
  }

  /** A full-discharge test put together: the prelude left each active
      channel with its no-load reading and restarted record, the tick loop
      went on from there, and the prelude as sent shows the final logs. */
  lemma FullAssemble(run: seq<Event>, active: seq<bool>, r0: seq<seq<Reading>>, r1: seq<seq<Reading>>,
                     rf: seq<seq<Reading>>, d0: seq<BatteryData>, d1: seq<BatteryData>, df: seq<BatteryData>)
    requires |active| == |r0| == |r1| == |rf| == |d0| == |d1| == |df| == NUM_BATTERIES
    requires forall j :: 0 <= j < NUM_BATTERIES ==>
      if active[j] then
        Loading(r0[j], r1[j], d0[j], d1[j], 0, false) &&
        Ticking(r1[j], rf[j], d1[j], df[j], RecordCount(Of(run, j))) && ReportedSince(Of(run, j), j, r1[j], rf[j], d1[j])
      else r1[j] == r0[j] && rf[j] == r1[j]
    ensures forall j :: 0 <= j < NUM_BATTERIES ==> r0[j] <= rf[j] && |r0[j]| <= |r1[j]|
    ensures forall j :: 0 <= j < NUM_BATTERIES && active[j] ==>
      Loading(r0[j], rf[j], d0[j], df[j], RecordCount(Of(run, j)), false) && Reported(Of(run, j), j, rf[j][|r0[j]|..], d0[j])
    ensures PreludeEvents(active, d0, Logs(r0, rf)) == PreludeEvents(active, d0, Logs(r0, r1))
  {
    forall j | 0 <= j < NUM_BATTERIES && active[j]
      ensures r1[j] <= rf[j] && Loading(r0[j], rf[j], d0[j], df[j], RecordCount(Of(run, j)), false)
      ensures Reported(Of(run, j), j, rf[j][|r0[j]|..], d0[j])
    {
      LoadingTicking(Of(run, j), j, r0[j], r1[j], rf[j], d0[j], d1[j], df[j], RecordCount(Of(run, j)));
    }
    LogsGrow(r0, r1, rf);
    PreludeGrow(active, d0, Logs(r0, r1), Logs(r0, rf));
  }

  /** The prelude of a full-discharge test (logs `r0` to `r1`, records `d0`
      to `d1`, relays `o0` to `o1`), then its tick loop (to `rf`, `df`,
      `of`), leave every channel with its `FullOutcome`. */
  lemma FullOutcomeOf(run: seq<Event>, active: seq<bool>, ticks: nat, completed: bool,
                      r0: seq<seq<Reading>>, r1: seq<seq<Reading>>, rf: seq<seq<Reading>>,
                      d0: seq<BatteryData>, d1: seq<BatteryData>, df: seq<BatteryData>,
                      o0: seq<bool>, o1: seq<bool>, of: seq<bool>)
    requires |active| == |r0| == |r1| == |rf| == |d0| == |d1| == |df| == |o0| == |o1| == |of| == NUM_BATTERIES
    requires FullRun(run, active, ticks, completed)
    requires forall j :: 0 <= j < NUM_BATTERIES ==>
      if active[j] then Loading(r0[j], r1[j], d0[j], d1[j], 0, false) && o1[j]
      else r1[j] == r0[j] && d1[j] == d0[j] && o1[j] == o0[j]
    requires forall j :: 0 <= j < NUM_BATTERIES ==>
      if active[j] then
        Ticking(r1[j], rf[j], d1[j], df[j], RecordCount(Of(run, j))) &&
        ReportedSince(Of(run, j), j, r1[j], rf[j], d1[j]) && of[j] == !Finished(Of(run, j))
      else rf[j] == r1[j] && df[j] == d1[j] && of[j] == o1[j]
    ensures forall j :: 0 <= j < NUM_BATTERIES ==> r0[j] <= r1[j] <= rf[j]
    ensures FullOutcome(active, run, completed, r0, rf, d0, df, o0, of)
    ensures PreludeEvents(active, d0, Logs(r0, rf)) == PreludeEvents(active, d0, Logs(r0, r1))
  {
    FullAssemble(run, active, r0, r1, rf, d0, d1, df);
    if completed {
      CompletedFinished(run, active, ticks);
    }
  }

  /** One active channel part-way through the tick loop of a full-discharge
      test, `n` of its ticks in, entered with log `rs0` and record `d0`:
      its events `p` so far, its log and record (one reading per record),
      what each record showed, and its relay (on until it reaches the
      cutoff). */
  ghost predicate ChannelState(p: seq<Event>, i: int, n: nat, done: bool, rs0: seq<Reading>, rs1: seq<Reading>,
                               d0: BatteryData, d1: BatteryData, relayOn: bool)
  {
    Progress(p, i, n, done) && Finished(p) == done &&
    Ticking(rs0, rs1, d0, d1, RecordCount(p)) && ReportedSince(p, i, rs0, rs1, d0) && relayOn == !done
  }

  lemma TurnAdvance(p: seq<Event>, i: int, sec: nat, rs0: seq<Reading>, rs1: seq<Reading>, rs2: seq<Reading>,
                    d0: BatteryData, d1: BatteryData, d2: BatteryData)
    requires ChannelState(p, i, sec, false, rs0, rs1, d0, d1, true)
    requires Stepped(rs1, rs2, d1, d2, true, sec)
    ensures var done := d2.voltage <= CUTOFF_VOLTAGE;
      ChannelState(p + Turn(i, sec, d2), i, sec + 1, done, rs0, rs2, d0, d2, !done) &&
      (done ==> |p + Turn(i, sec, d2)| == sec + 3)
  {
    ProgressTurn(p, i, sec, d2);
    TickingStep(rs0, rs1, rs2, d0, d1, d2, |p|);
    ReportedTurn(p, i, sec, rs0, rs1, rs2, d0, d1, d2);
  }

  /** A channel that finished in an earlier tick stays as it was. */
  lemma ChannelLater(p: seq<Event>, i: int, n: nat, rs0: seq<Reading>, rs1: seq<Reading>,
                     d0: BatteryData, d1: BatteryData, relayOn: bool)
    requires ChannelState(p, i, n, true, rs0, rs1, d0, d1, relayOn)
    ensures ChannelState(p, i, n + 1, true, rs0, rs1, d0, d1, relayOn)
  {
  }

  class Bench {
    /** The analog inputs: the count the read with number `n` of `pin` returns. */
    const adc: (int, nat) -> Count
    /** Number of `analogRead` calls so far. */
    var clock: nat
    /** `activeBatteries` */
    const active: array<bool>
    var testDuration: int
    /** `battData` */
    const data: array<BatteryData>
    /** The level last written to each channel's relay pin (true is HIGH). */
    const relay: array<bool>
    /** Serial output and relay writes, oldest first. */
    var trace: seq<Event>
    /** Every reading each channel's measurements obtained, oldest first. */
    ghost var readings: seq<seq<Reading>>

    /** The arrays have one entry per channel, the duration is in range
        and the logs are `Logged`. */
    ghost predicate Valid()
      reads this
    {
      active.Length == NUM_BATTERIES && data.Length == NUM_BATTERIES && relay.Length == NUM_BATTERIES &&
      active != relay && 1 <= testDuration <= MAX_DURATION && Logged()
    }

    /** One log per channel, every logged reading is what the ADC gave for
        it, and each channel's readings took their reads one after the
        other, all before `clock`. */
    ghost predicate Logged()
      reads this`readings, this`clock
    {
      |readings| == NUM_BATTERIES &&
      forall i :: 0 <= i < NUM_BATTERIES ==> Genuine(adc, i, readings[i]) && Spaced(readings[i], clock)
    }

    /** Every relay is off. */
    ghost predicate Idle()
      reads this, relay
    {
      forall k :: 0 <= k < relay.Length ==> !relay[k]
    }

    /** The zero-initialised globals, then `setup`: every relay driven LOW,
        and the one read of A0 whose value only goes to the banner. */
    constructor (adc: (int, nat) -> Count)
      ensures Valid() && Idle()
      ensures this.adc == adc && clock == 1
      ensures forall k :: 0 <= k < NUM_BATTERIES ==> !active[k] && data[k] == ZERO_DATA && readings[k] == []
      ensures testDuration == TEST_DURATION
      ensures trace == AllOffEvents(NUM_BATTERIES)
    {
      this.adc := adc;
      clock := 0;
      active := new bool[NUM_BATTERIES](_ => false);
      testDuration := TEST_DURATION;
      data := new BatteryData[NUM_BATTERIES](_ => ZERO_DATA);
      relay := new bool[NUM_BATTERIES](_ => false);
      trace := [];
      readings := seq(NUM_BATTERIES, _ => []);
      new;
      for i := 0 to NUM_BATTERIES
        invariant Valid() && Idle() && clock == 0 && testDuration == TEST_DURATION
        invariant forall k :: 0 <= k < NUM_BATTERIES ==> !active[k] && data[k] == ZERO_DATA && readings[k] == []
        invariant trace == AllOffEvents(i)
      {
        SetRelay(i, false);
      }
      var _ := AnalogRead(A0);
    }

    method AnalogRead(pin: int) returns (c: Count)
      modifies this`clock
      ensures c == adc(pin, old(clock)) && clock == old(clock) + 1
    {
      c := adc(pin, clock);
      clock := clock + 1;
    }

    /** `readFilteredAnalog`: one read discarded, then the mean of the next
        ten, in volts. */
    method ReadFilteredAnalog(pin: int) returns (v: real)
      modifies this`clock
      ensures v == FilteredValue(Window(adc, pin, old(clock) + 1))
      ensures 0.0 <= v <= V_REF
      ensures clock == old(clock) + 1 + FILTER_SAMPLES
    {
      var _ := AnalogRead(pin);
      ghost var w := Window(adc, pin, clock);
      var sum: real := 0.0;
      for i := 0 to FILTER_SAMPLES
        invariant clock == old(clock) + 1 + i
        invariant sum == Sum(w[..i]) as real
      {
        var c := AnalogRead(pin);
        assert w[..i + 1][..i] == w[..i];
        sum := sum + c as real;
      }
      assert w[..FILTER_SAMPLES] == w;
      v := (sum / 10.0) * (V_REF / 1023.0);
    }

    /** `takeMeasurements(battNum, sec)`: the three filtered reads, then the
        record updated from them; the reading is logged. */
    method TakeMeasurements(battNum: int, sec: int)
      requires Valid() && 0 <= battNum < NUM_BATTERIES
      modifies data, this`clock, this`readings
      ensures Valid()
      ensures readings == old(readings)[battNum := old(readings[battNum]) + [Sampled(adc, battNum, sec, old(clock))]]
      ensures data[battNum] == Apply(old(data[battNum]), Sampled(adc, battNum, sec, old(clock)))
      ensures forall k :: 0 <= k < NUM_BATTERIES && k != battNum ==> data[k] == old(data[k])
      ensures clock == old(clock) + 3 * (1 + FILTER_SAMPLES)
    {
      ghost var start := clock;
      var pin := VoltagePin(battNum, sec);
      var v := ReadFilteredAnalog(pin);
      var high := ReadFilteredAnalog(BATTERIES[battNum].shuntHigh);
      var low := ReadFilteredAnalog(BATTERIES[battNum].shuntLow);
      var d := data[battNum];
      var deff := high - low;
      var current := deff / SHUNT_RESISTANCE;
      var capacity := d.capacity;
      if sec > 0 {
        capacity := capacity + current / 3600.0;
      }
      data[battNum] := d.(voltage := v, shuntHigh := high, shuntLow := low, deff := deff,
                          current := current, capacity := capacity);
      GenuineSnoc(adc, battNum, readings[battNum], Reading(sec, start, v, high, low));
      SpacedSnoc(readings[battNum], start, Reading(sec, start, v, high, low), clock);
      readings := readings[battNum := readings[battNum] + [Reading(sec, start, v, high, low)]];
    }

    /** `sendSerialData(battNum, sec)`: one record line. */
    method SendSerialData(battNum: int, sec: int)
      requires Valid() && 0 <= battNum < NUM_BATTERIES
      modifies this`trace
      ensures trace == old(trace) + [Report(battNum, sec, data[battNum])]
    {
      trace := trace + [Report(battNum, sec, data[battNum])];
    }

    /** `digitalWrite` of channel `i`'s relay pin. */
    method SetRelay(i: int, on: bool)
      requires Valid() && 0 <= i < NUM_BATTERIES
      modifies relay, this`trace
      ensures relay[..] == old(relay[..])[i := on]
      ensures trace == old(trace) + [RelayWrite(i, on)]
    {
      relay[i] := on;
      trace := trace + [RelayWrite(i, on)];
    }

    /** One pass of the loop both tests repeat: every active channel, in
        channel order, measured and reported at elapsed second `sec`. */
    method MeasureActive(sec: int)
      requires Valid()
      modifies data, this`clock, this`trace, this`readings
      ensures Valid()
      ensures trace == old(trace) + PhaseEvents(active[..], NUM_BATTERIES, sec, data[..])
      ensures forall i :: 0 <= i < NUM_BATTERIES ==>
        Stepped(old(readings[i]), readings[i], old(data[i]), data[i], active[i], sec)
      ensures forall i :: 0 <= i < NUM_BATTERIES ==>
        StampedStep(old(readings[i]), readings[i], active[i], old(clock), active[..], i)
      ensures clock == old(clock) + SPAN * Rank(active[..], NUM_BATTERIES)
    {
      ghost var t0, r0, d0, c0 := trace, readings, data[..], clock;
      for i := 0 to NUM_BATTERIES
        invariant Valid()
        invariant trace == t0 + PhaseEvents(active[..], i, sec, data[..])
        invariant forall j :: 0 <= j < NUM_BATTERIES ==>
          Stepped(r0[j], readings[j], d0[j], data[j], j < i && active[j], sec)
        invariant forall j :: 0 <= j < NUM_BATTERIES ==>
          StampedStep(r0[j], readings[j], j < i && active[j], c0, active[..], j)
        invariant clock == c0 + SPAN * Rank(active[..], i)
      {
        MeasureChannel(i, sec, t0, r0, d0, c0);
      }
    }

    /** Channel `i`'s turn in `MeasureActive`: measured and reported when
        active, skipped otherwise. */
    method MeasureChannel(i: nat, sec: int, ghost t0: seq<Event>, ghost r0: seq<seq<Reading>>,
                          ghost d0: seq<BatteryData>, ghost c0: nat)
      requires Valid() && i < NUM_BATTERIES && |r0| == |d0| == NUM_BATTERIES
      requires trace == t0 + PhaseEvents(active[..], i, sec, data[..])
      requires forall j :: 0 <= j < NUM_BATTERIES ==>
        Stepped(r0[j], readings[j], d0[j], data[j], j < i && active[j], sec)
      requires forall j :: 0 <= j < NUM_BATTERIES ==>
        StampedStep(r0[j], readings[j], j < i && active[j], c0, active[..], j)
      requires clock == c0 + SPAN * Rank(active[..], i)
      modifies data, this`clock, this`trace, this`readings
      ensures Valid()
      ensures trace == t0 + PhaseEvents(active[..], i + 1, sec, data[..])
      ensures forall j :: 0 <= j < NUM_BATTERIES ==>
        Stepped(r0[j], readings[j], d0[j], data[j], j < i + 1 && active[j], sec)
      ensures forall j :: 0 <= j < NUM_BATTERIES ==>
        StampedStep(r0[j], readings[j], j < i + 1 && active[j], c0, active[..], j)
      ensures clock == c0 + SPAN * Rank(active[..], i + 1)
    {
      ghost var ds, rs := data[..], readings;
      if active[i] {
        ghost var c := clock;
        TakeMeasurements(i, sec);
        MeasuredPass(r0, rs, readings, d0, ds, data[..], active[..], i, sec, c0, c, Sampled(adc, i, sec, c));
        PhaseEventsSame(active[..], i, sec, ds, data[..]);
        SendSerialData(i, sec);
      } else {
        SkippedPass(r0, rs, d0, ds, active[..], i, sec, c0);
        assert PhaseEvents(active[..], i + 1, sec, ds) == PhaseEvents(active[..], i, sec, ds) + [];
      }
    }

    /** The relay of every active channel switched on and its capacity
        cleared; the timed test clears `lastCurrent` as well
        (`clearLast`), the full-discharge test does not. */
    method EnableRelays(clearLast: bool)
      requires Valid()
      modifies data, relay, this`trace
      ensures Valid()
      ensures trace == old(trace) + SwitchOnEvents(active[..], NUM_BATTERIES)
      ensures forall i :: 0 <= i < NUM_BATTERIES ==>
        data[i] == (if active[i] then Restart(old(data[i]), clearLast) else old(data[i])) &&
        relay[i] == (active[i] || old(relay[i]))
    {
      ghost var t0, d0, o0 := trace, data[..], relay[..];
      for i := 0 to NUM_BATTERIES
        invariant Valid()
        invariant trace == t0 + SwitchOnEvents(active[..], i)
        invariant forall j :: 0 <= j < NUM_BATTERIES ==>
          data[j] == (if j < i && active[j] then Restart(d0[j], clearLast) else d0[j]) &&
          relay[j] == ((j < i && active[j]) || o0[j])
      {
        if active[i] {
          SwitchLoadOn(i, clearLast);
        } else {
          assert SwitchOnEvents(active[..], i + 1) == SwitchOnEvents(active[..], i) + [];
        }
      }
    }

    /** One channel of `EnableRelays`: its relay on and its record restarted. */
    method SwitchLoadOn(i: int, clearLast: bool)
      requires Valid() && 0 <= i < NUM_BATTERIES
      modifies data, relay, this`trace
      ensures Valid()
      ensures trace == old(trace) + [RelayWrite(i, true)] && relay[..] == old(relay[..])[i := true]
      ensures data[..] == old(data[..])[i := Restart(old(data[i]), clearLast)]
    {
      SetRelay(i, true);
      data[i] := data[i].(capacity := 0.0);
      if clearLast {
        data[i] := data[i].(lastCurrent := 0.0);
      }
    }

    /** Every channel's relay switched off, active or not. */
    method DisableRelays()
      requires Valid()
      modifies relay, this`trace
      ensures Valid() && Idle()
      ensures trace == old(trace) + AllOffEvents(NUM_BATTERIES)
    {
      ghost var t0 := trace;
      for i := 0 to NUM_BATTERIES
        invariant Valid()
        invariant forall j :: 0 <= j < i ==> !relay[j]
        invariant trace == t0 + AllOffEvents(i)
      {
        SetRelay(i, false);
      }
    }

    /** What both tests begin with: every active channel measured and
        reported at -2 with its load off, then its relay switched on and its
        capacity cleared (and `lastCurrent` too when `clearLast`). */
    method BeginTest(clearLast: bool)
      requires Valid()
      modifies data, relay, this`clock, this`trace, this`readings
      ensures Valid()
      ensures forall i :: 0 <= i < NUM_BATTERIES ==>
        if active[i] then Loading(old(readings[i]), readings[i], old(data[i]), data[i], 0, clearLast)
        else readings[i] == old(readings[i]) && data[i] == old(data[i])
      ensures forall i :: 0 <= i < NUM_BATTERIES ==> old(readings[i]) <= readings[i]
      ensures trace == old(trace) + PreludeEvents(active[..], old(data[..]), Logs(old(readings), readings))
      ensures forall i :: 0 <= i < NUM_BATTERIES ==> relay[i] == (active[i] || old(relay[i]))
      ensures PacedPasses(old(readings), readings, active[..], old(clock), clock, 1)
    {
      ghost var t0, r0, d0 := trace, readings, data[..];
      MeasureActive(-2);
      ghost var r1, d1 := readings, data[..];
      PacedPass(r0, r0, r1, active[..], old(clock), 0, old(clock));
      PreludeRecords(active[..], d0, r0, r1, d1);
      EnableRelays(clearLast);
      forall i | 0 <= i < NUM_BATTERIES && active[i]
        ensures Loading(r0[i], readings[i], d0[i], data[i], 0, clearLast)
      {
        LoadingStart(r0[i], r1[i], d0[i], d1[i], clearLast);
      }
      Reassociate3(t0, PhaseEvents(active[..], NUM_BATTERIES, -2, d1), SwitchOnEvents(active[..], NUM_BATTERIES));
    }

    /** The seconds loop of `startTesting`: every active channel measured
        and reported once per second 0 .. testDuration-1, each record
        showing the channel's test log up to that second. */
    method SampleSeconds(ghost r0: seq<seq<Reading>>, ghost d0: seq<BatteryData>, ghost c0: nat)
      requires Valid() && |r0| == |d0| == NUM_BATTERIES
      requires forall i :: 0 <= i < NUM_BATTERIES ==>
        if active[i] then Loading(r0[i], readings[i], d0[i], data[i], 0, true) else readings[i] == r0[i]
      requires PacedPasses(r0, readings, active[..], c0, clock, 1)
      modifies data, this`clock, this`trace, this`readings
      ensures Valid()
      ensures forall i :: 0 <= i < NUM_BATTERIES ==> old(readings[i]) <= readings[i]
      ensures forall i :: 0 <= i < NUM_BATTERIES ==>
        if active[i] then Loading(r0[i], readings[i], d0[i], data[i], testDuration, true)
        else readings[i] == old(readings[i]) && data[i] == old(data[i])
      ensures forall i :: 0 <= i < NUM_BATTERIES ==> |r0[i]| <= |readings[i]|
      ensures trace == old(trace) + SampleEvents(active[..], testDuration, d0, Logs(r0, readings))
      ensures PacedPasses(r0, readings, active[..], c0, clock, testDuration + 1)
    {
      ghost var t1, r1, d1 := trace, readings, data[..];
      assert trace == t1 + SampleEvents(active[..], 0, d0, Logs(r0, readings));
      for sec := 0 to testDuration
        invariant Valid()
        invariant forall i :: 0 <= i < NUM_BATTERIES ==> r1[i] <= readings[i]
        invariant forall i :: 0 <= i < NUM_BATTERIES ==>
          if active[i] then Loading(r0[i], readings[i], d0[i], data[i], sec, true)
          else readings[i] == r1[i] && data[i] == d1[i]
        invariant forall i :: 0 <= i < NUM_BATTERIES ==> |r0[i]| <= |readings[i]|
        invariant trace == t1 + SampleEvents(active[..], sec, d0, Logs(r0, readings))
        invariant PacedPasses(r0, readings, active[..], c0, clock, sec + 1)
      {
        SampleSecond(sec, t1, r0, r1, d0, d1, c0);
      }
    }

    /** One second of the seconds loop: every active channel measured and
        reported at `sec`, its record showing its test log up to then.
        `t1`, `r1` and `d1` are the trace, logs and records the loop began
        with. */
    method SampleSecond(sec: nat, ghost t1: seq<Event>, ghost r0: seq<seq<Reading>>, ghost r1: seq<seq<Reading>>,
                        ghost d0: seq<BatteryData>, ghost d1: seq<BatteryData>, ghost c0: nat)
      requires Valid() && |r0| == |r1| == |d0| == |d1| == NUM_BATTERIES
      requires forall i :: 0 <= i < NUM_BATTERIES && !active[i] ==> r1[i] == r0[i]
      requires forall i :: 0 <= i < NUM_BATTERIES ==> r1[i] <= readings[i]
      requires forall i :: 0 <= i < NUM_BATTERIES ==>
        if active[i] then Loading(r0[i], readings[i], d0[i], data[i], sec, true)
        else readings[i] == r1[i] && data[i] == d1[i]
      requires forall i :: 0 <= i < NUM_BATTERIES ==> |r0[i]| <= |readings[i]|
      requires trace == t1 + SampleEvents(active[..], sec, d0, Logs(r0, readings))
      requires PacedPasses(r0, readings, active[..], c0, clock, sec + 1)
      modifies data, this`clock, this`trace, this`readings
      ensures Valid()
      ensures forall i :: 0 <= i < NUM_BATTERIES ==> r1[i] <= readings[i]
      ensures forall i :: 0 <= i < NUM_BATTERIES ==>
        if active[i] then Loading(r0[i], readings[i], d0[i], data[i], sec + 1, true)
        else readings[i] == r1[i] && data[i] == d1[i]
      ensures forall i :: 0 <= i < NUM_BATTERIES ==> |r0[i]| <= |readings[i]|
      ensures trace == t1 + SampleEvents(active[..], sec + 1, d0, Logs(r0, readings))
      ensures PacedPasses(r0, readings, active[..], c0, clock, sec + 2)
    {
      ghost var t2, r2, d2 := trace, readings, data[..];
      MeasureActive(sec);
      SecondAdvance(active[..], sec, d0, r0, r2, d2, readings, data[..], c0, old(clock), clock);
      Reassociate3(t1, SampleEvents(active[..], sec, d0, Logs(r0, r2)),
                   PhaseEvents(active[..], NUM_BATTERIES, sec, data[..]));
    }

    /** `startTesting`: the no-load records, the relays of the active
        channels on, one record per active channel for each second of the
        test, every relay off, the records at second d+3 and
        `TEST_COMPLETE`. Every record shows the channel's record after its
        test log up to then; each active channel's record ends up as its
        readings replayed from the no-load one; the others are untouched. */
    method StartTesting()
      requires Valid()
      modifies data, relay, this`clock, this`trace, this`readings
      ensures Valid() && Idle()
      ensures forall i :: 0 <= i < NUM_BATTERIES ==>
        if active[i] then TimedHistory(old(readings[i]), readings[i], old(data[i]), data[i], testDuration)
        else readings[i] == old(readings[i]) && data[i] == old(data[i])
      ensures forall i :: 0 <= i < NUM_BATTERIES ==> old(readings[i]) <= readings[i]
      ensures trace == old(trace) + TimedEvents(active[..], testDuration, old(data[..]), Logs(old(readings), readings))
      ensures Tags(trace[|old(trace)|..]) == TimedTags(active[..], testDuration)
      ensures PacedPasses(old(readings), readings, active[..], old(clock), clock, testDuration + 2)
    {
      ghost var t0, r0, d0 := trace, readings, data[..];
      BeginTest(true);
      ghost var r1 := readings;
      SampleSeconds(r0, d0, old(clock));
      FinishTesting(t0, r0, d0, r1, old(clock));
    }

    /** The end of `startTesting`, once the sampling seconds are done:
        relays off, the final reading at `testDuration + 3`, and
        `TEST_COMPLETE`. `t0`, `r0` and `d0` are the trace, logs and
        records from before the test, `r1` the logs after its prelude. */
    method FinishTesting(ghost t0: seq<Event>, ghost r0: seq<seq<Reading>>, ghost d0: seq<BatteryData>,
                         ghost r1: seq<seq<Reading>>, ghost c0: nat)
      requires Valid() && |r0| == |d0| == |r1| == NUM_BATTERIES
      requires PacedPasses(r0, readings, active[..], c0, clock, testDuration + 1)
      requires forall i :: 0 <= i < NUM_BATTERIES ==>
        if active[i] then
          |r0[i]| < |r1[i]| && r1[i] <= readings[i] && Loading(r0[i], readings[i], d0[i], data[i], testDuration, true)
        else r1[i] == r0[i] && readings[i] == r0[i] && data[i] == d0[i]
      requires forall i :: 0 <= i < NUM_BATTERIES ==> |r0[i]| <= |readings[i]|
      requires trace == t0 + PreludeEvents(active[..], d0, Logs(r0, r1)) +
                       SampleEvents(active[..], testDuration, d0, Logs(r0, readings))
      modifies data, relay, this`clock, this`trace, this`readings
      ensures Valid() && Idle()
      ensures forall i :: 0 <= i < NUM_BATTERIES ==>
        if active[i] then TimedHistory(r0[i], readings[i], d0[i], data[i], testDuration)
        else readings[i] == r0[i] && data[i] == d0[i]
      ensures forall i :: 0 <= i < NUM_BATTERIES ==> r0[i] <= readings[i]
      ensures trace == t0 + TimedEvents(active[..], testDuration, d0, Logs(r0, readings))
      ensures Tags(trace[|t0|..]) == TimedTags(active[..], testDuration)
      ensures PacedPasses(r0, readings, active[..], c0, clock, testDuration + 2)
    {
      ghost var r2, d2 := readings, data[..];
      CloseTest(r0, c0);
      TimedFinish(active[..], testDuration, d0, r0, r1, r2, readings, d2, data[..]);
      ghost var events := TimedEvents(active[..], testDuration, d0, Logs(r0, readings));
      Concluded(t0, trace, PreludeEvents(active[..], d0, Logs(r0, r1)),
                SampleEvents(active[..], testDuration, d0, Logs(r0, r2)), AllOffEvents(NUM_BATTERIES),
                PhaseEvents(active[..], NUM_BATTERIES, testDuration + 3, data[..]), events);
      TimedEventsTags(active[..], testDuration, d0, Logs(r0, readings));
    }

    /** The steps of `finishTesting`: every relay off, every active channel
        measured once more at no load, in the pass after the
        `testDuration + 1` passes paced from read `c0`, and `TEST_COMPLETE`
        sent. */
    method CloseTest(ghost r0: seq<seq<Reading>>, ghost c0: nat)
      requires Valid() && |r0| == NUM_BATTERIES
      requires forall i :: 0 <= i < NUM_BATTERIES && active[i] ==>
        |readings[i]| == |r0[i]| + testDuration + 1 && Paced(readings[i], |r0[i]|, c0, active[..], i)
      requires clock == c0 + SPAN * Passes(ActiveCount(active[..]), testDuration + 1)
      modifies data, relay, this`clock, this`trace, this`readings
      ensures Valid() && Idle()
      ensures trace == old(trace) + AllOffEvents(NUM_BATTERIES) + PhaseEvents(active[..], NUM_BATTERIES, testDuration + 3, data[..]) +
                       [TestComplete]
      ensures forall i :: 0 <= i < NUM_BATTERIES ==>
        Stepped(old(readings[i]), readings[i], old(data[i]), data[i], active[i], testDuration + 3)
      ensures PacedPasses(r0, readings, active[..], c0, clock, testDuration + 2)
    {
      DisableRelays();
      ghost var r2, c2 := readings, clock;
      MeasureActive(testDuration + 3);
      FinalPass(active[..], testDuration, r0, r2, readings, c0, c2, clock);
      trace := trace + [TestComplete];
    }

    /** One channel's turn in a tick of `startFullTest`: measured and
        reported at `sec`; at or below the cutoff its relay goes off and
        `TEST_COMPLETE:<n>` is sent. */
    method DischargeStep(i: int, sec: int) returns (done: bool)
      requires Valid() && 0 <= i < NUM_BATTERIES
      modifies data, relay, this`clock, this`trace, this`readings
      ensures Valid()
      ensures Stepped(old(readings[i]), readings[i], old(data[i]), data[i], true, sec)
      ensures readings[i] == old(readings[i]) + [Sampled(adc, i, sec, old(clock))]
      ensures readings == old(readings)[i := readings[i]] && data[..] == old(data[..])[i := data[i]]
      ensures done == (data[i].voltage <= CUTOFF_VOLTAGE)
      ensures trace == old(trace) + Turn(i, sec, data[i])
      ensures relay[..] == old(relay[..])[i := !done && old(relay[i])]
      ensures clock == old(clock) + SPAN
    {
      ghost var ds := data[..];
      TakeMeasurements(i, sec);
      assert data[..] == ds[i := data[i]];
      SendSerialData(i, sec);
      done := data[i].voltage <= CUTOFF_VOLTAGE;
      if done {
        SetRelay(i, false);
        trace := trace + [BatteryComplete(i + 1)];
      }
    }

    /** `startFullTest`: the same start as the timed test but with
        `lastCurrent` kept, then ticks in which every active channel not yet
        at the cutoff is measured and reported, until a tick in which none
        was above it. Every record shows the channel's record after its test
        log up to then. The source loops without bound; `maxTicks` cuts the
        loop off, and `completed` says whether it stopped by itself. */
    method StartFullTest(maxTicks: nat) returns (ticks: nat, completed: bool, ghost run: seq<Event>)
      requires Valid()
      modifies data, relay, this`clock, this`trace, this`readings
      ensures Valid()
      ensures forall i :: 0 <= i < NUM_BATTERIES ==> old(readings[i]) <= readings[i]
      ensures trace == old(trace) + PreludeEvents(active[..], old(data[..]), Logs(old(readings), readings)) + run
      ensures FullRun(run, active[..], ticks, completed)
      ensures FullTestTrace(trace[|old(trace)|..], active[..], ticks, completed)
      ensures FullOutcome(active[..], run, completed, old(readings), readings, old(data[..]), data[..],
                          old(relay[..]), relay[..])
      ensures !completed ==> ticks == maxTicks
      ensures FullStamped(old(readings), readings, run, active[..], old(clock))
      ensures clock == old(clock) + SPAN * (ActiveCount(active[..]) + RecordsIn(run))
    {
      ghost var t0, r0, d0, o0, c0 := trace, readings, data[..], relay[..], clock;
      BeginTest(false);
      ticks, completed, run := FinishFullTest(maxTicks, t0, r0, d0, o0, c0);
    }

    /** `startFullTest` after its prelude: the tick loop, with what it
        means for the whole test. `t0`, `r0`, `d0` and `o0` are the trace,
        logs, records and relays from before the test. */
    method FinishFullTest(maxTicks: nat, ghost t0: seq<Event>, ghost r0: seq<seq<Reading>>,
                          ghost d0: seq<BatteryData>, ghost o0: seq<bool>, ghost c0: nat)
      returns (ticks: nat, completed: bool, ghost run: seq<Event>)
      requires Valid() && |r0| == |d0| == |o0| == NUM_BATTERIES
      requires PacedPasses(r0, readings, active[..], c0, clock, 1)
      requires forall i :: 0 <= i < NUM_BATTERIES ==> r0[i] <= readings[i] && relay[i] == (active[i] || o0[i])
      requires forall i :: 0 <= i < NUM_BATTERIES ==>
        if active[i] then Loading(r0[i], readings[i], d0[i], data[i], 0, false)
        else readings[i] == r0[i] && data[i] == d0[i]
      requires trace == t0 + PreludeEvents(active[..], d0, Logs(r0, readings))
      modifies data, relay, this`clock, this`trace, this`readings
      ensures Valid()
      ensures forall i :: 0 <= i < NUM_BATTERIES ==> r0[i] <= readings[i]
      ensures trace == t0 + PreludeEvents(active[..], d0, Logs(r0, readings)) + run
      ensures FullRun(run, active[..], ticks, completed)
      ensures FullTestTrace(trace[|t0|..], active[..], ticks, completed)
      ensures FullOutcome(active[..], run, completed, r0, readings, d0, data[..], o0, relay[..])
      ensures !completed ==> ticks == maxTicks
      ensures FullStamped(r0, readings, run, active[..], c0)
      ensures clock == c0 + SPAN * (ActiveCount(active[..]) + RecordsIn(run))
    {
      ghost var t1, r1, d1, o1, c1 := trace, readings, data[..], relay[..], clock;
      ticks, completed, run := RunTicks(maxTicks, t1);
      FullStamps(active[..], r0, r1, readings, c0, run, c1);
      FullOutcomeOf(run, active[..], ticks, completed, r0, r1, readings, d0, d1, data[..], o0, o1, relay[..]);
      PreludeEventsTags(active[..], d0, Logs(r0, readings));
      FullTestOf(t0, PreludeEvents(active[..], d0, Logs(r0, readings)), trace, run, active[..], ticks, completed);
    }

    /** The tick loop of `startFullTest`, from the state the prelude left:
        every active channel's relay on. */
    method RunTicks(maxTicks: nat, ghost t1: seq<Event>) returns (ticks: nat, completed: bool, ghost run: seq<Event>)
      requires Valid() && trace == t1
      requires forall j :: 0 <= j < NUM_BATTERIES && active[j] ==> relay[j]
      modifies data, relay, this`clock, this`trace, this`readings
      ensures Valid() && trace == t1 + run && FullRun(run, active[..], ticks, completed)
      ensures forall j :: 0 <= j < NUM_BATTERIES ==>
        if active[j] then
          Ticking(old(readings[j]), readings[j], old(data[j]), data[j], RecordCount(Of(run, j))) &&
          ReportedSince(Of(run, j), j, old(readings[j]), readings[j], old(data[j])) &&
          relay[j] == !Finished(Of(run, j))
        else readings[j] == old(readings[j]) && data[j] == old(data[j]) && relay[j] == old(relay[j])
      ensures !completed ==> ticks == maxTicks
      ensures clock == old(clock) + SPAN * RecordsIn(run)
      ensures forall j :: 0 <= j < NUM_BATTERIES ==> Stamped(run, j, readings[j], |old(readings[j])|, old(clock))
    {
      ghost var r0, d0, o0 := readings, data[..], relay[..];
      var finished := new bool[NUM_BATTERIES](_ => false);
      TickBegin([], active[..], finished[..], r0, d0, o0);
      var stillRunning;
      ticks, stillRunning, run := TickLoop(maxTicks, finished, t1, r0, d0, o0);
      completed := !stillRunning;
      FullRunOf(run, active[..], finished[..], readings, data[..], relay[..], ticks, completed, r0, d0, o0);
    }

    /** The `while (stillRunning)` loop itself, cut off after `maxTicks`
        ticks; `finished` is the source's local array of that name. */
    method TickLoop(maxTicks: nat, finished: array<bool>, ghost t1: seq<Event>, ghost r0: seq<seq<Reading>>,
                    ghost d0: seq<BatteryData>, ghost o0: seq<bool>)
      returns (ticks: nat, stillRunning: bool, ghost run: seq<Event>)
      requires Valid() && finished.Length == NUM_BATTERIES && finished != active && finished != relay
      requires trace == t1 && readings == r0
      requires LoopState([], active[..], finished[..], readings, data[..], relay[..], 0, r0, d0, o0, true)
      modifies data, relay, finished, this`clock, this`trace, this`readings
      ensures Valid() && trace == t1 + run
      ensures LoopState(run, active[..], finished[..], readings, data[..], relay[..], ticks, r0, d0, o0, stillRunning)
      ensures stillRunning ==> ticks == maxTicks
      ensures clock == old(clock) + SPAN * RecordsIn(run)
      ensures forall j :: 0 <= j < NUM_BATTERIES ==> Stamped(run, j, readings[j], |r0[j]|, old(clock))
    {
      run := [];
      stillRunning := true;
      ticks := 0;
      while stillRunning && ticks < maxTicks
        invariant Valid() && trace == t1 + run && ticks <= maxTicks
        invariant LoopState(run, active[..], finished[..], readings, data[..], relay[..], ticks, r0, d0, o0, stillRunning)
        invariant clock == old(clock) + SPAN * RecordsIn(run)
        invariant forall j :: 0 <= j < NUM_BATTERIES ==> Stamped(run, j, readings[j], |r0[j]|, old(clock))
        decreases maxTicks - ticks
      {
        stillRunning, run := FullTick(ticks, finished, t1, r0, d0, o0, run, old(clock));
        ticks := ticks + 1;
      }
    }

    /** One tick of the loop of `startFullTest`: each active channel not
        yet finished takes its turn, in channel order; the result is whether
        some channel stayed above the cutoff. */
    method FullTick(sec: nat, finished: array<bool>, ghost t1: seq<Event>, ghost r0: seq<seq<Reading>>,
                    ghost d0: seq<BatteryData>, ghost o0: seq<bool>, ghost run: seq<Event>, ghost c1: nat)
      returns (stillRunning: bool, ghost run1: seq<Event>)
      requires Valid() && finished.Length == NUM_BATTERIES && finished != active && finished != relay
      requires trace == t1 + run
      requires LoopState(run, active[..], finished[..], readings, data[..], relay[..], sec, r0, d0, o0, true)
      requires clock == c1 + SPAN * RecordsIn(run)
      requires forall j :: 0 <= j < NUM_BATTERIES ==> Stamped(run, j, readings[j], |r0[j]|, c1)
      modifies data, relay, finished, this`clock, this`trace, this`readings
      ensures Valid() && trace == t1 + run1
      ensures LoopState(run1, active[..], finished[..], readings, data[..], relay[..], sec + 1, r0, d0, o0, stillRunning)
      ensures clock == c1 + SPAN * RecordsIn(run1)
      ensures forall j :: 0 <= j < NUM_BATTERIES ==> Stamped(run1, j, readings[j], |r0[j]|, c1)
    {
      ghost var f0 := finished[..];
      run1 := run;
      stillRunning := false;
      for i := 0 to NUM_BATTERIES
        invariant Valid() && trace == t1 + run1
        invariant TickState(run1, active[..], finished[..], f0, readings, data[..], relay[..], i, sec, r0, d0, o0, stillRunning)
        invariant clock == c1 + SPAN * RecordsIn(run1)
        invariant forall j :: 0 <= j < NUM_BATTERIES ==> Stamped(run1, j, readings[j], |r0[j]|, c1)
      {
        stillRunning, run1 := ChannelTurn(i, sec, finished, f0, t1, r0, d0, o0, run1, stillRunning, c1);
      }
      TickEnd(run1, active[..], finished[..], f0, readings, data[..], relay[..], sec, r0, d0, o0, stillRunning);
    }

    /** Channel `i`'s part of a tick: its turn if it is active and not yet
        finished, nothing otherwise. */
    method ChannelTurn(i: nat, sec: nat, finished: array<bool>, ghost f0: seq<bool>, ghost t1: seq<Event>,
                       ghost r0: seq<seq<Reading>>, ghost d0: seq<BatteryData>, ghost o0: seq<bool>,
                       ghost run: seq<Event>, running: bool, ghost c1: nat)
      returns (stillRunning: bool, ghost run1: seq<Event>)
      requires Valid() && finished.Length == NUM_BATTERIES && finished != active && finished != relay
      requires i < NUM_BATTERIES && trace == t1 + run
      requires TickState(run, active[..], finished[..], f0, readings, data[..], relay[..], i, sec, r0, d0, o0, running)
      requires clock == c1 + SPAN * RecordsIn(run)
      requires forall j :: 0 <= j < NUM_BATTERIES ==> Stamped(run, j, readings[j], |r0[j]|, c1)
      modifies data, relay, finished, this`clock, this`trace, this`readings
      ensures Valid() && trace == t1 + run1
      ensures TickState(run1, active[..], finished[..], f0, readings, data[..], relay[..], i + 1, sec, r0, d0, o0, stillRunning)
      ensures clock == c1 + SPAN * RecordsIn(run1)
      ensures forall j :: 0 <= j < NUM_BATTERIES ==> Stamped(run1, j, readings[j], |r0[j]|, c1)
    {
      stillRunning, run1 := running, run;
      ghost var fin, rs, ds, rels := finished[..], readings, data[..], relay[..];
      if active[i] && !finished[i] {
        var done := DischargeStep(i, sec);
        ghost var e := data[i];
        TickStamp(run, active[..], fin, f0, rs, ds, rels, i, sec, r0, d0, o0, running, readings, e, c1);
        Reassociate3(t1, run, Turn(i, sec, e));
        run1 := run + Turn(i, sec, e);
        if done {
          finished[i] := true;
        } else {
          stillRunning := true;
        }
        assert finished[..] == fin[i := done];
        TickTurn(run, active[..], fin, f0, rs, ds, rels, i, sec, r0, d0, o0, running,
                 run1, finished[..], readings, data[..], relay[..], done, stillRunning);
      } else {
        TickSkip(run, active[..], fin, f0, rs, ds, rels, i, sec, r0, d0, o0, running);
      }
    }

    /** One line handled by `loop`: trimmed, then a `START:` line parsed and
        run as a timed test, a `FULLTEST:` line parsed and run as a
        full-discharge test (`maxTicks` bounds it as in `StartFullTest`),
        and any other line ignored. */
    method HandleLine(line: string, maxTicks: nat) returns (kind: Kind, ticks: nat, completed: bool, ghost run: seq<Event>)
      requires Valid()
      modifies active, data, relay, this`testDuration, this`clock, this`trace, this`readings
      ensures Valid() && kind == Classify(Trim(line))
      ensures kind == Ignored ==>
        trace == old(trace) && readings == old(readings) && testDuration == old(testDuration) &&
        active[..] == old(active[..]) && data[..] == old(data[..]) && relay[..] == old(relay[..]) &&
        clock == old(clock)
      ensures kind != Ignored ==>
        active[..] == ParsePlan(Trim(line)).active && testDuration == ParsePlan(Trim(line)).duration
      ensures forall i :: 0 <= i < NUM_BATTERIES ==> old(readings[i]) <= readings[i]
      ensures kind == Timed ==>
        Idle() && trace == old(trace) + TimedEvents(active[..], testDuration, old(data[..]), Logs(old(readings), readings)) &&
        Tags(trace[|old(trace)|..]) == TimedTags(active[..], testDuration)
      ensures kind == Timed ==> PacedPasses(old(readings), readings, active[..], old(clock), clock, testDuration + 2)
      ensures kind == Timed ==> TimedOutcome(active[..], testDuration, old(readings), readings, old(data[..]), data[..])
      ensures kind == FullDischarge ==>
        trace == old(trace) + PreludeEvents(active[..], old(data[..]), Logs(old(readings), readings)) + run &&
        FullRun(run, active[..], ticks, completed) && FullTestTrace(trace[|old(trace)|..], active[..], ticks, completed) &&
        (!completed ==> ticks == maxTicks)
      ensures kind == FullDischarge ==>
        FullStamped(old(readings), readings, run, active[..], old(clock)) &&
        clock == old(clock) + SPAN * (ActiveCount(active[..]) + RecordsIn(run))
      ensures kind == FullDischarge ==>
        FullOutcome(active[..], run, completed, old(readings), readings, old(data[..]), data[..],
                    old(relay[..]), relay[..])
    {
      var command := Trim(line);
      kind := Classify(command);
      ticks, completed, run := 0, false, [];
      if "START:" <= command {
        TimedCommand(command);
        assert kind == Timed;
      } else if "FULLTEST:" <= command {
        ticks, completed, run := FullCommand(command, maxTicks);
        assert kind == FullDischarge;
      } else {
        assert kind == Ignored;
      }
    }

    /** A `START:` command: parsed, then run as a timed test. */
    method TimedCommand(command: string)
      requires Valid()
      modifies active, data, relay, this`testDuration, this`clock, this`trace, this`readings
      ensures Valid() && Idle()
      ensures active[..] == ParsePlan(command).active && testDuration == ParsePlan(command).duration
      ensures forall i :: 0 <= i < NUM_BATTERIES ==> old(readings[i]) <= readings[i]
      ensures trace == old(trace) + TimedEvents(active[..], testDuration, old(data[..]), Logs(old(readings), readings))
      ensures Tags(trace[|old(trace)|..]) == TimedTags(active[..], testDuration)
      ensures PacedPasses(old(readings), readings, active[..], old(clock), clock, testDuration + 2)
      ensures TimedOutcome(active[..], testDuration, old(readings), readings, old(data[..]), data[..])
    {
      ParseCommand(command);
      ghost var c0 := clock;
      StartTesting();
      assert c0 == old(clock);
    }

    /** A `FULLTEST:` command: parsed, then run as a full-discharge test
        bounded by `maxTicks`. */
    method FullCommand(command: string, maxTicks: nat) returns (ticks: nat, completed: bool, ghost run: seq<Event>)
      requires Valid()
      modifies active, data, relay, this`testDuration, this`clock, this`trace, this`readings
      ensures Valid()
      ensures active[..] == ParsePlan(command).active && testDuration == ParsePlan(command).duration
      ensures forall i :: 0 <= i < NUM_BATTERIES ==> old(readings[i]) <= readings[i]
      ensures trace == old(trace) + PreludeEvents(active[..], old(data[..]), Logs(old(readings), readings)) + run
      ensures FullRun(run, active[..], ticks, completed) && FullTestTrace(trace[|old(trace)|..], active[..], ticks, completed)
      ensures !completed ==> ticks == maxTicks
      ensures FullStamped(old(readings), readings, run, active[..], old(clock))
      ensures clock == old(clock) + SPAN * (ActiveCount(active[..]) + RecordsIn(run))
      ensures FullOutcome(active[..], run, completed, old(readings), readings, old(data[..]), data[..],
                          old(relay[..]), relay[..])
    {
      ParseCommand(command);
      ticks, completed, run := StartFullTest(maxTicks);
    }

    /** `parseCommand`: the flags cleared and the duration reset, then the
        flags of the listed channels set and the duration overridden. The
        result depends on `cmd` alone, so parsing again changes nothing. */
    method ParseCommand(cmd: string)
      requires Valid()
      modifies active, this`testDuration
      ensures Valid()
      ensures active[..] == ParsePlan(cmd).active && testDuration == ParsePlan(cmd).duration
    {
      ResetPlan();

      var firstColon := IndexOf(cmd, ':');
      if firstColon == -1 {
        SameFlags(active[..], ParsePlan(cmd).active);
        return;
      }

      var rest := Trim(cmd[firstColon + 1..]);
      PlanOfBody(cmd, rest);
      ParseBody(rest);
      SameFlags(active[..], ParsePlan(cmd).active);
    }

    /** Every activation flag cleared and the duration back at its
        default. */
    method ResetPlan()
      requires Valid()
      modifies active, this`testDuration
      ensures Valid() && testDuration == TEST_DURATION
      ensures forall k :: 0 <= k < NUM_BATTERIES ==> !active[k]
    {
      for i := 0 to NUM_BATTERIES
        invariant forall k :: 0 <= k < i ==> !active[k]
      {
        active[i] := false;
      }
      testDuration := TEST_DURATION;
    }

    /** `parseCommand` after the first colon: the trimmed rest split at its
        own first colon into the channel list and the duration text. */
    method ParseBody(rest: string)
      requires Valid() && testDuration == TEST_DURATION
      requires forall k :: 0 <= k < NUM_BATTERIES ==> !active[k]
      modifies active, this`testDuration
      ensures Valid()
      ensures forall k :: 0 <= k < NUM_BATTERIES ==> active[k] == Names(Split(ChannelPart(rest)), k)
      ensures testDuration == DurationOf(DurationPart(rest))
    {
      var secondColon := IndexOf(rest, ':');
      var battPart: string;
      var durationPart := "";
      if secondColon == -1 {
        battPart := rest;
      } else {
        battPart := rest[..secondColon];
        durationPart := rest[secondColon + 1..];
      }
      assert battPart == ChannelPart(rest) && durationPart == DurationPart(rest);
      ActivateListed(battPart);
      OverrideDuration(durationPart);
    }

    /** The optional duration override of `parseCommand`. */
    method OverrideDuration(durationPart: string)
      requires Valid() && testDuration == TEST_DURATION
      modifies this`testDuration
      ensures Valid() && testDuration == DurationOf(durationPart)
    {
      if |durationPart| > 0 {
        var d := ToInt(durationPart);
        if d > 0 && d <= MAX_DURATION {
          testDuration := d;
        }
      }
    }

    /** The token loop of `parseCommand`: each comma-separated token of
        `battPart` that names a channel sets that channel's flag. */
    method ActivateListed(battPart: string)
      requires Valid() && forall k :: 0 <= k < NUM_BATTERIES ==> !active[k]
      modifies active
      ensures forall k :: 0 <= k < NUM_BATTERIES ==> active[k] == Names(Split(battPart), k)
    {
      ghost var tokens := Split(battPart);
      ghost var seen: seq<string> := [];
      var part := battPart;
      while |part| > 0
        invariant Valid()
        invariant tokens == seen + Split(part)
        invariant forall k :: 0 <= k < NUM_BATTERIES ==> active[k] == Names(seen, k)
        decreases |part|
      {
        var commaPos := IndexOf(part, ',');
        var numStr := if commaPos == -1 then part else part[..commaPos];
        ActivateToken(numStr);
        NamesSnoc(seen, numStr);
        if commaPos == -1 {
          assert Split(part) == [part];
          seen := seen + [numStr];
          return;
        }
        SplitStep(seen, part, commaPos);
        seen := seen + [numStr];
        part := part[commaPos + 1..];
      }
      assert tokens == seen + [""];
      ToIntNoDigits("");
      NamesSnoc(seen, "");
    }

    /** One token of the loop: the flag of the channel it names is set. */
    method ActivateToken(numStr: string)
      requires Valid()
      modifies active
      ensures forall k :: 0 <= k < NUM_BATTERIES ==> active[k] == (old(active[k]) || ToInt(numStr) == k + 1)
    {
      var battNum := ToInt(numStr) - 1;
      if battNum >= 0 && battNum < NUM_BATTERIES {
        active[battNum] := true;
      }
    }
  }

  /** One turn of the token loop takes the first token off `part`. */
  lemma SplitStep(seen: seq<string>, part: string, c: int)
    requires c == IndexOf(part, ',') && c != -1
    ensures seen + Split(part) == (seen + [part[..c]]) + Split(part[c + 1..])
  {
    var head, rest := part[..c], Split(part[c + 1..]);
    assert Split(part) == [head] + rest;
    Reassociate(seen, head, rest);
  }

  /** How the tick loop of a full-discharge test stopped by itself after
      `ticks` ticks: every active channel finished, and either there was
      none (one empty tick) or one of them finished in the last tick. */
  ghost predicate Ended(run: seq<Event>, active: seq<bool>, ticks: nat, fin: seq<bool>)
    requires |active| == |fin| == NUM_BATTERIES
  {
    (forall j :: 0 <= j < NUM_BATTERIES && active[j] ==> fin[j]) &&
    (((forall j :: 0 <= j < NUM_BATTERIES ==> !active[j]) && ticks == 1) ||
     (exists j :: 0 <= j < NUM_BATTERIES && active[j] && |Of(run, j)| == ticks + 2))
  }

  lemma TickEnded(run: seq<Event>, active: seq<bool>, sec: nat, f0: seq<bool>, fin: seq<bool>)
    requires |active| == |f0| == |fin| == NUM_BATTERIES
    requires forall j :: 0 <= j < NUM_BATTERIES && active[j] ==> fin[j]
    requires forall j :: 0 <= j < NUM_BATTERIES && active[j] && !f0[j] ==> |Of(run, j)| == sec + 3
    requires sec == 0 ==> forall j :: 0 <= j < NUM_BATTERIES ==> !f0[j]
    requires sec > 0 ==> Unfinished(active, f0)
    ensures Ended(run, active, sec + 1, fin)
  {
    if exists j :: 0 <= j < NUM_BATTERIES && active[j] && !f0[j] {
      var j :| 0 <= j < NUM_BATTERIES && active[j] && !f0[j];
      assert |Of(run, j)| == (sec + 1) + 2;
    }
  }

  /** Channel `j` during the tick at `sec`, the turns of channels before
      `i` taken: an active channel is `ChannelState` one tick further once
      its turn is past, keeps its flag until then, and if it finished in
      this tick did so with its record at `sec`; an inactive channel has
      no events and is untouched. */
  ghost predicate ChannelTick(p: seq<Event>, j: int, act: bool, i: nat, sec: nat, done: bool, done0: bool,
                              rs1: seq<Reading>, d1: BatteryData, relayOn: bool,
                              rs0: seq<Reading>, e0: BatteryData, relay0: bool)
  {
    if act then
      ChannelState(p, j, if j < i then sec + 1 else sec, done, rs0, rs1, e0, d1, relayOn) &&
      (j >= i ==> done == done0) && (done0 ==> done) && (j < i && done && !done0 ==> |p| == sec + 3)
    else p == [] && !done && rs1 == rs0 && d1 == e0 && relayOn == relay0
  }

  /** The tick loop during the tick at `sec`, before channel `i`'s turn:
      `fin` the finished flags now and `f0` at the start of the tick,
      `rs`, `ds` and `rels` the logs, records and relays now, `r0`, `d0`
      and `o0` as the test began; `running` says whether a channel before
      `i` stayed above the cutoff. */
  ghost predicate TickState(run: seq<Event>, active: seq<bool>, fin: seq<bool>, f0: seq<bool>,
                            rs: seq<seq<Reading>>, ds: seq<BatteryData>, rels: seq<bool>, i: nat, sec: nat,
                            r0: seq<seq<Reading>>, d0: seq<BatteryData>, o0: seq<bool>, running: bool)
  {
    |active| == |fin| == |f0| == |rs| == |ds| == |rels| == |r0| == |d0| == |o0| == NUM_BATTERIES &&
    i <= NUM_BATTERIES && InOrder(run) && Owned(run) && Prompt(run) && RecordsBefore(run, sec, i) &&
    ChannelsTick(run, active, fin, f0, rs, ds, rels, i, sec, r0, d0, o0) &&
    Running(active, fin, i, running)
  }

  ghost predicate ChannelsTick(run: seq<Event>, active: seq<bool>, fin: seq<bool>, f0: seq<bool>,
                               rs: seq<seq<Reading>>, ds: seq<BatteryData>, rels: seq<bool>, i: nat, sec: nat,
                               r0: seq<seq<Reading>>, d0: seq<BatteryData>, o0: seq<bool>)
    requires |active| == |fin| == |f0| == |rs| == |ds| == |rels| == |r0| == |d0| == |o0| == NUM_BATTERIES
  {
    forall j :: 0 <= j < NUM_BATTERIES ==>
      ChannelTick(Of(run, j), j, active[j], i, sec, fin[j], f0[j], rs[j], ds[j], rels[j], r0[j], d0[j], o0[j])
  }

  /** The tick loop after `ticks` whole ticks: every channel ready for the
      next tick; while the loop runs, no channel finished before the first
      tick and some active channel is unfinished after it; once it stopped,
      `Ended`. */
  ghost predicate LoopState(run: seq<Event>, active: seq<bool>, fin: seq<bool>, rs: seq<seq<Reading>>,
                            ds: seq<BatteryData>, rels: seq<bool>, ticks: nat,
                            r0: seq<seq<Reading>>, d0: seq<BatteryData>, o0: seq<bool>, running: bool)
  {
    TickState(run, active, fin, fin, rs, ds, rels, 0, ticks, r0, d0, o0, false) &&
    (running ==> (ticks == 0 ==> forall j :: 0 <= j < NUM_BATTERIES ==> !fin[j]) &&
                 (ticks > 0 ==> Unfinished(active, fin))) &&
    (!running ==> Ended(run, active, ticks, fin))
  }

  /** Some active channel is not finished. */
  predicate Unfinished(active: seq<bool>, fin: seq<bool>)
    requires |active| == |fin| == NUM_BATTERIES
  {
    exists j :: 0 <= j < NUM_BATTERIES && active[j] && !fin[j]
  }

  /** Whether a channel before `i` is active and not finished. */
  predicate Running(active: seq<bool>, fin: seq<bool>, i: nat, running: bool)
    requires |active| == |fin| && i <= |active|
  {
    running <==> exists j :: 0 <= j < i && active[j] && !fin[j]
  }

  /** Right after the prelude: no events, every channel at its start and
      every active relay on. */
  lemma TickBegin(run: seq<Event>, active: seq<bool>, fin: seq<bool>,
                  r0: seq<seq<Reading>>, d0: seq<BatteryData>, o0: seq<bool>)
    requires run == [] && |active| == |fin| == |r0| == |d0| == |o0| == NUM_BATTERIES
    requires forall j :: 0 <= j < NUM_BATTERIES ==> !fin[j]
    requires forall j :: 0 <= j < NUM_BATTERIES && active[j] ==> o0[j]
    ensures LoopState(run, active, fin, r0, d0, o0, 0, r0, d0, o0, true)
  {
    forall j | 0 <= j < NUM_BATTERIES
      ensures ChannelTick(Of(run, j), j, active[j], 0, 0, fin[j], fin[j], r0[j], d0[j], o0[j], r0[j], d0[j], o0[j])
    {
      assert Of(run, j) == [];
      assert r0[j][|r0[j]|..] == [];
    }
  }

  /** Channel `i` takes its turn. */
  lemma TickTurn(run: seq<Event>, active: seq<bool>, fin: seq<bool>, f0: seq<bool>,
                 rs: seq<seq<Reading>>, ds: seq<BatteryData>, rels: seq<bool>, i: nat, sec: nat,
                 r0: seq<seq<Reading>>, d0: seq<BatteryData>, o0: seq<bool>, running: bool,
                 run': seq<Event>, fin': seq<bool>, rs': seq<seq<Reading>>, ds': seq<BatteryData>, rels': seq<bool>,
                 done: bool, running': bool)
    requires TickState(run, active, fin, f0, rs, ds, rels, i, sec, r0, d0, o0, running)
    requires i < NUM_BATTERIES && active[i] && !fin[i]
    requires |rs'| == |ds'| == NUM_BATTERIES
    requires Stepped(rs[i], rs'[i], ds[i], ds'[i], true, sec)
    requires rs' == rs[i := rs'[i]] && ds' == ds[i := ds'[i]]
    requires done == (ds'[i].voltage <= CUTOFF_VOLTAGE) && rels' == rels[i := !done && rels[i]]
    requires run' == run + Turn(i, sec, ds'[i]) && fin' == fin[i := done] && running' == (running || !done)
    ensures TickState(run', active, fin', f0, rs', ds', rels', i + 1, sec, r0, d0, o0, running')
  {
    RunTurn(run, i, sec, ds'[i]);
    TurnChannels(run, active, fin, f0, rs, ds, rels, i, sec, r0, d0, o0, rs', ds', rels', done);
    RunningTurn(active, fin, i, done, running);
    assert ChannelsTick(run', active, fin', f0, rs', ds', rels', i + 1, sec, r0, d0, o0);
    assert Running(active, fin', i + 1, running');
  }

  lemma TurnChannels(run: seq<Event>, active: seq<bool>, fin: seq<bool>, f0: seq<bool>,
                     rs: seq<seq<Reading>>, ds: seq<BatteryData>, rels: seq<bool>, i: nat, sec: nat,
                     r0: seq<seq<Reading>>, d0: seq<BatteryData>, o0: seq<bool>,
                     rs': seq<seq<Reading>>, ds': seq<BatteryData>, rels': seq<bool>, done: bool)
    requires |active| == |fin| == |f0| == |rs| == |ds| == |rels| == |r0| == |d0| == |o0| == NUM_BATTERIES
    requires ChannelsTick(run, active, fin, f0, rs, ds, rels, i, sec, r0, d0, o0)
    requires i < NUM_BATTERIES && active[i] && !fin[i]
    requires |rs'| == |ds'| == NUM_BATTERIES
    requires Stepped(rs[i], rs'[i], ds[i], ds'[i], true, sec)
    requires rs' == rs[i := rs'[i]] && ds' == ds[i := ds'[i]]
    requires done == (ds'[i].voltage <= CUTOFF_VOLTAGE) && rels' == rels[i := !done && rels[i]]
    ensures ChannelsTick(run + Turn(i, sec, ds'[i]), active, fin[i := done], f0, rs', ds', rels', i + 1, sec, r0, d0, o0)
  {
    var run', fin' := run + Turn(i, sec, ds'[i]), fin[i := done];
    OfTurn(run, i, sec, ds'[i]);
    forall j | 0 <= j < NUM_BATTERIES
      ensures ChannelTick(Of(run', j), j, active[j], i + 1, sec, fin'[j], f0[j], rs'[j], ds'[j], rels'[j], r0[j], d0[j], o0[j])
    {
      if j == i {
        TurnAdvance(Of(run, i), i, sec, r0[i], rs[i], rs'[i], d0[i], ds[i], ds'[i]);
      } else {
        ChannelTickStay(Of(run, j), j, active[j], i, sec, fin[j], f0[j], rs[j], ds[j], rels[j], r0[j], d0[j], o0[j]);
      }
    }
  }

  lemma RunningTurn(active: seq<bool>, fin: seq<bool>, i: nat, done: bool, running: bool)
    requires |active| == |fin| && i < |active| && active[i] && !fin[i]
    requires Running(active, fin, i, running)
    ensures Running(active, fin[i := done], i + 1, running || !done)
  {
    var fin' := fin[i := done];
    if running {
      var j :| 0 <= j < i && active[j] && !fin[j];
      assert !fin'[j];
    }
    if !done {
      assert !fin'[i];
    }
  }

  /** Channel `i`'s turn keeps every channel's tick readings stamped: its
      reading is the one for tick `sec`, and began after the reads of
      every record the loop has sent. */
  lemma TickStamp(run: seq<Event>, active: seq<bool>, fin: seq<bool>, f0: seq<bool>,
                  rs: seq<seq<Reading>>, ds: seq<BatteryData>, rels: seq<bool>, i: nat, sec: nat,
                  r0: seq<seq<Reading>>, d0: seq<BatteryData>, o0: seq<bool>, running: bool,
                  rs': seq<seq<Reading>>, d: BatteryData, c: nat)
    requires TickState(run, active, fin, f0, rs, ds, rels, i, sec, r0, d0, o0, running)
    requires i < NUM_BATTERIES && active[i] && !fin[i]
    requires forall j :: 0 <= j < NUM_BATTERIES ==> Stamped(run, j, rs[j], |r0[j]|, c)
    requires |rs'| == NUM_BATTERIES && (forall j :: 0 <= j < NUM_BATTERIES && j != i ==> rs'[j] == rs[j])
    requires |rs'[i]| == |rs[i]| + 1 && rs[i] <= rs'[i] && rs'[i][|rs[i]|].at == c + SPAN * RecordsIn(run)
    ensures forall j :: 0 <= j < NUM_BATTERIES ==> Stamped(run + Turn(i, sec, d), j, rs'[j], |r0[j]|, c)
    ensures RecordsIn(run + Turn(i, sec, d)) == RecordsIn(run) + 1
  {
    assert ChannelTick(Of(run, i), i, active[i], i, sec, fin[i], f0[i], rs[i], ds[i], rels[i], r0[i], d0[i], o0[i]);
    assert |rs[i]| == |r0[i]| + sec;
    forall j | 0 <= j < NUM_BATTERIES
      ensures Stamped(run + Turn(i, sec, d), j, rs'[j], |r0[j]|, c)
    {
      StampTurn(run, i, sec, d, j, rs[j], rs'[j], |r0[j]|, c);
    }
    RecordsInTurn(run, i, sec, d);
  }

  /** Channel `i` has no turn: inactive, or finished in an earlier tick. */
  lemma TickSkip(run: seq<Event>, active: seq<bool>, fin: seq<bool>, f0: seq<bool>,
                 rs: seq<seq<Reading>>, ds: seq<BatteryData>, rels: seq<bool>, i: nat, sec: nat,
                 r0: seq<seq<Reading>>, d0: seq<BatteryData>, o0: seq<bool>, running: bool)
    requires TickState(run, active, fin, f0, rs, ds, rels, i, sec, r0, d0, o0, running)
    requires i < NUM_BATTERIES && !(active[i] && !fin[i])
    ensures TickState(run, active, fin, f0, rs, ds, rels, i + 1, sec, r0, d0, o0, running)
  {
    forall j | 0 <= j < NUM_BATTERIES
      ensures ChannelTick(Of(run, j), j, active[j], i + 1, sec, fin[j], f0[j], rs[j], ds[j], rels[j], r0[j], d0[j], o0[j])
    {
      if j == i {
        if active[i] {
          ChannelLater(Of(run, i), i, sec, r0[i], rs[i], d0[i], ds[i], rels[i]);
        }
      } else {
        ChannelTickStay(Of(run, j), j, active[j], i, sec, fin[j], f0[j], rs[j], ds[j], rels[j], r0[j], d0[j], o0[j]);
      }
    }
  }

  lemma ChannelTickStay(p: seq<Event>, j: int, act: bool, i: nat, sec: nat, done: bool, done0: bool,
                        rs1: seq<Reading>, d1: BatteryData, relayOn: bool,
                        rs0: seq<Reading>, e0: BatteryData, relay0: bool)
    requires j != i && ChannelTick(p, j, act, i, sec, done, done0, rs1, d1, relayOn, rs0, e0, relay0)
    ensures ChannelTick(p, j, act, i + 1, sec, done, done0, rs1, d1, relayOn, rs0, e0, relay0)
  {
  }

  /** The tick over: every channel one tick further. */
  lemma TickEnd(run: seq<Event>, active: seq<bool>, fin: seq<bool>, f0: seq<bool>,
                rs: seq<seq<Reading>>, ds: seq<BatteryData>, rels: seq<bool>, sec: nat,
                r0: seq<seq<Reading>>, d0: seq<BatteryData>, o0: seq<bool>, running: bool)
    requires TickState(run, active, fin, f0, rs, ds, rels, NUM_BATTERIES, sec, r0, d0, o0, running)
    requires sec == 0 ==> forall j :: 0 <= j < NUM_BATTERIES ==> !f0[j]
    requires sec > 0 ==> Unfinished(active, f0)
    ensures LoopState(run, active, fin, rs, ds, rels, sec + 1, r0, d0, o0, running)
  {
    forall j | 0 <= j < NUM_BATTERIES
      ensures ChannelTick(Of(run, j), j, active[j], 0, sec + 1, fin[j], fin[j], rs[j], ds[j], rels[j], r0[j], d0[j], o0[j])
    {
      assert ChannelTick(Of(run, j), j, active[j], NUM_BATTERIES, sec, fin[j], f0[j], rs[j], ds[j], rels[j], r0[j], d0[j], o0[j]);
    }
    if !running {
      TickEnded(run, active, sec, f0, fin);
    }
  }

  /** What the tick loop has done when it stops after `ticks` ticks. */
  lemma FullRunOf(run: seq<Event>, active: seq<bool>, fin: seq<bool>, rs: seq<seq<Reading>>, ds: seq<BatteryData>,
                  rels: seq<bool>, ticks: nat, completed: bool,
                  r0: seq<seq<Reading>>, d0: seq<BatteryData>, o0: seq<bool>)
    requires LoopState(run, active, fin, rs, ds, rels, ticks, r0, d0, o0, !completed)
    ensures FullRun(run, active, ticks, completed)
    ensures forall j :: 0 <= j < NUM_BATTERIES ==>
      if active[j] then
        Ticking(r0[j], rs[j], d0[j], ds[j], RecordCount(Of(run, j))) &&
        ReportedSince(Of(run, j), j, r0[j], rs[j], d0[j]) && rels[j] == !Finished(Of(run, j))
      else rs[j] == r0[j] && ds[j] == d0[j] && rels[j] == o0[j]
  {
    forall j | 0 <= j < NUM_BATTERIES
      ensures if active[j] then Progress(Of(run, j), j, ticks, fin[j]) else Of(run, j) == []
    {
      assert ChannelTick(Of(run, j), j, active[j], 0, ticks, fin[j], fin[j], rs[j], ds[j], rels[j], r0[j], d0[j], o0[j]);
    }
  }

  /** A tick loop that stopped by itself has finished every active channel. */
  lemma CompletedFinished(run: seq<Event>, active: seq<bool>, ticks: nat)
    requires |active| == NUM_BATTERIES && FullRun(run, active, ticks, true)
    ensures forall i :: 0 <= i < NUM_BATTERIES && active[i] ==> Finished(Of(run, i))
  {
  }

  /** The prelude as sent, then the tick loop, has the full-discharge shape. */
  lemma FullTestOf(t0: seq<Event>, prelude: seq<Event>, t: seq<Event>, run: seq<Event>, active: seq<bool>,
                   ticks: nat, completed: bool)
    requires |active| == NUM_BATTERIES
    requires Tags(prelude) == Prelude(active) && t == t0 + prelude + run
    requires FullRun(run, active, ticks, completed)
    ensures |t0| <= |t| && FullTestTrace(t[|t0|..], active, ticks, completed)
  {
    assert t[|t0|..] == prelude + run;
    assert (prelude + run)[..|prelude|] == prelude && (prelude + run)[|prelude|..] == run;
  }

  lemma PlanOfBody(cmd: string, rest: string)
    requires ':' in cmd && rest == Trim(cmd[IndexOf(cmd, ':') + 1..])
    ensures forall k :: 0 <= k < NUM_BATTERIES ==> ParsePlan(cmd).active[k] == Names(Split(ChannelPart(rest)), k)
    ensures ParsePlan(cmd).duration == DurationOf(DurationPart(rest))
  {
    assert rest == Body(cmd);
  }

  lemma SameFlags(a: seq<bool>, b: seq<bool>)
    requires |a| == |b| && forall k :: 0 <= k < |a| ==> a[k] == b[k]
    ensures a == b
  {
  }

  /** What the four phases of a timed test appended, taken as one. */
  lemma Concluded(t0: seq<Event>, t: seq<Event>, p: seq<Event>, q: seq<Event>, a: seq<Event>, f: seq<Event>,
                  e: seq<Event>)
    requires t == t0 + p + q + a + f + [TestComplete] && p + q + a + f + [TestComplete] == e
    ensures t == t0 + e && t[|t0|..] == e
  {
    Regroup5(t0, p, q, a, f, [TestComplete]);
  }

  lemma Regroup5<T>(t: seq<T>, a: seq<T>, b: seq<T>, c: seq<T>, d: seq<T>, e: seq<T>)
    ensures t + a + b + c + d + e == t + (a + b + c + d + e)
  {
  }

  lemma Reassociate3<T>(a: seq<T>, b: seq<T>, c: seq<T>)
    ensures a + b + c == a + (b + c)
  {
  }

  lemma Reassociate<T>(a: seq<T>, x: T, b: seq<T>)
    ensures (a + [x]) + b == a + ([x] + b)
  {
  }

  lemma NamesSnoc(tokens: seq<string>, t: string)
    ensures forall k :: Names(tokens + [t], k) <==> Names(tokens, k) || ToInt(t) == k + 1
  {
    forall k ensures Names(tokens + [t], k) <==> Names(tokens, k) || ToInt(t) == k + 1 {
      if Names(tokens, k) {
        var j :| 0 <= j < |tokens| && ToInt(tokens[j]) == k + 1;
        assert (tokens + [t])[j] == tokens[j];
      }
      if ToInt(t) == k + 1 {
        assert (tokens + [t])[|tokens|] == t;
      }
    }
  }
}
