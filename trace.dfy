/** What the tester lets the outside world see, in order: the serial lines
    (measurement records and completion markers) and the writes to the
    relay pins. The module also holds the shapes the two test state
    machines give that sequence, and the per-channel views of them. */
module Trace {
  import opened Config
  import opened Measurement

  /** The values one `sendSerialData` line carries, before their decimal
      formatting; capacity is converted to mAh. */
  datatype Snapshot = Snapshot(
    voltage: real,
    shuntHigh: real,
    shuntLow: real,
    deff: real,
    current: real,
    mAh: real)

  datatype Event =
    | Record(battery: int, sec: int, snapshot: Snapshot)  // BATT:<n>|SEC:<s>|...
    | TestComplete                                        // TEST_COMPLETE
    | BatteryComplete(battery: int)                       // TEST_COMPLETE:<n>
    | RelayWrite(channel: int, on: bool)                  // digitalWrite(relayPin, HIGH or LOW)

  /** `sendSerialData(battNum, sec)`: the 1-based battery number, the
      elapsed second and the channel's current record. */
  function Report(battNum: int, sec: int, d: BatteryData): Event {
    Record(battNum + 1, sec,
           Snapshot(d.voltage, d.shuntHigh, d.shuntLow, d.deff, d.current, d.capacity * 1000.0))
  }

  /** An event without its measured values. */
  datatype Tag = Rec(battery: int, sec: int) | Done | BatteryDone(battery: int) | Relay(channel: int, on: bool)

  function TagOf(e: Event): Tag {
    match e
    case Record(b, s, _) => Rec(b, s)
    case TestComplete => Done
    case BatteryComplete(b) => BatteryDone(b)
    case RelayWrite(i, on) => Relay(i, on)
  }

  function Tags(t: seq<Event>): (r: seq<Tag>)
    ensures |r| == |t| && forall k :: 0 <= k < |t| ==> r[k] == TagOf(t[k])
  {
    seq(|t|, k requires 0 <= k < |t| => TagOf(t[k]))
  }

  lemma TagsConcat(a: seq<Event>, b: seq<Event>)
    ensures Tags(a + b) == Tags(a) + Tags(b)
  {
    assert forall k :: 0 <= k < |a + b| ==> Tags(a + b)[k] == (Tags(a) + Tags(b))[k];
  }

  /** What was appended to `t0` to give `t` has the tags `x`. */
  lemma TagsSuffix(t0: seq<Event>, t: seq<Event>, x: seq<Tag>)
    requires t0 <= t && Tags(t) == Tags(t0) + x
    ensures Tags(t[|t0|..]) == x
  {
    assert t == t0 + t[|t0|..];
    TagsConcat(t0, t[|t0|..]);
    assert (Tags(t0) + x)[|t0|..] == x;
  }

  /** The 0-based channel an event is about; -1 for `TEST_COMPLETE`. */
  function ChannelOf(t: Tag): int {
    match t
    case Rec(b, _) => b - 1
    case Done => -1
    case BatteryDone(b) => b - 1
    case Relay(i, _) => i
  }

  function Owner(e: Event): int {
    ChannelOf(TagOf(e))
  }

  // ---------------------------------------------------------------------
  // The timed test

  /** One record for each active channel among the first `n`, in index
      order, all at elapsed second `sec`. */
  function Phase(active: seq<bool>, n: nat, sec: int): seq<Tag>
    requires n <= |active|
  {
    if n == 0 then []
    else Phase(active, n - 1, sec) + (if active[n - 1] then [Rec(n, sec)] else [])
  }

  /** The relay of each active channel among the first `n` switched on. */
  function SwitchOn(active: seq<bool>, n: nat): seq<Tag>
    requires n <= |active|
  {
    if n == 0 then []
    else SwitchOn(active, n - 1) + (if active[n - 1] then [Relay(n - 1, true)] else [])
  }

  /** The relays of the first `n` channels switched off, active or not. */
  function AllOff(n: nat): seq<Tag> {
    if n == 0 then [] else AllOff(n - 1) + [Relay(n - 1, false)]
  }

  /** `s` sampling seconds: every active channel once per second. */
  function Sampling(active: seq<bool>, s: nat): seq<Tag> {
    if s == 0 then [] else Sampling(active, s - 1) + Phase(active, |active|, s - 1)
  }

  /** What both tests begin with: the no-load records at -2, then the
      relays of the active channels switched on. */
  function Prelude(active: seq<bool>): seq<Tag> {
    Phase(active, |active|, -2) + SwitchOn(active, |active|)
  }

  /** The shape of a timed test of `d` seconds. */
  function TimedTags(active: seq<bool>, d: nat): seq<Tag> {
    Prelude(active) + Sampling(active, d) + AllOff(|active|) + Phase(active, |active|, d + 3) + [Done]
  }

  /** The tags about channel `i`, in order. */
  function Only(ts: seq<Tag>, i: int): seq<Tag> {
    if |ts| == 0 then []
    else Only(ts[..|ts| - 1], i) + (if ChannelOf(ts[|ts| - 1]) == i then [ts[|ts| - 1]] else [])
  }

  lemma {:induction false} OnlyConcat(a: seq<Tag>, b: seq<Tag>, i: int)
    ensures Only(a + b, i) == Only(a, i) + Only(b, i)
  {
    if b == [] {
      assert a + b == a;
    } else {
      assert (a + b)[..|a + b| - 1] == a + b[..|b| - 1];
      OnlyConcat(a, b[..|b| - 1], i);
    }
  }

  /** Records of battery `i + 1` for the seconds 0 .. s-1. */
  function Seconds(i: int, s: nat): seq<Tag> {
    if s == 0 then [] else Seconds(i, s - 1) + [Rec(i + 1, s - 1)]
  }

  /** A single tag is kept exactly when it is about channel `i`. */
  lemma OnlyOne(t: Tag, i: int)
    ensures ChannelOf(t) == i ==> Only([t], i) == [t]
    ensures ChannelOf(t) != i ==> Only([t], i) == []
  {
    assert [t][..0] == [];
  }

  /** An active channel has exactly one record in a phase. */
  lemma {:induction false} OnlyPhaseIn(active: seq<bool>, n: nat, sec: int, i: int)
    requires 0 <= i < n <= |active| && active[i]
    ensures Only(Phase(active, n, sec), i) == [Rec(i + 1, sec)]
  {
    var before := Phase(active, n - 1, sec);
    if active[n - 1] {
      assert Phase(active, n, sec) == before + [Rec(n, sec)];
      OnlyConcat(before, [Rec(n, sec)], i);
      OnlyOne(Rec(n, sec), i);
      if i == n - 1 {
        OnlyPhaseOut(active, n - 1, sec, i);
      } else {
        OnlyPhaseIn(active, n - 1, sec, i);
      }
    } else {
      assert Phase(active, n, sec) == before + [];
      assert before + [] == before;
      OnlyPhaseIn(active, n - 1, sec, i);
    }
  }

  /** Any other channel has none. */
  lemma {:induction false} OnlyPhaseOut(active: seq<bool>, n: nat, sec: int, i: int)
    requires n <= |active| && !(0 <= i < n && active[i])
    ensures Only(Phase(active, n, sec), i) == []
  {
    if n > 0 {
      var before := Phase(active, n - 1, sec);
      OnlyPhaseOut(active, n - 1, sec, i);
      if active[n - 1] {
        assert Phase(active, n, sec) == before + [Rec(n, sec)];
        OnlyConcat(before, [Rec(n, sec)], i);
        OnlyOne(Rec(n, sec), i);
      } else {
        assert Phase(active, n, sec) == before + [];
        assert before + [] == before;
      }
    }
  }

  /** An active channel's relay is switched on once. */
  lemma {:induction false} OnlySwitchOnIn(active: seq<bool>, n: nat, i: int)
    requires 0 <= i < n <= |active| && active[i]
    ensures Only(SwitchOn(active, n), i) == [Relay(i, true)]
  {
    var before := SwitchOn(active, n - 1);
    if active[n - 1] {
      assert SwitchOn(active, n) == before + [Relay(n - 1, true)];
      OnlyConcat(before, [Relay(n - 1, true)], i);
      OnlyOne(Relay(n - 1, true), i);
      if i == n - 1 {
        OnlySwitchOnOut(active, n - 1, i);
      } else {
        OnlySwitchOnIn(active, n - 1, i);
      }
    } else {
      assert SwitchOn(active, n) == before + [];
      assert before + [] == before;
      OnlySwitchOnIn(active, n - 1, i);
    }
  }

  /** No other relay is switched on. */
  lemma {:induction false} OnlySwitchOnOut(active: seq<bool>, n: nat, i: int)
    requires n <= |active| && !(0 <= i < n && active[i])
    ensures Only(SwitchOn(active, n), i) == []
  {
    if n > 0 {
      var before := SwitchOn(active, n - 1);
      OnlySwitchOnOut(active, n - 1, i);
      if active[n - 1] {
        assert SwitchOn(active, n) == before + [Relay(n - 1, true)];
        OnlyConcat(before, [Relay(n - 1, true)], i);
        OnlyOne(Relay(n - 1, true), i);
      } else {
        assert SwitchOn(active, n) == before + [];
        assert before + [] == before;
      }
    }
  }

  /** Every relay among the first `n` is switched off once. */
  lemma {:induction false} OnlyAllOffIn(n: nat, i: int)
    requires 0 <= i < n
    ensures Only(AllOff(n), i) == [Relay(i, false)]
  {
    OnlyConcat(AllOff(n - 1), [Relay(n - 1, false)], i);
    OnlyOne(Relay(n - 1, false), i);
    if i == n - 1 {
      OnlyAllOffOut(n - 1, i);
    } else {
      OnlyAllOffIn(n - 1, i);
    }
  }

  lemma {:induction false} OnlyAllOffOut(n: nat, i: int)
    requires !(0 <= i < n)
    ensures Only(AllOff(n), i) == []
  {
    if n > 0 {
      OnlyConcat(AllOff(n - 1), [Relay(n - 1, false)], i);
      OnlyOne(Relay(n - 1, false), i);
      OnlyAllOffOut(n - 1, i);
    }
  }

  /** An active channel is recorded once per sampling second, in order. */
  lemma {:induction false} OnlySamplingActive(active: seq<bool>, s: nat, i: int)
    requires 0 <= i < |active| && active[i]
    ensures Only(Sampling(active, s), i) == Seconds(i, s)
  {
    if s > 0 {
      SamplingStep(active, s, i);
      OnlySamplingActive(active, s - 1, i);
    }
  }

  lemma SamplingStep(active: seq<bool>, s: nat, i: int)
    requires 0 <= i < |active| && active[i] && s > 0
    ensures Only(Sampling(active, s), i) == Only(Sampling(active, s - 1), i) + [Rec(i + 1, s - 1)]
    ensures Seconds(i, s) == Seconds(i, s - 1) + [Rec(i + 1, s - 1)]
  {
    var before, tick := Sampling(active, s - 1), Phase(active, |active|, s - 1);
    OnlyPhaseIn(active, |active|, s - 1, i);
    OnlyConcat(before, tick, i);
  }

  /** Any other channel never is. */
  lemma {:induction false} OnlySamplingOther(active: seq<bool>, s: nat, i: int)
    requires !(0 <= i < |active| && active[i])
    ensures Only(Sampling(active, s), i) == []
  {
    if s > 0 {
      var before, tick := Sampling(active, s - 1), Phase(active, |active|, s - 1);
      assert Sampling(active, s) == before + tick;
      OnlyConcat(before, tick, i);
      OnlySamplingOther(active, s - 1, i);
      OnlyPhaseOut(active, |active|, s - 1, i);
    }
  }

  /** Channel by channel, a timed test of `d` seconds is: for an active
      channel a no-load record at -2, its relay on, one record for each
      second 0 .. d-1, its relay off and a record at d+3; for an inactive
      channel only its relay switched off. */
  lemma TimedChannelView(active: seq<bool>, d: nat, i: int)
    requires 0 <= i < |active|
    ensures active[i] ==>
      Only(TimedTags(active, d), i) ==
        [Rec(i + 1, -2), Relay(i, true)] + Seconds(i, d) + [Relay(i, false), Rec(i + 1, d + 3)]
    ensures !active[i] ==> Only(TimedTags(active, d), i) == [Relay(i, false)]
  {
    if active[i] { TimedActiveView(active, d, i); } else { TimedIdleView(active, d, i); }
  }

  lemma TimedActiveView(active: seq<bool>, d: nat, i: int)
    requires 0 <= i < |active| && active[i]
    ensures Only(TimedTags(active, d), i) ==
      [Rec(i + 1, -2), Relay(i, true)] + Seconds(i, d) + [Relay(i, false), Rec(i + 1, d + 3)]
  {
    TimedParts(active, d, i);
    OnlyPhaseIn(active, |active|, -2, i);
    OnlySwitchOnIn(active, |active|, i);
    OnlySamplingActive(active, d, i);
    OnlyAllOffIn(|active|, i);
    OnlyPhaseIn(active, |active|, d + 3, i);
    OnlyOne(Done, i);
    Regroup(Rec(i + 1, -2), Relay(i, true), Seconds(i, d), Relay(i, false), Rec(i + 1, d + 3));
  }

  lemma TimedIdleView(active: seq<bool>, d: nat, i: int)
    requires 0 <= i < |active| && !active[i]
    ensures Only(TimedTags(active, d), i) == [Relay(i, false)]
  {
    TimedParts(active, d, i);
    OnlyPhaseOut(active, |active|, -2, i);
    OnlySwitchOnOut(active, |active|, i);
    OnlySamplingOther(active, d, i);
    OnlyAllOffIn(|active|, i);
    OnlyPhaseOut(active, |active|, d + 3, i);
    OnlyOne(Done, i);
    Shed(Relay(i, false));
  }

  lemma Shed<T>(x: T)
    ensures [] + [] + [] + [x] + [] + [] == [x]
  {
  }

  lemma Regroup<T>(a: T, b: T, s: seq<T>, c: T, e: T)
    ensures [a] + [b] + s + [c] + [e] + [] == [a, b] + s + [c, e]
  {
    assert [a] + [b] == [a, b];
    assert [a, b] + s + [c] + [e] == [a, b] + s + [c, e];
  }

  /** The one `TEST_COMPLETE` closes the test. */
  lemma TimedEndsOnce(active: seq<bool>, d: nat)
    ensures Only(TimedTags(active, d), -1) == [Done]
    ensures TimedTags(active, d)[|TimedTags(active, d)| - 1] == Done
  {
    TimedParts(active, d, -1);
    OnlyPhaseOut(active, |active|, -2, -1);
    OnlySwitchOnOut(active, |active|, -1);
    OnlySamplingOther(active, d, -1);
    OnlyAllOffOut(|active|, -1);
    OnlyPhaseOut(active, |active|, d + 3, -1);
    OnlyOne(Done, -1);
    Shed(Done);
  }

  /** The tags of a timed test about channel `i`, phase by phase. */
  lemma TimedParts(active: seq<bool>, d: nat, i: int)
    ensures Only(TimedTags(active, d), i) ==
      Only(Phase(active, |active|, -2), i) + Only(SwitchOn(active, |active|), i) +
      Only(Sampling(active, d), i) + Only(AllOff(|active|), i) +
      Only(Phase(active, |active|, d + 3), i) + Only([Done], i)
  {
    var p, o, s, f, q := Phase(active, |active|, -2), SwitchOn(active, |active|), Sampling(active, d),
                         AllOff(|active|), Phase(active, |active|, d + 3);
    OnlyConcat(p, o, i);
    OnlyConcat(p + o, s, i);
    OnlyConcat(p + o + s, f, i);
    OnlyConcat(p + o + s + f, q, i);
    OnlyConcat(p + o + s + f + q, [Done], i);
  }

  // ---------------------------------------------------------------------
  // The events with their values

  /** Two report lines are the same line only for the same channel and
      second and a record with the same reported values: the line
      identifies its channel, and mAh is the capacity in Ah times 1000. */
  lemma ReportIdentifies(i: int, sec: int, d: BatteryData, i': int, sec': int, d': BatteryData)
    ensures Owner(Report(i, sec, d)) == i && IsRecord(Report(i, sec, d), i, sec)
    ensures Report(i, sec, d) == Report(i', sec', d') <==>
      i == i' && sec == sec' && d.voltage == d'.voltage && d.shuntHigh == d'.shuntHigh &&
      d.shuntLow == d'.shuntLow && d.deff == d'.deff && d.current == d'.current && d.capacity == d'.capacity
  {
    if Report(i, sec, d) == Report(i', sec', d') {
      assert d.capacity * 1000.0 == d'.capacity * 1000.0;
    }
  }

  /** A phase as sent: each active channel among the first `n`, in channel
      order, reports its record in `ds` at second `sec`. */
  function PhaseEvents(active: seq<bool>, n: nat, sec: int, ds: seq<BatteryData>): seq<Event>
    requires n <= |active| && n <= |ds|
  {
    if n == 0 then []
    else PhaseEvents(active, n - 1, sec, ds) + (if active[n - 1] then [Report(n - 1, sec, ds[n - 1])] else [])
  }

  function SwitchOnEvents(active: seq<bool>, n: nat): seq<Event>
    requires n <= |active|
  {
    if n == 0 then []
    else SwitchOnEvents(active, n - 1) + (if active[n - 1] then [RelayWrite(n - 1, true)] else [])
  }

  function AllOffEvents(n: nat): seq<Event> {
    if n == 0 then [] else AllOffEvents(n - 1) + [RelayWrite(n - 1, false)]
  }

  lemma {:induction false} PhaseEventsTags(active: seq<bool>, n: nat, sec: int, ds: seq<BatteryData>)
    requires n <= |active| && n <= |ds|
    ensures Tags(PhaseEvents(active, n, sec, ds)) == Phase(active, n, sec)
  {
    if n > 0 {
      var last := if active[n - 1] then [Report(n - 1, sec, ds[n - 1])] else [];
      PhaseEventsTags(active, n - 1, sec, ds);
      TagsConcat(PhaseEvents(active, n - 1, sec, ds), last);
    }
  }

  lemma {:induction false} SwitchOnEventsTags(active: seq<bool>, n: nat)
    requires n <= |active|
    ensures Tags(SwitchOnEvents(active, n)) == SwitchOn(active, n)
  {
    if n > 0 {
      var last := if active[n - 1] then [RelayWrite(n - 1, true)] else [];
      SwitchOnEventsTags(active, n - 1);
      TagsConcat(SwitchOnEvents(active, n - 1), last);
    }
  }

  lemma {:induction false} AllOffEventsTags(n: nat)
    ensures Tags(AllOffEvents(n)) == AllOff(n)
  {
    if n > 0 {
      AllOffEventsTags(n - 1);
      TagsConcat(AllOffEvents(n - 1), [RelayWrite(n - 1, false)]);
    }
  }

  /** A phase reports only the records of the active channels. */
  lemma {:induction false} PhaseEventsSame(active: seq<bool>, n: nat, sec: int, ds: seq<BatteryData>, ds': seq<BatteryData>)
    requires n <= |active| && n <= |ds| && n <= |ds'|
    requires forall j :: 0 <= j < n && active[j] ==> ds[j] == ds'[j]
    ensures PhaseEvents(active, n, sec, ds) == PhaseEvents(active, n, sec, ds')
  {
    if n > 0 {
      PhaseEventsSame(active, n - 1, sec, ds, ds');
    }
  }

  /** The record each channel shows after the first `m + 1` readings of
      its test log `logs[j]`: `TestRecord` for an active channel with that
      many readings, the record from before the test otherwise. */
  function Shown(active: seq<bool>, d0: seq<BatteryData>, logs: seq<seq<Reading>>, m: nat, clearLast: bool)
    : (ds: seq<BatteryData>)
    requires |d0| == |active| && |logs| == |active|
    ensures |ds| == |active|
  {
    seq(|active|, j requires 0 <= j < |active| =>
      if active[j] && m < |logs[j]| then TestRecord(d0[j], logs[j], m, clearLast) else d0[j])
  }

  /** Longer logs do not change what was shown earlier. */
  lemma ShownGrow(active: seq<bool>, d0: seq<BatteryData>, logs: seq<seq<Reading>>, logs': seq<seq<Reading>>,
                  m: nat, clearLast: bool, sec: int)
    requires |d0| == |active| && |logs| == |active| && |logs'| == |active|
    requires forall j :: 0 <= j < |active| && active[j] ==> m < |logs[j]| && logs[j] <= logs'[j]
    ensures PhaseEvents(active, |active|, sec, Shown(active, d0, logs', m, clearLast)) ==
            PhaseEvents(active, |active|, sec, Shown(active, d0, logs, m, clearLast))
  {
    var a, b := Shown(active, d0, logs', m, clearLast), Shown(active, d0, logs, m, clearLast);
    forall j | 0 <= j < |active| && active[j]
      ensures a[j] == b[j]
    {
      TestRecordPrefix(d0[j], logs[j], logs'[j], m, clearLast);
    }
    PhaseEventsSame(active, |active|, sec, a, b);
  }

  /** What both tests begin with, as sent: every active channel's record
      after its no-load reading, then the relays of the active channels
      switched on. (After one reading `clearLast` plays no part.) */
  function PreludeEvents(active: seq<bool>, d0: seq<BatteryData>, logs: seq<seq<Reading>>): seq<Event>
    requires |d0| == |active| && |logs| == |active|
  {
    PhaseEvents(active, |active|, -2, Shown(active, d0, logs, 0, false)) + SwitchOnEvents(active, |active|)
  }

  /** The sampling seconds 0 .. s-1 of a timed test, as sent: at each
      second every active channel's record after that second's reading. */
  function SampleEvents(active: seq<bool>, s: nat, d0: seq<BatteryData>, logs: seq<seq<Reading>>): seq<Event>
    requires |d0| == |active| && |logs| == |active|
  {
    if s == 0 then []
    else SampleEvents(active, s - 1, d0, logs) + PhaseEvents(active, |active|, s - 1, Shown(active, d0, logs, s, true))
  }

  /** Everything a timed test of `d` seconds sends and writes, from the
      records before the test `d0` and the readings `logs` it took. */
  function TimedEvents(active: seq<bool>, d: nat, d0: seq<BatteryData>, logs: seq<seq<Reading>>): seq<Event>
    requires |d0| == |active| && |logs| == |active|
  {
    PreludeEvents(active, d0, logs) + SampleEvents(active, d, d0, logs) + AllOffEvents(|active|) +
    PhaseEvents(active, |active|, d + 3, Shown(active, d0, logs, d + 1, true)) + [TestComplete]
  }

  lemma PreludeEventsTags(active: seq<bool>, d0: seq<BatteryData>, logs: seq<seq<Reading>>)
    requires |d0| == |active| && |logs| == |active|
    ensures Tags(PreludeEvents(active, d0, logs)) == Prelude(active)
  {
    var p := PhaseEvents(active, |active|, -2, Shown(active, d0, logs, 0, false));
    PhaseEventsTags(active, |active|, -2, Shown(active, d0, logs, 0, false));
    SwitchOnEventsTags(active, |active|);
    TagsConcat(p, SwitchOnEvents(active, |active|));
  }

  /** One sampling second adds the tags of one phase. */
  lemma SampleEventsTagsStep(active: seq<bool>, s: nat, d0: seq<BatteryData>, logs: seq<seq<Reading>>)
    requires |d0| == |active| && |logs| == |active| && s > 0
    ensures Tags(SampleEvents(active, s, d0, logs)) ==
            Tags(SampleEvents(active, s - 1, d0, logs)) + Phase(active, |active|, s - 1)
  {
    var ds := Shown(active, d0, logs, s, true);
    PhaseEventsTags(active, |active|, s - 1, ds);
    TagsConcat(SampleEvents(active, s - 1, d0, logs), PhaseEvents(active, |active|, s - 1, ds));
  }

  lemma {:induction false} SampleEventsTags(active: seq<bool>, s: nat, d0: seq<BatteryData>, logs: seq<seq<Reading>>)
    requires |d0| == |active| && |logs| == |active|
    ensures Tags(SampleEvents(active, s, d0, logs)) == Sampling(active, s)
  {
    if s > 0 {
      SampleEventsTagsStep(active, s, d0, logs);
      SampleEventsTags(active, s - 1, d0, logs);
    }
  }

  /** Without their values the events of a timed test have its shape. */
  lemma TimedEventsTags(active: seq<bool>, d: nat, d0: seq<BatteryData>, logs: seq<seq<Reading>>)
    requires |d0| == |active| && |logs| == |active|
    ensures Tags(TimedEvents(active, d, d0, logs)) == TimedTags(active, d)
  {
    var p, s, f := PreludeEvents(active, d0, logs), SampleEvents(active, d, d0, logs), AllOffEvents(|active|);
    var ds := Shown(active, d0, logs, d + 1, true);
    var q := PhaseEvents(active, |active|, d + 3, ds);
    PreludeEventsTags(active, d0, logs);
    SampleEventsTags(active, d, d0, logs);
    AllOffEventsTags(|active|);
    PhaseEventsTags(active, |active|, d + 3, ds);
    TagsConcat(p, s);
    TagsConcat(p + s, f);
    TagsConcat(p + s + f, q);
    TagsConcat(p + s + f + q, [TestComplete]);
  }

  /** Longer logs do not change the prelude already sent. */
  lemma PreludeGrow(active: seq<bool>, d0: seq<BatteryData>, logs: seq<seq<Reading>>, logs': seq<seq<Reading>>)
    requires |d0| == |active| && |logs| == |active| && |logs'| == |active|
    requires forall j :: 0 <= j < |active| && active[j] ==> 0 < |logs[j]| && logs[j] <= logs'[j]
    ensures PreludeEvents(active, d0, logs') == PreludeEvents(active, d0, logs)
  {
    ShownGrow(active, d0, logs, logs', 0, false, -2);
  }

  /** Longer logs do not change the sampling seconds already sent. */
  lemma {:induction false} SampleEventsGrow(active: seq<bool>, s: nat, d0: seq<BatteryData>,
                                            logs: seq<seq<Reading>>, logs': seq<seq<Reading>>)
    requires |d0| == |active| && |logs| == |active| && |logs'| == |active|
    requires forall j :: 0 <= j < |active| && active[j] ==> s < |logs[j]| && logs[j] <= logs'[j]
    ensures SampleEvents(active, s, d0, logs') == SampleEvents(active, s, d0, logs)
  {
    if s > 0 {
      SampleEventsGrow(active, s - 1, d0, logs, logs');
      SampleEventsGrowStep(active, s, d0, logs, logs');
    }
  }

  lemma SampleEventsGrowStep(active: seq<bool>, s: nat, d0: seq<BatteryData>,
                             logs: seq<seq<Reading>>, logs': seq<seq<Reading>>)
    requires |d0| == |active| && |logs| == |active| && |logs'| == |active| && s > 0
    requires forall j :: 0 <= j < |active| && active[j] ==> s < |logs[j]| && logs[j] <= logs'[j]
    requires SampleEvents(active, s - 1, d0, logs') == SampleEvents(active, s - 1, d0, logs)
    ensures SampleEvents(active, s, d0, logs') == SampleEvents(active, s, d0, logs)
  {
    ShownGrow(active, d0, logs, logs', s, true, s - 1);
  }

  // ---------------------------------------------------------------------
  // The full-discharge test

  /** The events about channel `i`, in order. */
  function Of(t: seq<Event>, i: int): seq<Event> {
    if t == [] then []
    else Of(t[..|t| - 1], i) + (if Owner(t[|t| - 1]) == i then [t[|t| - 1]] else [])
  }

  lemma OfSnoc(t: seq<Event>, e: Event)
    ensures forall i :: Of(t + [e], i) == Of(t, i) + (if Owner(e) == i then [e] else [])
  {
    assert (t + [e])[..|t|] == t;
  }

  /** How many records, of any channel, `t` holds. */
  function RecordsIn(t: seq<Event>): (n: nat)
    ensures n <= |t|
  {
    if t == [] then 0 else RecordsIn(t[..|t| - 1]) + (if t[|t| - 1].Record? then 1 else 0)
  }

  /** A longer prefix holds every record a shorter one holds, and one
      more for each record between them. */
  lemma {:induction false} RecordsInPrefix(t: seq<Event>, p: nat, q: nat)
    requires p <= q <= |t|
    ensures RecordsIn(t[..p]) <= RecordsIn(t[..q])
    ensures p < q && t[p].Record? ==> RecordsIn(t[..p]) < RecordsIn(t[..q])
    decreases q - p
  {
    if p < q {
      RecordsInPrefix(t, p, q - 1);
      assert t[..q][..q - 1] == t[..q - 1];
    }
  }

  lemma RecordsInSnoc(t: seq<Event>, e: Event)
    ensures RecordsIn(t + [e]) == RecordsIn(t) + (if e.Record? then 1 else 0)
  {
    assert (t + [e])[..|t|] == t;
  }

  lemma RecordsInTurn(run: seq<Event>, i: int, sec: int, d: BatteryData)
    ensures RecordsIn(run + Turn(i, sec, d)) == RecordsIn(run) + 1
  {
    var e, t := Report(i, sec, d), Turn(i, sec, d);
    var a := run + [e];
    RecordsInSnoc(run, e);
    if d.voltage <= CUTOFF_VOLTAGE {
      var off, fin := RelayWrite(i, false), BatteryComplete(i + 1);
      var b := a + [off];
      RecordsInSnoc(a, off);
      RecordsInSnoc(b, fin);
      assert t == [e, off, fin];
      assert run + t == b + [fin];
    } else {
      assert t == [e];
      assert run + t == a;
    }
  }

  predicate IsRecord(e: Event, i: int, sec: int) {
    e.Record? && e.battery == i + 1 && e.sec == sec
  }

  /** A channel still discharging after `n` ticks: one record per tick
      0 .. n-1, every one above the cutoff. */
  predicate Discharging(p: seq<Event>, i: int, n: nat) {
    |p| == n &&
    forall k :: 0 <= k < n ==> IsRecord(p[k], i, k) && p[k].snapshot.voltage > CUTOFF_VOLTAGE
  }

  /** A channel that reached the cutoff: one record per tick up to and
      including the first at or below the cutoff, then its relay switched
      off and `TEST_COMPLETE:<i+1>`, and nothing after. */
  predicate Discharged(p: seq<Event>, i: int) {
    |p| >= 3 &&
    (forall k :: 0 <= k < |p| - 2 ==> IsRecord(p[k], i, k)) &&
    (forall k :: 0 <= k < |p| - 3 ==> p[k].snapshot.voltage > CUTOFF_VOLTAGE) &&
    p[|p| - 3].snapshot.voltage <= CUTOFF_VOLTAGE &&
    p[|p| - 2] == RelayWrite(i, false) && p[|p| - 1] == BatteryComplete(i + 1)
  }

  predicate Finished(p: seq<Event>) {
    |p| > 0 && p[|p| - 1].BatteryComplete?
  }

  /** Records appear tick by tick, and within a tick in channel order. */
  predicate InOrder(run: seq<Event>) {
    forall p, q :: 0 <= p < q < |run| && run[p].Record? && run[q].Record? ==>
      run[p].sec < run[q].sec || (run[p].sec == run[q].sec && run[p].battery < run[q].battery)
  }

  /** Every record so far comes before battery `b + 1`'s record at `sec`. */
  predicate RecordsBefore(run: seq<Event>, sec: int, b: int) {
    forall k :: 0 <= k < |run| && run[k].Record? ==>
      run[k].sec < sec || (run[k].sec == sec && run[k].battery <= b)
  }

  /** A record at or below the cutoff is followed at once by its
      channel's relay switched off and `TEST_COMPLETE:<n>`, in the same
      turn. */
  predicate Prompt(run: seq<Event>) {
    forall k :: 0 <= k < |run| ==> ClosedAt(run, k)
  }

  /** The event at `k`, if it is a record at or below the cutoff, is
      followed by those two. */
  predicate ClosedAt(run: seq<Event>, k: nat)
    requires k < |run|
  {
    run[k].Record? && run[k].snapshot.voltage <= CUTOFF_VOLTAGE ==>
      k + 2 < |run| && run[k + 1] == RelayWrite(run[k].battery - 1, false) &&
      run[k + 2] == BatteryComplete(run[k].battery)
  }

  /** A channel's relay-off and `TEST_COMPLETE:<n>` cannot wait for a
      later tick: a run where channel 1 reads 2.0 V at second 0 and is
      only closed after channel 2's record at second 1 is not a run. */
  lemma LateCloseRejected(s: Snapshot, s': Snapshot)
    requires s.voltage == 2.0 && s'.voltage == 4.0
    ensures !FullRun([Record(1, 0, s), Record(2, 0, s'), Record(2, 1, s'), RelayWrite(0, false), BatteryComplete(1)],
                     [true, true], 2, false)
  {
    var run := [Record(1, 0, s), Record(2, 0, s'), Record(2, 1, s'), RelayWrite(0, false), BatteryComplete(1)];
    assert !ClosedAt(run, 0);
  }

  /** Every event is about one of the channels. */
  predicate Owned(run: seq<Event>) {
    forall k :: 0 <= k < |run| ==> 0 <= Owner(run[k]) < NUM_BATTERIES
  }

  /** The tick loop of a full-discharge test after `ticks` ticks: records
      in order and each reaching the cutoff closed at once; when
      `completed`, the loop has stopped because no channel was above the
      cutoff, and otherwise (after at least one tick) some active channel
      has read above the cutoff on every tick so far. */
  predicate FullRun(run: seq<Event>, active: seq<bool>, ticks: nat, completed: bool)
    requires |active| == NUM_BATTERIES
  {
    InOrder(run) && Owned(run) && Prompt(run) &&
    (forall i :: 0 <= i < NUM_BATTERIES ==>
       if !active[i] then Of(run, i) == []
       else (Discharged(Of(run, i), i) && |Of(run, i)| - 2 <= ticks) ||
            (!completed && Discharging(Of(run, i), i, ticks))) &&
    (completed ==>
       ((forall i :: 0 <= i < NUM_BATTERIES ==> !active[i]) && ticks == 1) ||
       (exists i :: 0 <= i < NUM_BATTERIES && active[i] && |Of(run, i)| == ticks + 2)) &&
    (!completed && ticks > 0 ==>
       exists i :: 0 <= i < NUM_BATTERIES && active[i] && Discharging(Of(run, i), i, ticks))
  }

  /** A full-discharge test: the prelude, then the tick loop. */
  predicate FullTestTrace(t: seq<Event>, active: seq<bool>, ticks: nat, completed: bool)
    requires |active| == NUM_BATTERIES
  {
    |Prelude(active)| <= |t| &&
    Tags(t[..|Prelude(active)|]) == Prelude(active) &&
    FullRun(t[|Prelude(active)|..], active, ticks, completed)
  }

  /** A channel's state in a full-discharge test after `n` of its ticks:
      discharged (at most `n` records) or still discharging. */
  predicate Progress(p: seq<Event>, i: int, n: nat, done: bool) {
    if done then Discharged(p, i) && |p| - 2 <= n else Discharging(p, i, n)
  }

  /** Number of records in a channel's part of the tick loop. */
  function RecordCount(p: seq<Event>): (n: nat)
    ensures n <= |p|
  {
    if Finished(p) && |p| >= 2 then |p| - 2 else |p|
  }

  /** One channel's turn in a tick: its record, then, at or below the
      cutoff, its relay off and `TEST_COMPLETE:<n>`. */
  function Turn(i: int, sec: int, d: BatteryData): seq<Event> {
    [Report(i, sec, d)] + (if d.voltage <= CUTOFF_VOLTAGE then [RelayWrite(i, false), BatteryComplete(i + 1)] else [])
  }

  /** A turn extends the channel's own events and no other channel's. */
  lemma OfTurn(run: seq<Event>, i: int, sec: int, d: BatteryData)
    ensures Of(run + Turn(i, sec, d), i) == Of(run, i) + Turn(i, sec, d)
    ensures forall j :: j != i ==> Of(run + Turn(i, sec, d), j) == Of(run, j)
  {
    var e := Report(i, sec, d);
    OfSnoc(run, e);
    if d.voltage <= CUTOFF_VOLTAGE {
      var off, fin := RelayWrite(i, false), BatteryComplete(i + 1);
      OfSnoc(run + [e], off);
      OfSnoc(run + [e] + [off], fin);
      assert run + Turn(i, sec, d) == run + [e] + [off] + [fin];
    } else {
      assert run + Turn(i, sec, d) == run + [e];
    }
  }

  /** A turn keeps the tick loop's order, ownership and prompt closing. */
  lemma RunTurn(run: seq<Event>, i: int, sec: int, d: BatteryData)
    requires 0 <= i < NUM_BATTERIES
    requires InOrder(run) && Owned(run) && Prompt(run) && RecordsBefore(run, sec, i)
    ensures InOrder(run + Turn(i, sec, d)) && Owned(run + Turn(i, sec, d)) && Prompt(run + Turn(i, sec, d))
    ensures RecordsBefore(run + Turn(i, sec, d), sec, i + 1)
  {
    var t, r := Turn(i, sec, d), run + Turn(i, sec, d);
    assert forall k :: 0 <= k < |t| ==> Owner(t[k]) == i;
    assert forall k :: |run| < k < |r| ==> !r[k].Record?;
    assert forall k :: 0 <= k < |run| ==> r[k] == run[k];
    PromptTurn(run, i, sec, d);
  }

  lemma PromptTurn(run: seq<Event>, i: int, sec: int, d: BatteryData)
    requires 0 <= i < NUM_BATTERIES && Prompt(run)
    ensures Prompt(run + Turn(i, sec, d))
  {
    var r := run + Turn(i, sec, d);
    forall k | 0 <= k < |r|
      ensures ClosedAt(r, k)
    {
      if k < |run| {
        assert ClosedAt(run, k);
        assert r[k] == run[k];
        if k + 2 < |run| {
          assert r[k + 1] == run[k + 1] && r[k + 2] == run[k + 2];
        }
      }
    }
  }

  /** A channel still discharging before its turn at `sec`, `sec` turns in. */
  lemma ProgressTurn(p: seq<Event>, i: int, sec: nat, d: BatteryData)
    requires Progress(p, i, sec, false)
    ensures var done := d.voltage <= CUTOFF_VOLTAGE;
      Progress(p + Turn(i, sec, d), i, sec + 1, done) &&
      Finished(p + Turn(i, sec, d)) == done &&
      RecordCount(p + Turn(i, sec, d)) == |p| + 1 &&
      (done ==> |p + Turn(i, sec, d)| == sec + 3)
  {
    var q := p + Turn(i, sec, d);
    assert forall k :: 0 <= k < |p| ==> q[k] == p[k];
    assert IsRecord(q[sec], i, sec) && q[sec].snapshot.voltage == d.voltage;
  }
}
