/** The command interpreter: which test a line asks for, and the
    activation plan (`activeBatteries`, `testDuration`) that `parseCommand`
    derives from it. The parse itself, a loop that writes the global flags,
    is `Tester.Bench.ParseCommand`; this module holds the functions that
    specify it and the properties proved about them. */
module Commands {
  import opened ArduinoString
  import opened Config

  datatype Option<T> = None | Some(value: T)

  /** The pieces between the commas of `s`, in order: one more piece than
      there are commas. */
  function Split(s: string): (r: seq<string>)
    ensures |r| >= 1
    ensures forall k :: 0 <= k < |r| ==> ',' !in r[k]
    decreases |s|
  {
    var c := IndexOf(s, ',');
    if c < 0 then [s] else [s[..c]] + Split(s[c + 1..])
  }

  /** The pieces written one after the other, separated by commas. */
  function Join(pieces: seq<string>): string {
    if |pieces| == 0 then ""
    else if |pieces| == 1 then pieces[0]
    else pieces[0] + "," + Join(pieces[1..])
  }

  lemma {:induction false} JoinSplit(s: string)
    ensures Join(Split(s)) == s
    decreases |s|
  {
    var c := IndexOf(s, ',');
    if c >= 0 {
      var head, tail := s[..c], s[c + 1..];
      var rest := Split(tail);
      assert Split(s) == [head] + rest;
      JoinSplit(tail);
      JoinCons(head, rest);
      Around(s, c);
    }
  }

  /** Joining a piece in front of at least one more puts a comma after it. */
  lemma JoinCons(head: string, rest: seq<string>)
    requires |rest| >= 1
    ensures Join([head] + rest) == head + "," + Join(rest)
  {
    var p := [head] + rest;
    assert p[0] == head && p[1..] == rest;
  }

  /** A sequence is what comes before position `c`, that element, and what follows. */
  lemma Around<T>(s: seq<T>, c: int)
    requires 0 <= c < |s|
    ensures s == s[..c] + [s[c]] + s[c + 1..]
  {
  }

  /** The three parts of `a + [x] + b`. */
  lemma Parts<T>(a: seq<T>, x: T, b: seq<T>)
    ensures (a + [x] + b)[..|a|] == a && (a + [x] + b)[|a|] == x && (a + [x] + b)[|a| + 1..] == b
  {
  }

  lemma {:induction false} SplitJoin(pieces: seq<string>)
    requires |pieces| >= 1
    requires forall k :: 0 <= k < |pieces| ==> ',' !in pieces[k]
    ensures Split(Join(pieces)) == pieces
  {
    if |pieces| > 1 {
      var p, rest := pieces[0], pieces[1..];
      assert pieces == [p] + rest;
      JoinCons(p, rest);
      var s, t := Join(pieces), Join(rest);
      Parts(p, ',', t);
      IndexOfAt(s, ',', |p|);
      assert Split(s) == [p] + Split(t);
      SplitJoin(rest);
    }
  }

  /** A character at `i` with none of its kind before it is the one
      `indexOf` finds. */
  lemma IndexOfAt(s: string, c: char, i: int)
    requires 0 <= i < |s| && s[i] == c && c !in s[..i]
    ensures IndexOf(s, c) == i
  {
    assert s[..i + 1] == s[..i] + [c];
  }

  /** Some token of the list names 1-based channel `k + 1`. */
  predicate Names(tokens: seq<string>, k: int) {
    exists j :: 0 <= j < |tokens| && ToInt(tokens[j]) == k + 1
  }

  /** The plan a command yields: one activation flag per channel and the
      test duration. */
  datatype Plan = Plan(active: seq<bool>, duration: int)

  /** What follows the first colon of the command, trimmed. */
  function Body(cmd: string): string
    requires ':' in cmd
  {
    Trim(cmd[IndexOf(cmd, ':') + 1..])
  }

  /** The channel list: the body up to its first colon, or all of it. */
  function ChannelPart(body: string): string {
    var c := IndexOf(body, ':');
    if c < 0 then body else body[..c]
  }

  /** The duration text: what follows the body's first colon, or nothing. */
  function DurationPart(body: string): string {
    var c := IndexOf(body, ':');
    if c < 0 then "" else body[c + 1..]
  }

  /** The duration a duration text selects: its value when that is in
      1..3600, the default otherwise (an empty text included). */
  function DurationOf(text: string): (d: int)
    ensures 1 <= d <= MAX_DURATION
    ensures d != TEST_DURATION ==> |text| > 0 && d == ToInt(text)
    ensures |text| > 0 && 1 <= ToInt(text) <= MAX_DURATION ==> d == ToInt(text)
  {
    if |text| > 0 then
      var d := ToInt(text);
      if d > 0 && d <= MAX_DURATION then d else TEST_DURATION
    else TEST_DURATION
  }

  /** The plan `parseCommand` leaves behind: every flag cleared and the
      default duration, then the flags the channel list names and the
      duration override. It depends on the command alone. */
  function ParsePlan(cmd: string): (p: Plan)
    ensures |p.active| == NUM_BATTERIES
    ensures 1 <= p.duration <= MAX_DURATION
    ensures ':' !in cmd ==>
      p.duration == TEST_DURATION && forall k :: 0 <= k < NUM_BATTERIES ==> !p.active[k]
  {
    if ':' !in cmd then Plan(seq(NUM_BATTERIES, _ => false), TEST_DURATION)
    else
      var body := Body(cmd);
      var tokens := Split(ChannelPart(body));
      Plan(seq(NUM_BATTERIES, k => Names(tokens, k)), DurationOf(DurationPart(body)))
  }

  // ---------------------------------------------------------------------
  // Well-formed commands

  function Decimals(ns: seq<nat>): (r: seq<string>)
    ensures |r| == |ns|
    ensures forall j :: 0 <= j < |ns| ==> r[j] == Decimal(ns[j])
  {
    if ns == [] then [] else [Decimal(ns[0])] + Decimals(ns[1..])
  }

  /** The text of a command `<kind>:<n1>,<n2>,...[:<duration>]`. */
  function Command(kind: string, ns: seq<nat>, duration: Option<nat>): string {
    kind + ":" + Join(Decimals(ns)) + Tail(duration)
  }

  predicate ListChar(c: char) {
    IsDigit(c) || c == ','
  }

  lemma {:induction false} JoinOfDecimals(ns: seq<nat>)
    ensures forall k :: 0 <= k < |Join(Decimals(ns))| ==> ListChar(Join(Decimals(ns))[k])
  {
    if |ns| > 1 {
      JoinOfDecimals(ns[1..]);
      var d, rest := Decimals(ns), Join(Decimals(ns[1..]));
      assert Decimals(ns)[1..] == Decimals(ns[1..]);
      assert Join(d) == d[0] + "," + rest;
      forall k | 0 <= k < |Join(d)| ensures ListChar(Join(d)[k]) {
        if k < |d[0]| {
          assert Join(d)[k] == d[0][k];
        } else if k > |d[0]| {
          assert Join(d)[k] == rest[k - |d[0]| - 1];
        }
      }
    }
  }

  /** The text after the kind and its colon. */
  function Tail(duration: Option<nat>): string {
    match duration
    case None => ""
    case Some(d) => ":" + Decimal(d)
  }

  lemma ListHasNoColonOrSpace(ns: seq<nat>)
    ensures ':' !in Join(Decimals(ns)) && NoSpace(Join(Decimals(ns)))
  {
    var list := Join(Decimals(ns));
    JoinOfDecimals(ns);
    forall k | 0 <= k < |list| ensures list[k] != ':' && !IsSpace(list[k]) {
      assert ListChar(list[k]);
    }
  }

  lemma NoSpaceRest(ns: seq<nat>, duration: Option<nat>)
    ensures NoSpace(Join(Decimals(ns)) + Tail(duration))
  {
    var list := Join(Decimals(ns));
    var t := Tail(duration);
    ListHasNoColonOrSpace(ns);
    assert NoSpace(t) by {
      if duration.Some? {
        forall j | 0 <= j < |t| ensures !IsSpace(t[j]) {
          if j > 0 { assert t[j] == Decimal(duration.value)[j - 1]; }
        }
      }
    }
    forall k | 0 <= k < |list + t| ensures !IsSpace((list + t)[k]) {
      if k >= |list| { assert (list + t)[k] == t[k - |list|]; }
    }
  }

  /** The body of a well-formed command is its list and duration, as written. */
  lemma BodyOfCommand(kind: string, ns: seq<nat>, duration: Option<nat>)
    requires ':' !in kind
    ensures ':' in Command(kind, ns, duration)
    ensures Body(Command(kind, ns, duration)) == Join(Decimals(ns)) + Tail(duration)
  {
    var list, tail := Join(Decimals(ns)), Tail(duration);
    var rest := list + tail;
    var cmd := Command(kind, ns, duration);
    assert cmd == kind + [':'] + rest by {
      assert cmd == kind + [':'] + list + tail;
    }
    Parts(kind, ':', rest);
    IndexOfAt(cmd, ':', |kind|);
    NoSpaceRest(ns, duration);
  }

  /** The body splits back into the list and the duration text. */
  lemma PartsOfBody(ns: seq<nat>, duration: Option<nat>)
    ensures ChannelPart(Join(Decimals(ns)) + Tail(duration)) == Join(Decimals(ns))
    ensures DurationPart(Join(Decimals(ns)) + Tail(duration)) ==
      if duration.Some? then Decimal(duration.value) else ""
  {
    var list := Join(Decimals(ns));
    var rest := list + Tail(duration);
    ListHasNoColonOrSpace(ns);
    if duration.Some? {
      var d := duration.value;
      assert rest == list + [':'] + Decimal(d);
      Parts(list, ':', Decimal(d));
      IndexOfAt(rest, ':', |list|);
    } else {
      assert rest == list;
      assert IndexOf(rest, ':') == -1;
    }
  }

  /** A written list names exactly its own entries. */
  lemma NamesOfList(ns: seq<nat>, k: nat)
    ensures Names(Split(Join(Decimals(ns))), k) <==> k + 1 in ns
  {
    var tokens := Split(Join(Decimals(ns)));
    if ns == [] {
      assert tokens == [""];
      ToIntNoDigits("");
    } else {
      forall j | 0 <= j < |ns| ensures ',' !in Decimals(ns)[j] {
        var s := Decimals(ns)[j];
        forall i | 0 <= i < |s| ensures s[i] != ',' { assert IsDigit(s[i]); }
      }
      SplitJoin(Decimals(ns));
      if k + 1 in ns {
        var j :| 0 <= j < |ns| && ns[j] == k + 1;
        ToIntDecimal(ns[j]);
      }
      if Names(tokens, k) {
        var j :| 0 <= j < |tokens| && ToInt(tokens[j]) == k + 1;
        ToIntDecimal(ns[j]);
      }
    }
  }

  /** For a well-formed command the plan activates exactly the listed
      channels that exist, whatever the order and repetitions of the list,
      and a duration is used only when it lies in 1..3600. */
  lemma ParseWellFormed(kind: string, ns: seq<nat>, duration: Option<nat>)
    requires ':' !in kind
    ensures var p := ParsePlan(Command(kind, ns, duration));
      (forall k :: 0 <= k < NUM_BATTERIES ==> (p.active[k] <==> k + 1 in ns)) &&
      p.duration == (if duration.Some? && 1 <= duration.value <= MAX_DURATION then duration.value
                     else TEST_DURATION)
  {
    var cmd := Command(kind, ns, duration);
    BodyOfCommand(kind, ns, duration);
    PartsOfBody(ns, duration);
    if duration.Some? { ToIntDecimal(duration.value); }
    forall k | 0 <= k < NUM_BATTERIES
      ensures ParsePlan(cmd).active[k] <==> k + 1 in ns
    {
      NamesOfList(ns, k);
    }
  }

  // ---------------------------------------------------------------------
  // Dispatch

  datatype Kind = Timed | FullDischarge | Ignored

  /** The choice `loop` makes on a trimmed line. */
  function Classify(command: string): (k: Kind)
    ensures k == Timed <==> "START:" <= command
    ensures k == FullDischarge <==> "FULLTEST:" <= command
    ensures k != Ignored ==> ':' in command
  {
    assert "START:" <= command ==> command[0] == 'S' && command[5] == ':';
    assert "FULLTEST:" <= command ==> command[0] == 'F' && command[8] == ':';
    if "START:" <= command then Timed
    else if "FULLTEST:" <= command then FullDischarge
    else Ignored
  }
}
