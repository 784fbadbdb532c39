/** `PacketTrace` (packet_trace.py): builds the IOS-XE conditional-debug and
    packet-trace commands from its filter and option fields, sends them to the
    device, polls the traced-packet counter until the packet or time bound is
    reached, then stops the trace, redirects the capture to a file and clears
    the conditions.

    The device is a log of the commands sent to it (`Device.log`); what the
    device answers to the three `show` queries is given up front as
    `DeviceReplies`. */
module Capture {
  import opened Text
  import FlowStats

  /** A Python value that the source accepts as a number, a string or None
      (the drop, punt and inject codes, `data_size`, `size`). */
  datatype Arg = NoArg | Str(s: string) | Int(i: int)

  /** Python truthiness of such a value. */
  predicate Truthy(a: Arg)
  {
    match a
    case NoArg => false
    case Str(s) => s != ""
    case Int(i) => i != 0
  }

  /** Python truthiness of an optional string field. */
  predicate Given(o: Option<string>)
  {
    o.Some? && o.value != ""
  }

  /** `'{}'.format(a)`. */
  function Format(a: Arg): string
  {
    match a
    case NoArg => "None"
    case Str(s) => s
    case Int(i) => IntToString(i)
  }

  /** The filter and option fields of a `PacketTrace` (its constructor's
      keyword arguments that the commands use). */
  datatype Config = Config(
    interface: Option<string>,
    version: Option<string>,
    acl: Option<string>,
    ipAddress: Option<string>,
    direction: Option<string>,
    layer: Option<string>,
    drop: Arg,
    summaryOnly: bool,
    circular: bool,
    packetCount: int,
    fiaTrace: bool,
    dataSize: Arg,
    size: Arg,
    copyDirection: Option<string>,
    copy: bool,
    punt: Arg,
    inject: Arg,
    maxExecTime: int)

  /** The keyword defaults of `PacketTrace.__init__`. */
  function Defaults(): Config
  {
    Config(None, None, None, None, Some("both"), None, NoArg, false, false, 8192, false,
           NoArg, NoArg, Some("both"), false, NoArg, NoArg, 100)
  }

  // ---- keeping the present entries of a fixed list --------------------------------------

  /** The values of the present entries, in order. */
  function Present(xs: seq<Option<string>>): seq<string>
  {
    if xs == [] then [] else Opt(xs[0]) + Present(xs[1..])
  }

  /** One entry's contribution: its value if present, nothing otherwise. */
  function Opt(o: Option<string>): seq<string>
  {
    if o.Some? then [o.value] else []
  }

  lemma PresentCons(x: Option<string>, rest: seq<Option<string>>)
    ensures Present([x] + rest) == Opt(x) + Present(rest)
  {
    assert ([x] + rest)[1..] == rest;
  }

  lemma Assoc5(p: seq<string>, q: seq<string>, r: seq<string>, s: seq<string>, t: seq<string>)
    ensures p + (q + (r + (s + t))) == p + q + r + s + t
  {
  }

  /** `Present` on a five-entry list, unfolded. */
  lemma Present5(a: Option<string>, b: Option<string>, c: Option<string>, d: Option<string>, e: Option<string>)
    ensures Present([a, b, c, d, e]) == Opt(a) + Opt(b) + Opt(c) + Opt(d) + Opt(e)
  {
    Assoc5(Opt(a), Opt(b), Opt(c), Opt(d), Opt(e));
    var s4 := [e] + [];
    var s3 := [d] + s4;
    var s2 := [c] + s3;
    var s1 := [b] + s2;
    var s0 := [a] + s1;
    PresentCons(e, []);
    PresentCons(d, s4);
    PresentCons(c, s3);
    PresentCons(b, s2);
    PresentCons(a, s1);
    assert s0 == [a, b, c, d, e];
  }

  /** How many entries before position `k` are present. */
  function CountBefore(xs: seq<Option<string>>, k: nat): nat
    requires k <= |xs|
  {
    if k == 0 then 0 else CountBefore(xs, k - 1) + (if xs[k - 1].Some? then 1 else 0)
  }

  lemma {:induction false} CountBeforeShift(xs: seq<Option<string>>, k: nat)
    requires 1 <= k <= |xs|
    ensures CountBefore(xs, k) == (if xs[0].Some? then 1 else 0) + CountBefore(xs[1..], k - 1)
  {
    if k > 1 {
      CountBeforeShift(xs, k - 1);
    }
  }

  /** The present entries are kept, each exactly once and in their order: the
      list has one element per present entry, a present entry sits right
      after the present entries that precede it, and so an earlier present
      entry lands at an earlier position. */
  lemma {:induction false} PresentSpec(xs: seq<Option<string>>)
    ensures |Present(xs)| == CountBefore(xs, |xs|)
    ensures forall k :: 0 <= k < |xs| && xs[k].Some? ==>
      CountBefore(xs, k) < |Present(xs)| && Present(xs)[CountBefore(xs, k)] == xs[k].value
    ensures forall j, k :: 0 <= j < k < |xs| && xs[j].Some? ==> CountBefore(xs, j) < CountBefore(xs, k)
  {
    forall j, k | 0 <= j < k < |xs| && xs[j].Some?
      ensures CountBefore(xs, j) < CountBefore(xs, k)
    {
      CountBeforeIncreases(xs, j, k);
    }
    if xs != [] {
      var first, rest := Opt(xs[0]), Present(xs[1..]);
      assert Present(xs) == first + rest;
      PresentSpec(xs[1..]);
      CountBeforeShift(xs, |xs|);
      forall k | 0 <= k < |xs| && xs[k].Some?
        ensures CountBefore(xs, k) < |Present(xs)| && Present(xs)[CountBefore(xs, k)] == xs[k].value
      {
        if k > 0 {
          CountBeforeShift(xs, k);
          assert xs[1..][k - 1] == xs[k];
          var m := CountBefore(xs[1..], k - 1);
          assert (first + rest)[|first| + m] == rest[m];
        }
      }
    }
  }

  /** A present entry is counted before every later present entry. */
  lemma {:induction false} CountBeforeIncreases(xs: seq<Option<string>>, j: nat, k: nat)
    requires j < k <= |xs| && xs[j].Some?
    ensures CountBefore(xs, j) < CountBefore(xs, k)
  {
    if k > j + 1 {
      CountBeforeIncreases(xs, j, k - 1);
    }
  }

  // ---- conditions_creator -----------------------------------------------------------------

  /** The parts of the condition command, in the fixed order interface,
      version, ACL, IP address, direction; an absent or empty field gives none. */
  function ConditionParts(c: Config): seq<string>
  {
    (if Given(c.interface) then ["interface " + c.interface.value] else [])
    + (if Given(c.version) then [c.version.value] else [])
    + (if Given(c.acl) then ["access-list " + c.acl.value] else [])
    + (if Given(c.ipAddress) then [c.ipAddress.value] else [])
    + (if Given(c.direction) then [c.direction.value] else [])
  }

  /** `configure_command` as set by `conditions_creator`. */
  function ConditionCommand(c: Config): string
  {
    "debug platform condition " + Join(ConditionParts(c), " ")
  }

  function Tagged(prefix: string, o: Option<string>): Option<string>
  {
    if Given(o) then Some(prefix + o.value) else None
  }

  lemma EmptyPrefix(o: Option<string>)
    ensures Opt(Tagged("", o)) == if Given(o) then [o.value] else []
  {
    if Given(o) {
      assert "" + o.value == o.value;
    }
  }

  /** The five filter fields in command order, each with its rendering when set. */
  function ConditionFields(c: Config): (r: seq<Option<string>>)
    ensures |r| == 5
  {
    [Tagged("interface ", c.interface), Tagged("", c.version), Tagged("access-list ", c.acl),
     Tagged("", c.ipAddress), Tagged("", c.direction)]
  }

  /** The condition command lists exactly the set filter fields, each once, in
      the order interface, version, ACL, IP address, direction, space-joined
      after `debug platform condition `. */
  lemma ConditionCommandSpec(c: Config)
    ensures ConditionParts(c) == Present(ConditionFields(c))
    ensures ConditionCommand(c) == "debug platform condition " + Join(Present(ConditionFields(c)), " ")
    ensures |ConditionParts(c)| == CountBefore(ConditionFields(c), 5)
    ensures forall k :: 0 <= k < 5 && ConditionFields(c)[k].Some? ==>
      CountBefore(ConditionFields(c), k) < |ConditionParts(c)|
      && ConditionParts(c)[CountBefore(ConditionFields(c), k)] == ConditionFields(c)[k].value
    ensures forall j, k :: 0 <= j < k < 5 && ConditionFields(c)[j].Some? ==>
      CountBefore(ConditionFields(c), j) < CountBefore(ConditionFields(c), k)
  {
    var xs := ConditionFields(c);
    Present5(xs[0], xs[1], xs[2], xs[3], xs[4]);
    assert xs == [xs[0], xs[1], xs[2], xs[3], xs[4]];
    EmptyPrefix(c.version);
    EmptyPrefix(c.ipAddress);
    EmptyPrefix(c.direction);
    PresentSpec(xs);
  }

  // ---- packet_trace_basic, _copy, _drop, _punt, _inject --------------------------------------

  /** The options of the base command. */
  function BasicOptions(c: Config): seq<string>
  {
    if c.summaryOnly then
      ["summary-only"] + (if c.circular then ["circular"] else [])
    else
      (if c.fiaTrace then ["fia-trace"] else [])
      + (if c.circular then ["circular"] else [])
      + (if Truthy(c.dataSize) then ["data-size " + Format(c.dataSize) + " "] else [])
  }

  const PACKET_PREFIX := "debug platform packet-trace packet "

  /** The command appended by `packet_trace_basic`. */
  function BasicCommand(c: Config): string
  {
    PACKET_PREFIX + IntToString(c.packetCount) + " " + Join(BasicOptions(c), " ")
  }

  lemma NoLetterInNumber(i: int, ch: char)
    requires ch != '-' && !IsDigit(ch)
    ensures ch !in IntToString(i)
  {
    var r := IntToString(i);
    forall k | 0 <= k < |r| ensures r[k] != ch { }
  }

  /** The part of the base command before its options. */
  function BasicHead(packetCount: int): string
  {
    PACKET_PREFIX + IntToString(packetCount) + " "
  }

  lemma PrefixLetters()
    ensures 'i' !in PACKET_PREFIX && 'z' !in PACKET_PREFIX
  {
  }

  lemma BasicHeadLetters(packetCount: int)
    ensures 'i' !in BasicHead(packetCount) && 'z' !in BasicHead(packetCount)
  {
    var digits := IntToString(packetCount);
    NoLetterInNumber(packetCount, 'z');
    NoLetterInNumber(packetCount, 'i');
    PrefixLetters();
    assert BasicHead(packetCount) == PACKET_PREFIX + digits + " ";
  }

  lemma SummaryTail(c: Config)
    requires c.summaryOnly
    ensures BasicCommand(c) == BasicHead(c.packetCount) + (if c.circular then "summary-only circular" else "summary-only")
  {
    if c.circular {
      assert BasicOptions(c) == ["summary-only", "circular"];
    } else {
      assert BasicOptions(c) == ["summary-only"];
    }
  }

  lemma SummaryCircularExcludes(head: string)
    requires 'i' !in head && 'z' !in head
    ensures !Contains(head + "summary-only circular", "fia-trace")
    ensures !Contains(head + "summary-only circular", "data-size")
  {
    var tail := "summary-only circular";
    var cmd := head + tail;
    assert !Contains(cmd, "data-size") by {
      assert 'z' !in tail;
      assert 'z' !in cmd;
      CharBlocksContains(cmd, "data-size", 7);
    }
    assert !Contains(cmd, "fia-trace") by {
      AbsentSecondNoPair(head, 'f', 'i');
      assert 'f' !in tail;
      AbsentCharNoPair(tail, 'f', 'i');
      NoPairConcat(head, tail, 'f', 'i');
      PairBlocksContains(cmd, "fia-trace", 0);
    }
  }

  lemma SummaryCircularIncludes(head: string)
    ensures Contains(head + "summary-only circular", "summary-only")
    ensures Contains(head + "summary-only circular", "circular")
  {
    assert "summary-only" + " " + "circular" == "summary-only circular";
    ContainsJoined(head, "summary-only", " ", "circular");
  }

  lemma SummaryPlain(head: string)
    requires 'i' !in head && 'z' !in head
    ensures var cmd := head + "summary-only";
      && !Contains(cmd, "fia-trace") && !Contains(cmd, "data-size")
      && Contains(cmd, "summary-only") && !Contains(cmd, "circular")
  {
    var tail := "summary-only";
    var cmd := head + tail;
    assert 'z' !in tail && 'i' !in tail;
    assert 'z' !in cmd && 'i' !in cmd;
    CharBlocksContains(cmd, "fia-trace", 1);
    CharBlocksContains(cmd, "data-size", 7);
    CharBlocksContains(cmd, "circular", 1);
    ContainsSelf(tail);
    ContainsInSuffix(head, tail, "summary-only");
  }

  /** A summary-only capture never asks for an FIA trace or a data size, and
      it is circular exactly when the option is set. */
  lemma SummaryOnlyExcludesTrace(c: Config)
    requires c.summaryOnly
    ensures !Contains(BasicCommand(c), "fia-trace")
    ensures !Contains(BasicCommand(c), "data-size")
    ensures Contains(BasicCommand(c), "summary-only")
    ensures Contains(BasicCommand(c), "circular") <==> c.circular
  {
    BasicHeadLetters(c.packetCount);
    SummaryTail(c);
    if c.circular {
      SummaryCircularExcludes(BasicHead(c.packetCount));
      SummaryCircularIncludes(BasicHead(c.packetCount));
    } else {
      SummaryPlain(BasicHead(c.packetCount));
    }
  }

  /** A head free of `i` followed by nothing but `circular` asks for no FIA trace. */
  lemma CircularOnlyExcludesFia(head: string, circular: bool)
    requires 'i' !in head
    ensures !Contains(head + (if circular then "circular" else ""), "fia-trace")
  {
    var tail := if circular then "circular" else "";
    assert 'f' !in tail;
    AbsentSecondNoPair(head, 'f', 'i');
    AbsentCharNoPair(tail, 'f', 'i');
    NoPairConcat(head, tail, 'f', 'i');
    PairBlocksContains(head + tail, "fia-trace", 0);
  }

  /** Without summary-only, the FIA trace, circular mode and the data size
      are asked for whenever they are set, and with neither an FIA trace nor
      a data size the command asks for no FIA trace. */
  lemma FullTraceOptions(c: Config)
    requires !c.summaryOnly
    ensures c.fiaTrace ==> Contains(BasicCommand(c), "fia-trace")
    ensures c.circular ==> Contains(BasicCommand(c), "circular")
    ensures Truthy(c.dataSize) ==> Contains(BasicCommand(c), "data-size " + Format(c.dataSize))
    ensures !c.fiaTrace && !Truthy(c.dataSize) ==> !Contains(BasicCommand(c), "fia-trace")
  {
    var opts := BasicOptions(c);
    var head := PACKET_PREFIX + IntToString(c.packetCount) + " ";
    assert BasicCommand(c) == head + Join(opts, " ");
    if c.fiaTrace {
      assert opts[0] == "fia-trace";
      JoinContainsParts(opts, " ", 0);
      ContainsInSuffix(head, Join(opts, " "), "fia-trace");
    }
    if c.circular {
      var k := if c.fiaTrace then 1 else 0;
      assert opts[k] == "circular";
      JoinContainsParts(opts, " ", k);
      ContainsInSuffix(head, Join(opts, " "), "circular");
    }
    if !c.fiaTrace && !Truthy(c.dataSize) {
      assert opts == if c.circular then ["circular"] else [];
      assert Join(opts, " ") == if c.circular then "circular" else "";
      BasicHeadLetters(c.packetCount);
      CircularOnlyExcludesFia(head, c.circular);
    }
    if Truthy(c.dataSize) {
      var part := "data-size " + Format(c.dataSize) + " ";
      var k := |opts| - 1;
      assert opts[k] == part;
      JoinContainsParts(opts, " ", k);
      ContainsInSuffix(head, Join(opts, " "), part);
      var i :| 0 <= i <= |BasicCommand(c)| && part <= BasicCommand(c)[i..];
      assert "data-size " + Format(c.dataSize) <= BasicCommand(c)[i..];
    }
  }

  /** The options of the copy command. */
  function CopyOptions(c: Config): seq<string>
  {
    (if Given(c.layer) then [c.layer.value] else [])
    + (if Truthy(c.size) then ["size " + Format(c.size)] else [])
  }

  /** The command appended by `packet_trace_copy`. */
  function CopyCommand(c: Config): string
  {
    "debug platform packet-trace copy packet " + Show(c.copyDirection) + " " + Join(CopyOptions(c), " ")
  }

  /** The command appended by `packet_trace_drop`: the plain form for the
      string 'all', the coded form for anything else. */
  function DropCommand(drop: Arg): (r: string)
    ensures r == "debug platform packet-trace drop" <==> drop == Str("all")
  {
    if drop == Str("all") then "debug platform packet-trace drop"
    else "debug platform packet-trace drop code " + Format(drop)
  }

  /** The command appended by `packet_trace_punt`: the plain form for None or
      'all', the coded form for anything else. */
  function PuntCommand(punt: Arg): (r: string)
    ensures r == "debug platform packet-trace punt" <==> punt == NoArg || punt == Str("all")
  {
    if punt != NoArg && punt != Str("all") then "debug platform packet-trace punt code " + Format(punt)
    else "debug platform packet-trace punt"
  }

  /** The command appended by `packet_trace_inject`, with the same rule as punt. */
  function InjectCommand(inject: Arg): (r: string)
    ensures r == "debug platform packet-trace inject" <==> inject == NoArg || inject == Str("all")
  {
    if inject != NoArg && inject != Str("all") then "debug platform packet-trace inject code " + Format(inject)
    else "debug platform packet-trace inject"
  }

  /** What a drop, punt or inject command selects: every packet of that kind,
      or one code. */
  datatype Selector = Every | Code(code: string)

  /** Reads a drop, punt or inject command back. */
  function ParseSelector(kind: string, command: string): Option<Selector>
  {
    var plain := "debug platform packet-trace " + kind;
    var coded := plain + " code ";
    if command == plain then Some(Every)
    else if coded <= command then Some(Code(command[|coded|..]))
    else None
  }

  lemma ParseCoded(kind: string, code: string)
    ensures ParseSelector(kind, "debug platform packet-trace " + kind + " code " + code) == Some(Code(code))
  {
    var coded := "debug platform packet-trace " + kind + " code ";
    var command := coded + code;
    assert |command| > |"debug platform packet-trace " + kind|;
    assert coded <= command;
    assert command[|coded|..] == code;
  }

  /** The drop command carries exactly the selection made: reading it back
      gives 'every drop' for 'all' and the code as formatted otherwise. */
  lemma DropCommandParses(a: Arg)
    ensures ParseSelector("drop", DropCommand(a)) == Some(if a == Str("all") then Every else Code(Format(a)))
  {
    if a != Str("all") {
      var coded := "debug platform packet-trace " + "drop" + " code ";
      assert coded == "debug platform packet-trace drop code ";
      ParseCoded("drop", Format(a));
    } else {
      assert DropCommand(a) == "debug platform packet-trace " + "drop";
    }
  }

  /** The punt command carries exactly the selection made, None and 'all'
      both meaning every punted packet. */
  lemma PuntCommandParses(a: Arg)
    ensures ParseSelector("punt", PuntCommand(a))
      == Some(if a == NoArg || a == Str("all") then Every else Code(Format(a)))
  {
    if a != NoArg && a != Str("all") {
      var coded := "debug platform packet-trace " + "punt" + " code ";
      assert coded == "debug platform packet-trace punt code ";
      ParseCoded("punt", Format(a));
    } else {
      assert PuntCommand(a) == "debug platform packet-trace " + "punt";
    }
  }

  /** The inject command carries exactly the selection made, None and 'all'
      both meaning every injected packet. */
  lemma InjectCommandParses(a: Arg)
    ensures ParseSelector("inject", InjectCommand(a))
      == Some(if a == NoArg || a == Str("all") then Every else Code(Format(a)))
  {
    if a != NoArg && a != Str("all") {
      var coded := "debug platform packet-trace " + "inject" + " code ";
      assert coded == "debug platform packet-trace inject code ";
      ParseCoded("inject", Format(a));
    } else {
      assert InjectCommand(a) == "debug platform packet-trace " + "inject";
    }
  }

  // ---- packet_trace: which builders run, in which order ---------------------------------------

  /** The commands `packet_trace` appends to the list. */
  function CaptureCommands(c: Config): seq<string>
  {
    [BasicCommand(c)]
    + (if c.copy then [CopyCommand(c)] else [])
    + (if Truthy(c.drop) then [DropCommand(c.drop)] else [])
    + (if Truthy(c.punt) then [PuntCommand(c.punt)] else [])
    + (if Truthy(c.inject) then [InjectCommand(c.inject)] else [])
  }

  /** The five builders in call order, each with its command when it runs. */
  function CaptureSteps(c: Config): (r: seq<Option<string>>)
    ensures |r| == 5
  {
    [Some(BasicCommand(c)),
     if c.copy then Some(CopyCommand(c)) else None,
     if Truthy(c.drop) then Some(DropCommand(c.drop)) else None,
     if Truthy(c.punt) then Some(PuntCommand(c.punt)) else None,
     if Truthy(c.inject) then Some(InjectCommand(c.inject)) else None]
  }

  /** The base command comes first, then copy, drop, punt and inject, each
      present exactly when its option is truthy, so the list grows by one plus
      the number of truthy options. */
  lemma CaptureCommandsSpec(c: Config)
    ensures CaptureCommands(c) == Present(CaptureSteps(c))
    ensures CaptureCommands(c)[0] == BasicCommand(c)
    ensures |CaptureCommands(c)| == 1 + (if c.copy then 1 else 0) + (if Truthy(c.drop) then 1 else 0)
                                      + (if Truthy(c.punt) then 1 else 0) + (if Truthy(c.inject) then 1 else 0)
    ensures forall k :: 0 <= k < 5 && CaptureSteps(c)[k].Some? ==>
      CountBefore(CaptureSteps(c), k) < |CaptureCommands(c)|
      && CaptureCommands(c)[CountBefore(CaptureSteps(c), k)] == CaptureSteps(c)[k].value
    ensures forall j, k :: 0 <= j < k < 5 && CaptureSteps(c)[j].Some? ==>
      CountBefore(CaptureSteps(c), j) < CountBefore(CaptureSteps(c), k)
  {
    var xs := CaptureSteps(c);
    Present5(xs[0], xs[1], xs[2], xs[3], xs[4]);
    assert xs == [xs[0], xs[1], xs[2], xs[3], xs[4]];
    PresentSpec(xs);
  }

  /** The list after the five builder steps of `packet_trace`. */
  lemma CaptureSteps5(s0: seq<string>, s1: seq<string>, s2: seq<string>, s3: seq<string>, s4: seq<string>, s5: seq<string>, c: Config)
    requires s1 == s0 + [BasicCommand(c)]
    requires s2 == s1 + (if c.copy then [CopyCommand(c)] else [])
    requires s3 == s2 + (if Truthy(c.drop) then [DropCommand(c.drop)] else [])
    requires s4 == s3 + (if Truthy(c.punt) then [PuntCommand(c.punt)] else [])
    requires s5 == s4 + (if Truthy(c.inject) then [InjectCommand(c.inject)] else [])
    ensures s5 == s0 + CaptureCommands(c)
  {
    Assoc6(s0, [BasicCommand(c)], if c.copy then [CopyCommand(c)] else [],
           if Truthy(c.drop) then [DropCommand(c.drop)] else [],
           if Truthy(c.punt) then [PuntCommand(c.punt)] else [],
           if Truthy(c.inject) then [InjectCommand(c.inject)] else []);
  }

  lemma Assoc6(s0: seq<string>, a: seq<string>, b: seq<string>, c: seq<string>, d: seq<string>, e: seq<string>)
    ensures s0 + a + b + c + d + e == s0 + (a + b + c + d + e)
  {
  }

  // ---- execute_command ------------------------------------------------------------------------

  const START := "debug platform condition start"
  const STOP := "debug platform condition stop"
  const CLEAR := "clear platform condition all"

  /** What `execute_command` sends: the condition command, every listed
      command in list order, and the start command when the conditional state
      read back was 'Stop'. */
  function ExecutionLog(condition: string, commands: seq<string>, state: string): seq<string>
  {
    [condition] + commands + (if state == "Stop" then [START] else [])
  }

  // ---- run_packet_trace: the poll loop ---------------------------------------------------------

  /** One answer to `show platform packet-trace statistics`: the traced-packet
      count, and the seconds elapsed since polling started. */
  datatype Poll = Poll(traced: int, elapsed: real)

  /** The loop's exit test. */
  predicate Finished(p: Poll, packetCount: int, maxExecTime: int)
  {
    p.traced >= packetCount || p.elapsed > maxExecTime as real
  }

  /** The poll at which the loop stops, if any. */
  function FirstFinished(polls: seq<Poll>, packetCount: int, maxExecTime: int): (r: Option<nat>)
    ensures r.Some? ==> r.value < |polls| && Finished(polls[r.value], packetCount, maxExecTime)
    ensures r.Some? ==> forall j :: 0 <= j < r.value ==> !Finished(polls[j], packetCount, maxExecTime)
    ensures r.None? ==> forall j :: 0 <= j < |polls| ==> !Finished(polls[j], packetCount, maxExecTime)
  {
    if polls == [] then None
    else if Finished(polls[0], packetCount, maxExecTime) then Some(0)
    else
      match FirstFinished(polls[1..], packetCount, maxExecTime)
      case None => None
      case Some(k) => Some(k + 1)
  }

  /** A poll that finishes with none finishing before it is where the loop stops. */
  lemma FirstFinishedAt(polls: seq<Poll>, packetCount: int, maxExecTime: int, i: nat)
    requires i < |polls| && Finished(polls[i], packetCount, maxExecTime)
    requires forall j :: 0 <= j < i ==> !Finished(polls[j], packetCount, maxExecTime)
    ensures FirstFinished(polls, packetCount, maxExecTime) == Some(i)
  {
  }

  /** When no poll finishes, the loop does not stop within the replies. */
  lemma FirstFinishedNone(polls: seq<Poll>, packetCount: int, maxExecTime: int)
    requires forall j :: 0 <= j < |polls| ==> !Finished(polls[j], packetCount, maxExecTime)
    ensures FirstFinished(polls, packetCount, maxExecTime) == None
  {
  }

  /** Polls at least five seconds apart, starting at or after time 0. */
  predicate PacedPolls(polls: seq<Poll>)
  {
    && (polls != [] ==> polls[0].elapsed >= 0.0)
    && forall i :: 0 <= i < |polls| - 1 ==> polls[i + 1].elapsed >= polls[i].elapsed + 5.0
  }

  lemma {:induction false} PacedElapsed(polls: seq<Poll>, i: nat)
    requires PacedPolls(polls) && i < |polls|
    ensures polls[i].elapsed >= 5.0 * i as real
  {
    if i > 0 {
      PacedElapsed(polls, i - 1);
    }
  }

  /** With the five-second sleep between polls, the time bound ends the loop
      within `max_exec_time / 5 + 2` polls, whatever the packet counts. */
  lemma PollBound(polls: seq<Poll>, packetCount: int, maxExecTime: int)
    requires maxExecTime >= 0 && PacedPolls(polls)
    requires |polls| >= maxExecTime / 5 + 2
    ensures FirstFinished(polls, packetCount, maxExecTime).Some?
    ensures FirstFinished(polls, packetCount, maxExecTime).value + 1 <= maxExecTime / 5 + 2
  {
    var n := maxExecTime / 5 + 1;
    PacedElapsed(polls, n);
    assert 5 * n > maxExecTime;
    assert (5 * n) as real == 5.0 * n as real;
    assert Finished(polls[n], packetCount, maxExecTime);
  }

  // ---- run_packet_trace: the capture file and the teardown ---------------------------------------

  /** The interface part of the file name: `_` and the lower-cased interface
      with every `/` turned into `_`, or nothing without an interface filter. */
  function UrlSuffix(interface: Option<string>): (r: string)
    ensures !Given(interface) ==> r == ""
    ensures Given(interface) ==> |r| == |interface.value| + 1 && r[0] == '_'
    ensures Given(interface) ==> forall i :: 0 <= i < |interface.value| ==>
      r[i + 1] == (if interface.value[i] == '/' then '_' else LowerChar(interface.value[i]))
    ensures '/' !in r && forall i :: 0 <= i < |r| ==> !('A' <= r[i] <= 'Z')
  {
    if Given(interface) then "_" + ReplaceChar(Lower(interface.value), '/', '_') else ""
  }

  /** The file the capture is redirected to. */
  function Url(timestamp: string, interface: Option<string>): (r: string)
    ensures "bootflash:" + timestamp + "_packet_trace_statistics" <= r
    ensures |r| >= 4 && r[|r| - 4..] == ".txt"
    ensures !Given(interface) ==> r == "bootflash:" + timestamp + "_packet_trace_statistics.txt"
  {
    "bootflash:" + timestamp + "_packet_trace_statistics" + UrlSuffix(interface) + ".txt"
  }

  /** Two interface names that differ only in letter case or in `/` versus `_`
      name the same file. */
  lemma UrlSuffixNormalises(a: string, b: string)
    requires |a| == |b| && a != "" && b != ""
    requires forall i :: 0 <= i < |a| ==>
      (if a[i] == '/' then '_' else LowerChar(a[i])) == (if b[i] == '/' then '_' else LowerChar(b[i]))
    ensures UrlSuffix(Some(a)) == UrlSuffix(Some(b))
  {
  }

  function RedirectCommand(url: string): (r: string)
    ensures |r| > |url| && r[0] == 's'
  {
    "show platform packet-trace " + "packet all | redirect " + url
  }

  /** What is sent once the loop stops: stop, redirect, clear. */
  function Teardown(url: string): seq<string>
  {
    [STOP, RedirectCommand(url), CLEAR]
  }

  /** The `tac.helper.Result` that `run_packet_trace` returns: the capture
      file, the statistics text, and the description a caller may set later. */
  datatype CaptureResult = CaptureResult(url: string, statistics: string, description: Option<string>)

  /** What the device answers during one session: the conditional state read
      by `execute_command`, the successive traced-packet polls, the timestamp
      at which the loop stops, and the parsed packet records. */
  datatype DeviceReplies = DeviceReplies(
    conditionalState: string,
    polls: seq<Poll>,
    timestamp: string,
    packets: seq<FlowStats.Packet>)

  /** Every command a session sends, given the commands already in the list. */
  function SessionLog(c: Config, prior: seq<string>, replies: DeviceReplies): seq<string>
  {
    ExecutionLog(ConditionCommand(c), prior + CaptureCommands(c), replies.conditionalState)
    + SessionTail(c, replies)
  }

  /** What a session sends after the poll loop: the teardown once it stops,
      nothing if the replies run out first. */
  function SessionTail(c: Config, replies: DeviceReplies): seq<string>
  {
    if FirstFinished(replies.polls, c.packetCount, c.maxExecTime).Some?
    then Teardown(Url(replies.timestamp, c.interface)) else []
  }

  /** What `run_packet_trace` returns. */
  function SessionResult(c: Config, replies: DeviceReplies, percent: (nat, nat) -> string): Option<CaptureResult>
  {
    if FirstFinished(replies.polls, c.packetCount, c.maxExecTime).Some?
    then Some(CaptureResult(Url(replies.timestamp, c.interface),
                            FlowStats.AnalyzeStatistics(replies.packets, percent), None))
    else None
  }

  /** Every capture command starts with `debug platform packet-trace`, so
      none of them is the stop, clear or redirect command. */
  lemma CaptureCommandsExclude(c: Config, url: string)
    ensures CLEAR !in CaptureCommands(c) && STOP !in CaptureCommands(c)
    ensures RedirectCommand(url) !in CaptureCommands(c)
  {
    var cmds := CaptureCommands(c);
    CaptureCommandsShaped(c);
    TeardownNotShaped(url);
    UnshapedAbsent(cmds, CLEAR);
    UnshapedAbsent(cmds, STOP);
    UnshapedAbsent(cmds, RedirectCommand(url));
  }

  /** None of the teardown commands has the packet-trace shape. */
  lemma TeardownNotShaped(url: string)
    ensures !PacketTraceShaped(CLEAR) && !PacketTraceShaped(STOP)
    ensures !PacketTraceShaped(RedirectCommand(url))
  {
    assert CLEAR[0] == 'c' && STOP[15] == 'c';
  }

  /** A command without the packet-trace shape is not in a list of them. */
  lemma UnshapedAbsent(cmds: seq<string>, x: string)
    requires forall s :: s in cmds ==> PacketTraceShaped(s)
    requires !PacketTraceShaped(x)
    ensures x !in cmds
  {
  }

  /** The letters `debug platform packet-trace` puts at positions 0 and 15. */
  predicate PacketTraceShaped(s: string)
  {
    15 < |s| && s[0] == 'd' && s[15] == 'p'
  }

  /** Every capture command has the packet-trace shape. */
  lemma CaptureCommandsShaped(c: Config)
    ensures forall s :: s in CaptureCommands(c) ==> PacketTraceShaped(s)
  {
    CommandsArePacketTrace(c);
    StepsShaped(BasicCommand(c), CopyCommand(c), DropCommand(c.drop), PuntCommand(c.punt), InjectCommand(c.inject),
                c.copy, Truthy(c.drop), Truthy(c.punt), Truthy(c.inject));
  }

  /** Listing some of five packet-trace commands gives only packet-trace commands. */
  lemma StepsShaped(b: string, cp: string, d: string, p: string, i: string,
                    fc: bool, fd: bool, fp: bool, fi: bool)
    requires PacketTraceShaped(b) && PacketTraceShaped(cp) && PacketTraceShaped(d)
    requires PacketTraceShaped(p) && PacketTraceShaped(i)
    ensures forall s :: s in [b] + (if fc then [cp] else []) + (if fd then [d] else [])
                             + (if fp then [p] else []) + (if fi then [i] else [])
                        ==> PacketTraceShaped(s)
  {
  }

  lemma CommandsArePacketTrace(c: Config)
    ensures PacketTraceShaped(BasicCommand(c)) && PacketTraceShaped(CopyCommand(c))
    ensures PacketTraceShaped(DropCommand(c.drop)) && PacketTraceShaped(PuntCommand(c.punt))
    ensures PacketTraceShaped(InjectCommand(c.inject))
  {
  }

  /** The layout of a log: the condition, the commands, the optional start,
      then whatever follows. */
  lemma {:induction false} LogShape(condition: string, commands: seq<string>, state: string, tail: seq<string>)
    requires tail == [] || tail[0] == STOP
    ensures var log := ExecutionLog(condition, commands, state) + tail;
      && log[0] == condition
      && log[1..1 + |commands|] == commands
      && (state == "Stop" <==> |log| > 1 + |commands| && log[1 + |commands|] == START)
      && log[|log| - |tail|..] == tail
  {
    var log := ExecutionLog(condition, commands, state) + tail;
    if state != "Stop" && tail != [] {
      assert log[1 + |commands|] == tail[0];
    }
  }

  /** How often a command occurs in a log: once for the condition, as often
      as in the listed commands, once for the start command, and as often as
      in the tail. */
  lemma LogCount(condition: string, commands: seq<string>, state: string, tail: seq<string>, x: string)
    ensures multiset(ExecutionLog(condition, commands, state) + tail)[x]
      == (if condition == x then 1 else 0) + multiset(commands)[x]
         + (if state == "Stop" && x == START then 1 else 0) + multiset(tail)[x]
  {
    assert multiset(ExecutionLog(condition, commands, state) + tail)
      == multiset{condition} + multiset(commands) + multiset(if state == "Stop" then [START] else []) + multiset(tail);
  }

  /** The teardown sends each of stop, redirect and clear once. */
  lemma TeardownCounts(url: string)
    ensures multiset(Teardown(url))[STOP] == 1 && multiset(Teardown(url))[CLEAR] == 1
    ensures multiset(Teardown(url))[RedirectCommand(url)] == 1
  {
    var r := RedirectCommand(url);
    assert r[0] == 's' && STOP[0] == 'd' && CLEAR[0] == 'c';
    assert multiset(Teardown(url)) == multiset{STOP} + multiset{r} + multiset{CLEAR};
  }

  /** A log built from the condition and list a session computes is that
      session's log. */
  lemma SessionLogOf(c: Config, prior: seq<string>, condition: string, commands: seq<string>, replies: DeviceReplies)
    requires condition == ConditionCommand(c) && commands == prior + CaptureCommands(c)
    ensures ExecutionLog(condition, commands, replies.conditionalState) + SessionTail(c, replies)
         == SessionLog(c, prior, replies)
  {
  }

  /** The same, for a device log that had `before` in it already. */
  lemma SessionLogAppended(c: Config, prior: seq<string>, condition: string, commands: seq<string>, replies: DeviceReplies,
                           before: seq<string>, after: seq<string>)
    requires condition == ConditionCommand(c) && commands == prior + CaptureCommands(c)
    requires after == before + ExecutionLog(condition, commands, replies.conditionalState) + SessionTail(c, replies)
    ensures after == before + SessionLog(c, prior, replies)
  {
    SessionLogOf(c, prior, condition, commands, replies);
    assert after == before + (ExecutionLog(condition, commands, replies.conditionalState) + SessionTail(c, replies));
  }

  /** A session opens with the condition command, the commands already
      listed and the capture commands; the start command follows exactly when
      the state was 'Stop'; once the loop stops, the last three commands are
      stop, redirect to the capture file, and clear. */
  lemma SessionLogShape(c: Config, prior: seq<string>, replies: DeviceReplies)
    ensures var log := SessionLog(c, prior, replies);
      && log[0] == ConditionCommand(c)
      && log[1..1 + |prior| + |CaptureCommands(c)|] == prior + CaptureCommands(c)
      && (replies.conditionalState == "Stop" <==> |log| > 1 + |prior| + |CaptureCommands(c)| && log[1 + |prior| + |CaptureCommands(c)|] == START)
      && (FirstFinished(replies.polls, c.packetCount, c.maxExecTime).Some? ==>
            |log| >= 3 && log[|log| - 3..] == Teardown(Url(replies.timestamp, c.interface)))
  {
    var condition, commands, tail := ConditionCommand(c), prior + CaptureCommands(c), SessionTail(c, replies);
    TailShape(c, replies);
    LogShape(condition, commands, replies.conditionalState, tail);
    SessionLogOf(c, prior, condition, commands, replies);
  }

  lemma TailShape(c: Config, replies: DeviceReplies)
    ensures var tail := SessionTail(c, replies);
      && (tail == [] || tail[0] == STOP)
      && (FirstFinished(replies.polls, c.packetCount, c.maxExecTime).Some? ==> tail == Teardown(Url(replies.timestamp, c.interface)))
  {
  }

  /** A command that is neither the start command nor a capture command
      occurs in a session's log once more for being the condition command,
      as often as in the list before, and as often as in the tail. */
  lemma SessionCount(c: Config, prior: seq<string>, replies: DeviceReplies, x: string)
    requires x != START && x !in CaptureCommands(c)
    ensures multiset(SessionLog(c, prior, replies))[x]
      == (if ConditionCommand(c) == x then 1 else 0) + multiset(prior)[x] + multiset(SessionTail(c, replies))[x]
  {
    var commands := prior + CaptureCommands(c);
    assert multiset(commands) == multiset(prior) + multiset(CaptureCommands(c));
    LogCount(ConditionCommand(c), commands, replies.conditionalState, SessionTail(c, replies), x);
  }

  /** A session adds exactly one clear command when the loop stops and none
      otherwise. */
  lemma SessionClearsOnce(c: Config, prior: seq<string>, replies: DeviceReplies)
    ensures multiset(SessionLog(c, prior, replies))[CLEAR]
      == multiset(prior)[CLEAR] + (if FirstFinished(replies.polls, c.packetCount, c.maxExecTime).Some? then 1 else 0)
  {
    var url := Url(replies.timestamp, c.interface);
    CaptureCommandsExclude(c, url);
    assert ConditionCommand(c)[0] == 'd' && CLEAR[0] == 'c';
    SessionCount(c, prior, replies, CLEAR);
    TeardownCounts(url);
  }

  /** A session adds exactly one stop command when the loop stops and none
      otherwise, besides the condition command itself when the filter fields
      happen to spell `stop`. */
  lemma SessionStopsOnce(c: Config, prior: seq<string>, replies: DeviceReplies)
    ensures multiset(SessionLog(c, prior, replies))[STOP]
      == multiset(prior)[STOP] + (if ConditionCommand(c) == STOP then 1 else 0)
         + (if FirstFinished(replies.polls, c.packetCount, c.maxExecTime).Some? then 1 else 0)
  {
    var url := Url(replies.timestamp, c.interface);
    CaptureCommandsExclude(c, url);
    assert |STOP| != |START|;
    SessionCount(c, prior, replies, STOP);
    TeardownCounts(url);
  }

  /** A session redirects the capture to its file exactly once when the loop
      stops and never otherwise. */
  lemma SessionRedirectsOnce(c: Config, prior: seq<string>, replies: DeviceReplies)
    ensures var redirect := RedirectCommand(Url(replies.timestamp, c.interface));
      multiset(SessionLog(c, prior, replies))[redirect]
      == multiset(prior)[redirect] + (if FirstFinished(replies.polls, c.packetCount, c.maxExecTime).Some? then 1 else 0)
  {
    var url := Url(replies.timestamp, c.interface);
    var redirect := RedirectCommand(url);
    CaptureCommandsExclude(c, url);
    assert ConditionCommand(c)[0] == 'd' && redirect[0] == 's' && START[0] == 'd';
    SessionCount(c, prior, replies, redirect);
    TeardownCounts(url);
  }

  // ---- the device and the object ------------------------------------------------------------------

  /** The device, seen as the commands sent to it with `run_exec_command`. */
  class Device {
    var log: seq<string>

    constructor()
      ensures log == []
    {
      log := [];
    }

    method Exec(command: string)
      modifies this
      ensures log == old(log) + [command]
    {
      log := log + [command];
    }
  }

  class PacketTrace {
    var config: Config
    var commands: seq<string>
    var configureCommand: string

    /** `__init__`: the list given by the caller, or a new empty one. */
    constructor(config: Config, commands: Option<seq<string>>)
      ensures this.config == config && configureCommand == ""
      ensures this.commands == if commands.Some? then commands.value else []
    {
      this.config := config;
      this.commands := if commands.Some? then commands.value else [];
      configureCommand := "";
    }

    method ConditionsCreator()
      modifies this`configureCommand
      ensures configureCommand == ConditionCommand(config)
    {
      ghost var i := if Given(config.interface) then ["interface " + config.interface.value] else [];
      ghost var v := if Given(config.version) then [config.version.value] else [];
      ghost var a := if Given(config.acl) then ["access-list " + config.acl.value] else [];
      ghost var p := if Given(config.ipAddress) then [config.ipAddress.value] else [];
      ghost var d := if Given(config.direction) then [config.direction.value] else [];
      var result: seq<string> := [];
      if Given(config.interface) {
        result := result + ["interface " + config.interface.value];
      }
      assert result == i;
      if Given(config.version) {
        result := result + [config.version.value];
      }
      assert result == i + v;
      if Given(config.acl) {
        result := result + ["access-list " + config.acl.value];
      }
      assert result == i + v + a;
      if Given(config.ipAddress) {
        result := result + [config.ipAddress.value];
      }
      assert result == i + v + a + p;
      if Given(config.direction) {
        result := result + [config.direction.value];
      }
      assert result == i + v + a + p + d == ConditionParts(config);
      configureCommand := "debug platform condition " + Join(result, " ");
    }

    method PacketTraceBasic()
      modifies this`commands
      ensures commands == old(commands) + [BasicCommand(config)]
    {
      var result: seq<string> := [];
      if config.summaryOnly {
        result := result + ["summary-only"];
        if config.circular {
          result := result + ["circular"];
        }
      } else {
        if config.fiaTrace {
          result := result + ["fia-trace"];
        }
        if config.circular {
          result := result + ["circular"];
        }
        assert result == (if config.fiaTrace then ["fia-trace"] else []) + (if config.circular then ["circular"] else []);
        if Truthy(config.dataSize) {
          result := result + ["data-size " + Format(config.dataSize) + " "];
        }
      }
      assert result == BasicOptions(config);
      commands := commands + [PACKET_PREFIX + IntToString(config.packetCount) + " " + Join(result, " ")];
    }

    method PacketTraceCopy()
      modifies this`commands
      ensures commands == old(commands) + [CopyCommand(config)]
    {
      var result: seq<string> := [];
      if Given(config.layer) {
        result := result + [config.layer.value];
      }
      if Truthy(config.size) {
        result := result + ["size " + Format(config.size)];
      }
      commands := commands + ["debug platform packet-trace copy packet " + Show(config.copyDirection) + " " + Join(result, " ")];
    }

    method PacketTraceDrop()
      modifies this`commands
      ensures commands == old(commands) + [DropCommand(config.drop)]
    {
      var result;
      if config.drop == Str("all") {
        result := "debug platform packet-trace drop";
      } else {
        result := "debug platform packet-trace drop code " + Format(config.drop);
      }
      commands := commands + [result];
    }

    method PacketTracePunt()
      modifies this`commands
      ensures commands == old(commands) + [PuntCommand(config.punt)]
    {
      var result;
      if config.punt != NoArg && config.punt != Str("all") {
        result := "debug platform packet-trace punt code " + Format(config.punt);
      } else {
        result := "debug platform packet-trace punt";
      }
      commands := commands + [result];
    }

    method PacketTraceInject()
      modifies this`commands
      ensures commands == old(commands) + [InjectCommand(config.inject)]
    {
      var result;
      if config.inject != NoArg && config.inject != Str("all") {
        result := "debug platform packet-trace inject code " + Format(config.inject);
      } else {
        result := "debug platform packet-trace inject";
      }
      commands := commands + [result];
    }

    /** `execute_command`, with `conditionalState` the `conditional_state`
        field of `show platform conditions`. */
    method ExecuteCommand(dev: Device, conditionalState: string)
      modifies dev
      ensures dev.log == old(dev.log) + ExecutionLog(configureCommand, commands, conditionalState)
    {
      dev.Exec(configureCommand);
      var i := 0;
      while i < |commands|
        invariant 0 <= i <= |commands|
        invariant dev.log == old(dev.log) + [configureCommand] + commands[..i]
      {
        dev.Exec(commands[i]);
        i := i + 1;
      }
      if conditionalState == "Stop" {
        dev.Exec(START);
      }
    }

    /** The builder calls of `packet_trace`: the base command, then copy,
        drop, punt and inject when their options are set. */
    method AddCaptureCommands()
      modifies this`commands
      ensures commands == old(commands) + CaptureCommands(config)
    {
      ghost var c := config;
      PacketTraceBasic();
      ghost var s1 := commands;
      if config.copy {
        PacketTraceCopy();
      }
      ghost var s2 := commands;
      if Truthy(config.drop) {
        PacketTraceDrop();
      }
      ghost var s3 := commands;
      if Truthy(config.punt) {
        PacketTracePunt();
      }
      ghost var s4 := commands;
      if Truthy(config.inject) {
        PacketTraceInject();
      }
      CaptureSteps5(old(commands), s1, s2, s3, s4, commands, c);
    }

    /** `packet_trace`: build the condition, run the builders whose options
        are set, and send everything. */
    method Start(dev: Device, conditionalState: string)
      modifies this`configureCommand, this`commands, dev
      ensures configureCommand == ConditionCommand(config)
      ensures commands == old(commands) + CaptureCommands(config)
      ensures dev.log == old(dev.log) + ExecutionLog(configureCommand, commands, conditionalState)
    {
      ConditionsCreator();
      AddCaptureCommands();
      ExecuteCommand(dev, conditionalState);
    }

    /** The body of the loop's exit branch: stop the trace, redirect the
        capture to its file, summarise the packets, clear the conditions. */
    method StopAndCollect(dev: Device, replies: DeviceReplies, percent: (nat, nat) -> string)
      returns (r: CaptureResult)
      modifies dev
      ensures dev.log == old(dev.log) + Teardown(Url(replies.timestamp, config.interface))
      ensures r == CaptureResult(Url(replies.timestamp, config.interface),
                                 FlowStats.AnalyzeStatistics(replies.packets, percent), None)
    {
      var url := Url(replies.timestamp, config.interface);
      dev.Exec(STOP);
      dev.Exec(RedirectCommand(url));
      var statistics := FlowStats.AnalyzeStatistics(replies.packets, percent);
      dev.Exec(CLEAR);
      r := CaptureResult(url, statistics, None);
    }

    /** The poll loop of `run_packet_trace`: query the traced-packet count
        until the packet or time bound is reached, then stop and collect.
        `polls` is the number of statistics queries made. When the replies
        run out before either bound is reached, the model stops there and
        returns None; the source would go on polling. */
    method PollUntilBound(dev: Device, replies: DeviceReplies, percent: (nat, nat) -> string)
      returns (r: Option<CaptureResult>, ghost polls: nat)
      modifies dev
      ensures dev.log == old(dev.log) + SessionTail(config, replies)
      ensures r == SessionResult(config, replies, percent)
      ensures polls == match FirstFinished(replies.polls, config.packetCount, config.maxExecTime)
                       case Some(k) => k + 1
                       case None => |replies.polls|
    {
      var i := 0;
      while true
        invariant 0 <= i <= |replies.polls|
        invariant forall j :: 0 <= j < i ==> !Finished(replies.polls[j], config.packetCount, config.maxExecTime)
        invariant dev.log == old(dev.log)
        decreases |replies.polls| - i
      {
        if i == |replies.polls| {
          FirstFinishedNone(replies.polls, config.packetCount, config.maxExecTime);
          r, polls := None, i;
          return;
        }
        var sample := replies.polls[i];
        if sample.traced >= config.packetCount || sample.elapsed > config.maxExecTime as real {
          FirstFinishedAt(replies.polls, config.packetCount, config.maxExecTime, i);
          var result := StopAndCollect(dev, replies, percent);
          r, polls := Some(result), i + 1;
          return;
        }
        i := i + 1;
      }
    }

    /** `run_packet_trace`: start the capture, then poll until a bound is
        reached. Everything it sends is `SessionLog(config, old(commands), replies)`. */
    method RunPacketTrace(dev: Device, replies: DeviceReplies, percent: (nat, nat) -> string)
      returns (r: Option<CaptureResult>, ghost polls: nat)
      modifies this`configureCommand, this`commands, dev
      ensures configureCommand == ConditionCommand(config)
      ensures commands == old(commands) + CaptureCommands(config)
      ensures dev.log == old(dev.log) + ExecutionLog(configureCommand, commands, replies.conditionalState)
                                      + SessionTail(config, replies)
      ensures dev.log == old(dev.log) + SessionLog(config, old(commands), replies)
      ensures r == SessionResult(config, replies, percent)
      ensures polls == match FirstFinished(replies.polls, config.packetCount, config.maxExecTime)
                       case Some(k) => k + 1
                       case None => |replies.polls|
    {
      Start(dev, replies.conditionalState);
      r, polls := PollUntilBound(dev, replies, percent);
      SessionLogAppended(config, old(commands), configureCommand, commands, replies, old(dev.log), dev.log);
    }
  }
}
