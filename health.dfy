/** `Interface` (interface.py): the health check of one interface over the
    counters parsed from `show interfaces`. It records error rates for the
    counters of interest, reads the input and output queue pairs, and, when
    the link is up, runs a packet trace for the drops on the interface. */
module Health {
  import opened Text
  import opened Capture

  /** The parsed counters of one interface, keyed by field name. */
  type Counters = map<string, Arg>

  /** A value of `Interface.stats`: a packet count, or a (current, max) queue pair. */
  datatype Stat = Scalar(value: Arg) | Queue(current: Arg, max: Arg)

  /** A value of `Interface.errors`: the error count and the packet count the
      rate `count / packets` is taken over. */
  datatype ErrorEntry = ErrorEntry(count: Arg, packets: Arg)

  const ADMIN_DOWN := Str("administratively down")
  const LINK_UP := Str("up")
  const TRACER_KEY := "packet_tracer_result"

  /** `dict.get(key)`. */
  function Lookup(data: Counters, key: string): Arg
  {
    if key in data then data[key] else NoArg
  }

  // ---- calculate_error ------------------------------------------------------------------------

  /** The packet count the rate is taken over: the override when truthy,
      otherwise the stored count unless that is None or the string '0'. */
  function PacketsFor(stats: map<string, Stat>, direction: string, numberOfPackets: Arg): (r: Option<Arg>)
    requires !Truthy(numberOfPackets) ==> direction in stats && stats[direction].Scalar?
    ensures Truthy(numberOfPackets) ==> r == Some(numberOfPackets)
    ensures !Truthy(numberOfPackets) ==>
      (r.None? <==> stats[direction].value == NoArg || stats[direction].value == Str("0"))
    ensures r.Some? ==> Truthy(numberOfPackets) || r.value == stats[direction].value
  {
    if Truthy(numberOfPackets) then Some(numberOfPackets)
    else if stats[direction].value == NoArg || stats[direction].value == Str("0") then None
    else Some(stats[direction].value)
  }

  /** What `calculate_error` records for `error`, or None when it records
      nothing. */
  function Recorded(data: Counters, stats: map<string, Stat>, error: string, direction: Option<string>,
                    numberOfErrors: Arg, numberOfPackets: Arg): (r: Option<ErrorEntry>)
    requires direction.Some? && !Truthy(numberOfPackets) ==>
      direction.value in stats && stats[direction.value].Scalar?
    ensures direction.None? ==> r.None?
    ensures (&& direction.Some? && !Truthy(numberOfPackets)
             && (stats[direction.value].value == NoArg || stats[direction.value].value == Str("0"))) ==> r.None?
    ensures !Truthy(numberOfErrors) && error !in data ==> r.None?
    ensures r.Some? ==> r.value.count == (if Truthy(numberOfErrors) then numberOfErrors else data[error])
    ensures r.Some? ==> r.value.packets == (if Truthy(numberOfPackets) then numberOfPackets
                                            else stats[direction.value].value)
  {
    if direction.None? then None
    else
      var packets := PacketsFor(stats, direction.value, numberOfPackets);
      if packets.None? then None
      else if !Truthy(numberOfErrors) && error !in data then None
      else Some(ErrorEntry(if Truthy(numberOfErrors) then numberOfErrors else data[error], packets.value))
  }

  /** The `errors` dict: its entries, and its keys in insertion order (the
      order in which the health report lists them). */
  datatype Errors = Errors(order: seq<string>, entries: map<string, ErrorEntry>)

  /** The order lists each key of the dict exactly once. */
  predicate Ordered(e: Errors)
  {
    && (forall i, j :: 0 <= i < j < |e.order| ==> e.order[i] != e.order[j])
    && (forall k :: k in e.order ==> k in e.entries)
    && (forall k :: k in e.entries ==> k in e.order)
  }

  /** `errors[key] = entry`: an existing key keeps its place and takes the new
      entry; a new key goes last. */
  function Put(errors: Errors, key: string, entry: ErrorEntry): (r: Errors)
    ensures key in r.entries && r.entries[key] == entry
    ensures r.entries.Keys == errors.entries.Keys + {key}
    ensures forall k :: k in errors.entries && k != key ==> r.entries[k] == errors.entries[k]
    ensures Ordered(errors) && key in errors.entries ==> r.order == errors.order
    ensures Ordered(errors) && key !in errors.entries ==> r.order == errors.order + [key]
    ensures Ordered(errors) ==> Ordered(r)
  {
    var order := if key in errors.entries then errors.order else errors.order + [key];
    Errors(order, errors.entries[key := entry])
  }

  /** `errors` after recording an optional entry for `error`. */
  function Record(errors: Errors, error: string, entry: Option<ErrorEntry>): (r: Errors)
    ensures entry.None? ==> r == errors
    ensures entry.Some? ==> r == Put(errors, error, entry.value)
  {
    if entry.Some? then Put(errors, error, entry.value) else errors
  }

  /** A recording is made exactly when a direction is given, a usable packet
      count is found, and an error count is found. */
  lemma RecordedExactly(data: Counters, stats: map<string, Stat>, error: string, direction: Option<string>,
                        numberOfErrors: Arg, numberOfPackets: Arg)
    requires direction.Some? && !Truthy(numberOfPackets) ==>
      direction.value in stats && stats[direction.value].Scalar?
    ensures Recorded(data, stats, error, direction, numberOfErrors, numberOfPackets).Some? <==>
      && direction.Some?
      && (Truthy(numberOfPackets) || (stats[direction.value].value != NoArg && stats[direction.value].value != Str("0")))
      && (Truthy(numberOfErrors) || error in data)
  {
    if direction.Some? {
      var p := PacketsFor(stats, direction.value, numberOfPackets);
    }
  }

  // ---- calculate_errors_list --------------------------------------------------------------------

  /** The stored packet count of a direction is a scalar. */
  predicate HasCount(stats: map<string, Stat>, direction: string)
  {
    direction in stats && stats[direction].Scalar?
  }

  /** `errors` after `calculate_error` for every name of `names`, in order. */
  function ErrorsAfter(errors: Errors, data: Counters, stats: map<string, Stat>,
                       direction: string, names: seq<string>): (r: Errors)
    requires HasCount(stats, direction)
    ensures Ordered(errors) ==> Ordered(r)
    decreases |names|
  {
    if names == [] then errors
    else
      ErrorsAfter(Record(errors, names[0], Recorded(data, stats, names[0], Some(direction), NoArg, NoArg)),
                  data, stats, direction, names[1..])
  }

  /** Only names of the list are added, nothing is removed, and a key outside
      the list keeps its entry. */
  lemma {:induction false} ErrorsAfterFrame(errors: Errors, data: Counters, stats: map<string, Stat>,
                                            direction: string, names: seq<string>)
    requires HasCount(stats, direction)
    decreases |names|
    ensures var r := ErrorsAfter(errors, data, stats, direction, names).entries;
      && errors.entries.Keys <= r.Keys
      && (forall k :: k in r && k !in errors.entries ==> k in names)
      && (forall k :: k in errors.entries && k !in names ==> r[k] == errors.entries[k])
  {
    if names != [] {
      var next := Record(errors, names[0], Recorded(data, stats, names[0], Some(direction), NoArg, NoArg));
      ErrorsAfterFrame(next, data, stats, direction, names[1..]);
      forall k | k in names[1..] ensures k in names {
      }
    }
  }

  /** A listed name whose counter is in the data ends up recorded, with that
      counter, whenever the stored packet count is usable; when it is None or
      '0' nothing at all is recorded. */
  lemma {:induction false} ErrorsAfterRecords(errors: Errors, data: Counters, stats: map<string, Stat>,
                                              direction: string, names: seq<string>)
    requires HasCount(stats, direction)
    decreases |names|
    ensures stats[direction].value == NoArg || stats[direction].value == Str("0") ==>
      ErrorsAfter(errors, data, stats, direction, names) == errors
    ensures stats[direction].value != NoArg && stats[direction].value != Str("0") ==>
      forall k :: k in names && k in data ==>
        var r := ErrorsAfter(errors, data, stats, direction, names).entries;
        k in r && r[k] == ErrorEntry(data[k], stats[direction].value)
  {
    if names != [] {
      var next := Record(errors, names[0], Recorded(data, stats, names[0], Some(direction), NoArg, NoArg));
      ErrorsAfterRecords(next, data, stats, direction, names[1..]);
      if stats[direction].value != NoArg && stats[direction].value != Str("0") && names[0] in data {
        ErrorsAfterFrame(next, data, stats, direction, names[1..]);
        var r := ErrorsAfter(errors, data, stats, direction, names).entries;
        if names[0] !in names[1..] {
          assert r[names[0]] == next.entries[names[0]];
        }
      }
      forall k | k in names && k in data && k != names[0] ensures k in names[1..] {
      }
    }
  }

  /** The keys already present keep their places at the front; after them
      come the newly recorded names, each a name of the list that
      `calculate_error` records, in the order of their first occurrence in
      the list. */
  lemma {:induction false} ErrorsAfterOrder(errors: Errors, data: Counters, stats: map<string, Stat>,
                                            direction: string, names: seq<string>)
    requires HasCount(stats, direction) && Ordered(errors)
    decreases |names|
    ensures var r := ErrorsAfter(errors, data, stats, direction, names).order;
      && errors.order <= r
      && (forall i :: |errors.order| <= i < |r| ==>
            r[i] in names && Recorded(data, stats, r[i], Some(direction), NoArg, NoArg).Some?)
      && (forall i, j :: |errors.order| <= i < j < |r| ==>
            r[i] in names && r[j] in names && FirstIndex(names, r[i]) < FirstIndex(names, r[j]))
  {
    if names != [] {
      var n, rest := names[0], names[1..];
      var entry := Recorded(data, stats, n, Some(direction), NoArg, NoArg);
      var next := Record(errors, n, entry);
      ErrorsAfterOrder(next, data, stats, direction, rest);
      var r := ErrorsAfter(next, data, stats, direction, rest);
      assert r == ErrorsAfter(errors, data, stats, direction, names);
      var m := |next.order|;
      // The names added after `next` are new, so none of them is `n`: either
      // `n` is already in `next`, or it is not recorded at all.
      forall i | m <= i < |r.order| ensures r.order[i] != n {
        if n in next.order {
          assert next.order <= r.order && next.order[FirstIndex(next.order, n)] == n;
        }
      }
      OrderStep(errors.order, next.order, r.order, names);
      forall i | |errors.order| <= i < m
        ensures Recorded(data, stats, r.order[i], Some(direction), NoArg, NoArg).Some?
      {
        assert r.order[i] == next.order[i] == n;
      }
    }
  }

  /** One step of the walk, on the orders alone: from `p` the first name
      was possibly appended (`q`), then names of the rest in first-occurrence
      order (`r`). */
  lemma OrderStep(p: seq<string>, q: seq<string>, r: seq<string>, names: seq<string>)
    requires names != []
    requires q == p || q == p + [names[0]]
    requires q <= r
    requires forall i :: |q| <= i < |r| ==> r[i] in names[1..] && r[i] != names[0]
    requires forall i, j :: |q| <= i < j < |r| ==>
      r[i] in names[1..] && r[j] in names[1..] && FirstIndex(names[1..], r[i]) < FirstIndex(names[1..], r[j])
    ensures p <= r
    ensures forall i :: |p| <= i < |r| ==> r[i] in names
    ensures forall i, j :: |p| <= i < j < |r| ==>
      r[i] in names && r[j] in names && FirstIndex(names, r[i]) < FirstIndex(names, r[j])
  {
    var rest := names[1..];
    forall i | |q| <= i < |r| ensures r[i] in names && FirstIndex(names, r[i]) == 1 + FirstIndex(rest, r[i]) {
    }
    forall i | |p| <= i < |q| ensures r[i] == names[0] && FirstIndex(names, r[i]) == 0 {
      assert r[i] == q[i];
    }
  }

  // ---- check_queues --------------------------------------------------------------------------------

  /** A queue pair: both values from the data when both keys are there,
      otherwise (None, None). */
  function QueueOf(data: Counters, current: string, max: string): (r: Stat)
    ensures r.Queue?
    ensures current in data && max in data ==> r == Queue(data[current], data[max])
    ensures !(current in data && max in data) ==> r == Queue(NoArg, NoArg)
  {
    if current in data && max in data then Queue(data[current], data[max]) else Queue(NoArg, NoArg)
  }

  /** `stats` after `check_queues`. */
  function Queues(stats: map<string, Stat>, data: Counters): (r: map<string, Stat>)
    ensures r.Keys == stats.Keys + {"input_queue", "output_queue"}
    ensures r["input_queue"] == QueueOf(data, "input_queue_size", "input_queue_max")
    ensures r["output_queue"] == QueueOf(data, "output_queue_current", "output_queue_max")
    ensures forall k :: k in stats && k != "input_queue" && k != "output_queue" ==> r[k] == stats[k]
  {
    stats["input_queue" := QueueOf(data, "input_queue_size", "input_queue_max")]
         ["output_queue" := QueueOf(data, "output_queue_current", "output_queue_max")]
  }

  // ---- run_packet_tracer ---------------------------------------------------------------------------

  /** The interface name as the capture filter sees it: a truthy name is
      kept (a number as its decimal text), a falsy one is no filter. */
  function NameText(name: Arg): (r: Option<string>)
    ensures Given(r) <==> Truthy(name)
    ensures name.Str? && name.s != "" ==> r == Some(name.s)
  {
    match name
    case NoArg => None
    case Str(s) => if s == "" then None else Some(s)
    case Int(i) => if i == 0 then None else Some(IntToString(i))
  }

  /** The capture `run_packet_tracer` configures: all defaults except the
      interface, the FIA trace, the 30-second bound, and in drop mode every
      drop. */
  function TracerConfig(mode: Option<string>, name: Arg): (r: Config)
    ensures r.interface == NameText(name) && r.fiaTrace && r.maxExecTime == 30 && r.packetCount == 8192
    ensures r.drop == (if mode == Some("drop") then Str("all") else NoArg)
    ensures !r.copy && !Truthy(r.punt) && !Truthy(r.inject) && !r.summaryOnly && !r.circular && !Truthy(r.dataSize)
    ensures r.direction == Some("both")
  {
    Defaults().(interface := NameText(name), fiaTrace := true,
                drop := if mode == Some("drop") then Str("all") else NoArg, maxExecTime := 30)
  }

  /** The description attached to the capture result. */
  function TracerDescription(mode: Option<string>): (r: string)
    ensures r == "File with packet tracer statistics for drops on the interface" <==> mode == Some("drop")
  {
    if mode == Some("drop") then "File with packet tracer statistics for drops on the interface"
    else "File with packet tracer statistics for all packets on the interface"
  }

  /** `links` after storing a capture result under its key with its
      description; unchanged when there is no result. */
  function WithResult(links: map<string, CaptureResult>, result: Option<CaptureResult>, description: string)
    : (r: map<string, CaptureResult>)
    ensures result.None? ==> r == links
    ensures result.Some? ==> r.Keys == links.Keys + {TRACER_KEY}
    ensures result.Some? ==> r[TRACER_KEY] == result.value.(description := Some(description))
    ensures forall k :: k in links && k != TRACER_KEY ==> r[k] == links[k]
  {
    if result.Some? then links[TRACER_KEY := result.value.(description := Some(description))] else links
  }

  /** A new `PacketTrace` over `config`, run once. */
  method RunCapture(config: Config, dev: Device, replies: DeviceReplies, percent: (nat, nat) -> string)
    returns (r: Option<CaptureResult>)
    modifies dev
    ensures dev.log == old(dev.log) + SessionLog(config, [], replies)
    ensures r == SessionResult(config, replies, percent)
  {
    var pt := new PacketTrace(config, None);
    ghost var polls;
    r, polls := pt.RunPacketTrace(dev, replies, percent);
  }

  lemma DefaultCountText()
    ensures IntToString(8192) == "8192"
  {
    assert NatToString(8) == "8";
    assert NatToString(81) == "81";
    assert NatToString(819) == "819";
  }

  /** The interface's traces filter on the interface in both directions. */
  lemma TracerCondition(mode: Option<string>, name: string)
    requires name != ""
    ensures ConditionCommand(TracerConfig(mode, Str(name))) == "debug platform condition interface " + name + " both"
  {
    var c := TracerConfig(mode, Str(name));
    assert ConditionParts(c) == ["interface " + name, "both"];
    assert ["interface " + name, "both"][1..] == ["both"];
  }

  /** The interface's traces capture 8192 packets with the FIA trace, and in
      drop mode add the plain drop filter; no other builder runs. */
  lemma TracerCommands(mode: Option<string>, name: Arg)
    ensures CaptureCommands(TracerConfig(mode, name))
      == ["debug platform packet-trace packet 8192 fia-trace"]
         + (if mode == Some("drop") then ["debug platform packet-trace drop"] else [])
  {
    var c := TracerConfig(mode, name);
    DefaultCountText();
    assert BasicOptions(c) == ["fia-trace"];
    assert BasicCommand(c) == PACKET_PREFIX + "8192" + " " + "fia-trace";
    assert BasicCommand(c) == "debug platform packet-trace packet 8192 fia-trace";
    assert CaptureCommands(c) == [BasicCommand(c)] + (if Truthy(c.drop) then [DropCommand(c.drop)] else []);
  }

  // ---- the object ------------------------------------------------------------------------------------

  class Interface {
    const data: Counters
    const name: Arg
    const statusL1: Arg
    const statusL2: Arg
    const errorsOfInterest: map<string, seq<string>>
    var errors: Errors
    var stats: map<string, Stat>
    var links: map<string, CaptureResult>

    /** The input and output packet counts are always scalars, and the
        error dict lists each of its keys once. */
    predicate Valid()
      reads this
    {
      HasCount(stats, "input") && HasCount(stats, "output") && Ordered(errors)
    }

    constructor(parsedData: Counters, interestingErrors: map<string, seq<string>>)
      ensures data == parsedData && errorsOfInterest == interestingErrors
      ensures name == Lookup(parsedData, "interface_name")
      ensures statusL1 == Lookup(parsedData, "l1_link_status")
      ensures statusL2 == Lookup(parsedData, "l2_link_status")
      ensures errors == Errors([], map[]) && links == map[]
      ensures stats == map["input" := Scalar(Lookup(parsedData, "input_packets")),
                           "output" := Scalar(Lookup(parsedData, "output_packets"))]
      ensures Valid()
    {
      data := parsedData;
      errors := Errors([], map[]);
      links := map[];
      name := Lookup(parsedData, "interface_name");
      statusL1 := Lookup(parsedData, "l1_link_status");
      statusL2 := Lookup(parsedData, "l2_link_status");
      stats := map["input" := Scalar(Lookup(parsedData, "input_packets")),
                   "output" := Scalar(Lookup(parsedData, "output_packets"))];
      errorsOfInterest := interestingErrors;
    }

    /** `calculate_error`. The source reads `stats[direction]` only when no
        truthy packet count is passed, and that entry must then be a count. */
    method CalculateError(error: string, direction: Option<string>, numberOfErrors: Arg, numberOfPackets: Arg)
      requires direction.Some? && !Truthy(numberOfPackets) ==> HasCount(stats, direction.value)
      modifies this`errors
      ensures errors == Record(old(errors), error, Recorded(data, stats, error, direction, numberOfErrors, numberOfPackets))
    {
      if direction.None? {
        return;
      }
      var packets;
      if Truthy(numberOfPackets) {
        packets := numberOfPackets;
      } else if stats[direction.value].value == NoArg || stats[direction.value].value == Str("0") {
        return;
      } else {
        packets := stats[direction.value].value;
      }
      var errorsNumber;
      if !Truthy(numberOfErrors) {
        if error !in data {
          return;
        }
        errorsNumber := data[error];
      } else {
        errorsNumber := numberOfErrors;
      }
      errors := Put(errors, error, ErrorEntry(errorsNumber, packets));
    }

    /** `calculate_errors_list`: one `calculate_error` per listed counter, in order. */
    method CalculateErrorsList(direction: string)
      requires direction in errorsOfInterest && HasCount(stats, direction)
      modifies this`errors
      ensures errors == ErrorsAfter(old(errors), data, stats, direction, errorsOfInterest[direction])
    {
      var names := errorsOfInterest[direction];
      var i := 0;
      while i < |names|
        invariant 0 <= i <= |names|
        invariant ErrorsAfter(errors, data, stats, direction, names[i..])
               == ErrorsAfter(old(errors), data, stats, direction, names)
      {
        assert names[i..][1..] == names[i + 1..];
        CalculateError(names[i], Some(direction), NoArg, NoArg);
        i := i + 1;
      }
    }

    /** `check_queues`. */
    method CheckQueues()
      modifies this`stats
      ensures stats == Queues(old(stats), data)
    {
      var inputQueue;
      if "input_queue_size" in data && "input_queue_max" in data {
        inputQueue := Queue(data["input_queue_size"], data["input_queue_max"]);
      } else {
        inputQueue := Queue(NoArg, NoArg);
      }
      var outputQueue;
      if "output_queue_current" in data && "output_queue_max" in data {
        outputQueue := Queue(data["output_queue_current"], data["output_queue_max"]);
      } else {
        outputQueue := Queue(NoArg, NoArg);
      }
      stats := stats["input_queue" := inputQueue]["output_queue" := outputQueue];
    }

    /** `run_packet_tracer`. When the replies run out before the capture
        stops, no result is stored. */
    method RunPacketTracer(mode: Option<string>, dev: Device, replies: DeviceReplies, percent: (nat, nat) -> string)
      modifies this`links, dev
      ensures dev.log == old(dev.log) + SessionLog(TracerConfig(mode, name), [], replies)
      ensures links == WithResult(old(links), SessionResult(TracerConfig(mode, name), replies, percent), TracerDescription(mode))
    {
      var config := TracerConfig(mode, name);
      var description := TracerDescription(mode);
      var result := RunCapture(config, dev, replies, percent);
      links := WithResult(links, result, description);
    }

    /** `check_interface_health`. */
    method CheckInterfaceHealth(dev: Device, replies: DeviceReplies, percent: (nat, nat) -> string)
      requires Valid()
      requires statusL1 != ADMIN_DOWN ==> "input" in errorsOfInterest && "output" in errorsOfInterest
      modifies this`errors, this`stats, this`links, dev
      ensures Valid()
      ensures statusL1 == ADMIN_DOWN ==>
        errors == old(errors) && stats == old(stats) && links == old(links) && dev.log == old(dev.log)
      ensures statusL1 != ADMIN_DOWN ==>
        && errors == ErrorsAfter(ErrorsAfter(old(errors), data, old(stats), "input", errorsOfInterest["input"]),
                                 data, old(stats), "output", errorsOfInterest["output"])
        && stats == Queues(old(stats), data)
      ensures statusL1 != ADMIN_DOWN && statusL2 == LINK_UP ==>
        && dev.log == old(dev.log) + SessionLog(TracerConfig(Some("drop"), name), [], replies)
        && links == WithResult(old(links), SessionResult(TracerConfig(Some("drop"), name), replies, percent),
                               TracerDescription(Some("drop")))
      ensures !(statusL1 != ADMIN_DOWN && statusL2 == LINK_UP) ==> dev.log == old(dev.log) && links == old(links)
    {
      if statusL1 != ADMIN_DOWN {
        CalculateErrorsList("input");
        CalculateErrorsList("output");
        CheckQueues();
        if statusL2 == LINK_UP {
          RunPacketTracer(Some("drop"), dev, replies, percent);
        }
      }
    }
  }

  /** A capture runs, that is, the device is sent anything at all, exactly
      when the interface is not administratively down and its line protocol
      is up. */
  lemma CaptureRunsExactly(oldLog: seq<string>, newLog: seq<string>, statusL1: Arg, statusL2: Arg,
                           name: Arg, replies: DeviceReplies)
    requires statusL1 != ADMIN_DOWN && statusL2 == LINK_UP ==>
      newLog == oldLog + SessionLog(TracerConfig(Some("drop"), name), [], replies)
    requires !(statusL1 != ADMIN_DOWN && statusL2 == LINK_UP) ==> newLog == oldLog
    ensures newLog != oldLog <==> statusL1 != ADMIN_DOWN && statusL2 == LINK_UP
  {
    if statusL1 != ADMIN_DOWN && statusL2 == LINK_UP {
      assert |newLog| > |oldLog|;
    }
  }
}
