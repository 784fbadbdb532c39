# Packet trace and interface health, modelled in Dafny

This project models two classes of a network-diagnostics tool for Cisco
IOS-XE devices and proves properties about them.

- `PacketTrace` (packet_trace.py) sets up the device's conditional debug and
  its packet-trace feature:
  - it builds the `debug platform condition …` command from the filter
    fields;
  - it builds the `debug platform packet-trace …` commands from the option
    fields, and sends all of them;
  - it polls the traced-packet counter until the packet bound or the time
    bound is reached;
  - it then stops the trace, redirects the capture to a file on bootflash,
    summarises the traced packets per flow, and clears the conditions.
- `Interface` (interface.py) is the health check of one interface:
  - it records error rates for the counters of interest;
  - it reads the input and output queue pairs;
  - when the interface is not administratively down and its line protocol is up, it runs a
    packet trace for the drops on the interface and stores the result.

## Files

- `text.dfy` (module `Text`): Python string helpers the commands need:
  - `' '.join`;
  - substring search;
  - ASCII `lower()` and `replace`;
  - decimal rendering of integers.
- `flow_stats.dfy` (module `FlowStats`): the reduction of `analyze_statistics`:
  - the flow key of a packet record;
  - the `Counter`;
  - the `most_common` ranking;
  - the rendered listing.
- `capture.dfy` (module `Capture`): the `PacketTrace` class and the
  functions that specify it:
  - the command builders;
  - `execute_command`;
  - the poll loop;
  - the capture file name;
  - the teardown;
  - the whole session.
- `health.dfy` (module `Health`): the `Interface` class and the functions
  that specify it.

## How the environment is represented

- The device is a `Device` object whose `log` holds every command sent with
  `run_exec_command`, in order.
- The answers to the device queries are inputs, bundled as `DeviceReplies`:
  - the `conditional_state` read by `execute_command`;
  - the successive `(traced packets, elapsed seconds)` samples of the poll
    loop;
  - the timestamp used in the file name;
  - the parsed packet records.
- Python values that may be a string, a number or None (the drop, punt and
  inject codes, the sizes, the counter values) are the datatype `Arg`:
  - `Truthy` is Python truthiness;
  - `Format` is `'{}'.format`, with None rendered as `None`.
- The keyword defaults of `PacketTrace.__init__` are `Capture.Defaults`.

## Model

| member | source | states |
|---|---|---|
| Capture.PacketTrace.constructor | packet_trace.py:33-62 | the fields are the arguments; the command list is the caller's list when one is given, otherwise a new empty one; the condition command starts empty |
| Capture.PacketTrace.ConditionsCreator | packet_trace.py:64-77 | sets `configureCommand` to the condition command of the configuration, building the parts list step by step |
| Capture.ConditionCommandSpec | packet_trace.py:64-77 | the condition command is `debug platform condition ` followed by the set filter fields space-joined; each set field appears exactly once; the order is interface, version, ACL, IP address, direction; the k-th set field sits at the position given by the number of set fields before it, so an earlier field always lands at an earlier position |
| Capture.PacketTrace.PacketTraceBasic | packet_trace.py:79-94 | appends exactly the base command to the list and leaves earlier entries unchanged |
| Capture.SummaryOnlyExcludesTrace | packet_trace.py:82-85 | with summary-only, the base command contains neither `fia-trace` nor `data-size`; it contains `summary-only`; it contains `circular` exactly when the circular option is set |
| Capture.FullTraceOptions | packet_trace.py:86-92 | without summary-only, a set FIA trace puts `fia-trace` in the base command, a set circular option puts `circular` in it, and a truthy data size puts `data-size <size>` in it; with neither an FIA trace nor a data size, `fia-trace` is absent |
| Capture.PacketTrace.PacketTraceCopy | packet_trace.py:96-104 | appends exactly the copy command built from the direction, the layer and the size, and leaves earlier entries unchanged |
| Capture.DropCommand | packet_trace.py:106-112 | the drop command is the plain `debug platform packet-trace drop` exactly when the drop value is the string `all` |
| Capture.DropCommandParses | packet_trace.py:106-112 | reading the drop command back gives "every drop" for `all`, and otherwise the code exactly as formatted |
| Capture.PacketTrace.PacketTraceDrop | packet_trace.py:106-112 | appends exactly the drop command and leaves earlier entries unchanged |
| Capture.PuntCommand | packet_trace.py:114-119 | the punt command is the plain form exactly when the punt value is None or `all` |
| Capture.PuntCommandParses | packet_trace.py:114-119 | reading the punt command back gives "every punt" for None or `all`, and otherwise the code exactly as formatted |
| Capture.PacketTrace.PacketTracePunt | packet_trace.py:114-119 | appends exactly the punt command and leaves earlier entries unchanged |
| Capture.InjectCommand | packet_trace.py:121-126 | the inject command is the plain form exactly when the inject value is None or `all` |
| Capture.InjectCommandParses | packet_trace.py:121-126 | reading the inject command back gives "every inject" for None or `all`, and otherwise the code exactly as formatted |
| Capture.PacketTrace.PacketTraceInject | packet_trace.py:121-126 | appends exactly the inject command and leaves earlier entries unchanged |
| Capture.PacketTrace.ExecuteCommand | packet_trace.py:128-145 | the device is sent the condition command, then every listed command in list order, then the start command only when the state read back is `Stop` |
| Capture.LogShape | packet_trace.py:130-143 | in such a log, the condition comes first; the listed commands follow in order; the start command follows them exactly when the state was `Stop`; whatever is sent afterwards closes the log |
| Capture.PacketTrace.AddCaptureCommands | packet_trace.py:150-158 | the list grows by exactly the capture commands of the configuration; the prior entries stay in front |
| Capture.CaptureCommandsSpec | packet_trace.py:150-158 | the base command comes first; copy, drop, punt and inject follow in that order, each present exactly when its option is truthy, an earlier builder's command always at an earlier position; the list grows by one plus the number of truthy options |
| Capture.PacketTrace.Start | packet_trace.py:147-159 | `packet_trace` sets the condition command, extends the list with the capture commands and sends everything as `execute_command` does |
| Capture.FirstFinished | packet_trace.py:172-177 | the index at which the loop stops is the first poll with `traced >= packet_count` or `elapsed > max_exec_time`, and no earlier poll meets either bound; with no such poll there is no index |
| Capture.PollBound | packet_trace.py:172-200 | when polls are at least five seconds apart, the loop stops within `max_exec_time / 5 + 2` polls, whatever the packet counts |
| Capture.PacketTrace.PollUntilBound | packet_trace.py:172-200 | the loop sends nothing until the first poll that meets a bound; it then sends exactly the teardown and returns the session result; the number of polls made is that poll's index plus one |
| Capture.UrlSuffix | packet_trace.py:178-184 | with an interface filter the file-name suffix is `_` followed by the lower-cased interface with each `/` turned into `_`; without one the suffix is empty; the suffix never holds `/` or an upper-case letter |
| Capture.Url | packet_trace.py:178-184 | the capture file is on `bootflash:`, named by the timestamp and `_packet_trace_statistics`, and ends in `.txt`; without an interface filter it is exactly `bootflash:<timestamp>_packet_trace_statistics.txt` |
| Capture.UrlSuffixNormalises | packet_trace.py:181 | two interface names that differ only in letter case or in `/` versus `_` give the same file name |
| Capture.PacketTrace.StopAndCollect | packet_trace.py:185-196 | sends stop, then the redirect to the capture file, then clear, and returns the file with the statistics text |
| Capture.SessionLogShape | packet_trace.py:170-196 | the log of a session is the condition command, the prior and capture commands, the optional start command, and, once the loop stops, stop, redirect and clear as its last three commands |
| Capture.SessionClearsOnce | packet_trace.py:185-191 | a session adds exactly one clear command when the loop stops, and none otherwise |
| Capture.SessionStopsOnce | packet_trace.py:185 | a session adds exactly one stop command when the loop stops, and none otherwise, apart from the condition command itself when the filter fields spell `stop` |
| Capture.SessionRedirectsOnce | packet_trace.py:187 | a session redirects the capture to its file exactly once when the loop stops, and never otherwise |
| Capture.PacketTrace.RunPacketTrace | packet_trace.py:161-200 | the device is sent exactly the session log; the list and the condition command hold the built commands; the result is the session result (file name and statistics); the number of polls is as for the loop |
| FlowStats.FlowKeyOf | packet_trace.py:204-209 | missing ports read as `0`; a missing protocol falls back to the protocol number; a missing drop feature reads as the empty string; missing addresses and interface read as None; present fields are kept as they are |
| FlowStats.FormatFlow | packet_trace.py:212-215 | the flow text starts with `Source: ` and ends with `, Drop reason: ` and the drop feature |
| FlowStats.Tally | packet_trace.py:221 | the Counter has at most one entry per record, and at least one when there are records |
| FlowStats.TallyKeys | packet_trace.py:221 | the Counter holds each distinct flow key exactly once, and only keys of the records |
| FlowStats.TallyCounts | packet_trace.py:221 | each Counter entry holds the number of records with its key |
| FlowStats.TallyOrder | packet_trace.py:221 | the Counter lists its keys in the order of their first occurrence |
| FlowStats.TallySum | packet_trace.py:219-221 | the Counter's counts add up to the number of records, `total` |
| FlowStats.MostCommon | packet_trace.py:223 | `most_common` has one entry per Counter entry, each taken from the Counter |
| FlowStats.MostCommonEntries | packet_trace.py:223 | `most_common` lists every flow of the records exactly once, with its number of packets |
| FlowStats.MostCommonOrder | packet_trace.py:223 | counts never increase down the ranking; equal counts keep first-seen order; the counts add up to the number of records |
| FlowStats.RankedFlows | packet_trace.py:221-223 | the ranked flows are exactly the distinct flows of the records, as many as there are |
| FlowStats.AnalyzeStatistics | packet_trace.py:217-227 | the statistics text is empty exactly when no packet was traced; otherwise it starts with the header |
| FlowStats.AnalyzeStatisticsLines | packet_trace.py:217-227 | with records, the text is the header joined by newlines with one line per distinct flow; line `i` shows flow `i` of `most_common`, with its number of packets out of the total |
| Health.Interface.constructor | interface.py:6-24 | data, name, L1 and L2 status come from the parsed data; `stats` holds the input and output packet counts; `errors` and `links` are empty |
| Health.PacketsFor | interface.py:30-35 | the packet count is a truthy override when one is given; otherwise it is the stored count, and there is none exactly when that count is None or the string `0` |
| Health.Recorded | interface.py:26-46 | nothing is recorded without a direction, without a usable packet count, or with no truthy error override and the counter missing from the data; a recording holds the override or the data counter, over the override or the stored packet count |
| Health.RecordedExactly | interface.py:26-46 | a recording is made if and only if a direction is given, a usable packet count is found and an error count is found |
| Health.Put | interface.py:46 | a dict assignment sets the counter's entry and keeps every other entry; an existing key keeps its place in the order, a new key goes last; the order keeps listing each key once |
| Health.Record | interface.py:46 | with a recording `errors` takes the assignment; with no recording `errors` is unchanged |
| Health.Interface.CalculateError | interface.py:26-46 | `errors` becomes the old `errors` with exactly what `calculate_error` records for the counter, and nothing else changes |
| Health.Interface.CalculateErrorsList | interface.py:49-51 | `errors` is the result of recording every counter of the direction's interest list, in list order |
| Health.ErrorsAfter | interface.py:49-51 | walking the list keeps the order listing each key of `errors` once |
| Health.ErrorsAfterFrame | interface.py:49-51 | walking the list removes no entry; every key it adds belongs to the list; entries for keys outside the list are unchanged |
| Health.ErrorsAfterRecords | interface.py:49-51 | with a usable stored packet count, every listed counter found in the data ends up recorded with that counter; with None or `0`, nothing is recorded |
| Health.ErrorsAfterOrder | interface.py:49-51 | keys already in `errors` keep their places in front; after them come the newly recorded counters, each a listed counter that `calculate_error` records, in the order of their first occurrence in the list |
| Health.QueueOf | interface.py:54-62 | a queue pair is both data values when both keys are there, and `(None, None)` whenever either key is missing |
| Health.Queues | interface.py:64 | only the `input_queue` and `output_queue` entries of `stats` are set; every other entry is unchanged |
| Health.Interface.CheckQueues | interface.py:53-64 | `stats` becomes the queue update of the old `stats` over the data |
| Health.NameText | interface.py:12 | the interface filter is set exactly when the name is truthy, and a non-empty string name is kept as it is |
| Health.TracerConfig | interface.py:78-84 | the capture filters on the interface with the FIA trace, a 30-second bound and the default 8192 packets; drop mode drops `all`, other modes set no drop filter; no copy, punt, inject, summary-only, circular or data size is set |
| Health.TracerDescription | interface.py:78-85 | the description is the drops text exactly in drop mode |
| Health.TracerCondition | interface.py:80 | the tracer's condition command is `debug platform condition interface <name> both` |
| Health.TracerCommands | interface.py:80 | the tracer's list is the base command with 8192 packets and `fia-trace`, plus the plain drop command in drop mode |
| Health.WithResult | interface.py:87-89 | a result is stored under `packet_tracer_result` with its description, and every other link is unchanged; with no result the links are unchanged |
| Health.RunCapture | interface.py:80-87 | a new `PacketTrace` over the configuration, run once, sends exactly the session log and returns the session result |
| Health.Interface.RunPacketTracer | interface.py:77-89 | sends the session log of the tracer configuration for the mode, and stores its result with the mode's description under `packet_tracer_result` |
| Health.Interface.CheckInterfaceHealth | interface.py:91-100 | when administratively down, `errors`, `stats`, `links` and the device are all unchanged; otherwise `errors` covers the input list then the output list and `stats` gets the queues; the drop capture runs, and its result is stored, exactly when L2 is `up` |
| Health.CaptureRunsExactly | interface.py:91-100 | the device is sent anything at all if and only if the interface is not administratively down and L2 is `up` |

## Left out

- Device I/O (`run_exec_command` and `parse_cli_command` of `tac.helper`) is not part of this model. Sending is an append to `Device.log`; the query answers are the inputs in `DeviceReplies`.
- `time.sleep`, `time.time` and `datetime.now().strftime` are not modelled. Elapsed times and the file-name timestamp are inputs.
- `print` and the `verbose` flag are not modelled. They affect only console output.
- `mpls`, `attach_to_the_case` and the documented numeric ranges (such as packet count 16-8192) are not modelled. The source stores them but never uses or enforces them.
- `generate_health_report`, `present_interface_html` and `show_buffers_input` are not modelled. They assemble the report or are stubs.
- Exceptions are not modelled. The source has no `try`/`finally`, so a failing command skips the clear command.
- A requirement that the conditions are cleared on every exit path is not modelled, because the code does not do that. The model follows the code: clear is sent only after the loop stops.
- Capture.PacketTrace.PollUntilBound: the replies are a finite list of polls. When none meets a bound, the model returns None after the last one; the source would go on polling.
- Capture.PacketTrace.RunPacketTrace: the same finite-replies limit applies. In that case the result is None and no teardown is sent.
- Capture.PacketTrace.constructor: when the caller passes a list, the source shares it and appends to it. The model copies the value into the object, so the caller does not see the appended commands.
- FlowStats.FlowLine: the percentage `'{:.1%}'` of `count / total` is a float format. It is the parameter `percent(count, total)`.
- Health.Interface.CalculateError: the rate is the pair (error count, packet count). The source also renders a float percentage, which is not modelled. In the source, `float()` raises on a non-numeric value and the division raises for a zero count that is not the string `0`; neither error is modelled.
- Health.NameText: a numeric interface name is taken as its decimal text. In the source, `.lower()` on a number raises while the file name is built, before the stop command is sent.
- Text.Lower: letter case is folded for ASCII letters only, whereas Python's `str.lower` also folds non-ASCII letters.
- FlowStats.FormatFlow: only the leading `Source: ` label and the trailing drop reason are proved. The fields in between are not.
