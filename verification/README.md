# Rate-scheduled sources on a spine-leaf fabric

This project models two parts of the ns-3 large-scale RTT-variation experiment.

- `MySource` is an application that sends fixed-size packets back to back at a
  data rate. At the instants of a change-time list it switches to the next rate
  of its rate list. At the last instant it stops scheduling sends. A zero rate
  pauses the source without stopping it.
- The set-up half of the driver's `main` does the following, in order:
  - parses the comma-separated data-rate list and the change-time list;
  - maps the AQM name to a queue-disc kind, returning early on an unknown name;
  - builds the spine-leaf fabric: servers attached to leaves, leaves attached
    to spines by parallel links, a root queue disc on every link endpoint, and
    one subnet per leaf plus one per leaf-spine link;
  - pairs sources with sinks. Source i runs on server i and sends to a sink
    on server i + N/2, port 8080.

Each file holds one part of the model:

- `optional.dfy` holds the Option datatype.
- `net.dfy` holds IPv4 and socket addresses. A network is counted from the
  base 10.1.0.0/24: network n is 10.1.n.0/24 and host h is its h-th address.
- `strings.dfy` holds `Find` (`std::string::find`) and the comma `Split` the
  parsers perform, with its inverse `Join`.
- `app_config.dfy` holds the two parsers and the globals they touch.
  `std::stod` is a parameter: the table of the strings it converts and their
  values. A string outside the table is an input on which it throws.
- `scheduler.dfy` holds the simulator's event list as one source sees it:
  - a clock;
  - pending (handle, time, action) entries;
  - `Schedule`, `Cancel` by handle, `IsRunning`;
  - firing the earliest entry, first-scheduled first among equal times.

  This class stands in for ns-3's `Simulator` and `EventId`, whose code is
  not part of this model. `EventList.IsRunning` and `EventList.Next` are that
  stand-in. They are specified by what the source relies on: an event fires
  at most once, and a cancelled event never fires. `Vector` stands in for the
  `std::vector` the parsers append to.
- `rate_source.dfy` holds the `MySource` class. Its fields are the C++ fields;
  rates are in bits per second. It also holds the invariant on its queue:
  - at most one send is pending;
  - the entries behind the handle `sendEvent` are exactly the pending sends,
    and `sendEvent` is a handle already given out;
  - none is pending once the source is stopped;
  - every pending rate change finds its rate in the list.

  Ghost counters tie `packetsSent` to the sends made plus the nonzero rate
  changes.
- `topology.dfy` holds the AQM mapping, the construction loops as methods of
  a `Fabric` class, and the links they build as functions with lemmas about
  them. Nodes, queue discs and subnets are identifiers: queue disc e is the
  e-th one created, and endpoint e of the link list holds it.
- `driver.dfy` holds the pairing loop (module `Pairing`) and `main` from the
  AQM selection to the end of the application loop (module `Driver`).
  ns-3's `DataRate` string parser is a parameter `string -> nat`.

Where the code and the documented intent differ, the model follows the code:

- An unknown AQM name makes `main` return 0 before anything is built. The
  program does not abort.
- No routing-mode selection exists in the code. `RunMode` is declared but never
  used, and routing is only the global routing tables, so nothing of the kind
  is modelled.
- A zero rate is meant to pause the source, with no send until the next
  nonzero rate. `ChangeDataRate` does pause, but `StartApplication` with a
  zero first rate reaches `ScheduleTx` at rate zero; see Findings.

## Model

| member | source | states |
|---|---|---|
| Strings.Find | examples/rtt-variations/large-scale.cc:62 | returns the first position at or after `from` holding the separator, or None when there is none |
| Strings.JoinSplit | examples/rtt-variations/large-scale.cc:56-72 | joining the pieces of a split with the separator gives back the input |
| Strings.SplitNoSeparator | examples/rtt-variations/large-scale.cc:56-72 | no piece of a split contains the separator |
| Strings.SplitCount | examples/rtt-variations/large-scale.cc:56-72 | a split has exactly one piece more than the input has commas |
| Strings.SplitJoin | examples/rtt-variations/large-scale.cc:56-72 | splitting a join of comma-free pieces gives back those pieces |
| AppConfig.Vector.PushBack | examples/rtt-variations/large-scale.cc:64 | appends one item after the earlier contents |
| AppConfig.ParseAppBw | examples/rtt-variations/large-scale.cc:55-72 | appends the comma-separated pieces of the input, in order, after the vector's earlier contents, which are unchanged. The pieces are those of Split, so none contains a comma (SplitNoSeparator) and joining them gives back the input (JoinSplit) |
| AppConfig.OffsetsRelative | examples/rtt-variations/large-scale.cc:92-108 | for n >= 2 numbers, Offsets has n - 1 values and the k-th is number k+1 minus number 0; one number gives itself; strictly increasing numbers give strictly increasing positive values |
| AppConfig.ParseAppSecondsChange | examples/rtt-variations/large-scale.cc:76-109 | succeeds exactly when ChangeTimes of the input is defined, and then appends its values after the vector's earlier contents. With a comma present it sets `app_seconds_start0` to the baseline of ChangeTimes; without one it leaves it unchanged. `result_dir` is untouched |
| AppConfig.PushesPieces | examples/rtt-variations/large-scale.cc:90-108 | from any position, what the loop pushes after the baseline is known is every remaining piece's number minus the baseline; it fails exactly when a remaining piece is not a number |
| AppConfig.ChangeTimesMeaning | examples/rtt-variations/large-scale.cc:76-109 | ChangeTimes is undefined exactly when some comma-separated piece is not a number. Otherwise its values are Offsets of the numbers, and with two pieces or more its baseline is the first number. There are two pieces or more exactly when the input has a comma |
| AppConfig.Globals.constructor | examples/rtt-variations/large-scale.cc:74 | `app_seconds_start0` starts at 0.1 and `result_dir` at "tmp_index" |
| Scheduler.Cancelled | examples/rtt-variations/my-source.h:103 | cancelling removes every entry behind the handle and keeps every other entry |
| Scheduler.CancelAbsent | examples/rtt-variations/my-source.h:134-137 | cancelling a handle that is not pending changes nothing, so cancelling only while `IsRunning` has the same effect as cancelling unconditionally |
| Scheduler.CancelTwice | examples/rtt-variations/my-source.h:103 | cancelling the same handle twice has the same effect as cancelling it once |
| Scheduler.EventList.Schedule | examples/rtt-variations/my-source.h:179 | appends one entry due `delay` after now under a new handle, and returns that handle |
| Scheduler.EventList.Cancel | examples/rtt-variations/my-source.h:103 | the pending entries become Cancelled of the old ones |
| RateSource.TxInterval | examples/rtt-variations/my-source.h:178 | at a positive rate, the gap times the bit rate is the packet's bits |
| RateSource.TxDelayAsWritten | examples/rtt-variations/my-source.h:178 | the gap the source computes is a time exactly when the rate is nonzero |
| RateSource.RateScheduleCounts | examples/rtt-variations/my-source.h:121-124 | for c change times the schedule has c entries: c - 1 rate changes, the i-th being ChangeDataRate(i) due at change time i, then one StopSendNew due at the last change time; it holds no send |
| RateSource.RateScheduleOrdered | examples/rtt-variations/my-source.h:121-124 | increasing change times give entries due in increasing order, and positive change times give entries due after now |
| RateSource.Unsent | examples/rtt-variations/my-source.h:103 | the pending entries that are not sends: every one of them and nothing else |
| RateSource.CancelSendEvent | examples/rtt-variations/my-source.h:103 | when the entries behind a handle are exactly the sends, cancelling that handle drops the sends and keeps every rate change and stop, in order |
| RateSource.CancelKeepsQueue | examples/rtt-variations/my-source.h:103 | after cancelling `m_sendEvent` no send is pending, and the queue invariant holds whatever the running flag becomes |
| RateSource.AddSendKeepsQueue | examples/rtt-variations/my-source.h:179 | adding a send, under a handle newer than every pending one, to a queue that holds none gives exactly one send, the new `m_sendEvent` |
| RateSource.AppendScheduleKeepsQueue | examples/rtt-variations/my-source.h:121-124 | appending the rate schedule adds no send and keeps every rate change's index inside the rate list when there are no more change times than rates |
| RateSource.NoSendAfterCancel | examples/rtt-variations/my-source.h:132-137 | once the handle of the only pending send is cancelled, no send is pending |
| RateSource.MySource.constructor | examples/rtt-variations/my-source.h:66-70 | not running, counter 0, nothing scheduled |
| RateSource.MySource.Setup | examples/rtt-variations/my-source.h:77-95 | stores peer, packet size, rate list, source id, result directory and change times; the current rate is the first rate; nothing is scheduled or sent |
| RateSource.MySource.ScheduleTx | examples/rtt-variations/my-source.h:173-181 | while running at a nonzero rate, schedules exactly one send one packet interval from now and records its handle; otherwise changes nothing. Afterwards exactly as many sends are pending as that condition says |
| RateSource.MySource.SendPacket | examples/rtt-variations/my-source.h:149-171 | one Send on the socket tagged with the source id, one log line (ms, id, size), counter up by exactly 1, then ScheduleTx's effect |
| RateSource.MySource.CancelSend | examples/rtt-variations/my-source.h:103 | `Simulator::Cancel(m_sendEvent)`: the queue becomes its entries other than sends, so every pending rate change and the stop stay, in order |
| RateSource.MySource.ChangeDataRate | examples/rtt-variations/my-source.h:97-109 | the rate becomes rate i + 1 and the pending send is always cancelled, while every pending rate change and the stop stay, in order. A nonzero rate counts one packet and schedules one send after them. A zero rate leaves no send pending while the source stays running, and leaves `m_sendEvent` and the handle counter as they were |
| RateSource.MySource.StartApplication | examples/rtt-variations/my-source.h:111-127 | running, counter exactly 1 (one send, no resumes), Bind, Connect(peer), Send on the socket. The pending list grows by the first packet's successor send (none at rate zero) followed by the rate schedule |
| RateSource.MySource.ScheduleRateChanges | examples/rtt-variations/my-source.h:121-124 | appends exactly RateSchedule(change times) under consecutive new handles |
| RateSource.MySource.StopSendNew | examples/rtt-variations/my-source.h:129-138 | not running, and the queue becomes its entries other than sends: every pending rate change and stop stays, in order |
| RateSource.MySource.StopApplication | examples/rtt-variations/my-source.h:140-147 | closes the socket if there is one; running flag, counter and queue unchanged |
| RateSource.MySource.GetPacketsSent | examples/rtt-variations/my-source.h:183-185 | the counter equals the sends since the start plus the rate changes to a nonzero rate |
| RateSource.MySource.Fire | examples/rtt-variations/my-source.h:118-124 | fires a pending entry due no later than any other. Every other pending rate change and stop is still pending afterwards. The invariant is kept. A stopped source never runs again, and after firing it has no send pending and puts nothing on its socket or log. A paused source whose rate is still zero stays silent |
| RateSource.ZeroFirstRateStart | examples/rtt-variations/my-source.h:111-118 | with rates [0, 10 Mb/s], StartApplication leaves the source running at rate zero, where the delay the source computes is not a time; the model pauses instead |
| Topology.AqmFromName | examples/rtt-variations/large-scale.cc:200-212 | a kind exactly for "TCN" and "ECNSharp", and its name is the input |
| Topology.AqmNameRoundTrip | examples/rtt-variations/large-scale.cc:200-212 | every kind's name maps back to the kind |
| Topology.Fabric.constructor | examples/rtt-variations/large-scale.cc:265-295 | S spines, L leaves, H servers per leaf, no link, no queue disc, the address helper at its base network |
| Topology.Fabric.NewNetwork | examples/rtt-variations/large-scale.cc:299 | the next network, hosts counted from 1 again |
| Topology.Fabric.Assign | examples/rtt-variations/large-scale.cc:348 | the two devices get the next two hosts of the current network |
| Topology.Fabric.CreateQueueDisc | examples/rtt-variations/large-scale.cc:330 | a new queue disc of the given kind, distinct from all earlier ones |
| Topology.Fabric.Install | examples/rtt-variations/large-scale.cc:341-347 | the link's two endpoints hold the two queue discs created last, and every endpoint still holds its own |
| Topology.Fabric.ConnectServer | examples/rtt-variations/large-scale.cc:303-351 | server `serverIndex` linked to leaf i; a new DelayQueueDisc on the server side and a new switch queue disc on the leaf side; the next two hosts; the server side address recorded |
| Topology.Fabric.ConnectLeafServers | examples/rtt-variations/large-scale.cc:299-356 | one new network, then leaf i's row of H server links, server i*H + j in slot j |
| Topology.Fabric.ConnectServers | examples/rtt-variations/large-scale.cc:297-357 | the server links of all leaves, L networks, one recorded interface per server |
| Topology.Fabric.ConnectSwitch | examples/rtt-variations/large-scale.cc:370-399 | one new network, and leaf i linked to spine j with a new switch queue disc of its own on each side |
| Topology.Fabric.ConnectPair | examples/rtt-variations/large-scale.cc:368-404 | C parallel links from leaf i to spine j, each on the next new network |
| Topology.Fabric.ConnectLeafSwitches | examples/rtt-variations/large-scale.cc:365-405 | leaf i's links to every spine, spine by spine; one network per link |
| Topology.Fabric.ConnectSwitches | examples/rtt-variations/large-scale.cc:363-406 | every leaf's links to the spines, leaf by leaf; one network per link |
| Topology.Build | examples/rtt-variations/large-scale.cc:265-406 | the links are FabricLinks. There is one recorded interface per server. NewNetwork is called L + L*(S*C) times |
| Topology.ServerLinksCount | examples/rtt-variations/large-scale.cc:297-357 | exactly L*H server links |
| Topology.ServerLinksShape | examples/rtt-variations/large-scale.cc:297-357 | server link k attaches server k to the leaf whose block of H indices holds k, on that leaf's network, with hosts 2*slot+1 and 2*slot+2; the server side has a DelayQueueDisc, the leaf side the AQM kind |
| Topology.ServerLinkAt | examples/rtt-variations/large-scale.cc:301-304 | server i*H + j, in slot j, is attached to leaf i |
| Topology.LeafUplinksCount | examples/rtt-variations/large-scale.cc:365-405 | one leaf has exactly S*C leaf-spine links |
| Topology.UplinksCount | examples/rtt-variations/large-scale.cc:363-406 | exactly L*(S*C) leaf-spine links |
| Topology.LeafUplinksShape | examples/rtt-variations/large-scale.cc:365-405 | a leaf's m-th link goes to the spine whose block of C positions holds m, on its own network, with switch queue discs at both ends |
| Topology.UplinksShape | examples/rtt-variations/large-scale.cc:363-406 | every leaf-spine link lies in the block of its (leaf, spine) pair, is on a network of its own, and has a switch queue disc of its own at each end |
| Topology.FabricShape | examples/rtt-variations/large-scale.cc:297-406 | the fabric has L*H + L*(S*C) links: first the server links as IsServerLink says, then the leaf-spine links as IsUplink says |
| Topology.FabricNodes | examples/rtt-variations/large-scale.cc:264-406 | every link joins nodes the containers created (S spines, L leaves, L*H servers). Each of the L*H servers has exactly one link: server k is the first end of link k, and no other endpoint is a server |
| Topology.FabricSubnets | examples/rtt-variations/large-scale.cc:299-370 | both ends of a link share a network, and networks run from 1 to L + L*(S*C). Two different links share a network exactly when both are server links of the same leaf |
| Topology.FabricAddressesDistinct | examples/rtt-variations/large-scale.cc:348-399 | no two endpoints of the fabric have the same address |
| Topology.FabricQueueDiscsDistinct | examples/rtt-variations/large-scale.cc:309-397 | no queue disc instance sits on two endpoints |
| Pairing.PairingDisjoint | examples/rtt-variations/large-scale.cc:437-459 | for N servers, the senders [0, N/2) and the receivers i + N/2 are disjoint, the receivers are in range and pairwise distinct |
| Pairing.NewSource | examples/rtt-variations/large-scale.cc:452-455 | a new MySource, not running, counter 0, nothing queued, set up with the sink address, 1440-byte packets, the rate list and its first rate, the change-time list, the source id and the result directory |
| Pairing.PairApplications | examples/rtt-variations/large-scale.cc:437-459 | N/2 pairs. Pair i has a sink on server i + N/2, port 8080, stopping at 5 s, and a source placed on server i. The source is a new MySource, not running and with counter 0, set up with the receiver's recorded address and port 8080, 1440-byte packets, the rate and change-time lists, source id i and the result directory |
| Driver.AppBwItems | examples/rtt-variations/large-scale.cc:431-432 | "10Mbps" parses to the single item "10Mbps" |
| Driver.AppSecondsChangeItems | examples/rtt-variations/large-scale.cc:434-435 | "0,10" parses to the items "0" and "10" |
| Driver.AppSecondsChangeTimes | examples/rtt-variations/large-scale.cc:434-435 | with `std::stod` reading "0" and "10", "0,10" has a comma and parses to baseline 0 and the single value 10 |
| Driver.ReceiversAttached | examples/rtt-variations/large-scale.cc:437-452 | every receiver i + N/2 of the pairing is a server, and it is the first end of its own link |
| Driver.Configure | examples/rtt-variations/large-scale.cc:200-459 | builds a deployment exactly when the AQM name is known, and otherwise changes no global. The result directory gets "/initial_<AQM>", `app_seconds_start0` becomes 0, and the fabric is FabricLinks. The deployment is Paired: N/2 pairs, pair i with a sink on server i + N/2 (port 8080, until 5 s) and a source on server i, tagged i, that sends to port 8080 at the server-side address of server i + N/2's own link. Every source has rates [10 Mb/s] and change times [10], so StartApplication's requirement 1 <= changes <= rates holds for all of them |

## Left out

- Simulator, sockets, packets, byte tags and files are abstract. Each source has its own event list and clock. The socket is a list of Bind/Connect/Send/Close calls. The sent log is a list of (ms, id, size) entries. The sink's receive log (`RxWithAddressesPacketSink`) is not part of this model.
- Floating point is `real`. `Time` is a real number of seconds. `GetMilliSeconds` is the floor of the milliseconds. `DataRate` is a natural number of bits per second, and its string parser is a parameter of `Driver.Configure`.
- Integer widths are not modelled: the `uint32_t` counter, source id and packet size, `m_packetSize * 8`, and the `int` loop counts. All are unbounded naturals, so negative command-line counts are out of scope too.
- Addresses do not wrap at the end of a /24 or of the 10.1.0.0 base. `network` and `host` are plain counters.
- The command line, `Config::SetDefault`, Internet stacks, point-to-point helpers, channel attributes, routing tables, the over-subscription ratio, `srand`, the flow monitor, `PrintProgress`, `exampleDQD`/`exampleQD` and the leaked `sources` array are ns-3 plumbing or output. They are not part of this model.
- Queue-disc internals (TCN and ECNSharp marking, delay classes at work, packet filters) are not modelled. A queue disc is its kind, and for a DelayQueueDisc its delay-class table.
- Creating and cleaning the result directory with `mkdir`/`rm` is left out. Only the name `result_dir` takes is modelled.
- Rate and change-time lists are passed to sources by value. The C++ passes one shared vector by pointer, but nothing writes to it after set-up.
- RateSource.MySource.StartApplication: requires a non-empty change-time list with no more entries than rates. It also requires that the source is not running. The C++ reads out of bounds (and wraps the `size() - 1` loop bound) otherwise, and it is started once.
- RateSource.MySource.Setup: requires that pending rate changes still find their rate in the new list. The C++ never calls it after the start.
- RateSource.MySource.ScheduleTx: schedules nothing at rate zero, where the source divides by zero. This is the corrected behaviour under Findings.
- Driver.Configure: requires the `stod` table to read "0" and "10" as the numbers 0 and 10, as `std::stod` does. The parsers themselves take `stod` as any table of conversions.
- AppConfig.ParseAppSecondsChange: says nothing about the vector or `app_seconds_start0` when a piece is not a number. There `std::stod` throws and the program ends.
- `std::stod` accepting a prefix of a piece (such as "10s") is not modelled: the table says for each whole piece whether it converts.

## Findings

| source | as written | input that shows it | evidently intended | confidence | as-written member | corrected member |
|---|---|---|---|---|---|---|
| examples/rtt-variations/my-source.h:178 | `StartApplication` sends the first packet, and `ScheduleTx` then divides by the current bit rate without checking it. A first rate of zero gives an infinite delay, which is no simulation time | rate list ["0bps", "10Mbps"]: StartApplication runs ScheduleTx while running at rate 0 | a zero rate pauses the source, as `ChangeDataRate` does: nothing is scheduled until a nonzero rate change | not executed; medium | RateSource.ZeroFirstRateStart | RateSource.MySource.ScheduleTx |
