# Verified model of the OpenWrt traffic agent

The agent captures frames on a router, groups them into per-window tables, raises
alerts, and uploads telemetry from a second thread. This project models that pipeline
in Dafny and proves what it promises over all inputs and whole runs.

`dafny verify dfyconfig.toml` checks everything.

## How it is organised

Code that updates state in place is modelled by classes and array methods with the
same fields, loops and branches; each method is proved equal to a specification
function, and the theorems are about those functions.

| files | part of the agent |
|---|---|
| `Machine`, `Ring`, `GroupBy` | word wrap-around, folds over runs; the drop-oldest ring and the bounded group-by, each proved once and shared |
| `Packets`, `DottedQuads`, `Decimals`, `DnsNames`, `PacketParser`, `FrameCodec` | frame and DNS-name parsing, with an independent encoder |
| `TrafficStats`, `PacketWindows`, `FxRings`, `FlowTables`, `DnsWindows`, `ClientActivity` | the tables the capture loop fills |
| `EndpointHash`, `ScanDetector`, `ScanTheorems`, `AnomalyDetector` | detection |
| `Telemetry`, `CaptureLoop`, `CaptureRuns`, `AlertTheorems`, `BusiestFlows`, `TornThresholds`, `OverflowedFlows`, `FlushContents`, `FlushMeaning`, `FilteredRuns`, `SubmittedAlerts` | the capture loop, `flush_window`, and theorems over whole runs; `FlushMeaning` says what a job tells about the packets themselves |
| `Uploader`, `UploadRings`, `UploaderTheorems`, `DeliveredJobs`, `Transcripts`, `SendLogs`, `SentAlerts` | the two-thread upload hand-off as interleaved atomic steps, what can be read off its sends, and capture run and uploader together |
| `JsonEscape`, `BatchBody`, `BackendBodies`, `BatchDecode`, `DnsLoss`, `DeliveredSamples` | JSON escaping and bounded batch printing, with an independent reader |

Code and specification share small functions such as the record the parser fills in or the sends of one
job. What those must be is stated once more without them, in terms of octets, packets and sends:
`FrameFields`, `ParsedOctets`, `TotalsAreSums`, `AlertsExactly`, `AcceptedIff`, `FlushMeaning`,
`SendLogs` and the readers of `BatchDecode`.

Conventions: text is one `char` per byte; a C string is a text without NUL; capacities are
parameters of the table classes and are fixed where arithmetic depends on them; the clock
is an arbitrary integer, and a theorem that needs it not to run backwards says so
(`ClockOrdered`, `ClockForward`). A frame buffer is an array of exactly the received
length, so Dafny's bounds checks are the memory-safety claim.

## Findings

- The repository's `README.md:142-144` promises the busiest matching flow of the window with each
  alert. In a flow period of fewer than 2^64 packets, a UDP, TCP or volume alert goes out with it if
  and only if some busiest flow of the alert's protocol is among the period's first 2048 flows
  (`SubmittedBusiestIff`). Without overflow, with an untorn threshold read and with a clock that never
  runs backwards that is always so (`SubmittedBusiest`); a torn read or an overflow can make it fail:
  - The threshold words are `volatile` and read twice (`src/anomaly_detector.c:41-60`). When a ruleset
    update clears one between the two reads, a UDP or TCP alert can be raised by the one packet the
    rolling window keeps from before the flow period, and go out without a flow. Without overflow
    UDP and TCP alerts raised with a given read always carry the busiest flow if and only if the read
    is not torn (`CarriesBusiestIffNotTorn`; its failing run of two frames has the update under way,
    `UpdateUnderWay`).
  - With an untorn read, 2048 other flows can fill the table before the protocol's first packet, so
    that the alert has no flow (`OverflowLosesFlow`), or after its first flow and before its busiest, so
    that it carries a flow of one packet while another of the period has three
    (`OverflowLosesBusiest`). Both are runs of 2051 frames.
  The same holds of every alert in the uploader's log of sends, whatever the interleaving (`SentAlert`).
  A scan alert names its scan instead of a flow and is not part of this.
- A whole DNS batch is dropped if and only if some entry starts before byte 7680 and ends at byte
  8190 or 8191, because the 512-byte reserve does not cover an entry of 511 bytes or more and the closing
  (`src/backend_client.c:451-470`, `DnsLostIff`). `DnsBatchCanBeLost` gives sixteen frames, for every
  device id, timestamp format and threshold setting, whose flush submits such a batch;
  `DnsSentWhenShort` gives a bound that rules it out.
- The parser accepts names one octet longer than section 2.3.4 of RFC 1035 allows
  (`LegalNamesReportable`; `OversizedNameReported` is one). A name is reported whole if and only if
  none of its labels holds a zero octet (`QueryRoundTrip`; `ZeroOctetCutsName` is one that is not).
- `json_escape` skips a six-character escape that does not fit and goes on with the bytes after
  it. Its loss is a plain truncation if and only if, at the first byte whose escape has no room,
  the loop stops or every byte from there on needs a six-character escape (`PrefixIff`);
  `SkipIsNotTruncation` is an eight-byte address text that loses a byte from its middle.

## Model

| member | source | states |
|---|---|---|
| Ring.PushStep | src/packet_window.c:70-75 | the modular tail write and head advance are a drop-oldest push on the logical contents, full or not |
| Ring.RunIsSuffix | src/fx_ring.c:12-36 | after any history of pushes a drop-oldest ring holds exactly the last `n` of them |
| TrafficStats.Accumulator.AddPacket | src/traffic_stats.c:12-27 | modulo 2^64 the overall counters grow by one packet and its size, the TCP ones for protocol 6 only, the UDP ones for protocol 17 only |
| TrafficStats.TotalsAreSums | src/traffic_stats.c:12-27 | the totals of any records are the plain counts and sums of sizes, overall, over protocol 6 and over protocol 17 |
| TrafficStats.AccumulatedIsWrappedTotals | src/traffic_stats.c:12-27 | wrapping after every packet is the exact total wrapped once |
| TrafficStats.NoWrap | src/packet_window.c:14-25 | with at most 2^32 records of 32-bit size the wrapped counters are the true sums |
| PacketWindows.PacketWindow.Aggregate | src/packet_window.c:14-25 | adding or, through two's complement, taking away one record changes all six counters by exactly its contribution |
| PacketWindows.PacketWindow.PopHead | src/packet_window.c:27-31 | removes the oldest record from contents and counters alike |
| PacketWindows.PacketWindow.EvictExpired | src/packet_window.c:33-48 | drops exactly the leading records older than five seconds; an emptied window forgets its overflow mark |
| PacketWindows.PacketWindow.Push | src/packet_window.c:50-78 | evict, make room, append the packet's time, protocol and length as a 32-bit word; contents stay a suffix of the history and the counters stay its totals |
| PacketWindows.PacketWindow.Snapshot | src/packet_window.c:84-98 | the incremental counters equal the plain accumulator over the retained records, and the unwrapped sums over all, over protocol 6 and over protocol 17 |
| PacketWindows.WindowIsSuffix | src/packet_window.c:50-78 | with any clock whatever, the window is a contiguous suffix of everything pushed |
| PacketWindows.WindowHoldsExactlyWanted | src/packet_window.c:33-78 | with a clock that never runs backwards it holds exactly the records of the last five seconds among the last `capacity` |
| FxRings.FxRing.Push | src/fx_ring.c:12-36 | the packet is recorded field by field, and the ring stays the last 256 |
| FxRings.FxRing.Recent | src/fx_ring.c:38-57 | copies the newest min(max, 256, pushes) packets, newest first, and touches nothing else |
| GroupBy.SnocHit | src/flow_table.c:30-36 | one more item of a known key changes that tally alone, full table or not |
| GroupBy.SnocNew | src/flow_table.c:46-55 | a new key with room appends a tally of one |
| GroupBy.SnocDrop | src/flow_table.c:38-44 | a new key without room changes nothing but the overflow mark |
| GroupBy.FirstsComplete | src/flow_table.c:22-56 | the keys listed are exactly those that occurred |
| GroupBy.Accounting | src/flow_table.c:22-56 | tallied hits plus rejected items are all items; overflow is marked if and only if something was rejected |
| GroupBy.OverflowMeansMany | src/flow_table.c:38-44 | overflow is marked if and only if more different keys occurred than there is room for; otherwise the table holds all |
| FlowTables.FlowTable.Add | src/flow_table.c:22-56 | after any packets since the reset the array holds the bounded group-by of them, and the overflow flag is exact |
| FlowTables.FlowTable.Top | src/flow_table.c:58-77 | returns the specified busiest entry of the live table |
| FlowTables.TopIsBusiest | src/flow_table.c:58-77 | that entry is of the protocol, has the most packets, and is the earliest on ties; none only if no entry matches |
| FlowTables.FlowTable.Reset | src/flow_table.c:158-160 | forgets every packet |
| ScanTheorems.EntriesAreTallies | src/flow_table.c:22-56 | 5-tuples are distinct, every entry stands for offered packets and holds their exact counts modulo 2^64 |
| ScanTheorems.EveryPacketHasEntry | src/flow_table.c:22-56 | without overflow every offered packet is in the table |
| EndpointHash.HashEndpoint | src/flow_table.c:81-92 | the loop computes the specified 32-bit hash; reduced modulo 2^18 it is the slot |
| EndpointHash.PrimeInvertible | src/flow_table.c:81-92 | multiplying by 16777619 is injective modulo 2^18 |
| EndpointHash.PortsDoNotCollide | src/flow_table.c:81-92 | two ports of one host never share a slot |
| ScanDetector.Detector.LightSlot | src/flow_table.c:135-139 | the bit test and set add one slot to the represented set and tell whether it was new |
| ScanDetector.Detector.CountSlots | src/flow_table.c:126-140 | counts the distinct slots of one source and remembers the last new destination |
| ScanDetector.Detector.ScanFanout | src/flow_table.c:94-156 | scores every source once and returns the best |
| ScanTheorems.NeverOvercounts | src/flow_table.c:94-156 | the fan-out is at most the number of distinct endpoints |
| ScanTheorems.ExactPerHost | src/flow_table.c:94-156 | it is at least the number of distinct ports reached on any one host |
| ScanTheorems.BestIsMaximum | src/flow_table.c:142-152 | the reported fan-out is the maximum over all sources and belongs to the source named |
| ScanTheorems.ScanMeaning | src/flow_table.c:94-156 | both bounds for the reported scan, a destination really contacted, and zero only for the empty table |
| ScanTheorems.ScanIsFirst | src/flow_table.c:113-152 | the source named is the first to reach that fan-out, and the destination named is where its last newly lit slot leads |
| DnsWindows.DnsWindow.Add | src/dns_window.c:14-44 | the window holds the bounded group-by of the queries, and the overflow flag is exact |
| DnsWindows.DnsWindow.Reset | src/dns_window.c:46-48 | forgets every query |
| AnomalyDetector.ThresholdPositive | src/anomaly_detector.c:41-60 | a threshold is at least 1 if and only if its two reads were not torn by an update |
| AnomalyDetector.Check | src/anomaly_detector.c:74-111 | fills exactly the deserved alerts, in order, never past `max`, and leaves the rest; with room for three the array holds each kind if and only if its counter is above the backend's threshold if set, else the environment's if usable, else 100, 150 or 500000 |
| AnomalyDetector.AlertsExactly | src/anomaly_detector.c:31-111 | so for every snapshot and threshold read: each kind at most once, in turn, with its own severity, protocol and counts |
| ClientActivity.Activity.Touch | src/client_roster.c:77-110 | refresh, append or overwrite the least recently seen entry |
| ClientActivity.Activity.IsOnline | src/client_roster.c:112-124 | online if and only if stored and seen within 60 seconds |
| ClientActivity.Activity.MarkOnline | src/client_roster.c:126-138 | every lease gets its verdict and nothing else about it changes |
| ClientActivity.TableDistinct | src/client_roster.c:77-110 | after any history the stored addresses are distinct and private |
| ClientActivity.TableTruthful | src/client_roster.c:77-110 | every stored time is that address's last sighting |
| ClientActivity.MissingOlder | src/client_roster.c:77-110 | a sighted private address that is missing was last seen no later than anything in a full table |
| ClientActivity.OnlineIsTrue | src/client_roster.c:112-124 | an online verdict is always right |
| ClientActivity.WrongOfflineMeansCrowded | src/client_roster.c:112-124 | a wrong offline verdict means as many other private addresses as the table holds were seen in the window |
| DottedQuads.QuadTextReadsBack | src/packet_parser.c:116-125 | a printed address reads back as its four octets in order |
| DottedQuads.QuadTextInjective | src/packet_parser.c:116-125 | different addresses print differently |
| DottedQuads.QuadTextFits | src/packet_parser.c:116-125 | an address prints in 7 to 15 characters |
| DottedQuads.PrivateTextIsRfc1918 | src/client_roster.c:10-24 | on printed addresses the textual test decides membership in the three ranges of section 3 of RFC 1918 |
| PacketParser.ParsePacket | src/packet_parser.c:15-128 | every read is in bounds on arbitrary bytes, and the result is the specified parse |
| PacketParser.CopyLabels | src/packet_parser.c:75-104 | the label loop terminates, writes below 256 only, and copies what the specified walk reads |
| DnsNames.WalkReadsEncoding | src/packet_parser.c:75-104 | every encoded name is read back as its labels and dots |
| DnsNames.WalkFindsEncoding | src/packet_parser.c:75-104 | whatever the walk accepts is the encoding of some labels |
| DnsNames.JoinedInjective | src/packet_parser.c:99-108 | names with dot-free, NUL-free labels and the same text are the same name |
| FrameCodec.FrameRoundTrip | src/packet_parser.c:15-128 | every well-formed frame, any options and payload, parses to its own fields |
| FrameCodec.FrameFields | src/packet_parser.c:59-64 | field by field: source and destination address and port, protocol and received length are those encoded |
| FrameCodec.ParsedOctets | src/packet_parser.c:59-128 | and for any accepted frame they are read from its octets at the place its header length gives |
| FrameCodec.AcceptsExactlyEncodings | src/packet_parser.c:27-57 | a frame is accepted if and only if it is the encoding of a well-formed one |
| FrameCodec.QueryRoundTrip | src/packet_parser.c:65-113 | a query frame for a reportable name yields that name up to its first zero octet, whole if and only if no label holds one |
| FrameCodec.ReportedExactly | src/packet_parser.c:65-113 | a packet is reported as a DNS query if and only if its question is the encoding of a reportable name: no pointer, overrun, root or oversized name |
| FrameCodec.QueriesExactlyEncodings | src/packet_parser.c:65-113 | the frames reported as DNS queries are exactly the encodings of UDP messages to port 53, not responses, whose first question is a reportable name |
| FrameCodec.LegalNamesReportable | src/packet_parser.c:89-98 | labels of 1 to 63 octets are accepted; every non-root name legal by section 2.3.4 of RFC 1035 is reportable, and the limit on names is one octet wider |
| FrameCodec.ZeroOctetCutsName | src/packet_parser.c:99-107 | a query frame for the label a, zero, b is reported as a |
| FrameCodec.OversizedNameReported | src/packet_parser.c:95-98 | a name of 256 octets, one more than is legal, is reported whole |
| CaptureLoop.Agent.Capture | src/main.c:255-309 | the loop over the real tables computes the specified run over any list of frames |
| CaptureLoop.Agent.OnFrame | src/main.c:269-308 | one turn: parse, filter, record everywhere, flush when due |
| CaptureLoop.Agent.RecordPacket | src/main.c:278-284 | the packet reaches all five tables, a query the DNS window too |
| CaptureLoop.Agent.BuildJob | src/main.c:74-162 | the job holds the rolling totals, alerts with flows, queries, marked clients and samples of the tables as they stand |
| CaptureLoop.Agent.RaiseAlerts | src/main.c:94-141 | threshold alerts with their busiest flows, then the scan alert if due and a slot is left |
| CaptureLoop.Agent.Flush | src/main.c:294-308 | submits one job, then resets flows and queries but neither rolling window, activity nor ring |
| CaptureRuns.FramesRunAccepted | src/main.c:269-275 | rejected frames leave no trace in any run |
| FilteredRuns.AcceptedIff | src/main.c:53-61 | a frame is accepted if and only if it parses and, with a one-protocol filter, its protocol octet is 6 for TCP or 17 for UDP; what is accepted is its parse |
| FilteredRuns.FilteredRun | src/main.c:255-309 | over any frames and filter the tables hold every such frame's packet field by field, in order, and no other; with a one-protocol filter that protocol alone |
| CaptureRuns.RunHolds | src/main.c:255-309 | in every reachable state the flow table covers the packets since the last flush and the rolling window those of its own history |
| CaptureRuns.SnapshotMeaning | src/main.c:294-301 | a snapshot holds exactly the packets of the last five seconds among the last 16384 |
| CaptureRuns.ConsecutiveSnapshotsShare | src/main.c:294-308 | two consecutive snapshots share only the packet that triggered the earlier flush, and exactly when the later one comes five seconds after it and the window did not saturate |
| CaptureRuns.NoThirdSnapshot | src/main.c:294-308 | no packet is in three snapshots |
| CaptureRuns.SnapshotReach | src/main.c:294-308 | the rolling window of a flush reaches back at most one packet before the flow period |
| CaptureRuns.TotalsReportedBound | src/main.c:255-309 | over any run the packets in all submitted snapshots are at most the packets processed plus one per flush after the first |
| AlertTheorems.AlertsCarryFlows | src/main.c:94-103 | every alert carries some flow of its protocol unless the table overflowed or its threshold was torn; a volume alert always does |
| AlertTheorems.FlowCarriedIff | src/main.c:94-103 | for every flush and alert: it carries some flow of its protocol if and only if it is a scan alert, which names its own, or some packet of the period, of its protocol, got its flow into the table |
| BusiestFlows.TopBusiestIff | src/flow_table.c:58-77 | the table's top entry is the busiest flow of all packets offered, with its exact count of packets and bytes, if and only if some busiest flow was among the first 2048 |
| BusiestFlows.WithoutOverflow | src/flow_table.c:22-56 | without overflow a busiest flow was admitted as soon as the protocol occurs |
| BusiestFlows.BusiestCarriedIff | src/main.c:94-103 | for every flush and threshold alert: it carries the busiest flow of its protocol in the whole period, of fewer than 2^64 packets, if and only if some busiest flow was among the first 2048 |
| BusiestFlows.AlertsCarryBusiest | src/main.c:94-103 | with a clock that never runs backwards, every threshold alert raised without overflow and with an untorn threshold carries the busiest flow of its protocol in the period |
| AlertTheorems.ScanDetected | src/main.c:105-141 | twelve ports of one host from one source in a period without overflow always raise a scan alert, for no fewer endpoints |
| AlertTheorems.ScanJustified | src/main.c:105-141 | every scan alert tells of twelve or more endpoints, no more than its source reached, and of a destination that source really sent to, overflow or not |
| TornThresholds.CarriesBusiestIffNotTorn | README.md:142-144 | over all runs over frames whose threshold reads fit a history of ruleset updates, in periods without overflow and of fewer than 2^64 packets: UDP or TCP alerts raised with a given threshold read always carry the busiest flow of their protocol in the period if and only if the read is not torn |
| TornThresholds.UpdateUnderWay | src/uploader.c:59-66 | in the failing run the first flush submits the synchronising job whose update clears the word between the two reads of the second |
| OverflowedFlows.OverflowLosesFlow | src/flow_table.c:38-44 | after 2048 TCP flows a UDP alert with an untorn threshold goes out without a flow |
| OverflowedFlows.OverflowLosesBusiest | src/flow_table.c:38-44 | after 2047 TCP flows and one UDP packet, a UDP alert with an untorn threshold carries that packet's flow while another UDP flow of the period has three packets |
| OverflowedFlows.CrowdedRun | src/main.c:255-309 | both are runs over frames, with a clock that goes forward, ending in a flush, with threshold reads that are untorn and need no update |
| FlushContents.FlushJob | src/main.c:294-308 | every flush of every run submits one job, given outright as a function of the packet sequence, and nothing else submits |
| SubmittedAlerts.SubmittedBusiestIff | src/main.c:94-103 | in the job a run submits for a period of fewer than 2^64 packets, a threshold alert goes out with the busiest flow of its protocol in the period if and only if some busiest flow was among the first 2048 |
| SubmittedAlerts.SubmittedBusiest | src/main.c:94-103 | without overflow, with an untorn threshold and with a clock that never runs backwards it always does |
| SubmittedAlerts.SubmittedFlowIff | src/main.c:94-103 | and it goes out with some flow of its protocol exactly when a packet of the protocol got its flow into the table; a scan alert always names its own |
| SubmittedAlerts.SubmittedScanDetected | src/main.c:105-141 | the job a run submits carries the scan alert a period without overflow calls for |
| SubmittedAlerts.SubmittedScanJustified | src/main.c:105-141 | a scan alert in a submitted job tells of twelve or more endpoints, no more than its source reached, and of a destination it really sent to |
| FlushContents.LastJob | src/main.c:255-309 | the same from raw frames on: a list of accepted frames whose last one flushes submits that job last |
| FlushMeaning.TotalsTell | src/packet_window.c:84-98 | the totals of every flush are the plain counts and sums of 32-bit sizes, overall and by protocol, of the packets in its snapshot: with a clock that never runs backwards, those of the last five seconds among the last 16384 |
| FlushMeaning.AlertsTell | src/anomaly_detector.c:74-111 | the threshold alerts of every flush's job are exactly those its totals and the thresholds as read call for |
| FlushMeaning.TimesTell | src/main.c:294-308 | a job carries the time of the packet that flushed and the seconds since the last flush, and synchronises if and only if that was last done a minute or more ago |
| FlushMeaning.DnsTells | src/main.c:147-150 | the DNS events of a flush list each client and name asked since the last flush once, with the number of times as a 32-bit word; with at most 64 such pairs none is missing |
| FlushMeaning.RosterTells | src/main.c:152-159 | a client reported online sent a packet in the last minute; with a clock that never runs backwards, a private one wrongly reported offline was crowded out by 256 others seen in that minute |
| FlushMeaning.SamplesAreNewest | src/main.c:143-145 | a flush with an alert carries the newest 32 packets of the run, newest first and field by field, one without carries none |
| FlushMeaning.SyncsApart | src/main.c:300-304 | two ruleset synchronisations are at least a minute apart |
| UploadRings.UploadRing.Submit | src/uploader.c:111-129 | the locked code of a submission: refuse before the start, else drop the oldest if full and write the tail |
| UploadRings.UploadRing.Take | src/uploader.c:82-84 | takes the oldest job and nothing else |
| UploadRings.RunJob | src/uploader.c:27-67 | the sends of one job in order, none without a device id |
| Uploader.StepKeepsInv | src/uploader.c:69-144 | every atomic step of either thread, spurious wakeups included, keeps mutual exclusion, the ring, the fates, the send log and the wakeup condition |
| Uploader.ReachableInv | src/uploader.c:69-144 | hence every reachable state of every interleaving has them |
| UploaderTheorems.OneFate | src/uploader.c:69-132 | each accepted job is exactly one of queued, dropped, in flight and executed |
| UploaderTheorems.QueueDiscipline | src/uploader.c:69-132 | jobs are conserved, the queue is a suffix of them, they are taken in order and each while among the last four accepted |
| UploaderTheorems.DroppedLate | src/uploader.c:111-129 | no job is dropped before four later ones have been submitted |
| UploaderTheorems.AcceptedAreSubmissions | src/uploader.c:104-132 | once the thread exists the accepted jobs are the submitted ones in order; without it none is accepted |
| UploaderTheorems.SentInOrder | src/uploader.c:27-91 | what was sent is the sends of the executed jobs, whole, once and in order, then part of the one in flight |
| UploaderTheorems.SleeperIsWoken | src/uploader.c:73-77 | a consumer asleep over work or over the stop flag is about to be signalled by the lock holder, whose next step wakes it |
| UploaderTheorems.StopProgress | src/uploader.c:134-144 | after the stop mark nothing is dequeued and every enabled step lowers a bound on what remains |
| UploaderTheorems.StopNeverStuck | src/uploader.c:134-144 | until the join is over one of the threads can step, without any spurious wakeup |
| UploaderTheorems.StopTerminates | src/uploader.c:134-144 | every execution after the stop mark has at most that many steps, leaves the queue alone, and has joined the thread if it cannot go on |
| DeliveredJobs.RunJobs | src/main.c:294-308 | the jobs of a capture run are those of its flushes, each given by the packet sequence, in order |
| DeliveredJobs.FlushJobsDelivered | src/uploader.c:27-132 | under any interleaving, when those are the jobs submitted, what was sent is the sends of the flushes' jobs, whole and in order, all but the dropped ones, then part of the one in flight |
| SendLogs.JobReported | src/uploader.c:27-67 | running a job sends its totals, each alert with its own flow, its queries, clients and samples if and only if there are any, a heartbeat, and a ruleset request if and only if due, each with the job's own contents and in this order |
| SendLogs.SentReports | src/uploader.c:27-91 | in every state of every interleaving the log of sends is one such report after another, those of the executed jobs, and the beginning of the report in flight; without a device id it is empty |
| SentAlerts.FlushesReported | src/uploader.c:27-132 | when the jobs submitted are those of a capture run, these are reports of its flushes, in order |
| SentAlerts.SentAlert | README.md:142-144 | then every alert in the log is one of a flush; a threshold alert goes out with the busiest flow of its protocol in the period if and only if some busiest flow was among the first 2048, always without overflow and with an untorn threshold, and a scan alert with its scan |
| JsonEscape.EscapeInto | src/backend_client.c:81-111 | writes the specified escape and its terminator below `size`, truncating as the code does |
| JsonEscape.EscapeReadsBack | src/backend_client.c:81-111 | the output is well-formed JSON string content (section 7 of RFC 8259) and denotes exactly the bytes kept |
| JsonEscape.KeptIsSubsequence | src/backend_client.c:92-109 | the kept bytes are a subsequence of the input |
| JsonEscape.KeptIsPrefix | src/backend_client.c:92-109 | they are a prefix when no six-character escape is needed |
| JsonEscape.PrefixIff | src/backend_client.c:92-109 | they are a prefix if and only if, at the first byte without room, the loop stops or only six-character escapes follow |
| JsonEscape.SkipIsNotTruncation | src/backend_client.c:101-105 | an eight-byte text that loses a byte from the middle in the 32-byte buffer |
| JsonEscape.ExactIff | src/backend_client.c:92-109 | nothing is lost if and only if the last byte's escape has room after all the others |
| JsonEscape.EnoughRoomIsExact | src/backend_client.c:92-109 | in particular when the escaped length and two more bytes fit |
| JsonEscape.DoubleBufferIsExact | src/backend_client.c:430-432 | the 32, 128 and 512 byte buffers lose nothing of their 15, 63 and 255 byte fields without six-character escapes |
| BatchBody.AppendEntries | src/backend_client.c:451-465 | the loop prints a prefix of the entries and leaves exactly header and pieces below `pos`, whatever a rejected entry left beyond |
| BatchBody.BuildBatch | src/backend_client.c:443-471 | the C string handed on is header, comma-joined prefix and closing, or nothing |
| BatchBody.LostIff | src/backend_client.c:467-470 | a batch is lost if and only if some entry starts in front of the reserve and ends in the last two usable bytes, in terms of the entry lengths alone |
| BatchBody.ReserveSuffices | src/backend_client.c:451-470 | pieces two bytes shorter than the reserve never truncate and the closing always fits |
| BackendBodies.SendDns | src/backend_client.c:427-471 | the body built in place is the specified DNS batch |
| BackendBodies.SendClients | src/backend_client.c:479-525 | the body built in place is the specified client batch |
| BackendBodies.SendForensics | src/backend_client.c:533-597 | the body built in place is the specified batch of the TCP and UDP samples |
| BackendBodies.ClientsAlwaysSent | src/backend_client.c:505-522 | with a 256-byte reserve a client batch is always sent, and entries are left out only for want of that reserve |
| BackendBodies.ForensicsAllSent | src/backend_client.c:552-594 | all TCP and UDP samples of a flush always fit |
| BackendBodies.DnsSentWhenShort | src/backend_client.c:451-470 | a DNS batch is sent if every printed entry is at most 510 bytes |
| BackendBodies.DnsLostIff | src/backend_client.c:451-470 | a DNS batch is lost if and only if some entry starts below byte 7680 and ends at 8190 or 8191 |
| DnsLoss.DnsBatchCanBeLost | src/backend_client.c:451-470 | for every device id, timestamp format and threshold setting there are sixteen frames whose flush submits a DNS batch that is not sent |
| DnsLoss.DomainReportable | src/packet_parser.c:75-104 | the losing names are ones the parser reports |
| BatchDecode.ClientsBodyReadsBack | src/backend_client.c:479-525 | reading any sent client body gives back exactly the printed prefix, each field as its escape buffer kept it |
| BatchDecode.ClientsBodyWhole | src/backend_client.c:479-525 | with a plain device id and timestamp the whole body reads back, header fields included |
| BatchDecode.DnsBodyReadsBack | src/backend_client.c:427-471 | the same for DNS bodies |
| BatchDecode.DnsBodyWhole | src/backend_client.c:427-471 | with a plain device id and timestamp the whole body reads back, header fields included |
| BatchDecode.RawReadsBackIff | src/backend_client.c:443-447 | text printed without escaping, as device id and timestamp are, reads back as itself if and only if it needs none |
| BatchDecode.ForensicsBodyReadsBack | src/backend_client.c:533-597 | the same for forensic bodies, over the TCP and UDP samples |
| BatchDecode.ForensicsRoundTrip | src/backend_client.c:533-597 | the samples of a flush with printed addresses arrive whole: every one, in order, field by field |
| BatchDecode.ClientWholeIff | src/backend_client.c:483-510 | a client survives its escape buffers whole if and only if the last byte of each field has room |
| BatchDecode.QueryWholeIff | src/backend_client.c:431-456 | the same for a DNS query |
| DeliveredSamples.SamplesDelivered | src/backend_client.c:533-597 | in any run over any frames, a flush with an alert gets the newest packets, at most 32, to the backend in order: time, protocol name, addresses, ports and size |

## Left out

- `src/http_client.c`, `src/packet_capture.c`, `src/logger.c`, `src/iso_time.c`: sockets, TLS, standard output and calendar formatting; a send is a recorded event and a timestamp an arbitrary short text.
- `src/rules_client.c` and the response scanning in `src/backend_client.c`: shallow substring scans; a ruleset update is an arbitrary change of the threshold words between any two reads. Only `TornThresholds.UpdatesPossible` ties the changes to the synchronising jobs submitted, at most one per job, however long the job takes.
- Reading the environment, the DHCP lease file, the device id file and `/proc`: arbitrary inputs. Leases are an arbitrary list, not limited to 64.
- Registration, heartbeat, traffic and alert bodies: fixed-size prints without a loop.
- Logging, alert descriptions and NULL-argument guards: no effect on the tables or the jobs.
- Signals, command line, scripts and packaging.
- The uploader's threads are interleaved atomic steps on values; memory-model effects below the mutex are not part of this model. `UploadRing` holds the locked code in place, without the lock.
- A job in the queue is a value, so the copy into and out of a slot is not modelled as a copy. `g_dropped` is modelled as a 32-bit word and its log line is left out.
- CaptureLoop.Agent.Submit: records the submitted job; what the uploader's own steps then make of the jobs of a run is stated separately by `DeliveredJobs.FlushJobsDelivered`.
- JsonEscape.EscapeReadsBack: reads one character per byte. Octets 0x80 to 0xFF of a name or host are copied as they are, so a body need not be valid UTF-8 (section 8.1 of RFC 8259).
- BatchDecode.DnsBodyWhole: speaks of plain device ids and timestamps; both are printed without escaping, so any other one does not read back as itself (`BatchDecode.RawReadsBackIff`). The same goes for `BatchDecode.ClientsBodyWhole` and the device id of forensic bodies.
- BatchBody.BuildBatch: the entries are rendered before the append loop, where the code renders each one just before printing it.
- ScanDetector.Detector.ScanFanout: reads the live entries as a sequence; the table itself is not written by it in the code either.
- PacketWindows.PacketWindow.EvictExpired: `time_t` arithmetic is unbounded here, as is every other computation with times.
- DottedQuads.PrivateTextIsRfc1918: `atoi` is modelled without overflow, which no octet can cause.
- `inet_ntop` is modelled as always succeeding, so the parser's "unknown" fallback is not modelled.
