# Verified model of the M360 lidar driver

The driver receives 936-byte M360 datagrams over UDP (or reads them from a capture file),
assembles twenty of them into one revolution of 2300 points, publishes the revolution as a laser
scan, recovers its socket when the network fails, and lets a diagnostics thread watch the
counters. Around that path sit a configuration parser with a ROS parameter overlay, a small
HTTP/1.0 client for the device, and a converter from safety zones to RViz line strips. This
project models those parts and proves what they promise; `dafny verify dfyconfig.toml` checks it.

| module | what it models |
|---|---|
| `Outcomes`, `Json` | values or exceptions; JSON with 64-bit integers and doubles |
| `M360Packet` | the datagram: decoding, its inverse, both round trips |
| `FullScanAssembler` | the assembler, in place on its arrays, refining the function `Add` |
| `AssemblerHistory`, `AssemblerRuns` | laws of whole runs: history refinement, stuttering, conservation, counter wrap, replay |
| `ScanDelivery` | device to assembled scan, through encoding, reordering, repeats and foreign datagrams |
| `ReceiverSocket`, `Backoff`, `UdpReceiver` | descriptor life cycle; the receive and recovery loop with backoff |
| `CallBudget`, `PollFate` | how many answers of `ros::ok()` a poll uses, and so how it ends, told from its start |
| `LaserScan`, `RosDriver`, `PcapDriver` | the published message and the poll loops |
| `PublishedRuns`, `CaptureBound` | what a whole run publishes, and when a replayed capture can complete at all |
| `RecoveryInterleaving` | the recovery counters, every atomic access a step, two threads and shutdown interleaved |
| `HttpClient` | batch parser, incremental reader, request sender |
| `DriverConfig`, `ParameterOverlay`, `DriverRuntime` | configuration parser and printer; ROS parameters laid over it; the run made with the result |
| `SafetyZoneMarkers`, `ZoneMarkerArray`, `MarkerMeaning` | outlines over the reals; the marker array; what it shows, told from the document |

## How the outside world is modelled

- The kernel's answers (`socket`, `setsockopt`, `bind`, `fcntl`, `poll`, `recvfrom`, `send`,
  `recv`) are arbitrary functions or sequences handed to the model; every theorem is for all of them.
- `ros::ok()` is true some number of further times and false ever after. The number is
  arbitrary, so every theorem about a loop is about every run that a shutdown ends.
- A distance is "no object" or an exact number of millimetres, and a reading an exact number of
  metres: rounding to float is not modelled. Shifting and or-ing bytes is the base-256 sum.
- Counters of type `size_t` and `uint64_t` are natural numbers. `int`, the 16-bit counter
  difference, the unsigned-to-signed JSON conversion and the overflow of `>> int` are modelled
  with their widths.
- Ghost fields record history: `history` (packets given to the assembler), `log` (descriptors
  acquired and closed), `delivered`, `episodes` (recoveries), `published`. `Valid()` ties them to
  the real fields: `UdpReceiver.Valid()` says that `delivered` is exactly the datagrams the kernel
  reported as deliverable, in order, and that every reported fault has started one recovery;
  `Driver.Valid()` that every delivered datagram has been counted once, as a packet exactly if it
  decodes and as invalid otherwise, and that everything published is sound.

## What turned out not to hold

- The documentation (`src/docs/source/dephan_node.rst:55-57`) promises that FULL mode publishes
  only complete revolutions. The poll loop also ends when the node is shut down, and then
  publishes what there is: `RosDriver.EmptyScanIsZeros` gives the scan of 2300 zeros. Which way a
  poll ends is decided by its start: the true answers of `ros::ok()` still to come, the kernel's
  answers and the configured delays. `RosDriver.Driver.PollFullUdp` publishes an incomplete scan
  if and only if the first call answered with false is the one at the head of its own loop
  (`PollFate.Early`), and nothing if and only if it is one made while waiting for a datagram
  (`PollFate.Waiting`). In closed form this compares the number of true answers with what the
  passes need: their heads and, for a fault, the attempts of its recovery (`PollFate.FateByNeed`,
  and `PollFate.FateEndless` and `PollFate.FateBarren` for scripts that never complete); if every
  answer delivers it is a matter of parity (`PollFate.EveryAnswerDelivers`). Over a whole run the
  scans are exactly the complete revolutions among the packets delivered, and besides at most one
  last scan that the shutdown has cut short (`PublishedRuns.PublishesExactly`).
  `PcapDriver.PcapDriver.PollFullPcap` and `PcapDriver.PcapDriver.RunFull` have the same for captures.
- The counters obey reconnects <= errors in every state, but a diagnostics message need not: the
  errors are loaded before the reconnects
  (`RecoveryInterleaving.ReportCanShowMoreReconnectsThanErrors`). It does if and only if the run
  counts at most as many reconnects between the two loads as there were failed reopens at the
  first one, plus one for an error still being recovered from (`RecoveryInterleaving.ReportAddsUp`).
  Nor need its level agree with its socket state: `RecoveryInterleaving.ReportCanSayErrorAndReady`,
  with the exact condition in `RecoveryInterleaving.ReportContradicts`.
- "Newer" on 16-bit counters is transitive only for steps that together stay within half a counter
  range (`AssemblerRuns.NewerIsNotTransitive`). Beyond that an old packet reopens the past
  (`AssemblerRuns.PastReopens`, `AssemblerRuns.PastCanReopen`). The active revolution is the newest
  along a whole run if and only if every arrival is ordered rightly against the newest one before
  it (`AssemblerRuns.NewestExactly`); arrivals within half a range always are, and that is the
  largest such interval (`AssemblerRuns.WindowIsTight`).
- A status code beyond the range of `int` is not rejected: the response is accepted with the
  largest `int` for its code and without its reason, and the round trip holds if and only if the
  code fits (`HttpClient.HugeCodeIsClamped`).
- A capture whose packets are ordered rightly, and that has not filled all twenty positions by the
  end of the file, never does on replay (`PcapDriver.CaptureCompletes`,
  `PcapDriver.IncompleteCaptureNeverCompletes`). The order is needed: there is a capture that fills
  ten positions at most on the first pass and completes on replay
  (`AssemblerRuns.ReplayCanComplete`). For every capture, `FullInTime` in the contract of
  `PcapDriver.PcapDriver.PollFullPcap` is the exact condition, and it can be decided: a capture in
  any order completes within one round more than it has packets, or never
  (`CaptureBound.BoundSuffices`).
- A header block that ends in CRLF, or contains a blank line, moves the split between headers and
  body: `HttpClient.FindSeparator` is the exact condition.

## Model

| member | source | states |
|---|---|---|
| M360Packet.PointIndex | src/mech_lidar_driver/src/packet_handler_mech.cpp:75-80 | throws exactly for channels from 115 on; otherwise neither the modulus nor the cast wraps: the index is encoder + channel, below 2300 |
| M360Packet.Construct | src/mech_lidar_driver/src/packet_handler_mech.cpp:31-61 | the constructor, its checks in order and its channel loop, computes `Decode`; a null buffer is the first error |
| M360Packet.Decode | src/mech_lidar_driver/src/packet_handler_mech.cpp:31-61 | accepts exactly the buffers with the right magic, version and an encoder that is a multiple of 115 below 2300 |
| M360Packet.DecodeEncode | src/mech_lidar_driver/test/packet_handler_mech_test.cpp:16-50 | every valid packet, encoded little-endian as the test helpers do, is decoded to itself |
| M360Packet.EncodeDecode | src/mech_lidar_driver/src/packet_handler_mech.cpp:17-61 | every accepted buffer is the encoding of what was decoded from it, so the field reads tile bytes 0 to 935 |
| M360Packet.Layout | src/mech_lidar_driver/src/packet_handler_mech.cpp:31-49 | the header byte by byte: which buffers are refused with which error, and the bytes each header field is the little-endian number of |
| M360Packet.PointLayout | src/mech_lidar_driver/src/packet_handler_mech.cpp:51-58 | the eight bytes of a channel: the distance, "no object" exactly for four bytes of 255, then the intensity |
| FullScanAssembler.Delta | src/mech_lidar_driver/src/full_scan_assembler.cpp:33-36 | the cast difference of two counters lies within -32768 .. 32767 and is 0 only for equal counters |
| FullScanAssembler.FullScanAssembler.BeginRotation | src/mech_lidar_driver/src/full_scan_assembler.cpp:11-26 | in place: all fields and the three arrays become those of a fresh revolution, an incomplete one is counted as discarded |
| FullScanAssembler.FullScanAssembler.StorePoints | src/mech_lidar_driver/src/full_scan_assembler.cpp:54-58 | the channel loop writes exactly the 115 entries of the packet's position, and the accessor never throws |
| FullScanAssembler.FullScanAssembler.AddPacket | src/mech_lidar_driver/src/full_scan_assembler.cpp:28-64 | in place: the new fields are `Add` of the old ones, hence `Run` of the whole history; the answer is `complete` |
| AssemblerHistory.RunExplained | src/mech_lidar_driver/src/full_scan_assembler.cpp:10-64 | after any history, position k holds the points of the first packet for k since the active revolution was opened, or infinity and 0; header fields come from the first ENC = 0 packet, else from the opening one |
| AssemblerRuns.RunConsistent | src/mech_lidar_driver/src/full_scan_assembler.cpp:11-25 | in every reachable state the count is the number of true flags, and complete holds exactly when all twenty are set |
| AssemblerRuns.RunCounts | src/mech_lidar_driver/src/full_scan_assembler.cpp:42-63 | the count is the number of distinct positions of the active revolution seen; complete means all twenty were |
| AssemblerRuns.AddUnchanged | src/mech_lidar_driver/src/full_scan_assembler.cpp:32-46 | a packet leaves a reachable state unchanged exactly when it is stale or a duplicate |
| AssemblerRuns.RunKept | src/mech_lidar_driver/src/full_scan_assembler.cpp:32-46 | deleting every packet that was stale or duplicate on arrival leaves the final state unchanged, and nothing deletable remains |
| AssemblerRuns.RunAbsorbs | src/mech_lidar_driver/src/full_scan_assembler.cpp:32-46 | any sequence of packets without a newer counter or a new position is absorbed |
| AssemblerRuns.RunBalanced | src/mech_lidar_driver/src/full_scan_assembler.cpp:11-63 | revolutions begun = discarded + completed + open; accepted packets = 20 per completed one + those of discarded ones + those of the open one |
| AssemblerRuns.AcceptedAreKept | src/mech_lidar_driver/src/full_scan_assembler.cpp:32-46 | the accepted packets of the books are exactly those left by deleting stale and duplicate ones |
| AssemblerRuns.DeltaExact | src/mech_lidar_driver/src/full_scan_assembler.cpp:32-38 | for true rotations within half a counter range, the 16-bit difference is the true difference |
| AssemblerRuns.RightlyExactly | src/mech_lidar_driver/src/full_scan_assembler.cpp:32-38 | the cast comparison of a true rotation with the newest one comes out right if and only if they are ordered rightly: equal, or modulo the counter range 1 to 32767 ahead if newer, 1 to 32768 behind if older |
| AssemblerRuns.WindowIsTight | src/mech_lidar_driver/src/full_scan_assembler.cpp:32-38 | every arrival within half a counter range of the newest is ordered rightly, and one step past either end it is not |
| AssemblerRuns.NewerIsNotTransitive | src/mech_lidar_driver/src/full_scan_assembler.cpp:32-38 | for all counters with b newer than a and c newer than b, c is newer than a if and only if the two steps add up to at most 32767, and a is newer than c if and only if they exceed 32768 |
| AssemblerRuns.PastReopens | src/mech_lidar_driver/src/full_scan_assembler.cpp:28-41 | after three revolutions, each newer than the one before, any packet with the first one's counter reopens it, discarding the third, if and only if the two steps exceed 32768; otherwise it changes nothing |
| AssemblerRuns.PastCanReopen | src/mech_lidar_driver/src/full_scan_assembler.cpp:28-41 | counters 0, 0x5000, 0xA000 and then an old packet of 0: the assembler ends in the oldest revolution |
| AssemblerRuns.NewestExactly | src/mech_lidar_driver/src/full_scan_assembler.cpp:28-41 | for every labelled run of any length, the active revolution is the newest one, made of exactly its packets, at every prefix if and only if every arrival is ordered rightly |
| AssemblerRuns.ActiveIsNewest | src/mech_lidar_driver/src/full_scan_assembler.cpp:28-41 | on rightly ordered arrivals of any length the active revolution is the maximum true rotation seen, and its packets are those of that rotation |
| AssemblerRuns.NoMixing | src/mech_lidar_driver/src/full_scan_assembler.cpp:28-64 | on rightly ordered arrivals every stored block is the first packet of the newest true rotation for its position, however often the counter wrapped |
| AssemblerRuns.NoMixingInWindow | src/mech_lidar_driver/src/full_scan_assembler.cpp:28-64 | in particular whenever each arrival is at most 32768 behind and 32767 ahead of the newest true rotation before it |
| AssemblerRuns.ReplayChangesNothing | src/mech_lidar_driver/src/ros_driver.cpp:497-505 | replaying any packets of a rightly ordered capture, in any order and number, leaves the assembler that has seen it once unchanged |
| AssemblerRuns.ReplayCanComplete | src/mech_lidar_driver/src/ros_driver.cpp:497-505 | without right order replays can add something: one capture never fills more than ten positions on the first pass, and replaying its first ten packets completes a revolution |
| ScanDelivery.CollectDelivery | src/mech_lidar_driver/src/full_scan_assembler.cpp:28-63 | during any delivery of a newer scan the active revolution consists of exactly its packets that have arrived |
| ScanDelivery.DeliveredScan | src/mech_lidar_driver/src/full_scan_assembler.cpp:42-63 | end to end: a scan cut into twenty packets, encoded and delivered in any order with repeats and foreign datagrams, is assembled to the original ranges, intensities, timestamp and frequency, and is complete exactly from the twentieth distinct packet on |
| ScanDelivery.SurvivorsMeans | src/mech_lidar_driver/src/ros_driver.cpp:453-461 | the packets of a sequence of datagrams: each one of 936 bytes that decodes adds its packet, any other adds nothing |
| ReceiverSocket.SourceFilter | src/mech_lidar_driver/src/reciever_socket.cpp:20-27 | empty and 0.0.0.0 mean any source; any other text is the parsed address, or the constructor throws |
| ReceiverSocket.EveryDescriptorClosedOnce | src/mech_lidar_driver/src/reciever_socket.cpp:36-110 | in a log with at most one descriptor held at a time, every acquisition is matched by one close, except that of the held one |
| ReceiverSocket.Connect | src/mech_lidar_driver/src/reciever_socket.cpp:20-30 | an object exists exactly if the address and all five calls succeed; otherwise no descriptor is left open |
| ReceiverSocket.ReceiverSocket.CloseSocket | src/mech_lidar_driver/src/reciever_socket.cpp:103-110 | closes the held descriptor, if any, once, and blanks both copies |
| ReceiverSocket.ReceiverSocket.OpenSocket | src/mech_lidar_driver/src/reciever_socket.cpp:41-101 | a failure of any call after `socket` closes the descriptor again; success leaves it in both copies |
| ReceiverSocket.ReceiverSocket.Reopen | src/mech_lidar_driver/src/reciever_socket.cpp:36-39 | between calls, open or closed: at most one descriptor is held afterwards, it is the polled one, and the log grows by exactly the closes and acquisitions made |
| ReceiverSocket.ReceiverSocket.GetPacket | src/mech_lidar_driver/src/reciever_socket.cpp:112-173 | branch by branch over the fields of the answer: on an open socket with a readable datagram 0 if and only if it has the wanted length and its address is the wanted one, if one is wanted (then it is in the buffer), otherwise -1; 1 for nothing yet, an exception with its number for each fault; EBADF on a closed socket |
| ReceiverSocket.AnswerMeans | src/mech_lidar_driver/src/reciever_socket.cpp:117-172 | an answer delivers if and only if poll, flags, length and source are all right, and is a fault if and only if poll, its flags or recvfrom fail otherwise than with EINTR, EAGAIN or EWOULDBLOCK |
| Backoff.Delay | src/mech_lidar_driver/src/ros_driver.cpp:321-358 | the delay before attempt k is min(first * 2^k, longest) and stays within 1 .. longest, so `int` never overflows |
| Backoff.DelayStep | src/mech_lidar_driver/src/ros_driver.cpp:355-357 | the program's saturating doubling is the step from k to k + 1 of the closed form |
| Backoff.DelayMeans | src/mech_lidar_driver/src/ros_driver.cpp:321-357 | the delays without the closed form: first the initial one, at least 1 ms, then each twice the one before, at most the longest, which is at least the first |
| UdpReceiver.UdpReceiver.SleepInSlices | src/mech_lidar_driver/src/ros_driver.cpp:329-336 | slices of 1 to 100 ms that add up to exactly the delay if and only if the node grants one true answer for each |
| UdpReceiver.UdpReceiver.TryReopen | src/mech_lidar_driver/src/ros_driver.cpp:327-354 | one attempt: announced and slept delay, a reconnect exactly if all system calls succeed, an error exactly if one fails, interrupted exactly if too few true answers are left |
| CallBudget.RetryStep | src/mech_lidar_driver/src/ros_driver.cpp:327-358 | an attempt needs one true answer at its head, one for each slice and one before it reopens; with fewer the recovery is cut short, otherwise the call to open decides whether it is over |
| UdpReceiver.UdpReceiver.RetryUntilOpen | src/mech_lidar_driver/src/ros_driver.cpp:321-359 | attempt k sleeps the closed-form delay and all attempts but the last fail; success, and what is left of the true answers, are those of `Retry`, told from the start |
| UdpReceiver.UdpReceiver.Recover | src/mech_lidar_driver/src/ros_driver.cpp:314-359 | one recovery is added to the books: errors = recoveries begun + failed reopens, reconnects = recoveries finished |
| UdpReceiver.UdpReceiver.ReceiveUdpPacket | src/mech_lidar_driver/src/ros_driver.cpp:307-363 | hands over the first deliverable datagram among the kernel's answers and none other, or returns false because the node is shut down before it; never asks a closed socket for a packet |
| UdpReceiver.DeliveredFromSource | src/mech_lidar_driver/src/reciever_socket.cpp:150-172 | every datagram ever handed over is that of some answer used up, readable, of 936 bytes and from the wanted source if one is wanted |
| UdpReceiver.SourceIsDelivered | src/mech_lidar_driver/src/reciever_socket.cpp:150-172 | and every such answer has had its datagram handed over, in its turn |
| CallBudget.Nested | src/mech_lidar_driver/src/ros_driver.cpp:447-451 | waiting for a datagram is a stretch of the poll: the calls left after it are those of the whole poll |
| UdpReceiver.ErrorsBalanced | src/mech_lidar_driver/src/ros_driver.cpp:301-359 | between calls errors = faults reported by the kernel + failed reopens, and with no recovery pending errors = reconnects + failed reopens |
| RecoveryInterleaving.ExecutionKeeps | src/mech_lidar_driver/src/ros_driver.cpp:301-350 | every state of every interleaving satisfies the books at each program point, the mutex discipline, and whole error texts in reports |
| RecoveryInterleaving.AccountingHolds | src/mech_lidar_driver/src/ros_driver.cpp:314-350 | in every reachable state reconnects <= errors, and whenever `socket_recovering` is false errors = reconnects + failed reopens |
| RecoveryInterleaving.MutualExclusion | src/mech_lidar_driver/src/ros_driver.cpp:303-304 | in no reachable state are both threads in their critical sections |
| RecoveryInterleaving.TextIsNeverTorn | src/mech_lidar_driver/src/ros_driver.cpp:435-438 | no report holds a half-written error text, nor the text of an error not yet counted |
| RecoveryInterleaving.ReportLoads | src/mech_lidar_driver/src/ros_driver.cpp:430-431 | the errors and the reconnects of every published report are those of two states of the run, in this order, at which the diagnostics thread loads them |
| RecoveryInterleaving.ReportAddsUp | src/mech_lidar_driver/src/ros_driver.cpp:430-431 | such a report shows reconnects <= errors if and only if the steps between the two states count at most as many reconnects as there were failed reopens at the first, plus one if an error was still being recovered from |
| RecoveryInterleaving.ReportCanShowMoreReconnectsThanErrors | src/mech_lidar_driver/src/ros_driver.cpp:393-438 | some run publishes one reconnect and no error |
| RecoveryInterleaving.ReportContradicts | src/mech_lidar_driver/src/ros_driver.cpp:393-429 | a report says ERROR about a ready socket if and only if a recovery was going on when its level was loaded and ended, the last change, before its socket state was; and the other way round if and only if one began so |
| RecoveryInterleaving.ReportCanSayErrorAndReady | src/mech_lidar_driver/src/ros_driver.cpp:393-429 | some run publishes such an error report about a ready socket |
| LaserScan.RangeMinOrDefault | src/mech_lidar_driver/src/ros_driver.cpp:44-52 | the least finite reading, 0 if there is none |
| LaserScan.RangeMaxOrDefault | src/mech_lidar_driver/src/ros_driver.cpp:54-62 | the maximum of 0 and the finite readings |
| LaserScan.ZeroStartIsHarmless | src/mech_lidar_driver/src/ros_driver.cpp:54-62 | for non-negative readings, which decoding guarantees, the 0 start still gives a reading that occurs |
| LaserScan.ZeroStartNeedsNonNegative | src/mech_lidar_driver/src/ros_driver.cpp:54-62 | for readings of any sign, what the loop promises is the largest finite reading if and only if not all finite readings are negative |
| LaserScan.BuildMessage | src/mech_lidar_driver/src/ros_driver.cpp:464-479 | every range in metres, the scan time from the frequency, and range_min and range_max the hull of the finite ranges |
| LaserScan.ReportsMeans | src/mech_lidar_driver/src/ros_driver.cpp:464-479 | the same field by field: thousandths of the millimetres or infinity, the same intensities, 1 / frequency or 0.1, and a smallest and a largest reading that occur, or 0 and 0 |
| LaserScan.CompleteScan | src/mech_lidar_driver/src/ros_driver.cpp:443-493 | a message built from a completed history reports at every position the first packet for it, all of one counter |
| RosDriver.Driver.Accept | src/mech_lidar_driver/src/ros_driver.cpp:453-461 | a datagram is counted exactly once, as a packet exactly if it decodes: the catch after the increment is never reached |
| RosDriver.Driver.CollectRevolution | src/mech_lidar_driver/src/ros_driver.cpp:447-462 | the assembler has seen exactly the packets among the datagrams delivered in this poll, and stops at the first that completes; which of the three ends it comes to is decided by the start |
| RosDriver.Driver.PollFullUdp | src/mech_lidar_driver/src/ros_driver.cpp:443-493 | one scan made from exactly those packets, or none: none, an incomplete one or a complete one if and only if the start of the poll is `Waiting`, `Early` or `Complete` |
| PollFate.OneFate | src/mech_lidar_driver/src/ros_driver.cpp:447-451 | no start has two of the three fates |
| PollFate.FateByNeed | src/mech_lidar_driver/src/ros_driver.cpp:307-363 | if n passes complete a revolution and their recoveries succeed in the end: complete if and only if the calls needed for the n passes are granted, incomplete if and only if exactly those before some earlier head of the loop are, otherwise nothing |
| PollFate.FateEndless | src/mech_lidar_driver/src/ros_driver.cpp:307-363 | if a fault comes first from which no reopening ever recovers: never complete, incomplete if and only if exactly the calls before some head up to there are granted, otherwise nothing |
| PollFate.FateBarren | src/mech_lidar_driver/src/ros_driver.cpp:307-363 | if recoveries succeed but no revolution ever completes: incomplete or nothing by the same comparison |
| PollFate.EveryScript | src/mech_lidar_driver/src/ros_driver.cpp:307-363 | every start, with every script of kernel answers, belongs to one of these three cases |
| PollFate.FaultFreeFate | src/mech_lidar_driver/src/ros_driver.cpp:447-451 | without faults, with idle and skipped answers in between, the calls needed are the heads alone |
| PollFate.EveryAnswerDelivers | src/mech_lidar_driver/src/ros_driver.cpp:447-451 | if every answer delivers and n datagrams complete: incomplete if and only if the number of true answers is even and below 2n, nothing if and only if it is odd and below 2n |
| RosDriver.Driver.PollUdp | src/mech_lidar_driver/src/ros_driver.cpp:575-624 | one datagram at most: a valid packet is published as it is, an invalid one is only counted |
| RosDriver.Driver.RunDriver | src/mech_lidar_driver/src/driver_runtime.cpp:137-145 | over a whole run every datagram is counted once and everything published is sound and of the configured kind; every delivered packet is in exactly one publication, in order, except those of one last poll, which complete no revolution; only the last scan can be cut short |
| RosDriver.NothingForNothing | src/mech_lidar_driver/src/ros_driver.cpp:443-493 | a run can end with nothing published if and only if no beginning of the packets delivered, and not the whole, completes a revolution |
| PublishedRuns.PublishesExactly | src/mech_lidar_driver/src/ros_driver.cpp:443-493 | the scans of a run in FULL mode are determined by the packets delivered: exactly its revolutions, each cut where it becomes complete, and at most one more that the shutdown has cut short |
| RosDriver.AllButLastComplete | src/mech_lidar_driver/src/ros_driver.cpp:443-493 | every scan of such a run but the last has all twenty positions |
| RosDriver.StartUdp | src/mech_lidar_driver/src/driver_runtime.cpp:131-145 | from a UDP configuration to the end of the run: the driver runs exactly if the address is valid and the socket opens, and then everything `RunDriver` promises holds of it |
| DriverRuntime.RunDriverRuntime | src/mech_lidar_driver/src/driver_runtime.cpp:109-147 | from configuration and ROS parameters to the end: rejected if and only if no valid configuration is the overlay; otherwise that one configuration decides whether the socket fails, or which driver runs, and the run is the one promised for it |
| RosDriver.FullScanIsOneRevolution | src/mech_lidar_driver/src/ros_driver.cpp:443-493 | a FULL scan published while the node runs has all twenty positions, each reporting the first packet for it, all of one counter |
| RosDriver.FullScanCompleteness | src/docs/source/dephan_node.rst:55-57 | a published FULL scan is complete if and only if packets of all twenty positions were received, and this is so unless the poll was ended by the shutdown (exactly when it is not, see `PollFullUdp`) |
| RosDriver.EmptyScanIsZeros | src/mech_lidar_driver/src/ros_driver.cpp:447-493 | the scan of a poll without packets is 2300 zeros with range 0 to 0, and is published only at shutdown |
| RosDriver.PublishedDelivery | src/mech_lidar_driver/src/ros_driver.cpp:443-493 | a FULL poll whose datagrams deliver a scan, in any order with repeats and foreign datagrams, publishes its ranges in metres, its intensities and its scan time |
| PcapDriver.PcapDriver.NextPacket | src/mech_lidar_driver/src/ros_driver.cpp:500-506 | the payloads read are consecutive ones of the file, which starts over at its end |
| PcapDriver.PcapDriver.PayloadsAre | src/mech_lidar_driver/src/ros_driver.cpp:166-168 | payload i of a run is that of packet 1 + i of the file, counted round: the constructor has taken the first one for its timestamp |
| PcapDriver.PcapDriver.CollectRevolution | src/mech_lidar_driver/src/ros_driver.cpp:499-538 | the assembler survives the restart: it has seen exactly the packets among the payloads of this poll |
| PcapDriver.PcapDriver.PollFullPcap | src/mech_lidar_driver/src/ros_driver.cpp:495-569 | always publishes one scan, made from exactly those packets, which are consecutive ones of the file from where the poll started; it is complete if and only if some number of passes that the node still grants completes it |
| PcapDriver.PcapDriver.RunFull | src/mech_lidar_driver/src/driver_runtime.cpp:137-145 | over a whole run every packet read is in exactly one scan, in order, and only the last scan can be incomplete |
| CaptureBound.PassesSuffice | src/mech_lidar_driver/src/ros_driver.cpp:497-538 | a capture of c packets, in any order, that has not completed a revolution in its first c + 1 passes never does, however often it is replayed |
| CaptureBound.BoundSuffices | src/mech_lidar_driver/src/ros_driver.cpp:499-538 | of the loop over the file: a poll can complete with some number of true answers if and only if it can with at most (c + 1)(payloads + 1) of them |
| PcapDriver.CaptureCompletes | src/mech_lidar_driver/src/ros_driver.cpp:497-538 | for a poll over a rightly ordered capture: its scan is complete if and only if some prefix of what the first pass through the file has read fills all twenty positions |
| PcapDriver.IncompleteCaptureNeverCompletes | src/mech_lidar_driver/src/ros_driver.cpp:497-538 | a poll that has read such a capture through without that is ended only by the shutdown, and publishes what the first pass has left |
| HttpClient.FindSeparator | src/mech_lidar_driver/src/http_client.cpp:109-118 | the first blank line of head + CRLFCRLF + body is the one put there if and only if head has none and does not end in CRLF |
| HttpClient.ParseResponse | src/mech_lidar_driver/src/http_client.cpp:109-136 | the program's edits in place compute `Parsed`, errors included |
| HttpClient.ParsePrinted | src/mech_lidar_driver/src/http_client.cpp:109-136 | for every printable status line, header lines and arbitrary body, code, reason, headers and body are recovered exactly |
| HttpClient.HugeCodeIsClamped | src/mech_lidar_driver/src/http_client.cpp:120-133 | for every printable head with any positive code and any body, the response is recovered if and only if the code fits an `int`; otherwise it is accepted with the largest `int` and an empty reason |
| HttpClient.HeaderBlockSuffices | src/mech_lidar_driver/src/http_client.cpp:138-140 | re-appending the self-overlapping separator to the header block finds the status and headers, or the error, of the whole response |
| HttpClient.ParsedSplits | src/mech_lidar_driver/src/http_client.cpp:109-118 | headers and body of a response are what is left and right of the first CRLFCRLF |
| HttpClient.StatusShape | src/mech_lidar_driver/src/http_client.cpp:120-133 | every accepted header block begins with white space, a word beginning with HTTP/, white space and digits not all zero, possibly after a plus sign |
| HttpClient.ShapeAccepted | src/mech_lidar_driver/src/http_client.cpp:120-133 | and every header block of that shape is accepted, with the number of its digits as the code, or the largest `int` if that is less |
| HttpClient.NumberPlaces | src/mech_lidar_driver/src/http_client.cpp:122 | digits are read as a decimal number, most significant first |
| HttpClient.ReasonMeans | src/mech_lidar_driver/src/http_client.cpp:123-129 | the reason is the rest of the line without one leading blank and one trailing carriage return |
| HttpClient.Request | src/mech_lidar_driver/src/http_client.cpp:266-287 | however it is split, the response is parsed from the concatenation of what was received; a time-out or error is reported |
| HttpClient.StreamGet | src/mech_lidar_driver/src/http_client.cpp:184-241 | for every split into chunks it forwards exactly the body, status and headers the batch parser finds in the concatenation, and fails exactly when that fails |
| HttpClient.StatusLine | src/mech_lidar_driver/src/http_client.cpp:217-223 | the status line is HTTP, a blank, the code in decimal without leading zeros, a blank and the reason if there is one, and a line feed |
| HttpClient.StatusLineDetermines | src/mech_lidar_driver/src/http_client.cpp:217-223 | code and reason can be recovered from that line: two responses with the same line have the same code and reason |
| HttpClient.SendAll | src/mech_lidar_driver/src/http_client.cpp:90-107 | what the kernel takes is a prefix of the data, and all of it exactly when enough was taken before the first bad answer |
| HttpClient.SufficesMeans | src/mech_lidar_driver/src/http_client.cpp:90-107 | a beginning of the answers suffices if and only if none of them fails or takes nothing and together they take all the bytes |
| HttpClient.CapacitySnoc | src/mech_lidar_driver/src/http_client.cpp:90-107 | what is taken is the sum of the answers that took something; a retry takes nothing |
| DriverConfig.ParseExactly | src/mech_lidar_driver/src/driver_config.cpp:114-261 | a document is parsed to c if and only if it has no unknown key, every field says what c says, and c is within all validated ranges |
| DriverConfig.ParseMeans | src/mech_lidar_driver/src/driver_config.cpp:27-261 | key by key over the document: which keys must be there in which mode, which type each has, the literal default of each absent optional one, and the literal ranges; c is the result if and only if all of it holds |
| DriverConfig.PrintParse | src/mech_lidar_driver/src/driver_config.cpp:263-294 | parsing the printed form of c returns c if and only if c is within the validated ranges |
| DriverConfig.ParsePrintParse | src/mech_lidar_driver/src/driver_config.cpp:114-294 | for every document that parses, printing and parsing again gives the same configuration |
| DriverConfig.ClampsAreNoOps | src/mech_lidar_driver/src/driver_config.cpp:239-249 | for every accepted configuration the clamps of the backoff change nothing |
| ParameterOverlay.ApplyParameterOverrides | src/mech_lidar_driver/src/driver_runtime.cpp:22-84 | written key by key into the JSON form and parsed, the overlay yields d if and only if d is valid and is, field by field, the configuration with the parameters applied; otherwise it is rejected |
| ParameterOverlay.OverlaidParses | src/mech_lidar_driver/src/driver_runtime.cpp:49-83 | the same of the JSON object: private beats global beats configuration for frame_id and angle_offset_deg, and fields of the other transport are ignored |
| ParameterOverlay.AppliedMeans | src/mech_lidar_driver/src/driver_runtime.cpp:22-84 | field by field over the parameters: a present one is the value of its field and an absent one leaves the field as configured, private before global before configured for frame_id and angle_offset_deg; only the keys of the resulting mode count |
| ParameterOverlay.AppliedUnique | src/mech_lidar_driver/src/driver_runtime.cpp:22-84 | at most one configuration is the result |
| ParameterOverlay.EmptyOverlay | src/mech_lidar_driver/src/driver_runtime.cpp:22-84 | with no parameters every valid configuration is returned unchanged, despite the keys the overlay adds |
| SafetyZoneMarkers.NormalizeSpan | src/mech_lidar_driver/src/safety_zone_markers.cpp:71-74 | the loop ends with the one non-negative span reached by adding the fewest whole turns |
| SafetyZoneMarkers.Turns | src/mech_lidar_driver/src/safety_zone_markers.cpp:72-74 | none for a non-negative span; for a negative one the result lies within one turn |
| SafetyZoneMarkers.TraceSector | src/mech_lidar_driver/src/safety_zone_markers.cpp:77-87 | the arc loop produces the centre, steps + 1 arc points in order, and the centre again |
| SafetyZoneMarkers.AppendSectorPoints | src/mech_lidar_driver/src/safety_zone_markers.cpp:65-88 | appends the outline of the sector read with its defaults, or throws for an ill-typed field |
| SafetyZoneMarkers.RotationKeepsDistance | src/mech_lidar_driver/src/safety_zone_markers.cpp:18-24 | rotating a point by the angle offset keeps its distance from the origin |
| SafetyZoneMarkers.ArcStepIsSmall | src/mech_lidar_driver/src/safety_zone_markers.cpp:77-81 | consecutive arc points are at most five degrees apart |
| SafetyZoneMarkers.SectorShape | src/mech_lidar_driver/src/safety_zone_markers.cpp:65-88 | the outline is closed at the centre, all arc points lie on the circle of the radius, the first at the start angle, the last whole turns from the end angle |
| ZoneMarkerArray.AppendPolygonPoints | src/mech_lidar_driver/src/safety_zone_markers.cpp:90-109 | the well-formed vertices in order, then the first again; ill-formed ones are skipped, a non-number throws |
| ZoneMarkerArray.AppendTwoPointSegment | src/mech_lidar_driver/src/safety_zone_markers.cpp:111-128 | both points of exactly two well-formed vertices, otherwise none |
| ZoneMarkerArray.AppendZone | src/mech_lidar_driver/src/safety_zone_markers.cpp:154-183 | the inner loop: markers and the next id after it are those of all items so far, or the type error ends the drawing |
| ZoneMarkerArray.BuildSafetyZoneMarkers | src/mech_lidar_driver/src/safety_zone_markers.cpp:131-189 | the nested loops, which skip what is ill-formed and bump one id, compute the array told from the list of object segments |
| ZoneMarkerArray.ArrayExists | src/mech_lidar_driver/src/safety_zone_markers.cpp:131-189 | a document raises no type error if and only if the fields that are read of its valid zones and object segments have the types they are read with |
| ZoneMarkerArray.ArrayStructure | src/mech_lidar_driver/src/safety_zone_markers.cpp:131-189 | for every such document: DELETEALL first; then line strips under strictly increasing ids, each depicting the segment its id names in the style of its zone; exactly the segments with two points or more are there |
| ZoneMarkerArray.MarkerShape | src/mech_lidar_driver/src/safety_zone_markers.cpp:168-184 | every drawn marker has the shape of its kind: polygons closed, two points exactly, sectors of eleven points or more closed at the centre; no other kind is drawn |
| ZoneMarkerArray.ItemPosition | src/mech_lidar_driver/src/safety_zone_markers.cpp:142-161 | the number of an object segment counts the object segments of earlier valid zones and the earlier ones of its own |
| SafetyZoneMarkers.TurnsBack | src/mech_lidar_driver/src/safety_zone_markers.cpp:18-24 | turning a drawn point back by the angle offset gives the coordinates it was made from |
| MarkerMeaning.ShowsSays | src/mech_lidar_driver/src/safety_zone_markers.cpp:18-24 | a point shows a vertex if and only if, turned back by the offset, it has the first two numbers of the vertex, integers or doubles |
| MarkerMeaning.PolygonSays | src/mech_lidar_driver/src/safety_zone_markers.cpp:90-109 | the points of a polygon show its well-formed vertices, all of them and in document order, and the outline is closed |
| MarkerMeaning.TwoPointsSay | src/mech_lidar_driver/src/safety_zone_markers.cpp:111-128 | a two-point segment shows both its vertices if there are exactly two and both are well-formed, and is empty otherwise |
| MarkerMeaning.SectorMeans | src/mech_lidar_driver/src/safety_zone_markers.cpp:69-77 | the three numbers of a sector with default 0; the span from start to end angle in radians plus the fewest whole turns that make it non-negative; the fewest steps of at most five degrees, at least eight |
| MarkerMeaning.SectorPoints | src/mech_lidar_driver/src/safety_zone_markers.cpp:76-87 | turned back by the offset, arc point i is radius * (cos a, sin a) for a = start + span * i / steps; the first and last point are the origin |
| MarkerMeaning.OtherKinds | src/mech_lidar_driver/src/safety_zone_markers.cpp:168-177 | a segment of no or another type has no points, and a type that is no text throws |
| MarkerMeaning.ArrayMeans | src/mech_lidar_driver/src/safety_zone_markers.cpp:131-189 | told from the document: DELETEALL first; the object segments, in document order, are numbered from 1, and exactly those with two points or more are drawn, under increasing ids |
| MarkerMeaning.MarkerSays | src/mech_lidar_driver/src/safety_zone_markers.cpp:142-184 | every marker is the outline of the segment its id names, which is a sector, polygon or two_points; its zone is enabled unless it says otherwise, and its status is known and triggered as the status says under the name of the zone, "zone" by default |

## Left out

- ROS, libtins, nlohmann and libc internals, clocks and wall time: publishers and sniffers are reduced to what the loops do with their results.
- Runs in which the node is never shut down: the poll and receive loops are shown for runs of every finite length, not for infinite ones.
- Float rounding, beam angles, angle_min and angle_max, time_increment and `timestamp()`: arithmetic over exact numbers only; sine and cosine are any two functions with c^2 + s^2 = 1.
- Point clouds, marker colours beyond the style that selects them, marker header, scale and lifetime, topic names, logging, error message texts.
- DriverRuntime.RunDriverRuntime: ends with a mark where the configuration asks for single packets of a capture.
- The SINGLE poll over a capture file (`_poll_pcap`) and the timing of replayed packets: the FULL poll covers the assembler over a capture.
- PcapDriver.PcapDriver.NextPacket: every packet of the file is taken to carry a raw payload; a packet without one makes the library throw.
- Threads other than the receiving and the diagnostics thread; diagnostics other than the socket fields.
- RecoveryInterleaving.ExecutionKeeps: every atomic access is one sequentially consistent step, as the default memory order of `std::atomic` makes it.
- `connect_socket`, `set_timeout`, address resolution and the text of the HTTP request: system-call plumbing.
- JSON text parsing and the order of keys in a printed document.
- DriverConfig.ParseExactly: error messages are reduced to the kind of error and the field.
- ReceiverSocket.ReceiverSocket.GetPacket: what a skipped datagram leaves in the buffer is not stated; the driver never reads it.
- SafetyZoneMarkers.NormalizeSpan: termination is over the reals; a float span so large that adding a turn does not change it is not modelled, nor is the overflow of the step count.
- The command line and `main`: flag dispatch, help text and file access.
- Wrap-around of `size_t` and 64-bit counters after 2^64 events.
