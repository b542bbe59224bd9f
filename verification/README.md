# StormDNS, verified

StormDNS tunnels TCP streams through DNS queries and answers.  This project models the parts of it that
are hard to get right and proves what they are for:

* **The ARQ transport** (`Wire16`, `ArqData`, `ArqTransport`, `ArqTransportSafety`, `ArqDelivery`): two endpoints over a
  network that loses, duplicates, delays and reorders.  Numbers on the wire have 16 bits; every copy carries
  the unbounded index behind its number, for the proofs only.  In-order delivery, conservation, soundness of
  acknowledgements, the send-ahead bound and the bound of the receive buffer rest on one invariant over
  sender, receiver and network.  The receiver also acts: exactly what is held is acknowledged, and from every
  undisturbed state within the age bounds everything can still be delivered and acknowledged.
* **The close machine** (`ArqClose`, `ArqCloseSafety`, `ArqAnswers`, `ArqTimers`, `ArqTeardown`, `ArqFrame`,
  `ArqEof`, `ArqEofExample`): half-close and reset handshakes, drains with deadlines and the terminal branch of the
  retransmit tick.  Safety holds over every run; terminal packets go out, their answers are heeded and the
  timers act to the tick; ticks alone close every stream in bounded
  time; a graceful end of stream loses no byte.
* **The endpoint as an object** (`ArqEndpoint`): a class whose methods update its fields as the program's do,
  each proved against the specification functions that the run theorems speak about.
* **Retransmission** (`ArqRto`, `ArqFront`, `ArqNack`): the adaptive timeout of section 2 of RFC 6298, the
  bounded selection of the oldest packets, the gap scan with its wrapping loops and the pacing of NACKs.
* **The transmit queue** (`Enums`, `Sequences`, `Mlq`, `StreamQueue`): a bitmask-indexed multi-level queue with a
  census refines one priority-then-FIFO list; DATA and RESEND of one number never wait together.
* **The tunnel encoding** (`Octets`, `Pieces`, `Base36`, `Base64`, `DnsName`, `DnsMessage`, `DomainTrie`,
  `Upstream`, `VpnFrame`, `TxtAnswers`, `DnsResponse`, `Downstream`): frames become labels of a TXT question
  and come back through the name parser, the domain trie and the decoder; packets become TXT answers with
  compressed names (section 4.1.4 of RFC 1035) and come back in any order.
* **Three stores** (`FragmentStore`, `CookieTracker`, `DnsCache`) that agree with simple specifications in terms
  of what arrived, what was tried and what was used, and when.

`dafny verify dfyconfig.toml` checks everything.

## How to read it

A stateful entity is a class; each method's postcondition equates the new state with a specification
function of the old one, and lemmas about those functions, over all runs, state what the code is for.
Times and durations are integers in nanoseconds and come in as parameters; goroutines are interleaved
steps, and one mutex region is one step unless a larger one is named.

The network assumptions of the transport are the two age bounds in `ArqTransport.Enabled`: a data copy is
processed at most 32768 numbers behind the next expected one, and an acknowledgement arrives at most 65536
sends after its chunk.  Both are shown to be needed.

## What turned out different from what one might expect

* The gap scan cuts the configured gap to 16 bits.  For a positive multiple of 65536 it asks for the number
  just before the next expected one (`ArqNack.CandidatesLieInTheGap`); the configuration keeps the gap far
  below that.
* A downstream frame that fits one answer is not recovered when that answer is duplicated
  (`TxtAnswers.SingleAnswerNeedsOneCopy`); frames of several answers are.
* The response builder reserves two bytes for every name but the first, and copies the name whole once the
  first answer starts behind offset 0x3FFF.  Several answers are then lost, unless the root owns them
  (`Downstream.DownstreamRoundTrip`, with a request in `Downstream.LongQuestionLosesPacket`).
* An allowed domain that extends the chosen one and ends the tunnel name takes the frame away
  (`Upstream.UpstreamRoundTrip`, with domains in `Upstream.SomeDomainShadows`).
* A reset of the peer that is marked without the forced close that follows it would go unnoticed by every
  later tick exactly if the acknowledgement of a half-close is overdue (`ArqTeardown.MarkedResetAlone`); the
  callers do both in one step.
* The cookie tracker takes a report at time zero for no report.  Over clocks that start later it agrees with
  full logs; which attempts disagree otherwise is `CookieTracker.AgreementExactly`.
* Several fragments of which one is empty are never put together (`FragmentStore.DeliveredIffNoneEmpty`).

## Model

| member | source | states |
|---|---|---|
| `ArqTransportSafety.InOrderDelivery` | internal/arq/arq.go:1542-1551 | In every run with loss, duplication and reordering, resets and writer breaks included, the bytes accepted by the local writer are a prefix of the bytes the peer read, despite 16-bit wrap. |
| `ArqTransportSafety.Conservation` | internal/arq/arq.go:987-1005 | While nothing was reset, closed for writing or broken, every sent chunk is taken out, in the receive buffer or in the send buffer, with its own bytes. |
| `ArqTransportSafety.AckSoundness` | internal/arq/arq.go:1438-1443 | A DATA_ACK on the network, the "old or wrapped" branch included, names a sent chunk that the receiver holds or has handed on. |
| `ArqTransportSafety.SendAheadBound` | internal/arq/arq.go:567-574 | Although the sender only counts unacknowledged chunks, it never gets more than window + limit + 1 ahead of the receiver. |
| `ArqTransportSafety.ReceiveBufferBound` | internal/arq/arq.go:1445-1465 | The receive buffer never exceeds the window by more than one, and the next expected number is never refused for window or capacity reasons. |
| `ArqTransportSafety.StepKeeps` | internal/arq/arq.go:1397-1498 | Every step of sender, receiver and network keeps the joint invariant from which the five results above follow. |
| `ArqTransportSafety.NothingPendingMeansAllTaken` | internal/arq/arq.go:1542-1551 | With both buffers drained and nothing given up, every sent chunk was taken out. |
| `ArqTransportSafety.OldIffBehind` | internal/arq/arq.go:1436-1443 | The 16-bit test tells old from new exactly while the copy is at most 32768 numbers behind. |
| `ArqTransportSafety.AckFreesItsOwnChunk` | internal/arq/arq.go:1711-1722 | An acknowledgement frees its own chunk exactly while it is at most 65536 sends old; a later one frees a newer chunk. |
| `ArqTransportSafety.StaleCopyIsMisfiled` | internal/arq/arq.go:1436-1459 | Exactly when a copy beyond the age bound is buffered, and that it is then filed under an index 65536 too high. |
| `ArqTransportSafety.AckedNumbersAreThoseOfIndices` | internal/arq/arq.go:1470-1487 | The numbers acknowledged on the wire for a batch are those of the acknowledged indices. |
| `ArqTransportSafety.TakeOut` | internal/arq/arq.go:1542-1550 | What the writer takes out is the next stretch of the sent chunks, in order. |
| `ArqTransportSafety.TakeOutStops` | internal/arq/arq.go:1542-1550 | The take-out loop stops only at a gap and removes nothing beyond it. |
| `ArqDelivery.AcceptedExactly` | internal/arq/arq.go:1434-1465 | A genuine copy is held afterwards exactly if it was handed on or buffered before, or lies inside the window with room for it; nothing else changes. |
| `ArqDelivery.AcknowledgedExactly` | internal/arq/arq.go:1434-1487 | The numbers acknowledged for a batch are, in order, exactly those of the copies whose chunk is held or was handed on once the batch is processed; a refused copy is not acknowledged. |
| `ArqDelivery.NewDataIsProgress` | internal/arq/arq.go:1397-1498 | An endpoint with a working writer stores a batch as specified and puts its inactivity timeout off exactly if the batch brought something new. |
| `ArqDelivery.NewestOfIsLatest` | internal/arq/arq.go:1483-1486 | Among acknowledged numbers less than half a turn apart the gap scan starts from the latest. |
| `ArqDelivery.DeliveryStaysPossible` | internal/arq/arq.go:987-1556 | From every state of every undisturbed run in which nothing waits behind the age bound, further steps write every chunk and acknowledge every chunk. |
| `ArqEndpoint.ClampedConfigurationsAreValid` | internal/config/client.go:424 | Any two peers clamped to windows of 1 to 6000 satisfy the bound that the 16-bit numbering needs. |
| `ArqEndpoint.ValidConfigurationsExactly` | internal/arq/arq.go:333-335 | For equal peers the numbering suffices exactly up to a configured window of 18204. |
| `ArqEndpoint.NewestIsLatest` | internal/arq/arq.go:1483-1486 | The "highest number" comparison of a batch picks the later index exactly while the two are less than half a turn apart. |
| `ArqEndpoint.Arq.constructor` | internal/arq/arq.go:333-376 | A new stream is open, empty and unflagged, with the clamped window and its limit. |
| `ArqEndpoint.Arq.SendRead` | internal/arq/arq.go:950-1005 | A turn of the read loop takes a chunk exactly with room in the send buffer and reading neither stopped nor closed; the chunk then takes the next number and enters the send buffer under it. |
| `ArqEndpoint.Arq.Announce` | internal/arq/arq.go:1303-1340 | Which arriving segments are counted and queued, which are refused, and when a refused one makes the writer side close. |
| `ArqEndpoint.Arq.ProcessReceivedDataBatch` | internal/arq/arq.go:1397-1498 | A batch is accepted segment by segment and taken off the count of queued segments; what it acknowledges is characterised by `ArqDelivery.AcknowledgedExactly`, and nothing is acknowledged for a writer that is gone. |
| `ArqEndpoint.Arq.TakeContiguous` | internal/arq/arq.go:1527-1556 | The contiguous front leaves the receive buffer, in order, and the write is marked pending exactly when there is one. |
| `ArqEndpoint.Arq.ReceiveAck` | internal/arq/arq.go:1702-1743 | An acknowledged chunk is forgotten, the end of stream re-examined and a drain settled. |
| `ArqEndpoint.Arq.Finalize` | internal/arq/arq.go:2441-2531 | The final close: queues wiped, waits and drains dropped, the state chosen, the owner told. |
| `ArqEndpoint.Arq.TryFinalizeRemoteEOF` | internal/arq/arq.go:882-902 | The stream closes with "close handshake completed" exactly when the drained, acknowledged and settled conditions hold. |
| `ArqEndpoint.Arq.MarkCloseWriteReceived` | internal/arq/arq.go:755-777 | The peer's CLOSE_WRITE stops reading, gives up outbound data and settles a pending drain. |
| `ArqEndpoint.Arq.EmitTerminal` | internal/arq/arq.go:1160-1238 | A terminal packet is flagged, waited for and sent only when it was not sent before and no reset happened. |
| `ArqEndpoint.Arq.Defer` | internal/arq/arq.go:1089-1116 | A deferred terminal packet stops reading and gets a drain deadline that only moves later. |
| `ArqEndpoint.Arq.SettleTerminalDrain` | internal/arq/arq.go:1119-1158 | A drain ends with its packet when the send buffer is empty, with a reset when time is up. |
| `ArqEndpoint.Arq.CloseWith` | internal/arq/arq.go:2539-2597 | The single close entry point does what the specification of its options says. |
| `ArqEndpoint.Arq.ReceiveControlAck` | internal/arq/arq.go:2039-2109 | Which acknowledgements of control packets are heeded and what each brings about, as `ArqAnswers` characterises it. |
| `ArqEndpoint.Arq.HandleTerminalState` | internal/arq/arq.go:2284-2361 | The terminal branch of the retransmit tick, case by case, and whether it ends the tick. |
| `ArqEndpoint.Arq.ExpirePacket` | internal/arq/arq.go:1969-1978 | An expired control packet closes or resets the stream. |
| `ArqEndpoint.Arq.ReadEOF` | internal/arq/arq.go:1043-1078 | The end of the local stream leads to CLOSE_READ after a drain. |
| `ArqEndpoint.Arq.WriteFailed` | internal/arq/arq.go:1642-1665 | A failed local write breaks the writer and sends CLOSE_WRITE. |
| `ArqEndpoint.Arq.WriterIdle` | internal/arq/arq.go:1554-1566 | With nothing to write, a peer that announced its end gets the writer half-closed and the close examined. |
| `ArqEndpoint.Arq.ResetByPeer` | internal/client/client.go:609-611 | The peer's RST is marked and the stream force-closed, as one step. |
| `ArqEndpoint.AfterDrainIsClose` | internal/arq/arq.go:1145-1157 | A settled drain calls the close entry point with exactly the option of its packet. |
| `ArqEndpoint.GoneWriterRefuses` | internal/arq/arq.go:1397-1432 | Data for a writer that is gone is counted and not stored; if the writer broke and the peer was not told, CLOSE_WRITE goes out. |
| `ArqCloseSafety.FlagsAreMonotone` | internal/arq/arq.go:697-785 | Over every run the sent, received and acknowledged flags never revert, closed is absorbing, and after a reset no terminal packet is first emitted. |
| `ArqCloseSafety.EmittedAtMostOnce` | internal/arq/arq.go:1160-1238 | CLOSE_READ, CLOSE_WRITE and RST are each first emitted at most once, each with its flag, and RST is the last. |
| `ArqCloseSafety.WaitsAreJustified` | internal/arq/arq.go:1183-1230 | A wait is always for a packet that was sent, and an open stream that sent RST waits for its acknowledgement. |
| `ArqCloseSafety.ClosedNotifiedOnce` | internal/arq/arq.go:2524-2526 | The owner is told of the close once, and exactly when the stream is closed. |
| `ArqCloseSafety.EventKeeps` | internal/arq/arq.go:697-2597 | Every event keeps the invariant of the close machine and only raises flags. |
| `ArqAnswers.Emitting` | internal/arq/arq.go:1160-1238 | A terminal packet goes out, flagged, tracked and waited for, exactly unless it was sent before or a reset passed. |
| `ArqAnswers.Deferring` | internal/arq/arq.go:1089-1116 | With data unacknowledged the packet waits for the drain with a deadline; otherwise it goes out at once. |
| `ArqAnswers.AnswerIsHeeded` | internal/arq/arq.go:1980-2109 | The answer to a terminal packet that is tracked or waited for raises its flag and leaves neither a wait for the packet nor a tracked copy; after the answer to RST the stream is closed. |
| `ArqAnswers.AnsweredForGood` | internal/arq/arq.go:1980-2109 | Over runs: once that answer was received, no later state waits for the packet, so no later tick finds it overdue. |
| `ArqAnswers.StrayAnswerIsIgnored` | internal/arq/arq.go:2039-2070 | An answer to a terminal packet that is neither tracked nor waited for changes nothing. |
| `ArqAnswers.DrainEnds` | internal/arq/arq.go:1119-1158 | A drain stays as it is before its deadline with data left, and otherwise ends with its packet on an empty send buffer and with RST behind the deadline. |
| `ArqAnswers.LastAckEndsDrain` | internal/arq/arq.go:1730-1740 | The acknowledgement of the last chunk sends the packet that waited for it. |
| `ArqAnswers.CloseActs` | internal/arq/arq.go:2539-2597 | What each combination of close options does to a live endpoint: closed, drained first, sent at once, or held back because it was sent before. |
| `ArqAnswers.EndOfStreamIsAnnounced` | internal/arq/arq.go:1043-1078 | The end of the local stream stops reading and sends CLOSE_READ, after the drain when something is unacknowledged. |
| `ArqAnswers.BrokenWriterIsReported` | internal/arq/arq.go:1642-1665 | A broken writer drops what was received for it and sends CLOSE_WRITE. |
| `ArqAnswers.PeerCloseWriteEndsSending` | internal/arq/arq.go:755-777 | The peer's CLOSE_WRITE is noted, stops reading, gives up the send buffer and sends the packet that waited for a drain. |
| `ArqAnswers.PeerResetCloses` | internal/client/client.go:609-611 | The peer's RST closes the stream in state Reset with both buffers empty. |
| `ArqAnswers.BothEndedCloses` | internal/arq/arq.go:882-902 | With both directions at an end, the next look at the writer, the peer's CLOSE_READ or an acknowledgement closes the stream with "close handshake completed". |
| `ArqAnswers.LastAnswerCloses` | internal/arq/arq.go:2000-2037 | So does the answer to CLOSE_READ when it is the last thing that was missing. |
| `ArqAnswers.DisconnectedCloses` | internal/arq/arq.go:809-828 | A client whose local side is gone closes once both half-closes are answered and nothing is left to send or to write. |
| `ArqAnswers.AckIsProgress` | internal/arq/arq.go:1702-1743 | The acknowledgement of a tracked chunk puts the inactivity timeout off. |
| `ArqAnswers.AnswerIsProgress` | internal/arq/arq.go:2039-2109 | So does the expected answer to a terminal packet. |
| `ArqAnswers.PeerEndReachesWriter` | internal/arq/arq.go:1554-1566 | The peer's end of stream half-closes the local writer once nothing received is left to write, and not before. |
| `ArqAnswers.StatesFollow` | internal/arq/arq.go:697-785 | The state shown while closing follows the half-closes seen so far, a reset above all and a drain in between. |
| `ArqTimers.NothingBeforeAlarm` | internal/arq/arq.go:2284-2361 | Before the earliest of its deadlines a tick leaves the endpoint as it is. |
| `ArqTimers.AlarmGoesOff` | internal/arq/arq.go:2284-2361 | Behind it a terminal packet goes out: CLOSE_WRITE when two seconds of grace are over, RST otherwise. |
| `ArqTimers.RstWaitsItsTime` | internal/arq/arq.go:2300-2315 | An unanswered RST closes the stream at the first tick behind its deadline and not before. |
| `ArqTimers.AlarmToTheTick` | internal/arq/arq.go:2284-2361 | Over a run of ticks the endpoint stays as it is up to the alarm and acts at the first tick behind it. |
| `ArqTimers.ExpiryActs` | internal/arq/arq.go:1969-1978 | A packet out of time or retries resets the stream, or ends it when that was its purpose. |
| `ArqTeardown.TeardownTerminates` | internal/arq/arq.go:2284-2361 | From every reachable non-virtual state, retransmit ticks alone close the stream within one drain, one inactivity period, two acknowledgement waits and three tick gaps. |
| `ArqTeardown.DueNeverRises` | internal/arq/arq.go:2284-2361 | No tick moves the latest possible closing time later. |
| `ArqTeardown.DueBound` | internal/arq/arq.go:1089-1238 | The closing time is bounded by the sum of the timeouts. |
| `ArqTeardown.MarkedResetAlone` | internal/arq/arq.go:2300-2330 | If the peer's reset were only marked, ticks would close the stream exactly unless the acknowledgement of a half-close is overdue at the first tick (the second, when the first still gives up a drain), and then none ever would; with the forced close it is closed at once. |
| `ArqTeardown.SomeMarkedResetIsStuck` | internal/arq/arq.go:2300-2330 | An endpoint with an overdue half-close to which that happens. |
| `ArqFrame.EventFrame` | internal/arq/arq.go:697-2597 | What close events leave alone: data is given up only with the flag that says so, CLOSE_READ is announced only over an empty send buffer, and the handshake close happens only with nothing left to hand over. |
| `ArqFrame.DataAckedFrame` | internal/arq/arq.go:1730-1740 | The close machine inside an acknowledgement keeps the same frame. |
| `ArqEof.GracefulEofLosesNothing` | internal/arq/arq.go:882-902 | Without RST or CLOSE_WRITE, an unbroken peer that closed with "close handshake completed" wrote every byte that was sent. |
| `ArqEof.HalfCloseLosesNothing` | internal/arq/arq.go:1554-1564 | The same holds as soon as the peer half-closes its writer. |
| `ArqEof.AnnouncedMeansArrived` | internal/arq/arq.go:1118-1158 | While CLOSE_READ is on the network nothing more is read, and everything sent has arrived at the open peer. |
| `ArqEof.StepKeeps` | internal/arq/arq.go:882-1566 | Every step of both endpoints and of the network keeps the joint invariant of data and close machines. |
| `ArqEof.ReadIsSend` | internal/arq/arq.go:950-1005 | The endpoint may read exactly when the run model may send, and what it does with the chunk is that step. |
| `ArqEof.TakeOutIsTake` | internal/arq/arq.go:1542-1556 | What the endpoint's writer loop takes out is the taking step of the run theorems. |
| `ArqEof.BatchIsProcess` | internal/arq/arq.go:1397-1498 | A received batch leaves the endpoint as the processing step of the run theorems does, and every DATA_ACK it emits is one that step puts on the network. |
| `ArqEofExample.GracefulRunExists` | internal/arq/arq.go:882-902 | The graceful end is reachable: some run sends, delivers and acknowledges a chunk and completes the close handshake without a reset. |
| `ArqRto.EstimateStaysInSampleRange` | internal/arq/arq.go:521-536 | Whatever the samples, the smoothed time stays within the range of the clamped samples and the base timeout within its limits. |
| `ArqRto.EstimatorBounds` | internal/arq/arq.go:521-536 | After any sample sequence the smoothed time and the base lie in [minRTO, maxRTO], the variation in [0, maxRTO]. |
| `ArqRto.SteadyPathSettles` | internal/arq/arq.go:521-536 | With a constant round-trip time the variation dies out and the base timeout becomes that time. |
| `ArqRto.EstimatorFollowsTheStandard` | internal/arq/arq.go:521-536 | For every sample sequence SRTT and RTTVAR stay within 8 ns and 12 ns of those of section 2 of RFC 6298 computed without rounding. |
| `ArqRto.BaseFollowsTheStandard` | internal/arq/arq.go:521-536 | The base timeout is the standard's SRTT + 4 RTTVAR cut to the limits, within 56 ns. |
| `ArqRto.TimeoutsStayInBounds` | internal/arq/arq.go:642-648 | In every run every packet's own timeout stays in [rto, maxRTO]. |
| `ArqRto.TimeoutNeverShrinks` | internal/arq/arq.go:2194-2205 | While a packet is unacknowledged its timeout never shrinks. |
| `ArqRto.NoSampleFromRetransmission` | internal/arq/arq.go:1711-1716 | No round-trip sample comes from a packet that was put on the queue a second time. |
| `ArqRto.RetriesAreBoundedByAge` | internal/arq/arq.go:2146-2160 | A packet is retransmitted at most once more than its age holds full timeouts. |
| `ArqRto.NackResendsAreSpaced` | internal/arq/arq.go:1757-1787 | Resends asked for by NACKs of one packet keep the repeat interval. |
| `ArqRto.EstimatorOfSamples` | internal/arq/arq.go:658-662 | In every run the estimator is that of the samples taken so far, in their order. |
| `ArqRto.SampledExactly` | internal/arq/arq.go:1702-1732 | An acknowledgement ends the timer and adds a sample exactly if the packet was neither retransmitted nor sent again for a NACK and has left the queue; the sample is the time since then. |
| `ArqRto.RoundTripIsMeasured` | internal/arq/arq.go:1702-1732 | A packet that is sent, leaves the queue and is acknowledged gives the time between the last two as a sample. |
| `ArqRto.HeededExactly` | internal/arq/arq.go:1745-1789 | A NACK that the queue takes is heeded exactly if none was heeded within the repeat interval. |
| `ArqRto.TimeoutsFollowTheEstimator` | internal/arq/arq.go:642-648 | A new packet waits for the estimator's base timeout as it stands, and a retransmitted one at least as long. |
| `ArqRto.RetransmissionRestartsTimer` | internal/arq/arq.go:2194-2205 | Only a packet that left the queue and waited its whole timeout is retransmitted; it is counted, waits for its turn again and its timer restarts. |
| `ArqRto.BackOffIsExponential` | internal/arq/arq.go:2202-2203 | After n retransmissions a packet waits at least 1.34 to the n times the initial timeout, or the longest timeout. |
| `ArqFront.PriorityKinds` | internal/arq/arq.go:2213-2282 | Exactly the computed budget of jobs is marked, and every marked job is at least as far behind as every unmarked one. |
| `ArqFront.BudgetExactly` | internal/arq/arq.go:2213-2235 | The budget is a tenth of the window between 1 and 64, and at most the number of jobs. |
| `ArqFront.InsertBest` | internal/arq/arq.go:2236-2263 | One bounded insertion keeps the best jobs seen so far, furthest first. |
| `ArqFront.RankDecides` | internal/arq/arq.go:2213-2282 | For distinct numbers a job is marked exactly when fewer than the budget are further behind, whatever the order of the jobs. |
| `ArqNack.Scan` | internal/arq/arq.go:1791-1846 | The wrapping loops terminate and list the specified candidates. |
| `ArqNack.CandidatesAreMissingOnce` | internal/arq/arq.go:1809-1844 | Every candidate is absent from the receive buffer and listed once. |
| `ArqNack.LowestMissingIsListed` | internal/arq/arq.go:1809-1830 | The lowest missing number is always a candidate. |
| `ArqNack.CandidatesAreComplete` | internal/arq/arq.go:1809-1830 | A near scan lists exactly the gaps; a far one at most max(1, ceil(gap/20)) + 1 numbers. |
| `ArqNack.FarScanExactly` | internal/arq/arq.go:1817-1844 | A far scan lists exactly the lowest ceil(gap/20) missing numbers and the highest missing number within reach of the gap. |
| `ArqNack.CandidatesLieInTheGap` | internal/arq/arq.go:1832-1844 | Every candidate lies between the next expected and the newest number exactly unless the configured gap is a multiple of 65536. |
| `ArqNack.MissingExactly` | internal/arq/arq.go:1809-1815 | The list of missing numbers is sound, complete and ordered by distance. |
| `ArqNack.NackPacer.Consider` | internal/arq/arq.go:1863-1881 | The pacing test for one number on the object; when it lets a NACK through is `ArqNack.AskedExactly`. |
| `ArqNack.NackPacer.AskForAll` | internal/arq/arq.go:1848-1861 | The sending loop on the object: the NACKs sent and the state left are those of the specification that `ArqNack.ListedExactly` and `ArqNack.AskedExactly` characterise. |
| `ArqNack.NacksAreSpaced` | internal/arq/arq.go:1863-1898 | NACKs for one number keep the initial delay and the repeat interval until the number arrives or the queues are cleared. |
| `ArqNack.AskedExactly` | internal/arq/arq.go:1863-1887 | Over every run, an Ask that the queue takes adds its time if and only if the initial delay is zero or has passed since the number was first seen, and the number was not asked for since or at least one interval ago. |
| `ArqNack.ListedExactly` | internal/arq/arq.go:1848-1861 | Of candidates listed once, exactly those whose time it is, in that sense, and that the queue takes are asked for. |
| `Enums.KeyIdentifies` | internal/enums/packet_identity.go:13-91 | Two packets share a key exactly when they agree in stream, type and whatever identifies packets of that type. |
| `Enums.AckTablesInvert` | internal/enums/packet_ack.go:59-74 | The reverse acknowledgement table inverts the forward one: no two packets share an acknowledgement. |
| `Enums.AckTable` | internal/enums/packet_ack.go:12-33 | The acknowledgement of every control packet by type number. |
| `Mlq.MultiLevelQueue.constructor` | internal/mlq/mlq.go:37-45 | A new queue is the empty list. |
| `Mlq.MultiLevelQueue.Push` | internal/mlq/mlq.go:48-71 | Pushing inserts behind its level into the priority-then-FIFO list, exactly when no queued item has the key. |
| `Mlq.MultiLevelQueue.Pop` | internal/mlq/mlq.go:104-137 | Popping takes the head of the list. |
| `Mlq.MultiLevelQueue.Peek` | internal/mlq/mlq.go:82-102 | Peeking returns the head of the list. |
| `Mlq.MultiLevelQueue.Get` | internal/mlq/mlq.go:152-158 | The census finds the item of a key exactly when the list has one. |
| `Mlq.MultiLevelQueue.RemoveByKey` | internal/mlq/mlq.go:162-204 | Removal takes out the first entry with the key and nothing else. |
| `Mlq.MultiLevelQueue.PopIf` | internal/mlq/mlq.go:265-301 | The head of one level is taken exactly when it satisfies the predicate. |
| `Mlq.MultiLevelQueue.PopAnyIf` | internal/mlq/mlq.go:305-354 | The first entry of the allowed levels that satisfies the predicate is taken. |
| `Mlq.MultiLevelQueue.Clear` | internal/mlq/mlq.go:235-251 | Clearing hands every item to the callback once, in list order, and empties the list. |
| `Mlq.MultiLevelQueue.Size` | internal/mlq/mlq.go:218-231 | The census size and the fast counter are the length of the list. |
| `Mlq.MultiLevelQueue.HighestPriority` | internal/mlq/mlq.go:255-262 | The lowest mask bit is the level of the head. |
| `Mlq.FlatOrdered` | internal/mlq/mlq.go:104-137 | The list is ordered by level, so the head is the oldest of the most urgent items. |
| `Mlq.CensusSize` | internal/mlq/mlq.go:218-223 | Under the queue invariant the census has as many keys as the list has items. |
| `Mlq.AgreesAfterRemoval` | internal/mlq/mlq.go:117-133 | Taking an item out keeps mask, census and counter in step with the levels. |
| `StreamQueue.StreamClient.PushTXPacket` | internal/client/stream_client.go:191-258 | Which packets are refused and what the queue is afterwards; a RESEND takes the place of a queued DATA packet. |
| `StreamQueue.PushKeepsExclusive` | internal/client/stream_client.go:217-250 | Whatever is pushed, no number and fragment is queued both as DATA and as RESEND. |
| `StreamQueue.RefusedExactly` | internal/client/stream_client.go:191-236 | A packet is refused exactly when the queue holds the same packet, or the repetition of a DATA packet, or is a ping on a queue of more than 500. |
| `StreamQueue.PushContents` | internal/client/stream_client.go:217-258 | An accepted packet is queued, a RESEND drives out its DATA packet, and nothing else changes. |
| `StreamQueue.PushInOrder` | internal/client/stream_client.go:238-258 | An accepted packet stands behind everything as urgent and in front of everything less urgent, and the others keep their order. |
| `StreamQueue.RemovalContents` | internal/client/stream_client.go:288-308 | An acknowledgement takes out exactly the unfragmented DATA and RESEND packets of its number. |
| `StreamQueue.Urgency` | internal/enums/packet_priority.go:20-90 | An explicit priority counts; otherwise answers and handshakes come before repetitions, then data, half-closes and pings. |
| `StreamQueue.StreamClient.PopNextTXPacket` | internal/client/stream_client.go:261-271 | The most urgent, oldest packet is taken. |
| `StreamQueue.StreamClient.RemoveQueuedData` | internal/client/stream_client.go:288-308 | Afterwards neither DATA nor RESEND of the number is queued, and the answer says whether one was. |
| `StreamQueue.StreamClient.RemoveQueuedDataNack` | internal/client/stream_client.go:310-328 | A queued NACK of the number is taken out. |
| `StreamQueue.StreamIds.NewStreamID` | internal/client/stream_client.go:79-111 | The first free identifier on the circle 1..65535 is chosen; refusal means that none is free. |
| `Base36.RoundTrip` | internal/basecodec/lowerbase36.go:92-134 | Decoding any case change of an encoding gives back the data, and the lengths invert. |
| `Base36.EncodedLength` | internal/basecodec/lowerbase36.go:31-38 | The encoding has exactly the computed length. |
| `Base36.BlocksFit` | internal/basecodec/lowerbase36.go:26-29 | Every block size fits its number of characters and no smaller one, within 64 bits. |
| `Base36.EncodeTo` | internal/basecodec/lowerbase36.go:40-77 | The array loops write exactly the specified text and leave the rest of the buffer alone. |
| `Base36.WriteBlock` | internal/basecodec/lowerbase36.go:72-77 | The digit loop writes the digits of the value, most significant first. |
| `Base36.ReadBlock` | internal/basecodec/lowerbase36.go:124-134 | A block's value is computed without leaving 64 bits; a foreign character refuses it. |
| `Base36.DecodeText` | internal/basecodec/lowerbase36.go:92-166 | Both decoders compute the specified result. |
| `Base36.EncodeInjective` | internal/basecodec/lowerbase36.go:79-90 | Different data have different encodings. |
| `Base36.DecodeFixesLength` | internal/basecodec/lowerbase36.go:198-231 | A text that decodes to some data is as long as the encoding of the data. |
| `DnsName.ParseName` | internal/dnsparser/parser.go:249-347 | The parsing loop with its pointer budget computes the specified labels, in lower case, and the end of the name. |
| `DnsName.NameRoundTrip` | internal/dnsparser/parser.go:249-347 | An uncompressed name parses back to its labels, whatever the case of its letters. |
| `DnsName.EncodeStrict` | internal/dnsparser/transport.go:745-773 | The scan encodes exactly the names of proper labels within 253 characters. |
| `DnsName.EncodedNameParses` | internal/dnsparser/transport.go:745-773 | An encoded name takes at most 255 bytes and parses back to its lower-case text. |
| `DnsName.JoinSplit` | internal/dnsparser/transport.go:745-773 | Splitting at dots inverts joining with dots. |
| `DomainTrie.FindAllowed` | internal/domainmatcher/matcher.go:213-252 | The walk from the right computes the specified match. |
| `DomainTrie.LongestAllowedDomain` | internal/domainmatcher/matcher.go:170-252 | The domain found is allowed, ends the name at a label, and is the longest that does; none is missed. |
| `DomainTrie.BuildHolds` | internal/domainmatcher/matcher.go:170-200 | The trie holds exactly the domains it was built from, each at its own path. |
| `DomainTrie.SuffixIsPathPrefix` | internal/domainmatcher/matcher.go:213-252 | Matching label by label from the right is matching as a label-aligned suffix. |
| `DnsMessage.BuildQuestionPacket` | internal/dnsparser/transport.go:88-142 | The offset loops write exactly the specified question packet. |
| `Upstream.QuestionBytes` | internal/dnsparser/transport.go:88-142 | The bytes of a built question: identifier, flags of a recursive query, counts, name, type and class, and last an OPT record that offers the given size. |
| `Upstream.BuiltExactly` | internal/dnsparser/transport.go:88-98 | A question is refused exactly without a domain or when the tunnel name exceeds 253 characters. |
| `DnsMessage.ParseQuestions` | internal/dnsparser/parser.go:179-205 | The question loop computes the specified questions. |
| `DnsMessage.HeaderParses` | internal/dnsparser/parser.go:159-177 | Reading a header gives back its six words. |
| `DnsMessage.LikelyExactly` | internal/dnsparser/response.go:146-166 | In bytes, which headers are taken for requests: queries of an operation code up to 6 with 1 to 64 questions and at most 256 records a section. |
| `DnsMessage.MaxEncodedChars` | internal/dnsparser/transport.go:421-440 | The binary search finds exactly how many characters fit beside a domain. |
| `Upstream.UpstreamRoundTrip` | internal/dnsparser/transport.go:88-142 | The server takes the frame in, whatever the case of the name's letters, if and only if no other allowed domain shadows the chosen one, and then under the chosen domain; a shadowed frame is not recovered under any. |
| `Upstream.SomeDomainShadows` | internal/domainmatcher/matcher.go:213-252 | A frame and two allowed domains for which that happens. |
| `Upstream.QuestionParses` | internal/dnsparser/parser.go:85-205 | A built question parses to the tunnel name, its type and class. |
| `Upstream.DecisionOnTunnelName` | internal/domainmatcher/matcher.go:70-135 | On a tunnel name a matcher that finds the longest allowed domain decides for the text under the chosen domain, or, when that is shadowed, under another domain and with fewer characters. |
| `Upstream.ProcessedExactly` | internal/domainmatcher/matcher.go:70-135 | A request is processed exactly when it asks for TXT, an allowed domain ends its name and enough characters stand before the longest such domain; those, without dots, are what is processed. |
| `Upstream.TunnelNameOnWire` | internal/dnsparser/transport.go:104-128 | The labels written are the tunnel name in wire form, within 255 bytes when the length check passes. |
| `Upstream.StripLabelDots` | internal/domainmatcher/matcher.go:254-267 | The loop removes exactly the dots. |
| `VpnFrame.FrameRoundTrip` | internal/vpnproto/parser.go:112-192 | Parsing inverts building, exactly for packets whose fragment number is below the total and whose absent fields are zero. |
| `VpnFrame.HeaderLength` | internal/vpnproto/builder.go:88-108 | The header has the size that the packet type gives it. |
| `VpnFrame.HeaderSizes` | internal/vpnproto/parser.go:219-330 | The header size of every packet type by number. |
| `VpnFrame.DataFrameBytes` | internal/vpnproto/builder.go:24-75 | The frame of a data packet, byte by byte. |
| `VpnFrame.WrongCheckByteIsRefused` | internal/vpnproto/parser.go:184-190 | A frame with any other check byte is refused. |
| `VpnFrame.CutHeaderIsRefused` | internal/vpnproto/parser.go:112-182 | A frame that ends within its header is refused. |
| `VpnFrame.ComputeCheckByte` | internal/vpnproto/parser.go:194-201 | The loop computes the specified check byte, in 8-bit arithmetic. |
| `Base64.RoundTrip` | internal/basecodec/rawbase64.go:14-57 | Decoding inverts encoding. |
| `Base64.EncodedLength` | internal/basecodec/rawbase64.go:24-26 | The encoding has exactly the computed length. |
| `TxtAnswers.BuildChunks` | internal/dnsparser/transport.go:478-554 | The cutting loops produce exactly the specified chunks, and refuse frames of more than 255. |
| `TxtAnswers.ChunksFit` | internal/dnsparser/transport.go:478-590 | No answer exceeds one character string of 255 bytes, raw or under base 64, and a frame takes several answers exactly when it exceeds one. |
| `TxtAnswers.AnswersInAnyOrder` | internal/dnsparser/transport.go:656-743 | Several answers in any order and with any number of copies give back the packet. |
| `TxtAnswers.RecoveredExactly` | internal/dnsparser/transport.go:656-743 | Of two or more answers of one frame the packet comes out exactly when each answer of the frame is among them, and nothing otherwise. |
| `TxtAnswers.SingleAnswerNeedsOneCopy` | internal/dnsparser/transport.go:656-667 | A frame in one answer comes back exactly when that answer arrives once. |
| `TxtAnswers.AssembleAnswers` | internal/dnsparser/transport.go:656-743 | The loops over the chunk slots compute the specified assembly. |
| `DnsResponse.ParseRecords` | internal/dnsparser/parser.go:207-247 | The record loop computes the specified records. |
| `DnsResponse.SkipName` | internal/dnsparser/response.go:356-381 | The skipping loop computes the specified end of a name. |
| `DnsResponse.SkipAgreesWithParse` | internal/dnsparser/response.go:356-381 | Skipping a name ends where parsing it ends. |
| `DnsResponse.OptOfParsed` | internal/dnsparser/response.go:228-280 | When a request's records parse, the bytes copied are those of the first OPT record of its additional section, and none when there is none. |
| `DnsResponse.BuildResponsePacket` | internal/dnsparser/transport.go:193-253 | For any request the builder writes header, question, answers and OPT record into the room it reserved, cut where they do not fit and zero where they fall short; it runs out of range exactly when the fixed fields of an answer do not fit. What the header answers is `Downstream.ResponseAnswersRequest`. |
| `DnsResponse.AllAnswersParse` | internal/dnsparser/transport.go:233-247 | Wherever they start, all answers parse, each under the same name: spelled out once and pointed to afterwards, or spelled out each time behind the reach of a pointer. |
| `DnsResponse.RoomSuffices` | internal/dnsparser/transport.go:209-217 | The room reserved for the answers is what they take exactly for at most one answer or a first answer at offset 0x3FFF at most, and is enough beyond that only under the root name. |
| `DnsResponse.CutAnswersFail` | internal/dnsparser/transport.go:230-247 | Answers cut inside the payload of the last one do not parse. |
| `Downstream.ExtractTxtBytes` | internal/dnsparser/transport.go:611-654 | The two passes over a TXT record compute the specified bytes. |
| `Downstream.AllStringsAreJoined` | internal/dnsparser/transport.go:611-654 | A TXT record of any number of character strings gives their joined contents, and a last one that claims too much is cut. |
| `Downstream.ResponseAnswersRequest` | internal/dnsparser/response.go:168-205 | Every response built carries the request's identifier, QR and RA, the request's operation code, RD and CD, code 0, its question count and question bytes, and the counts of what follows. |
| `Downstream.AnswersCarryTheName` | internal/dnsparser/transport.go:193-247 | Whenever the names fit, the answers of the parsed response are owned by the name of the call, up to case and a final dot, each with its chunk. |
| `Downstream.OptComesLast` | internal/dnsparser/transport.go:248-252 | The OPT record copied from the request stands right behind the answers. |
| `Downstream.DownstreamRoundTrip` | internal/dnsparser/transport.go:255-370 | The response built for a plain single-question request of any length gives back the packet if and only if it takes one answer, or its question ends at offset 0x3FFF at most, or the answers are owned by the root; and then in any order and number of copies when there are several answers. |
| `Downstream.ResponseLost` | internal/dnsparser/transport.go:193-253 | Without room for the names of all answers the builder runs out of range or builds a response that does not parse. |
| `Downstream.LongQuestionLosesPacket` | internal/dnsparser/transport.go:209-240 | A request under a name of 256 full labels, and a packet of 300 bytes that its response loses. |
| `FragmentStore.FragmentPayload` | internal/client/client_utils.go:41-54 | The slicing loop yields the specified fragments. |
| `FragmentStore.FragmentsJoin` | internal/client/client_utils.go:41-54 | The fragments join to the payload, none exceeds the limit, and none of several is empty. |
| `FragmentStore.Store.Collect` | internal/fragmentstore/store.go:44-130 | Collecting a fragment does what the specification says to items, completions and conflicts, and answers accordingly. |
| `FragmentStore.Store.Purge` | internal/fragmentstore/store.go:180-202 | Purging drops exactly the items and completions whose time is over. |
| `FragmentStore.Store.Remove` | internal/fragmentstore/store.go:151-158 | Removing a key forgets both its fragments and its completion, and no other key. |
| `FragmentStore.PurgedExactly` | internal/fragmentstore/store.go:180-202 | An assembly survives a purge exactly if it is younger than retention, a completion exactly if it is not over, and neither without retention. |
| `FragmentStore.ForeignNumberIsIgnored` | internal/fragmentstore/store.go:61-63 | A number that is not below the total changes nothing. |
| `FragmentStore.ConflictsAreCounted` | internal/fragmentstore/store.go:84-92 | A fragment that names another total ends the assembly it contradicts and is counted, and no other call counts one. |
| `FragmentStore.OthersStay` | internal/fragmentstore/store.go:44-130 | A call about one key leaves the assemblies of all others alone, except for those that are too old. |
| `FragmentStore.StaleIsForgotten` | internal/fragmentstore/store.go:68-71 | In every run, behind every fragment taken in, no assembly is older than retention and one second and no completion is over for a second. |
| `FragmentStore.DeliveredExactlyOnce` | internal/fragmentstore/store.go:44-130 | Within retention of its start, fragments in any order and number deliver the payload, an empty one included, at the call that supplies the last missing one, and "completed" behind it. |
| `FragmentStore.NothingIsDeliveredTwice` | internal/fragmentstore/store.go:73-76 | After any delivery of a run, every fragment of the key is answered with "completed" until the retention of that delivery is over. |
| `FragmentStore.CompletedUntilExpiry` | internal/fragmentstore/store.go:73-76 | From one delivery to the next, a fragment is answered with "completed" if and only if it comes before the retention of the first is over. |
| `FragmentStore.DeliveredIffNoneEmpty` | internal/fragmentstore/store.go:94-130 | Several fragments that all arrive within retention are put together if and only if none of them is empty, whatever the 8-bit counter does. |
| `CookieTracker.Tracker.Note` | internal/udpserver/invalid_cookie_tracker.go:40-75 | One attempt changes one record and reports as specified. |
| `CookieTracker.Tracker.Cleanup` | internal/udpserver/invalid_cookie_tracker.go:77-95 | Clean-up prunes every record and drops those without attempts and with an old report. |
| `CookieTracker.PruneAttemptTimes` | internal/udpserver/invalid_cookie_tracker.go:97-113 | The pruning loop drops exactly the leading attempts before the cutoff. |
| `CookieTracker.BoundedEqualsFullHistory` | internal/udpserver/invalid_cookie_tracker.go:40-125 | In every run over all keys without a report at time zero, the bounded tracker answers every attempt as one with full logs would, wherever clean-ups come in between, and its reports are those of the full log. |
| `CookieTracker.EmissionsAreSpaced` | internal/udpserver/invalid_cookie_tracker.go:66-74 | In such a run, two calls for one key that report are at least one window apart. |
| `CookieTracker.AgreementExactly` | internal/udpserver/invalid_cookie_tracker.go:66-74 | For every non-decreasing clock, all answers of a run agree with the full logs if and only if no attempt comes within a window of a report at time zero with enough attempts for another. |
| `CookieTracker.SomeReportIsForgotten` | internal/udpserver/invalid_cookie_tracker.go:66-74 | A run in which that happens. |
| `CookieTracker.ReportedExactly` | internal/udpserver/invalid_cookie_tracker.go:40-75 | In terms of the calls alone: an attempt is reported exactly when the threshold of attempts of its key falls into the window that ends now and none was reported within it. |
| `CookieTracker.CleanUpLeavesTheRecent` | internal/udpserver/invalid_cookie_tracker.go:77-95 | After a clean-up exactly the keys tried within the last window have a record. |
| `DnsCache.Store.constructor` | internal/dnscache/store.go:73-93 | A new cache is empty and has its defaults. |
| `DnsCache.Store.LookupOrCreatePending` | internal/dnscache/store.go:129-185 | A lookup answers with the bytes last set exactly if a ready entry is held and less than the lifetime has passed since the key was last used; otherwise it answers pending, and asks for a dispatch exactly for a new, an expired or an overdue pending entry. Other keys' entries are kept or evicted, never changed. |
| `DnsCache.Store.GetReady` | internal/dnscache/store.go:187-217 | A response is returned exactly if a ready entry is held and less than the lifetime has passed since the key was last used; it is the one last set, with the query's identifier and RD and CD bits. |
| `DnsCache.Store.SetReady` | internal/dnscache/store.go:219-268 | The response is stored without its identifier under its key, which is then held, ready and the most recently used. |
| `DnsCache.Store.ClearPending` | internal/dnscache/store.go:300-318 | Exactly the ready entries stay, and nothing is counted as pending. |
| `DnsCache.Store.EvictIfNeeded` | internal/dnscache/store.go:330-357 | The loop removes from the front until the shard is within its limit, and keeps the pending count right. |
| `DnsCache.EvictsLeastRecentlyUsed` | internal/dnscache/store.go:330-342 | Every key that goes was used before every key that stays. |
| `DnsCache.JustPlacedStays` | internal/dnscache/store.go:172-185 | The key just inserted survives its own eviction, and the shard is within its limit. |
| `DnsCache.LookupKeepsRecord` | internal/dnscache/store.go:129-185 | A lookup keeps the question, the creation time and the bytes of an entry that is alive, and makes a new record otherwise. |
| `DnsCache.EvictsNoMoreThanNeeded` | internal/dnscache/store.go:330-342 | An eviction leaves as many entries as the limit allows. |
| `DnsCache.PatchedExactly` | internal/dnscache/store.go:109-127 | Only the identifier and the flag bits 0x0110 come from the query; everything else is the stored response. |
| `DnsCache.PatchedInShort` | internal/dnscache/store.go:109-127 | What is too short for flags gets the identifier alone, and a query too short for one leaves it zero. |
| `DnsCache.SizeIsLength` | internal/dnscache/store.go:330-342 | Map and list of a shard have the same number of keys. |
| `DnsCache.PendingUpdate` | internal/dnscache/store.go:344-357 | The number of pending entries over all shards changes by what changes in one shard. |

## Left out

- Sockets, goroutines, channels, timers and buffer pools: time is a parameter, goroutines are interleaved steps, and a full channel is loss.
- Races between adjacent lock regions: a read in progress when reading is stopped, or a change between the writer's empty check and its look at the peer's end of stream; the steps named above are taken whole.
- Reasons of a close other than "close handshake completed": deferred and timeout reasons are abbreviated, as no behaviour depends on them.
- ArqRto.TimeoutNeverShrinks: the growth factor 1.35 is integer arithmetic; rounding of 64-bit floating point is not modelled.
- Overflow of 64-bit durations and of the 32-bit fast size counter.
- Control packets' own retransmission timers and sampling: the close machine keeps which control packets are tracked, and their expiry is a possible outcome of a tick.
- ArqEof.GracefulEofLosesNothing: callers close for reading after a drain or with an empty send buffer, as every caller in the program does.
- Compression and encryption: packets travel with compression off and frames as they are.
- Base36.DecodeText: one method stands for the byte and the string decoder, whose loops are the same; that they agree is therefore not a separate statement.
- Base64.RoundTrip: the library also skips line breaks inside the text, which no encoder produces.
- DomainTrie.LongestAllowedDomain: the trie is a value, so sharing of nodes is not captured; domains are taken normalized and without empty labels, so sorting and trimming of the configured list are not modelled.
- DnsName.EncodeStrict: names come without surrounding space; trimming of white space is not modelled.
- Downstream.DownstreamRoundTrip: the request spells its question name out and owns its OPT record by the root, as section 6.1.2 of RFC 6891 demands. The builder copies question and OPT record unchanged; a pointer in either keeps its offset, and whether it still leads to the same name is not modelled. Name equality is ASCII case folding.
- TxtAnswers.BuildChunks: for frames that the program's own parser refuses the builder falls back to one oversized answer; only frames it accepts are modelled.
- Mlq.MultiLevelQueue.Pop: key extraction agrees with the key given to Push; queues popped without a key extractor and the compaction of slice storage are not modelled.
- FragmentStore.DeliveredExactlyOnce: the arrivals up to the delivery take less than the retention time; an assembly that a purge interrupts starts anew and is not followed.
- CookieTracker.BoundedEqualsFullHistory: window and threshold are fixed, and times do not decrease.
- DnsCache.Store.GetReady: the cache file and its dirty counter are not modelled, and the hash that picks a shard is a parameter.
- The per-lane order of deferred session work: a lane's worker mapping is dropped while later work may still be queued, so lane order is not an invariant.
- The client dispatcher loop: its ping-skip branch keeps an earlier selection, so the packet popped need not be the one peeked at.
- Balancer scoring, resolver health, MTU probing, proxy counters, SOCKS handling, configuration loading and logging: input and output, or only easy members.
