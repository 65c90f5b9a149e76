# ClockKit in Dafny

ClockKit keeps the clocks of several hosts together.  A client asks a server for its time over UDP and
estimates the offset of a local clock; a phase-locked clock feeds such estimates to a controller that
steers a variable-frequency clock.  This project models those parts, and the two-stage controller of
the Ruby simulation, and proves what they promise over every input and every run.

Check it with `dafny verify dfyconfig.toml`.

| file | module | models |
|---|---|---|
| `Time.dfy` | `Time` | readings, the invalid value, truncating arithmetic |
| `ClockPacket.dfy` | `Wire` | byte order, the 26-byte packet, offset and round trip |
| `Text.dfy` | `Text` | printing and scanning a time, the Ruby filter |
| `VariableFrequencyClock.dfy` | `VariableFrequency` | the truncated piecewise-linear clock |
| `PhaseLockedClock.dfy` | `PhaseLocked` | the synchronisation state machine, the filter and the control law |
| `PlcRuns.dfy`, `PlcRecovery.dfy`, `PlcReadings.dfy` | same names | what every run of it keeps, how it recovers, what its readers see |
| `ClosedLoop.dfy` | `ClosedLoop` | the feedback loop: recurrence, stability, staying locked |
| `Overshoot.dfy` | `Overshoot` | how far the loop overshoots |
| `LockIn.dfy` | `LockIn` | from construction or a reset into lock |
| `Networked.dfy` | `Networked` | the loop fed by the protocol: locking, and staying locked, over a lossy network |
| `ClockClient.dfy`, `ClockServer.dfy` | `Client`, `Server` | the two ends of the protocol |
| `Protocol.dfy` | `Protocol` | both ends over a lossy network, as a state machine |
| `EndToEnd.dfy` | `EndToEnd` | what the server prints against the true offsets of all its clients |
| `Resync.dfy` | `Resync` | accuracy right after a reset, through packets, client and both clocks |
| `Simulation.dfy` | `Simulation` | the simulation's `SyncClock` |

How the model is laid out.  The source's classes are classes with the same fields; each method is proved
equal to a function on a value that holds those fields, and the theorems are lemmas about these
functions.  Whatever a method reads from outside (clocks, the socket, the reference clock's answers, a
phase detector) is a parameter, in the order in which the code asks.  A clock passed to another object is
therefore a list of its readings, and two reads of it may differ.

Main results, hardest first:

- **The loop locks and stays locked** (`Networked.NewClockLocksOnNetwork`, `LockIn.NewClockLocks`,
  `LockIn.LocksAfterReset`, `ClosedLoop.StaysLocked`).  Let e be the deviation of the variable clock's true phase from
  1e7 (r-1)^2 / r, where the reference runs at rate r against the primary.  `ClosedLoop.Recurrence` derives
  e'' = e' - k e + d from the integer clock and the controller as they are, with k = 1e-7 times the gap in
  microseconds and d an explicit sum of the fraction that the variable clock cuts off, the filter's own
  transient, and k times the error of the measurement acted upon.  The energy
  (1/2 - kappa) |e| + |e' - e/2| contracts by 1 - kappa for every gain in [kappa, 1/4], up to |d|.
  Measurement errors reach the filter as differences, so most of what one adds to a sample the next one
  takes back (`ClosedLoop.SteadyFilter`).  From this, noise and gaps within stated margins imply that no
  update ever panics, divides by zero, has its correction dropped, or loses sync, and the energy after n
  updates is at most its initial value times (1 - kappa)^n plus the disturbance bound over kappa.  That the
  update panics on neither phase nor age is concluded, not assumed.  So is the start: a reset from any
  ready state leads into the loop's invariant one update later.  Ready is, in particular, a newly
  constructed clock with the default thresholds whose primary clock is up to 50 ppm off and, when the first
  update resets it, up to half a day away from the reference.  `Networked` composes this with the protocol:
  the reference's time and every phase are outcomes of a protocol run with loss, duplication, delay and
  reordering, and a timeout of up to 490 microseconds.
- **No overshoot** (`Overshoot.NeverOvershoots`): once a deviation is at least half of the one before, no
  later one passes zero by more than the disturbance over kappa, over every run within the margins.  With
  exact readings (`Overshoot.ExactReadingsNeverOvershoot`), truncation included, deviations from above keep
  their sign, never grow and at most halve; those from below never move away from zero and pass it by less
  than 3 microseconds.  From below the sign is not kept: `Overshoot.TruncationCrossesZero` is a run, and
  `Overshoot.KeepsSignFromBelowExactly` shows that every long enough one crosses zero, unless it starts at
  rest.
- **Every offset is bounded** (`Protocol.EveryOffsetIsBounded`) over every run with loss, duplication,
  delay and reordering, although sequence numbers come round.  The bound needs no constant difference
  between the clocks: it is about the moment at which the server stamps the reply.  It does need the
  reply's request and its receipt to be stamped by the same clock.  `Protocol.AlwaysBoundedExactly` says
  for which clocks it holds otherwise, without any assumption on them; `Protocol.AlwaysBoundedByClocks`
  puts it simply for a server that can always stamp: exactly if none is ever behind what one of them has
  read before.
  `Protocol.StaleReplyMisleads` is a run of 251 calls in which two clocks that never step back break it.
- **What the server prints covers its clients** (`EndToEnd.PrintedMaximumCovers`): any number of clients,
  each over its own lossy network; every printed maximum is valid, and the true offset of each client heard
  in the last 1.5 s is at most one microsecond larger.
- **Recovery** (`PlcRecovery.TwoUpdatesRecoverExactly`): two healthy updates recover from any state, with
  one exact exception, which `PlcRecovery.TwoUpdatesMayPanic` shows to occur.
- **What each end makes of what it gets**, told from the packets and readings themselves:
  `Client.WaitsExactly`, `Server.InboxExactly`, `Protocol.ExchangeOnWire`, `Protocol.AcknowledgedIsRecorded`,
  `PlcRecovery.UpdateSyncsExactly` and `VariableFrequency.WorksExactly` decide every case, invalid readings,
  malformed packets and failures included.
- **The clock refines the ideal integral of its frequency** (`VariableFrequency.RefinesIdeal`), readers
  never see it go back (`PlcReadings.ReadersNeverGoBack`), and the filter's samples do not depend on its
  epoch (`PlcReadings.RunTracks`).
- **The simulation never amplifies a phase error** (`Simulation.NeverAmplifiesExactly`), over every run of
  one update a second, if and only if it starts less than half a second ahead;
  `Simulation.SecondAheadRunsAway` shows what happens beyond a second.  It also corrects: phase to within
  twice the error bound in a second (`Simulation.DisciplineConverges`), and frequency toward the true one
  (`Simulation.FrequencyMovesTowardTruth`).

Modelling assumptions:

- Doubles are reals.  Conversion to an integer truncates toward zero.
- In `ClosedLoop` all reads within one update happen at one instant of the primary clock, and the reference
  runs at a constant rate against it; measurement errors of any kind up to a bound are allowed.
  `Networked.NetworkNoise` derives the network's share of them from `Protocol`: half the timeout, 2
  microseconds, and the drift between the server's stamp and the update's instant, which may be up to a
  latency apart.  The pauses of 200 ms times at
  least 1/1.05 in `ClockKit/PhaseLockedClock.cpp:58-63` make every gap at least 190.476 ms, hence
  kappa = 0.019.  The default thresholds then leave room for 250 microseconds of noise, thus for a timeout
  of nearly half a millisecond, and for 100 microseconds if gaps may reach 300 ms.
- In `Protocol` no packet is forged, and local clocks do not step back while they keep their identity; a
  variable clock that is set to a new time counts as a new clock.
- The mutex makes each of a reader's reading, a correction, a measurement and a reset one atomic step.

Where comments and code disagree, the code is modelled:

- `ClockKit/PhaseLockedClock.h:33` says that sync becomes lost when the previous update was too long ago.
  The same update then resets the clock and may end in sync.
- `ClockKit/ClockServer.cpp:94` says that the largest offset is updated every few seconds; the code does so
  with the first acknowledgement at least half a second after the last recalculation.
- `ClockKit/ClockPacket.h:9` says that the sequence number detects delayed replies; one delayed by 250
  requests passes, and only the echoed request time stands in its way.

## Model

| member | source | states |
|---|---|---|
| `Wire.NetworkOrder` | ClockKit/Timestamp.cpp:30-46 | on either byte order of host, a timestamp's bytes read most significant first are its two's complement |
| `Wire.HostIndependentInput` | ClockKit/Timestamp.cpp:48-53 | hosts of either byte order read the same timestamp from the same bytes |
| `Wire.StampRoundTrip` | ClockKit/Timestamp.cpp:41-53 | decoding recovers every encoded timestamp, across hosts of different byte order |
| `Wire.BytesRoundTrip` | ClockKit/Timestamp.cpp:41-53 | encoding recovers every 8-byte string that was decoded |
| `Wire.PacketRoundTrip` | ClockKit/ClockPacket.cpp:23-39 | parsing recovers every written packet, whatever its type byte |
| `Wire.BufferRoundTrip` | ClockKit/ClockPacket.cpp:23-39 | writing recovers every parsed 26-byte buffer |
| `Wire.PacketLayout` | ClockKit/ClockPacket.cpp:23-39 | byte 0 is the type, byte 1 the sequence number, and from bytes 2, 10 and 18 on stand the three times, big-endian in two's complement |
| `Wire.Write` | ClockKit/ClockPacket.cpp:32-39 | fills the caller's buffer, wholly, with the encoding of the packet |
| `Wire.OffsetBoundExactly` | ClockKit/ClockPacket.h:102-124 | the estimate is within [-ceil(rtt/2), floor(rtt/2)] of the true offset exactly if the client's clock read between its two stamps when the server stamped; both ends are reached, unless the round trip is negative, when nothing is within it |
| `Text.FilterRoundTripExactly` | ClockKit/parse.rb:7-10 | the filter recovers a printed time if and only if its seconds fit 32 bits |
| `Text.FilterRoundTrip` | ClockKit/parse.rb:7-10 | in particular for all 0 <= t < 2^31 * 10^6 |
| `Text.FilterOfPrinted` | ClockKit/Timestamp.cpp:8-20 | what the filter yields for the text of any int64 at all, space padding and wrapped seconds included |
| `Text.ScanRoundTripExactly` | ClockKit/Timestamp.cpp:8-28 | the 32-bit scanner recovers a printed time if and only if it fits 32 bits and its microseconds exceed -100000 |
| `Text.ScanRoundTrip` | ClockKit/Timestamp.cpp:8-28 | in particular for all 0 <= t < 2^31 |
| `Text.PrintedFits` | ClockKit/Timestamp.cpp:17-18 | the text of every int64 fits the 33-byte buffer with its terminator |
| `Text.PrintedExactly` | ClockKit/Timestamp.cpp:6-20 | the text is the tag, the seconds, and the microseconds padded with spaces to six columns |
| `VariableFrequency.VariableFrequencyClock.constructor` | ClockKit/VariableFrequencyClock.cpp:5-13 | starts at time 0 at the source's reading |
| `VariableFrequency.VariableFrequencyClock.GetValue` | ClockKit/VariableFrequencyClock.cpp:15-31 | value and new state, including the rollover it may note |
| `VariableFrequency.VariableFrequencyClock.SetValue` | ClockKit/VariableFrequencyClock.cpp:33-38 | new state |
| `VariableFrequency.VariableFrequencyClock.UpdateMarkers` | ClockKit/VariableFrequencyClock.cpp:40-44 | new state, with two separate source reads |
| `VariableFrequency.VariableFrequencyClock.SetFrequency` | ClockKit/VariableFrequencyClock.cpp:46-54 | new state; a nonpositive frequency only re-marks |
| `VariableFrequency.BrokenIsSticky` | ClockKit/VariableFrequencyClock.cpp:15-54 | an invalid or rolled-over clock stays so and reads invalid through every trace of readings and frequency changes |
| `VariableFrequency.StepBackBreaks` | ClockKit/VariableFrequencyClock.cpp:15-54 | any operation that meets a source reading before the marker makes every later reading invalid, although re-marking clears the rollover flag |
| `VariableFrequency.RepairedExactly` | ClockKit/VariableFrequencyClock.cpp:33-38 | setting the value repairs the clock if and only if both the time and the source reading are valid |
| `VariableFrequency.WorksExactly` | ClockKit/VariableFrequencyClock.cpp:15-54 | after any trace, with readings valid or not in any order, the clock shows a time if and only if no reading stepped back behind the marker in force and no re-mark met an invalid one |
| `VariableFrequency.RefinesIdeal` | ClockKit/VariableFrequencyClock.cpp:15-54 | after any trace the value is the ideal integral of frequency, less exactly frequency times the lag inside each re-mark, less at most one microsecond per cut |
| `VariableFrequency.RefinesIdealAtOneInstant` | ClockKit/VariableFrequencyClock.cpp:15-54 | with one-instant re-marks, ideal - (n + 1) < value <= ideal after n frequency changes |
| `VariableFrequency.NeverGoesBack` | ClockKit/VariableFrequencyClock.cpp:15-54 | values read never decrease over any interleaving of readings and frequency changes on a source that may fail but not step back |
| `PhaseLocked.PhaseLockedClock.constructor` | ClockKit/PhaseLockedClock.cpp:24-40 | initial state and default thresholds |
| `PhaseLocked.PhaseLockedClock.GetValue` | ClockKit/PhaseLockedClock.cpp:42-48 | the variable clock's value while in sync, and what reading it changes |
| `PhaseLocked.PhaseLockedClock.Update` | ClockKit/PhaseLockedClock.cpp:67-97 | new state of both clocks for every combination of readings |
| `PhaseLocked.PhaseLockedClock.UpdatePhase` | ClockKit/PhaseLockedClock.cpp:99-144 | new state and success of a measurement, including what the reference's own reads change |
| `PhaseLocked.PhaseLockedClock.UpdateClock` | ClockKit/PhaseLockedClock.cpp:146-194 | new state and success of a correction |
| `PhaseLocked.PhaseLockedClock.SetClock` | ClockKit/PhaseLockedClock.cpp:196-204 | new state of a reset |
| `PlcRuns.UpdateKeeps` | ClockKit/PhaseLockedClock.cpp:67-194 | an update ends in sync exactly if it measured successfully itself; stored readings stay valid; filter and frequency change only with a small phase and a recent update |
| `PlcRuns.RunKeeps` | ClockKit/PhaseLockedClock.cpp:67-194 | the same at the end of every run |
| `PlcRuns.OffsetIsLatest` | ClockKit/PhaseLockedClock.cpp:50-53 | over every run the offset reported is the phase that the latest update measured, and invalid exactly if that update did not measure |
| `PlcRuns.FedAtMostOnce` | ClockKit/PhaseLockedClock.cpp:87-96 | over every run each pair of measurements feeds the filter at most once |
| `PlcRuns.AverageIsFiltered` | ClockKit/PhaseLockedClock.cpp:175-177 | the average at the end of every run is the filter of exactly the samples fed |
| `PlcRuns.RunAverageStaysInRange` | ClockKit/PhaseLockedClock.cpp:175-177 | samples in [lo, hi] keep the average there over every run |
| `PlcRuns.RunAverageConverges` | ClockKit/PhaseLockedClock.cpp:175-177 | samples within eps of F bring it within 0.9^n of the initial deviation plus eps (1 - 0.9^n) |
| `PlcRuns.NoCorrectionDropped` | ClockKit/PhaseLockedClock.cpp:185-192 | if hi + 0.1 phasePanic < 2e6, every commanded frequency of the run is positive and takes effect |
| `PlcRecovery.OneUpdateSyncsExactly` | ClockKit/PhaseLockedClock.cpp:67-144 | a healthy update ends in sync if and only if it resets the clock, or its phase is small and its variable clock is intact and not marked later than the update begins |
| `PlcRecovery.UpdateSyncsExactly` | ClockKit/PhaseLockedClock.cpp:67-204 | for every state and every combination of readings, valid or not, exactly when an update ends in sync |
| `PlcRecovery.ResetShowsReference` | ClockKit/PhaseLockedClock.cpp:196-204 | a reset with an invalid time or source ends out of sync with a clock that shows nothing; one that succeeds shows the reference's time and counts on from it |
| `PlcRecovery.TwoUpdatesRecoverExactly` | ClockKit/PhaseLockedClock.cpp:67-204 | from every state two healthy updates end in sync if and only if it is not the case that the first, by the condition above, measures, finds a phase beyond the threshold, and the second comes within updatePanic of it |
| `PlcRecovery.NeverOutTwice` | ClockKit/PhaseLockedClock.cpp:91-96 | a healthy update that starts out of sync ends in sync |
| `PlcRecovery.TwoUpdatesMayPanic` | ClockKit/PhaseLockedClock.cpp:156-163 | a concrete run that shows the exception |
| `PlcReadings.UpdateIsActs` | ClockKit/PhaseLockedClock.cpp:87-96 | an update that stays in sync is a correction followed by a measurement |
| `PlcReadings.ReadersNeverGoBack` | ClockKit/PhaseLockedClock.cpp:42-48 | times read by other threads never decrease between resets, however readings, corrections and measurements interleave |
| `PlcReadings.SampleIsElapsedRatio` | ClockKit/PhaseLockedClock.cpp:165-178 | the sample is the ratio of elapsed times, with an error of at most 2e in the reference's, which is positive if it is more than 2e |
| `PlcReadings.RunTracks` | ClockKit/PhaseLockedClock.cpp:99-178 | through losses of sync, resets and frequency changes, the filter only sees the last two successful measurements, and never divides by zero |
| `PlcReadings.RunTracksFromStart` | ClockKit/PhaseLockedClock.cpp:24-40 | the same from construction on |
| `ClosedLoop.EnergyContracts` | ClockKit/PhaseLockedClock.cpp:185-192 | one step of the delayed recurrence contracts the energy by 1 - kappa, up to the disturbance, for every gain in [kappa, 1/4] |
| `ClosedLoop.ResetAnchors` | ClockKit/PhaseLockedClock.cpp:196-204 | a one-instant reset from any state anchors the clock and keeps the old measurement as the previous one |
| `ClosedLoop.LockedUpdate` | ClockKit/PhaseLockedClock.cpp:67-194 | a one-instant update of an anchored clock locks it, shifts the measurements, and re-marks without loss |
| `ClosedLoop.Recurrence` | ClockKit/PhaseLockedClock.cpp:87-192 | the deviation of the true phase obeys e'' = e' - k e + d with the explicit disturbance |
| `ClosedLoop.SampleNear` | ClockKit/PhaseLockedClock.cpp:170-176 | measurement noise bounds the sample's distance from the settled frequency |
| `ClosedLoop.SteadyFilter` | ClockKit/PhaseLockedClock.cpp:165-177 | with the newest measurement error taken back, the average stays within its margin of the settled frequency, whatever the errors and gaps |
| `ClosedLoop.SteadyCanCorrect` | ClockKit/PhaseLockedClock.cpp:146-194 | a steady clock neither panics nor divides by zero, and commands a positive frequency |
| `ClosedLoop.DisturbanceBounded` | ClockKit/PhaseLockedClock.cpp:87-192 | the disturbance of an update within the margins is at most the bound, and downward at most the bound less the cut |
| `ClosedLoop.SteadyStep` | ClockKit/PhaseLockedClock.cpp:67-194 | updates within the margins keep the clock steady |
| `ClosedLoop.StaysLocked` | ClockKit/PhaseLockedClock.cpp:55-194 | over every run within the margins every update ends in sync, and the energy decays geometrically to the disturbance bound over kappa |
| `Overshoot.NeverOvershoots` | ClockKit/PhaseLockedClock.cpp:67-192 | over every run within the margins, once a deviation is at least half of the one before, none passes zero by more than the disturbance over kappa, from either side |
| `Overshoot.ExactReadingsNeverOvershoot` | ClockKit/PhaseLockedClock.cpp:67-192 | with exact readings and truncation, deviations from above keep their sign, never grow and at most halve; from below they pass zero by less than 3 microseconds |
| `Overshoot.TruncationCrossesZero` | ClockKit/VariableFrequencyClock.cpp:30 | a run with exact readings whose deviation crosses zero from below |
| `Overshoot.KeepsSignFromBelowExactly` | ClockKit/PhaseLockedClock.cpp:67-192 | with exact readings and truncation, from below, no deviation of a run of more updates than the clock is microseconds ahead is above zero if and only if the clock starts at rest |
| `LockIn.ResetThenSteady` | ClockKit/PhaseLockedClock.cpp:67-204 | from every ready state a reset and one update later the loop's invariant holds |
| `LockIn.LocksAfterReset` | ClockKit/PhaseLockedClock.cpp:55-204 | a reset and any run of updates within the margins stay in sync, with the energy's decay |
| `LockIn.DefaultsAreViable` | ClockKit/PhaseLockedClock.cpp:36-37 | the default thresholds leave room for 250 microseconds of noise at any rate within 50 ppm, or 100 with longer gaps |
| `LockIn.NewClockLocks` | ClockKit/PhaseLockedClock.cpp:24-204 | from construction, with the default thresholds, a primary clock up to 50 ppm off and up to half a day from its reference at the first update, every run within the margins is in sync from that update on |
| `LockIn.NewClockRuns` | ClockKit/PhaseLockedClock.cpp:24-40 | such a run |
| `Networked.NetworkNoise` | ClockKit/PhaseLockedClock.cpp:104 | over every protocol run, an offset measured of the variable clock is a phase within half the timeout, 2 microseconds and the drift within the latency |
| `Networked.StaysLockedOnNetwork` | ClockKit/PhaseLockedClock.cpp:55-194 | a steady clock whose phases are outcomes of a protocol run over a network that fits its margins is in sync after every update |
| `Networked.LocksOnNetwork` | ClockKit/PhaseLockedClock.cpp:55-204 | from every ready state a reset and a run over such a network are always in sync |
| `Networked.NewClockLocksOnNetwork` | ClockKit/PhaseLockedClock.cpp:24-204 | a new clock with the default thresholds, given its time and all its phases by a protocol run with a timeout of at most 490 microseconds, is in sync after every update |
| `Networked.NewClockRunsOnNetwork` | ClockKit/PhaseLockedClock.cpp:24-40 | such a protocol run, reset and update |
| `Client.ClockClient.constructor` | ClockKit/ClockClient.cpp:11-19 | initial state and default timeout |
| `Client.ClockClient.ReceivePacket` | ClockKit/ClockClient.cpp:44-107 | the packet, exit and rtt for every sequence of arrivals |
| `Client.ReceiveTakesFirst` | ClockKit/ClockClient.cpp:49-106 | waiting ends with the first arrival that is not ignored, and with what is made of that one |
| `Client.WaitsExactly` | ClockKit/ClockClient.cpp:49-106 | told from the packets: packets with another sequence number or of another type do not end the wait, everything else does, and a reply in time is accepted with the time of its receipt |
| `Client.ClockClient.GetPhase` | ClockKit/ClockClient.cpp:122-136 | offset, packets sent and new state for every failure and arrival |
| `Client.ClockClient.GetValue` | ClockKit/ClockClient.cpp:109-117 | the system clock plus the offset, or invalid; the one packet sent and the round trip stored |
| `Server.ClockServer.constructor` | ClockKit/ClockServer.cpp:12-20 | an empty table, logging off, and the clock's first reading, valid or not |
| `Server.ClockServer.Run` | ClockKit/ClockServer.cpp:22-75 | the replies to, and the table after, every inbox |
| `Server.InboxExactly` | ClockKit/ClockServer.cpp:31-74 | told from the packets: each intact request before the first packet of type 4 is answered, in order, to its sender, with the time of its receipt, each intact acknowledgement is noted, and everything else is passed over |
| `Server.ClockServer.UpdateEntry` | ClockKit/ClockServer.cpp:79-123 | new table, and when and what it prints |
| `Server.ClockServer.MaxOffset` | ClockKit/ClockServer.cpp:111-121 | invalid if some entry is, else the least bound of 0 and all \|offset\| + rtt/2 |
| `Server.OffsetMaxIsUnique` | ClockKit/ClockServer.cpp:111-121 | the order of the loop does not matter |
| `Server.TableRefinesHistory` | ClockKit/ClockServer.cpp:98-109 | at every recalculation the table holds exactly the addresses whose latest acknowledgement of the whole run is at most 1.5 s old, with that acknowledgement |
| `Server.TableNeverStale` | ClockKit/ClockServer.cpp:98-109 | over every run the table holds no acknowledgement that was two seconds old when the latest one came |
| `Server.LogOffKeeps` | ClockKit/ClockServer.cpp:81-82 | with logging off the table never changes |
| `Server.OffsetMaxCovers` | ClockKit/ClockServer.cpp:111-122 | a true offset measured within half its round trip is at most the printed maximum plus 1 |
| `Server.OffsetMaxIsReached` | ClockKit/ClockServer.cpp:111-122 | the printed maximum is some client's offset and half round trip, so its true offset is at most a round trip smaller |
| `EndToEnd.PrintedMaximumCovers` | ClockKit/ClockServer.cpp:79-123 | every maximum printed over runs of any number of clients is valid and covers, to a microsecond, the true offset of every client heard in the last 1.5 s |
| `EndToEnd.PrintedMaximumIsReached` | ClockKit/ClockServer.cpp:79-123 | and some client heard in the last 1.5 s reported an offset and a round trip that make it up |
| `Protocol.StepKeeps` | ClockKit/ClockClient.cpp:73-136 | every step of client, server and network keeps the protocol invariant |
| `Protocol.EveryOffsetIsBounded` | ClockKit/ClockClient.cpp:95-135 | over every run an accepted reply has a round trip of at most the timeout, and its offset is within half of it of the true offset when the server stamped, however old the request |
| `Protocol.AlwaysBoundedExactly` | ClockKit/ClockClient.cpp:73-135 | for any clocks, any server and any timeout, every outcome of every run is within its bound if and only if the receiving clock, whenever the server can stamp between a request and a receipt within the timeout, reads between the two |
| `Protocol.AlwaysBoundedByClocks` | ClockKit/ClockClient.cpp:73-135 | if the server can always stamp and the timeout is not negative, that is so if and only if no clock is ever behind what some clock has read before |
| `Protocol.DelayedReply` | ClockKit/ClockClient.cpp:82-105 | a run for any two clocks and any three moments in order in which the reply to the one's request is accepted by the other, 250 calls later |
| `Protocol.OffsetNearDifference` | ClockKit/ClockClient.cpp:122-135 | with a constant difference of the clocks, the offset is within ceil(timeout/2) of it |
| `Protocol.SequenceCountsRequests` | ClockKit/ClockClient.cpp:124 | the sequence number is the request count mod 250 |
| `Protocol.SequenceWindow` | ClockKit/ClockPacket.h:9-14 | an accepted reply to one of the last 250 requests answers the current one |
| `Protocol.StaleReplyMisleads` | ClockKit/ClockClient.cpp:82-105 | a run in which a reply 250 requests old, to a request of another clock, is accepted with an offset 50 s wrong |
| `Protocol.ServerRecordsOutcomes` | ClockKit/ClockServer.cpp:66-68 | what the server records is exactly the offset and round trip of one of the client's outcomes |
| `Protocol.ExchangeOnWire` | ClockKit/ClockClient.cpp:122-136 | on the wire, between hosts of any byte order: the server answers the request, the client accepts the answer if and only if it is in time, and the server records the offset and round trip that the client acknowledges |
| `Protocol.AcknowledgedIsRecorded` | ClockKit/ClockClient.cpp:130-135 | from every state, a reply accepted and acknowledged makes the server record exactly that outcome when the acknowledgement gets through |
| `Resync.FirstPhase` | ClockKit/PhaseLockedClock.cpp:99-204 | the first phase after a reset is at most half of both round trips plus lag, plus skew of the frequency in force, plus one microsecond |
| `Resync.FirstPhaseAtNominal` | ClockKit/PhaseLockedClock.cpp:99-204 | at nominal frequency it is at most 2 ceil(timeout/2) + lag, and if that is within phasePanic the next correction is not refused |
| `Simulation.VariableFrequencyClock.constructor` | simulation/VariableFrequencyClock.rb:6-12 | starts at time 0 at the reference frequency |
| `Simulation.VariableFrequencyClock.SetTime` | simulation/VariableFrequencyClock.rb:14-17 | new state |
| `Simulation.VariableFrequencyClock.SetFreq` | simulation/VariableFrequencyClock.rb:29-35 | new state |
| `Simulation.RetunedShowsSame` | simulation/VariableFrequencyClock.rb:19-35 | changing the frequency does not change the time shown |
| `Simulation.SyncClock.constructor` | simulation/SyncClock.rb:5-19 | two nested clocks without measurements |
| `Simulation.SyncClock.Update` | simulation/SyncClock.rb:23-36 | new state, or an exception that leaves it alone |
| `Simulation.SyncClock.DisciplineFreq` | simulation/SyncClock.rb:38-69 | new state, or the exception of a zero interval |
| `Simulation.SyncClock.DisciplinePhase` | simulation/SyncClock.rb:71-95 | new state |
| `Simulation.Detect` | simulation/PhaseDetector.rb:20-27 | a measurement is within its own error bound of the true phase |
| `Simulation.DisciplineNeverAmplifies` | simulation/SyncClock.rb:71-95 | after a phase discipline the true phase never exceeds its size for 2,000,000 ticks and does not cross zero for 1,000,000, flooring included |
| `Simulation.DisciplineConverges` | simulation/SyncClock.rb:71-95 | one second after a phase discipline the true phase is at most twice the error bound, and has the sign it had |
| `Simulation.NoDiscipline` | simulation/SyncClock.rb:71-81 | without a measurement the phase stays as it is, and the first one is only stored |
| `Simulation.NeverAmplifiesFromUncorrected` | simulation/SyncClock.rb:23-95 | over every run of one update a second from less than half a second ahead, the true phase never exceeds its initial size |
| `Simulation.NeverAmplifiesExactly` | simulation/SyncClock.rb:23-95 | for a clock 2 without a correction in force and due at the next second, no such run amplifies the phase if and only if it starts less than half a second ahead |
| `Simulation.SecondAheadRunsAway` | simulation/SyncClock.rb:33-35 | once an honest measurement shows clock 2 a second ahead or more, whatever its error bound, clock 2 is never due again and the remote clock runs away from it |
| `Simulation.FrequencyCorrectionIsConservative` | simulation/SyncClock.rb:53-67 | a frequency correction never passes the true frequency error by 2 ppm or more, if the measured interval is positive; if it is negative, the correction exceeds the measured difference by the whole error bound, and always passes the true error |
| `Simulation.FrequencyMovesTowardTruth` | simulation/SyncClock.rb:38-69 | clock 1's new frequency moves by the measured rise of the phase less the error bounds, to 2 ppm, in its direction and not past the true one; the time shown stays, and the new measurement is stored |

## Left out

- PhaseLocked.PhaseLockedClock.UpdateClock: requires a nonzero interval of the reference, because the source's double division would then yield infinity or NaN, which reals cannot model; `PlcReadings.RunTracks` and `ClosedLoop.StaysLocked` show the interval positive over runs.
- PhaseLocked.PhaseLockedClock.Update: the same requirement, where it reaches the correction.
- PhaseLocked.PhaseLockedClock.GetValue: the unguarded test of the sync flag may, in another thread, be older than the reading; the model makes them one step.
- Server.ClockServer.UpdateEntry: after an invalid first clock reading, `tRecalculated_ + 500ms` overflows, which C++ leaves undefined; the model wraps around, so that the first acknowledgement recalculates.
- Networked.NewClockLocksOnNetwork: the default timeout of 1 ms admits 500 microseconds of noise, twice what the margins have room for; gaps that vary with the errors keep part of these from cancelling in the filter.
- Text.ScanRoundTripExactly: where `sec * 1000000 + usec` overflows a 32-bit int, C++ leaves the result undefined; the model wraps around.
- Text.FilterRoundTripExactly: Ruby's `to_i` also skips underscores between digits, which printed times do not contain.
- Simulation.SyncClock.DisciplinePhase: the float quotient is a real; doubles agree up to about 9 * 10^9 microseconds.
- Simulation.NeverAmplifiesExactly: one update each 1,000,000 ticks, as the simulation's main loop does; other schedules are covered by `Simulation.DisciplineNeverAmplifies` alone.
- Overflow of 64-bit microseconds (the year 294,000 and beyond), and valid sums that reach the reserved invalid value.
- IEEE rounding of doubles, infinities and NaN.
- Sockets, threads, sleeping, randomness and log output: replaced by parameters, lists of arrivals and atomic steps. kissnet is not part of this model.
- `run` of the phase-locked clock is the list of its updates; the server's and the client's endless loops end with their input.
- The KILL packet only as far as the client exits or the server stops on it.
- Setters of thresholds, timeout and logging flags, and the default `getPhase` of clocks without a network: easy members.
- Configuration files, main programs, language bindings and the Windows service.
- The simulation's error bound estimate, its random clock drift, and its alternative and unfinished controllers.
