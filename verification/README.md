# Capture tools: verified models

The repository is a set of packet-capture tools in C: a distributor and merger that supervise
capture sessions, GTP decoding and untunnelling, traffic monitors, small example servers, and
the system headers whose inline code they are built against. This project models the parts of
it that carry state, arithmetic or concurrency, and proves what they promise.

| file | models |
|---|---|
| `Limbs.dfy` | natural numbers as sequences of 64-bit limbs |
| `Mpn.dfy` | the limb-array functions, in place or into a separate array, over `array` with loops |
| `MpnLaws.dfy` | laws that span several of them: inverse operations, uniqueness, comparison against borrow, two's complement |
| `Mpz.dfy` | signed big integers, as a class over a limb array |
| `UdpStats.dfy` | the UDP server's two threads and their mutex, as a state machine and as a class that runs it |
| `TrafficMonitor.dfy` | monitors that share one output epoch, over arbitrary runs, and the structures they update |
| `Sessions.dfy` | the supervisor of capture sessions against runners and opening threads that write the same slots at any moment |
| `SessionVisits.dfy` | what visits, runners and openers do to a slot, told by the slot's fields alone |
| `SessionOrder.dfy` | openers that nobody disturbs, and what a visit keeps for them |
| `SessionOpening.dfy` | opening sessions meanwhile: when no runner is ever lost, and how one is lost otherwise |
| `SessionShutdown.dfy` | closing session handling: when the supervisor ends, and what keeps it from ending |
| `SessionTable.dfy` | the table of slots and the supervisor's loop over it, as a class over an array |
| `Untunnel.dfy` | finding a GTP header and removing the tunnel in the capture buffer |
| `ChunkFile.dfy` | cutting a packet stream into files of bounded size |
| `Argz.dfy` | iteration over NUL-ended strings packed in a buffer |
| `Imsi.dfy` | two decoders of swapped-nibble subscriber numbers (section 7.7.2 of 3GPP TS 29.060) |
| `StringHash.dfy` | the multiplicative string hash |
| `Wrappers.dfy` | a value that may be absent |

Where the original changes things in place the model does too: arrays, classes and loops, each
method tied by its `ensures` to a function or relation on sequences, about which the lemmas
then speak. Threads are modelled as atomic steps. `UdpStats.Server.Execute` runs any possible
schedule of the two threads; `TrafficMonitor.Execute` carries out any run on one shared epoch and
as many monitor structures as it opens. In `Sessions`, one visit of the supervisor to a slot is cut
at its accesses to the slot's state, thread and descriptor, also between the last look at the state
and the creation of a thread and inside the stop functions, and an `Interference` value says which
steps of the runner and of the opening threads fall in each gap. An opener is a thread with its own
program counter: it sees a slot free, clears it, marks it stopped, sets its descriptor and adds or
abandons it, and it takes each of these steps whatever has become of the slot. A statement for every
`Interference` is therefore a statement for every interleaving of these steps.

## What the proofs found

- **Opening a session (`SessionOpening`).** Openers write a slot's state without looking at it, which
  is harmless exactly when the slot has no thread and none is about to be created
  (`Sessions.OpenerWriteIff`, `AdditionWhileCreating`). A runner can be lost in two ways: if two
  openers meet on one slot, the second finding it free while the first is taking it; or if, before
  handling is closed, the descriptor of a slot is found closed after it was set and before the slot
  is added, because the supervisor then restarts or frees the slot by itself and the late addition
  makes it start a second runner (`OneOpenerLosesRunner`, `TwoOpenersLoseRunner`). In a life in which
  neither happens no runner is ever lost, under every interleaving (`GuardedLife`); wherever one of
  them happens a loss can follow (`SecondFindLosesRunner` and its closing form,
  `LateAdditionLosesRunner`, `LateAdditionAfterReuse`).
- **Stale descriptors (`SessionShutdown.StaleArises`, `StaleNeverStarts`, `StaleShutdownIff`).**
  Stopping a live capture leaves its closed descriptor recorded for supervision. The session is then
  stopped and put back for restart on every visit and never started again, also while closing. A
  closing supervisor gets rid of it exactly when some visit finds that descriptor number open.
- **Shutdown (`ShutdownIff`, `SessionTable.Table.SuperviseToEnd`).** A session that was added is free
  after three closing visits, under every interleaving with its runner, exactly when the first two
  did not leave it stale or the third finds its descriptor open; two visits do not suffice
  (`TwoVisitsMayNotSuffice`). A slot that was taken but never added keeps the supervisor from ending
  exactly as long as no visit finds its descriptor supervised and closed (`NotAddedStaysIff`).
- **Dead time-outs (`Sessions.StoppingNeverPends`).** The time-out for a session that is terminating
  or aborting is never reached, short of such a write: stopping ends in the visit that begins it.
- **IMSI decoders (`Imsi.TextAgainstNumber`).** The two decoders agree exactly when every low nibble of
  10 or more is preceded by nothing but zeros. `DecodersMayDiffer` gives octets on which they differ.
- **GTP header (`Untunnel.FoundInsideIff`, `CaptureDecidesIff`).** The length tests subtract unsigned
  numbers, so a header that is found lies inside the captured bytes exactly when the outer IP header's
  own length field does not point past them; and bytes past the capture can change the answer exactly
  when that field points past it in a UDP packet, or a tag is captured in part. `MayLookPastCapture`
  gives a capture of 42 bytes on which a header is found at offset 82.
- **Untunnelling (`Untunnel.UntunnelsInPlace`, `CopyWithinIff`).** The result is right for every
  tunnelled packet, but the move copies as many bytes from behind the capture as the Ethernet header
  is long, and its length wraps exactly when more would be dropped than was captured.
- **Chunk sizes (`ChunkFile.FitsOnDisk`).** The accounting counts neither the file header nor the
  header that each record really has; files stay within the limit all the same.

## Model

| member | source | states |
|---|---|---|
| Mpn.AddN | maven/include/gmp-x86_64.h:1489 | schoolbook form of the library addition: sum and carry exact, in place or not, limbs above n untouched |
| Mpn.SubN | maven/include/gmp-x86_64.h:1603 | the same for subtraction with borrow |
| Mpn.Add | maven/include/gmp-x86_64.h:1835-1871 | for all xsize >= ysize >= 0, value(w) + cout B^xsize = value(x) + value(y) with cout 0 or 1, through low add, carry ripple and tail copy, for the old operands whatever arrays coincide |
| Mpn.Sub | maven/include/gmp-x86_64.h:1872-1874 | value(w) = value(x) - value(y) + cout B^xsize, the ripple going on while the old limb is zero |
| Mpn.Add1 | maven/include/gmp-x86_64.h:1902-1937 | adding one limb is exact for n >= 1; "result below addend" detects each carry |
| Mpn.Sub1 | maven/include/gmp-x86_64.h:1902-1937 | subtracting one limb is exact for n >= 1; "old limb below subtrahend" detects each borrow |
| Mpn.RippleSum | maven/include/gmp-x86_64.h:1850-1859 | one round of the carry ripple keeps the partial sum exact and goes on exactly when the new limb is zero |
| Mpn.RippleDifference | maven/include/gmp-x86_64.h:1872-1874 | one round of the borrow ripple keeps the partial difference exact and goes on exactly when the old limb was zero |
| Mpn.CopyRest | maven/include/gmp-x86_64.h:2027-2037 | copies limbs start..size and leaves all others |
| Mpn.CopyUnlessSame | maven/include/gmp-x86_64.h:1862-1863 | the copy that is skipped when both arrays are one: skipping has the contract of copying |
| Mpn.SumOne | maven/include/gmp-x86_64.h:1979 | the wrap test after a one-limb addition is the exact carry |
| Mpn.DifferenceOne | maven/include/gmp-x86_64.h:1980 | the wrap test of a one-limb subtraction is the exact borrow |
| Mpn.Cmp | maven/include/gmp-x86_64.h:1991-2011 | the sign of value(x) - value(y), for every size including 0 |
| Mpn.CompareAt | maven/include/gmp-x86_64.h:2000-2010 | the first differing limb from the top decides |
| Mpn.NegN | maven/include/gmp-x86_64.h:2118-2129 | value(r) = c B^n - value(u) for n >= 1, with c = 1 exactly when value(u) is not zero, also in place |
| MpnLaws.SumUnique | maven/include/gmp-x86_64.h:1835-1871 | limbs and carry of an addition are determined by the operands: in-place and separate runs, and Add1 and Add on one limb, agree |
| MpnLaws.DifferenceUnique | maven/include/gmp-x86_64.h:1872-1874 | the same for subtraction |
| MpnLaws.NegationUnique | maven/include/gmp-x86_64.h:2118-2129 | the same for negation |
| MpnLaws.SubUndoesAdd | maven/include/gmp-x86_64.h:2093-2098 | subtracting y from x + y gives x back limb for limb and borrows what was carried, for every size pair |
| MpnLaws.AddUndoesSub | maven/include/gmp-x86_64.h:2054-2059 | adding y to x - y gives x back and carries what was borrowed |
| MpnLaws.BorrowIffLess | maven/include/gmp-x86_64.h:2080-2085 | subtraction borrows exactly when the comparison is negative |
| MpnLaws.CarryIffOverflow | maven/include/gmp-x86_64.h:2054-2059 | addition carries exactly when the sum needs another limb |
| MpnLaws.NegationCancels | maven/include/gmp-x86_64.h:2118-2129 | u plus its negation is zero in every limb, with the carry that the negation returned |
| MpnLaws.SubIsAddOfNegation | maven/include/gmp-x86_64.h:2118-2129 | subtracting y equals adding its negation, limb for limb; the borrow is the negation's flag minus the carry |
| Mpz.Number.SetAbs | maven/include/gmp-x86_64.h:1630-1635 | this becomes the absolute value, also when the operand is this; the other operand and normal form are kept |
| Mpz.Number.SetNeg | maven/include/gmp-x86_64.h:1728-1733 | this becomes the negation, under the same conditions |
| Mpz.Number.FitsUtype | maven/include/gmp-x86_64.h:1639-1642 | the test on size and low limb holds exactly when 0 <= value <= maxval |
| Mpz.Number.FitsUint | maven/include/gmp-x86_64.h:1656-1659 | exactly when 0 <= value < 2^32 |
| Mpz.Number.FitsUlong | maven/include/gmp-x86_64.h:1667-1670 | exactly when 0 <= value < 2^64 |
| Mpz.Number.FitsUshort | maven/include/gmp-x86_64.h:1678-1681 | exactly when 0 <= value < 2^16 |
| Mpz.Number.GetUi | maven/include/gmp-x86_64.h:1689-1700 | the absolute value modulo 2^64 |
| Mpz.Number.GetLimbN | maven/include/gmp-x86_64.h:1717-1723 | digit n of the absolute value in base 2^64, and zero outside the number or for negative n |
| Mpz.Number.Size | maven/include/gmp-x86_64.h:1788-1791 | the least number of limbs that holds the absolute value |
| Mpz.Number.Sgn | maven/include/gmp-x86_64.h:2138 | the sign of the value |
| Mpz.Number.Odd | maven/include/gmp-x86_64.h:2170 | the value's parity (see below for the C macro's result) |
| Mpz.DigitAt | maven/include/gmp-x86_64.h:1717-1723 | limb i is digit i of the number |
| Mpz.NormalisedBounds | maven/include/gmp-x86_64.h:1788-1791 | a normalised number of n limbs lies between B^(n-1) and B^n |
| Mpz.LimbsDenoteMagnitude | maven/include/gmp-x86_64.h:1717-1723 | the limbs read one by one below the size denote the absolute value |
| UdpStats.StepKeepsInv | examples/UDPServer.c:19-93 | every step of either thread keeps: ownership of the mutex matches the program counters, and reports, pending snapshot, counters and datagram in progress cut the received datagrams into consecutive blocks |
| UdpStats.ReachableInv | examples/UDPServer.c:19-93 | so every state of every schedule has that property |
| UdpStats.HistoryIsSizes | examples/UDPServer.c:84-92 | over every possible schedule the datagrams recorded are the sizes that its receive calls return, in order |
| UdpStats.ReceiverRound | examples/UDPServer.c:84-92 | any size from 0 to 65536 is taken, and six more statements add 1 to the packets and the size to the bytes |
| UdpStats.MonitorRound | examples/UDPServer.c:24-36 | seven statements of the monitor report what the counters held and clear them |
| UdpStats.FailedReceive | examples/UDPServer.c:85-87 | a failed receive counts nothing, and only the monitor moves afterwards |
| UdpStats.MutualExclusion | examples/UDPServer.c:24-29 | the two threads are never both inside the lock |
| UdpStats.ReportsAreConsecutiveBlocks | examples/UDPServer.c:24-36 | report i is the count and byte sum of the block of the schedule's datagrams right after those of the reports before it, and 0 <= bytes <= 65536 packets |
| UdpStats.SnapshotRange | examples/UDPServer.c:24-29 | an unprinted snapshot has the same range, although the counters change one at a time |
| UdpStats.NothingLost | examples/UDPServer.c:89-92 | with both threads outside the lock and nothing pending, also after a failed receive, reports and counters add up to all datagrams of the schedule and their bytes |
| UdpStats.NoDeadlock | examples/UDPServer.c:24-29 | some thread can always move, also after a failed receive, and the owner of the mutex always can |
| UdpStats.BlockAt | examples/UDPServer.c:24-29 | what being cut into consecutive blocks means for block i |
| UdpStats.PartitionsTotal | examples/UDPServer.c:89-92 | the blocks of a cut add up to the whole |
| UdpStats.Server.ReceiveDatagram | examples/UDPServer.c:84-87 | a receive call takes the state to the machine's next one; after -1 only the monitoring thread goes on |
| UdpStats.Server.ReceiverStep | examples/UDPServer.c:89-92 | each further statement of the receiving loop, loads and stores apart, is the machine's step |
| UdpStats.Server.MonitorStep | examples/UDPServer.c:24-36 | each statement of the monitoring loop is the machine's step |
| UdpStats.Server.Execute | examples/UDPServer.c:19-93 | running both threads through any possible schedule ends in the machine's state, with the invariant |
| TrafficMonitor.PastEpoch | include/monitor.h:194-205 | a recorded time is the epoch or at least 10 seconds older |
| TrafficMonitor.ReportsIffDue | include/monitor.h:194-205 | the two tests amount to one: a call reports exactly when 10 seconds have passed since the monitor's recorded time, whoever moved the epoch |
| TrafficMonitor.ReportRates | include/monitor.h:207-211 | the divisor is at least 10 and the rates are the whole quotients, zero for counts that are not positive |
| TrafficMonitor.StepKeepsInv | include/monitor.h:94-230 | opening, incrementing and handling keep the timing invariant of all monitors |
| TrafficMonitor.Run | include/monitor.h:94-230 | every state of every run has the timing invariant |
| TrafficMonitor.RecordedTimes | include/monitor.h:106-112 | over any run every monitor's recorded time is a past epoch, not ahead of the present one, and epochs are 10 apart |
| TrafficMonitor.RunGoesOn | include/monitor.h:94-230 | a run goes on with exactly the calls that are made at a time not before the last one, on a monitor that exists or, for increments, on none |
| TrafficMonitor.OpenedRun | include/monitor.h:94-116 | the first monitor sets the epoch, later ones leave it alone; each starts at zero and at the epoch, and no other changes |
| TrafficMonitor.HandledRun | include/monitor.h:192-230 | the epoch moves to the time of the call exactly when it was 10 seconds old; a report is made exactly when the monitor's recorded time was, covers that time and the counters, clears them, and leaves the monitor at the epoch |
| TrafficMonitor.EpochsAreTimes | include/monitor.h:106-112 | every epoch of a run is the time of one of its calls |
| TrafficMonitor.CountedRun | include/monitor.h:153-154 | counting packets changes two counters of one monitor and nothing else |
| TrafficMonitor.GtpCountedRun | include/monitor.h:176-180 | counting tunnelled packets changes the other five, three of them by option bits 2, 1 and 0 |
| TrafficMonitor.NobodyCounts | include/monitor.h:149-151 | without a monitor nothing is counted |
| TrafficMonitor.ReportCount | include/monitor.h:196-205 | over any run a monitor reports at most once per epoch, and at most (now - epoch at opening) / 10 times |
| TrafficMonitor.ReportsMayBeClose | include/monitor.h:194-205 | a run with two monitors in which the second reports at times 20 and 21 |
| TrafficMonitor.SpacedSpan | include/monitor.h:196-199 | k epochs span at least 10 (k - 1) seconds |
| TrafficMonitor.FlagsAreBits | include/gtpv1.h:68-70 | the three flag macros are option bits 2, 1 and 0 |
| TrafficMonitor.StepBalance | include/monitor.h:146-229 | an event changes what a monitor has ever counted, reported or not, by exactly what the event adds |
| TrafficMonitor.Conservation | include/monitor.h:214-229 | over any run, for each monitor and each of the seven counters, reported values plus the current one equal the sum of all increments; flags count the calls with their bit set |
| TrafficMonitor.MonitorStruct.constructor | include/monitor.h:94-116 | a new monitor is zero and starts at the epoch, which the first one sets |
| TrafficMonitor.MonitorIncrement | include/monitor.h:146-155 | adds packets and bytes, and nothing for a null monitor |
| TrafficMonitor.MonitorIncrementGtp | include/monitor.h:168-181 | adds to the five GTP counters and to nothing else |
| TrafficMonitor.HandleMonitor | include/monitor.h:192-230 | report, epoch and cleared monitor are those of the functions the run lemmas speak about |
| TrafficMonitor.Perform | include/monitor.h:94-230 | one event on the structures, which share one epoch and stay distinct, is the system's step |
| TrafficMonitor.Execute | include/monitor.h:94-230 | any possible run, carried out on one epoch and the monitors it opens, ends in the system that the run lemmas speak about |
| Sessions.OpenerWriteIff | src/pcapsession/pcapsession.c:115-124 | clearing, claiming, adding or abandoning a slot keeps the slot invariant exactly when the slot has no thread and none is about to be created; every other such write is counted as a breach |
| Sessions.VisitKeepsInv | src/pcapsession/pcapsession.c:165-263 | whatever runner and openers do meanwhile, also between the state test and the creation of the thread, a visit without a breach keeps: a free, stopped or waiting slot has no thread, no runner was lost by a second start or a clearing, the interval counter stays within 10, no order stays pending |
| Sessions.StoppingNeverPends | src/pcapsession/pcapsession.c:364-380 | short of a breach, the switch never meets a terminating or aborting session |
| Sessions.ActsOnward | src/pcapsession/pcapsession.c:96-183 | what any number of steps of runner and openers keeps |
| SessionVisits.CalmVisit | src/pcapsession/pcapsession.c:236-389 | the whole outcome, field by field and for every state and kind, of a visit in which nobody else acts: left alone, started, counted, given up, stopped for restart, or freed |
| SessionVisits.RunningIsLeftAloneIff | src/pcapsession/pcapsession.c:254-260 | such a visit of an open supervisor leaves a running session alone exactly when its descriptor is not supervised, is a standard one, or is found open |
| SessionVisits.FoundClosedStops | src/pcapsession/pcapsession.c:254-260 | a session whose descriptor is found closed ends the visit without a thread, freed or waiting for restart by its kind, whatever its announced runner does afterwards |
| SessionVisits.StopIs | src/pcapsession/pcapsession_client.c:160-204 | a stop changes the thread, the state and the descriptor, which every kind but the captures forgets, and nothing else; in particular supervision stays on |
| SessionVisits.RunnerLife | src/pcapsession/pcapsession_client.c:88-151 | a runner marks the session running, its descriptor reaches the slot, and it leaves TERMINATE behind or just ends |
| SessionVisits.LastRewireCounts | src/pcapsession/pcapsession_filecapture.c:149-158 | of several descriptors that a runner writes the last one counts |
| SessionVisits.OpenerLife | src/pcapsession/pcapsession_livecapture.c:45-82 | an opener clears a free slot and marks it stopped; abandoning frees it again, configuring sets the descriptor as often as it likes, adding leaves it waiting to start |
| SessionVisits.EveryGapCounts | src/pcapsession/pcapsession.c:236-389 | a write by another thread in any gap of a visit that passes them all arrives in the slot |
| SessionOrder.VisitKeepsOrder | src/pcapsession/pcapsession.c:236-263 | a visit in which no two openers meet, nothing not added is found closed, and no slot just abandoned is aborted by a closing supervisor, leaves every opener undisturbed and has no breach |
| SessionOpening.LifeKeepsInv | src/pcapsession/pcapsession.c:96-263 | in every life of a slot, under every interleaving of supervisor, runners and any number of openers, the invariant holds as long as no opener wrote to a slot with a thread or about to get one |
| SessionOpening.ClosingKeepsExclusive | src/pcapsession/pcapsession.c:246-263 | a closing visit keeps at most one opener engaged, and none with a slot that has a thread, and has no breach, if no two openers meet |
| SessionOpening.GuardedLife | src/pcapsession/pcapsession.c:96-263 | in every life in which handling closes at most once, no two openers meet on the slot, and no descriptor is found closed, before the close, of a slot not added yet: the invariant holds, there is no breach and no runner is lost |
| SessionOpening.OrderlyLife | src/pcapsession/pcapsession.c:96-263 | the openers stay undisturbed as well if closing visits neither abort a slot just abandoned nor find one closed that is not added |
| SessionOpening.LateAdditionLosesRunner | src/pcapsession/pcapsession.c:254-260 | wherever a slot that is not added is found closed and the stop function asks for a restart, a runner can be lost two visits later |
| SessionOpening.LateAdditionAfterReuse | src/pcapsession/pcapsession.c:138-153 | wherever it is found closed and the stop frees the slot, a runner can be lost once another opener, if there is one, has taken the slot |
| SessionOpening.AdditionWhileCreating | src/pcapsession/pcapsession.c:168-176 | an addition between the state test and the creation of the thread leaves a waiting slot with a thread, and the next visit starts a second one |
| SessionOpening.SecondFindLosesRunner | src/pcapsession/pcapsession.c:102-116 | wherever a second opener finds a slot that is being taken, a runner can be lost in the next two visits |
| SessionOpening.SecondFindLosesRunnerClosing | src/pcapsession/pcapsession.c:102-116 | also when handling is closing |
| SessionOpening.OneOpenerLosesRunner | src/pcapsession/pcapsession_livecapture.c:70-81 | a whole life, with one opener of a live capture, in which a runner is lost |
| SessionOpening.TwoOpenersLoseRunner | src/pcapsession/pcapsession_clientconn.c:79-95 | a whole life, with two openers and a client connection, in which a runner is lost |
| SessionShutdown.ActsProgress | src/pcapsession/pcapsession_filecapture.c:83-184 | what any number of runner steps can change in a slot |
| SessionShutdown.ClosingVisit | src/pcapsession/pcapsession.c:246-263 | a closing visit stops the session unless it was overtaken by the runner's one announcement |
| SessionShutdown.ClosingIdle | src/pcapsession/pcapsession.c:246-260 | a closing visit frees a session that nothing runs exactly when it is not stale or its descriptor is found open |
| SessionShutdown.ShutdownIff | src/pcapsession/pcapsession.c:246-263 | three closing visits free every added session exactly when the first two did not leave it stale or the third finds its descriptor open, under every interleaving with its runner; sessions whose stop function clears the descriptor always |
| SessionShutdown.TwoVisitsMayNotSuffice | src/pcapsession/pcapsession.c:246-263 | an interleaving in which two visits leave the session waiting for restart |
| SessionShutdown.StaleArises | src/pcapsession/pcapsession_livecapture.c:108-162 | in whatever gap the runner of a live capture ends, a visit that leaves the session waiting for restart leaves it with its old descriptor under supervision, and every visit whose switch finds TERMINATE does so |
| SessionShutdown.StaleNeverStarts | src/pcapsession/pcapsession.c:254-260 | such a session is never started again while that descriptor reads closed |
| SessionShutdown.StaleShutdownIff | src/pcapsession/pcapsession.c:246-260 | closing visits free it exactly when one of them finds the descriptor open |
| SessionShutdown.StoppedVisit | src/pcapsession/pcapsession.c:248-260 | a visit leaves a slot that was taken and not added alone exactly when its descriptor is not supervised, standard, or found open |
| SessionShutdown.NotAddedStaysIff | src/pcapsession/pcapsession.c:248-260 | so such a slot survives any visits exactly as long as none finds its descriptor supervised and closed |
| SessionShutdown.StartTimesOut | src/pcapsession/pcapsession.c:320-340 | a start whose runner stays silent is given up by exactly the twelfth visit |
| SessionShutdown.StopFrees | src/pcapsession/pcapsession_clientconn.c:155-203 | stopping leaves no thread, and frees the slot exactly on abort, for client connections, and for exhausted file captures |
| SessionTable.Table.FindFree | src/pcapsession/pcapsession.c:102-113 | the search stops at the first free slot of 128, and fails exactly when none is free |
| SessionTable.Table.TakeSlot | src/pcapsession/pcapsession.c:115-126 | clears the slot that was found and marks it stopped, whatever it has become since; between the supervisor's visits harmless exactly when it has no thread |
| SessionTable.Table.GetNew | src/pcapsession/pcapsession.c:96-127 | both with nothing in between: the first free slot is cleared and stopped, all others stay |
| SessionTable.Table.Add | src/pcapsession/pcapsession.c:138-153 | rejects exactly the identifiers outside the table; the slot's state is not checked, and the invariant survives exactly when the slot has no thread |
| SessionTable.Table.StartSession | src/pcapsession/pcapsession.c:165-183 | tests for STARTING and then, after whatever the other threads do in between, creates the thread |
| SessionTable.Table.CallStopper | src/pcapsession/pcapsession_client.c:191-199 | reads the state and then, after whatever the other threads do in between, writes the state decided on |
| SessionTable.Table.StopSession | src/pcapsession/pcapsession.c:191-219 | joins the thread, calls the stop function, tests for STOPPED and frees the slot, with the other threads' steps in between |
| SessionTable.Table.TransitionSession | src/pcapsession/pcapsession.c:308-389 | the switch over states, statement by statement, is the transition the lemmas speak about |
| SessionTable.Table.VisitSession | src/pcapsession/pcapsession.c:236-263 | the loop body with the other threads' steps in its gaps is a visit, counted exactly when its first look finds the slot in use |
| SessionTable.Table.SupervisePass | src/pcapsession/pcapsession.c:235-284 | one pass visits each slot once and counts those found in use |
| SessionTable.UsedCountIs | src/pcapsession/pcapsession.c:235-243 | the count is the number of slots found in use |
| SessionTable.Table.SuperviseToEnd | src/pcapsession/pcapsession.c:233-297 | with handling closing and every slot added, the loop has ended within four passes, with every slot free and no thread left, exactly when each session was not left stale by two passes or is found open by the third |
| Untunnel.FoundInsideIff | src/gtp/gtpv1.c:104-127 | a header that is found lies in the captured bytes exactly when the outer IP header's length field does not point past them |
| Untunnel.RecognisesFrame | src/gtp/gtpv1.c:50-139 | every well-formed IPv4/UDP/GTP version 1 packet, tagged or not, is recognised at the right offset |
| Untunnel.RecognisedIsFrame | src/gtp/gtpv1.c:50-139 | and a recognised packet, with a legal outer IP header inside the capture, has exactly those layers |
| Untunnel.HeaderIff | src/gtp/gtpv1.c:50-139 | for a captured outer IP header: the offset that is found, exactly when the bytes say IPv4, UDP, port 2152 or 2123, and GTP version 1, with all lengths in the capture |
| Untunnel.FindHeader | src/gtp/gtpv1.c:50-139 | the search over a buffer that holds just the bytes it reads, with its wrapping length tests, is the function those lemmas speak about |
| Untunnel.ReachBounds | src/gtp/gtpv1.c:50-139 | it reads no byte past the capture if the outer IP header is captured, and at most 80 bytes past it otherwise |
| Untunnel.CaptureDecides | src/gtp/gtpv1.c:50-139 | buffers with the same captured bytes get the same answer if the search looks inside |
| Untunnel.CaptureDecidesIff | src/gtp/gtpv1.c:50-139 | and only then: otherwise some other bytes past the capture change the answer |
| Untunnel.MayLookPastCapture | src/gtp/gtpv1.c:104-136 | 42 captured bytes for which a header is found at offset 82 and the move fits no buffer |
| Untunnel.MemMove | src/pcapsession/pcapsession_untunnel.c:79 | an overlapping move towards the front, all other bytes kept |
| Untunnel.CopyWithinIff | src/pcapsession/pcapsession_untunnel.c:75-79 | the copy stays in a buffer exactly when no more is dropped than was captured and the buffer goes on past the capture for an Ethernet header's length; a captured outer IP header is enough for the first |
| Untunnel.UntunnelPacket | src/pcapsession/pcapsession_untunnel.c:34-84 | buffer, both lengths and the monitor's GTP counters, by the bits of the first GTP byte, after the call, for every packet in a buffer that holds what the search reads and the move copies |
| Untunnel.UntunnelsFrame | src/pcapsession/pcapsession_untunnel.c:56-83 | for every tunnelled packet without extension header the new packet is the Ethernet header and the inner packet byte for byte, both lengths shrink alike, and the copy reads past the capture by the Ethernet header's length |
| Untunnel.UntunnelsInPlace | src/pcapsession/pcapsession_untunnel.c:56-83 | the same of what UntunnelPacket leaves in a buffer that goes on for just that long |
| Untunnel.KeptByBits | src/pcapsession/pcapsession_untunnel.c:49-54 | a tunnelled packet is left alone exactly when the extension bit of its first GTP byte is set |
| Untunnel.UntunnelsByBits | src/pcapsession/pcapsession_untunnel.c:56-83 | otherwise 8 GTP bytes are dropped, and 4 more exactly if the sequence or the N-PDU bit is set, and the rest follows the Ethernet header |
| Untunnel.CountedByBits | include/gtpv1.h:50-56 | the monitor's packet counter rises by one and the three flag counters by the three bits |
| ChunkFile.Chunker.HandlePacket | src/filterprograms/chunkpcapfile.c:94-125 | appends the packet to the whole output and keeps every file non-empty, within the limit, and closed only when the next packet did not fit |
| ChunkFile.Split | src/filterprograms/chunkpcapfile.c:72-78 | the files joined are the stream, the cut is greedy, and every file is within the limit on disk |
| ChunkFile.GreedyUnique | src/filterprograms/chunkpcapfile.c:94-125 | a stream has only one greedy cut |
| ChunkFile.FitsOnDisk | src/filterprograms/chunkpcapfile.c:97-124 | a file within the accounted limit is within it on disk, with real file and record headers |
| ChunkFile.SizesOf | src/filterprograms/chunkpcapfile.c:97-124 | 24 bytes are accounted per packet, 24 spent per file and 16 per record |
| Argz.NextIsLeastStart | maven/include/argz.h:163-176 | from every position the step goes to the nearest entry start after it, and to null exactly when there is none |
| Argz.Entries | maven/include/argz.h:143-156 | the loop ends, visits every entry start once in increasing order, as many as there are NULs, and the entries joined with their NULs are the buffer |
| Argz.VisitEntry | maven/include/argz.h:168-172 | one round of the loop extends what has been visited by one entry |
| Argz.JoinInjective | maven/include/argz.h:143-156 | a buffer holds one list of entries |
| Argz.PackThenIterate | maven/include/argz.h:143-156 | packing a list and iterating gives it back |
| Imsi.Imsi2Str | include/gtpv1_imsi.h:39-53 | writes the decimal text of every low nibble, and of every high nibble below 10, in order |
| Imsi.Imsi2LongLong | include/gtpv1_imsi.h:63-82 | never wraps 64 bits, for any octets, and returns the base-10 reading of the same positions |
| Imsi.NibblesOfOctet | include/gtpv1_imsi.h:46-50 | an octet is its low nibble plus sixteen times its high one |
| Imsi.DecodesExample | include/gtpv1_imsi.h:39-82 | two octets with a filler, read as three digits |
| Imsi.TextAgainstNumber | include/gtpv1_imsi.h:39-82 | the text never reads less than the number, and they are equal exactly when every low nibble of 10 or more follows only zeros |
| Imsi.DecodersAgree | include/gtpv1_imsi.h:39-82 | so the decoders agree on eight octets exactly then, in particular for all valid digits |
| Imsi.DecodersMayDiffer | include/gtpv1_imsi.h:46-46 | octets on which they do not |
| Imsi.EncodeDecode | include/gtpv1_imsi.h:39-82 | fifteen digits packed low nibble first with a filler decode to the same digits, as text and as number |
| Imsi.NumberBound | include/gtpv1_imsi.h:70-78 | the bound on n positions that rules out wrapping |
| StringHash.HashString | maven/include/hash_fun.h:70-76 | the loop returns the base-5 polynomial of the (signed) characters before the first NUL, modulo 2^64 |
| StringHash.HashConcat | maven/include/hash_fun.h:70-76 | hash(s + t) = (hash(s) 5^(length of t) + hash(t)) mod 2^64 |
| StringHash.HashSnoc | maven/include/hash_fun.h:74 | the hash starts at zero, and one more character takes it to five times itself plus the character, modulo 2^64 |
| StringHash.PolynomialConcat | maven/include/hash_fun.h:74 | the same law on the polynomial, without the modulus |

## Left out

- The nails variants in `gmp-x86_64.h`, and inlines that only forward to the library. `mpn_add_n` and
  `mpn_sub_n` are library functions; a schoolbook loop stands for them.
- Mpz.Number.Set: `mpz_set` is a library function; its contract is a plain copy of the value, with other
  growth of the array than the library's; two different numbers never share an array.
- Mpz.Number.Odd: the C macro combines a test with the whole low limb bitwise, and only then is the low
  bit left; the model takes that bit directly.
- Mpn.Cmp: the low-level functions take arrays from index 0, so operands that overlap in part are not expressible.
- The 64-bit counters of the UDP server and of the monitors are unbounded here; in C they overflow
  after 2^63 bytes. Printing 64-bit values with a 32-bit format is not modelled.
- Floating point: a rate is the integer quotient that the code computes before it converts it.
- The clock is an input that is positive, never goes back and fits a C `int`; later times are not modelled.
- The static epoch of `monitor.h` exists once per translation unit; one unit is modelled. `monitor_close`
  and the description string are left out.
- TrafficMonitor.ReportCount: speaks about epochs, not about time between two reports of one monitor, which may be shorter than 10 seconds when several monitors exist (ReportsMayBeClose).
- TrafficMonitor.Conservation: calls do not overlap. In the program the supervisor handles a monitor while a runner may
  increment it, without a lock, and an increment between the log line and the clearing is lost.
- Sockets, capture handles, system log, thread creation and the mutexes inside the sessions; whether a
  descriptor is open and whether a thread can be created are inputs.
- SessionTable.Table.SuperviseToEnd: assumes that no thread opens sessions any more when the supervisor closes, and that every slot was added; NotAddedStaysIff says what a slot that was not added does.
- SessionTable.Table.GetNew: the search and the taking of a slot with nothing in between; FindFree and TakeSlot are the two parts, and `SessionOpening` lets other threads act between them.
- SessionShutdown.ActsProgress: a cancelled runner is assumed to be joined; a runner cancelled while it holds the
  state mutex, which would block the supervisor, is not modelled.
- Sessions.VisitKeepsInv: a slot's memory is cleared in one step, and so are the interval counter's increment,
  the descriptor's release by a stop function, and cancelling, joining and forgetting a thread.
- SessionShutdown.StartTimesOut: the thirteenth visit, which stops the session, is part of the visit lemmas.
- Monitors and dumpers of a session, flushed and output after a visit, do not influence its state.
- Untunnel.UntunnelPacket: what the code does when it reads or writes outside its buffer is undefined and not modelled; CopyWithinIff and ReachBounds say when it does not.
- ChunkFile.Split: packets are at most 262144 bytes, the most that the capture library delivers from a file; limits of 2^63 and more, and files that cannot be opened, are left out.
- Imsi.Imsi2Str: printing a string onto itself is undefined in C; it is taken as appending, as the code intends.
- Information elements and message types of GTP, the configuration parser, the C++ merger and
  distributor mains, curses wrappers and declaration headers.
