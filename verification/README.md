# Verification models for the Zephyr applications

This project models the parts of the repository whose correctness depends on state carried over many
steps, and proves what they promise over every run and every input.

The largest part is the **protective-stop remote**: a dual-channel emergency-stop sender. Two samplers
each drive and read back the switch loop, decide OK or STOP, and encode one 48-byte frame per machine;
a comparator transmits only if every due frame is byte-identical on both sides. The model has three
layers. `Wire`, `Estop` and `Session` are the frame, the decision core and the bond state machine.
`SlotRun` and `Ticks` run them over arbitrary tick sequences, arbitrary integer read-backs and arbitrary
received datagrams, and `SlotHistory` and `RunHistory` say what every field, frame and send of such a run
means, from the requests, the settings and the replies alone. `Lockstep` is the imperative comparator, with its buffers, generation stamps and
request sets updated in place, proved to do exactly what `Ticks` says; `Handshake` is the threaded form,
in which one comparator and two samplers interleave write by write, and `Threads` proves that it goes
through a run of `Ticks`: slots, samples, requests, tick counters, observer reports and transmitted frames
are the threads' own and at the end of every tick are those of the run, so what is proved of runs in those
terms holds of the threads; conversely every on-time tick can happen. `HealthLogic`, `Health` and
`Observer` are the lifetime counters fed by it, `LogRing` its last-boot log and `MismatchFilter` its
mismatch indicator.

The smaller parts are the keypad's JSON scanner and HID framing (`JsonGrammar`, `CodexJson`, `CodexHid`,
`CodexMessages`), joystick teleoperation (`Teleop`), camera capture and paged reads (`CamMgmt`), the
stack report's worst-path walk (`StackUsage`) and the HTTP request parsers (`HttpUtil`). JSON texts are
those of sections 2, 4 and 7 of RFC 8259.

Code that updates state in place is a class or a method with loops, and its contract ties the new state
to a specification function of the old one; the theorems are lemmas about those functions. Time is an
arbitrary input. Sockets, GPIO, settings, storage results, allocation and driver results are inputs too,
quantified over.

`dafny verify dfyconfig.toml` checks everything.

## What the proofs found

- **Rebonding keeps liveness.** `pstop_session_rebond` clears the echoed counter and stamp but not
  `last_reply_ms`. `SlotRun.StateIsLastAdoption` therefore speaks of the last reply of the current stay
  for the former and of the last reply since the slot was opened for the latter;
  `SlotRun.LivenessIsThisStays` says when the two agree and `SlotRun.RebondKeepsLiveness` that they differ
  after any rebond that is not answered at once.
- **Heartbeat gaps** are bounded by the send period in force at the previous tick. With the current period
  the bound holds exactly when the slot was not already due by it at the previous tick, that is, unless
  that tick sent nothing and adopted a window short enough that the time since the last frame had used it up
  (`SlotRun.CurrentPeriodBoundExactlyWhen`; `SlotRun.ShorterWindowWitness` is such a run).
- **Threaded ticks.** If minting a generation and waking the samplers are separate steps, or taking the
  wake-up and reading the generation are, a wake-up left over from the previous tick lets a sampler write
  frames while they are compared. A separate mint is safe exactly when both samplers have consumed their
  wake-ups (`Handshake.MintSafeExactlyWhenCaughtUp`); minting and waking in one step is safe exactly when
  none is between its take and its read (`Handshake.MintAndWakeSafeExactlyWhen`). Either condition fails in
  the second tick of a run from the start whose first tick both samplers missed, and the comparison is then
  overlapped (`Handshake.MissedTickTears`). With each pair taken as one step both always hold
  (`Handshake.CoarseRunsAreGuarded`).
- **Verdict expressions.** The two diverse OK expressions disagree exactly on an odd high and an even low
  read-back other than 1 and 0, such as 3 and 0; the STOP-only override is what makes them agree
  (`Estop.RawExpressionsDiffer`, `Estop.Channel.Sample`).
- **Health resets and boots.** Neither reset, nor the counting of a boot or of a changed build, marks the
  counters dirty. If the save that follows fails, storage keeps the old record while the flag says all is
  saved: after a reset, unless something was dirty before, one of the reset's own folds took an edge, or
  storage already held what the reset made of the record (`Health.FailedResetExactlyWhen`,
  `Health.FailedFullResetExactlyWhen`); after a boot that read storage, always, until an edge is folded
  (`Health.FailedBootExactlyWhen`). "The record" is every counter but powered time. Edges already pending
  rescue the button reset but not the full one, which drops them (`Health.ResetButtonAlone`,
  `Health.ResetAllAlone`). From any successful save on the flag is true until the next reset
  (`Health.TruthfulSinceTheLastSave`).
- **Edge detector.** Discarding channel 0's result is harmless exactly when tick numbers differ or
  channel 0 did not itself cross the level (`HealthLogic.DroppedExactlyWhen`).
- **HID framing** loses a message exactly when some fragment after the first starts with `{"method"`
  (`CodexHid.DeliveredExactlyWhen`); `CodexMessages.WellformedRequestLost` is such a request.
- **Teleop.** A mod change during motion spends its tick on the owed stop and does not arm even if the stick
  is centred on that tick (the exception in `Teleop.Arms`).
- **Calibration** can wrap in 16 bits for a rest position far outside the swept range, or at all outside it
  with a negative minimum span (`Teleop.CalibratedExactlyWhen`, `Teleop.WrappedSpanWitness`); inside the range,
  which is what the caller passes, it never does (`Teleop.InsideNeverWraps`).
- **Stack report.** Removing from the list being iterated skips frames, so a later sibling can be charged for
  an earlier one's callees. The report never understates, and it is exact whatever the calls use exactly on
  the shapes in which no call returns by more than one level without returning to a new root
  (`StackUsage.ExactExactlyWhenTidy`).
- **Log ring.** The check word is an exclusive or. Changing exactly one header word is always caught
  (`LogRing.TornHeaderIsInvalid`); several changes go unnoticed exactly when the check word changed by what
  the head and the wrap flag changed by together (`LogRing.StillValidExactlyWhen`).

## Model

| member | source | states |
|---|---|---|
| Wire.RoundTrip | applications/protective_stop/tests/wire/src/main.c:13-19 | every field of a message is recovered from its documented offset in the frame |
| Wire.EncodeInjective | applications/protective_stop/tests/wire/src/main.c:13-19 | byte-identical frames carry the same message, which is what makes byte comparison meaningful |
| Wire.EncodesTheReferenceFrame | applications/protective_stop/tests/wire/src/main.c:38-43 | the golden OK frame, checksum included, is what the model encodes |
| Wire.CorruptByteIsDetected | applications/protective_stop/tests/wire/src/main.c:112-124 | changing any one byte of a frame that verifies makes its checksum fail |
| Estop.FailedReadIsNeverHealthy | applications/protective_stop/src/estop_gpio.c:102-110 | a failed read never counts as a healthy level, and nothing else is changed by the replacement |
| Estop.ObservedRefinesHistory | applications/protective_stop/src/estop_verdict.c:34-71 | the saturating 8-bit streaks and flags always give the verdict that the whole sample history calls for |
| Estop.StreakIsArming | applications/protective_stop/src/estop_verdict.c:44-51 | the streak test is the same as "the last three samples were all healthy", saturated or not |
| Estop.SettledForever | applications/protective_stop/src/estop_verdict.c:49-59 | once a channel has settled, no later samples unsettle it |
| Estop.SettlesExactlyWhen | applications/protective_stop/src/estop_verdict.c:49-59 | a channel settles exactly at three healthy or five unhealthy samples in a row |
| Estop.RawExpressionsDiffer | applications/protective_stop/src/estop_verdict.c:28-32 | the two diverse expressions disagree exactly on an odd high and an even low read-back that are not the healthy pair, such as 3 and 0 |
| Estop.Channel.Decide | applications/protective_stop/src/estop_verdict.c:16-71 | for either core's expression and any two integers, the in-place update and the verdict are those of the specification |
| Estop.Channel.Sample | applications/protective_stop/src/estop_gpio.c:102-110 | on either core the verdict is OK exactly when the three newest sanitised samples are healthy |
| Estop.ChannelsPrimed | applications/protective_stop/src/estop_verdict.c:73-77 | the boot gate is open exactly when both channels have at some time shown three healthy or five unhealthy samples in a row |
| Session.SendPeriod | applications/protective_stop/src/session.c:87-108 | for every 32-bit window the period lies in [100, 1000] ms and is half the window where that fits |
| Session.RebondAfter | applications/protective_stop/src/session.c:110-116 | strictly more than five windows and at least 2500 ms, without 64-bit overflow |
| Session.PollEffect | applications/protective_stop/src/session.c:196-283 | draining any queue parks, bonds and adopts exactly as the replies heard before the first UNBOND say, and nothing after an UNBOND is adopted |
| Session.PollFacts | applications/protective_stop/src/session.c:196-283 | a poll parks iff parked or an UNBOND was heard, bonds only on an adopted reply, and never moves the send counters or stamps |
| Session.PeerSession.CommitSend | applications/protective_stop/src/session.c:164-194 | counter, stamps and state move only on a successful send |
| Session.PeerSession.Poll | applications/protective_stop/src/session.c:196-283 | the receive loop leaves the session and the unread queue that the drain specification gives |
| Session.PeerSession.Watchdog | applications/protective_stop/src/session.c:285-301 | rebonds exactly when the watchdog predicate holds |
| Session.PeerSession.Rebond | applications/protective_stop/src/session.c:303-310 | idle, window and protocol counters zeroed, liveness kept |
| SlotRun.CounterContiguity | applications/protective_stop/src/session.c:132-194 | in every run, the frames transmitted since the last open, rebond or timeout carry counters 1, 2, 3, ... mod 2^32, and the frame of whatever tick comes next carries the one after them, even if the watchdog ends the stay in that tick |
| SlotRun.UnbondParks | applications/protective_stop/src/session.c:241-252 | a verified peer UNBOND parks the slot in that very tick, whatever else the queue held |
| SlotRun.ParkedUntilReset | applications/protective_stop/src/session.c:118-130 | a parked slot stays parked, is never due, and keeps counter, stamp and liveness over any ticks without rebond or reconfigure |
| SlotRun.StateIsLastAdoption | applications/protective_stop/src/session.c:241-265 | in every run the echoed counter and stamp are those of the last reply adopted in this stay, and liveness is that of the last one since open |
| SlotRun.FramesEchoTheLastReply | applications/protective_stop/src/session.c:132-162 | every frame of every run carries its own time, sender, receiver and role, and either is a BOND without echo or is the verdict, echoing the last reply adopted in this stay |
| SlotRun.RebondKeepsLiveness | applications/protective_stop/src/session.c:303-310 | after any run, a rebond not answered at once clears the echo while the slot goes on showing the time of a reply from before the stay |
| SlotRun.LivenessIsThisStays | applications/protective_stop/src/session.c:262-264 | in every run, the shown liveness belongs to the current stay iff the stay adopted a reply or there is none to inherit |
| SlotRun.BondingNeedsAPeerFrame | applications/protective_stop/src/session.c:206-282 | only a frame-sized, checksum-verified, non-UNBOND datagram from the peer's address can make a slot bonded |
| SlotRun.DroppedOnlyForCause | applications/protective_stop/src/session.c:285-301 | a bonded slot stops being bonded only on request, by UNBOND, or after strictly more than 5 windows and at least 2500 ms of silence |
| SlotRun.TimesOutExactly | applications/protective_stop/src/session.c:285-293 | the watchdog fires exactly at its threshold of silence |
| SlotRun.BondSpacing | applications/protective_stop/src/session.c:123-125 | in one bonding stay, successful BONDs are at least 5000 ms apart |
| SlotRun.HeartbeatGap | applications/protective_stop/src/session.c:118-130 | while every tick transmits, successive frames of a bonded slot are less than the send period plus the tick gap apart |
| SlotRun.CurrentPeriodBoundExactlyWhen | applications/protective_stop/src/session.c:118-130 | the same bound with the period now in force holds iff the slot was not already due by it at the previous tick, which is when a silent tick adopted too short a window |
| SlotRun.ShorterWindowWitness | applications/protective_stop/src/session.c:129 | a three-tick run from boot in which it fails |
| SlotHistory.SlotIsItsPast | applications/protective_stop/src/session.c:13-310 | in every run each field of a slot's session, telemetry included, is a function of the replies adopted and frames sent since it was opened, and what is left in its socket follows the first odd-sized datagram |
| SlotHistory.LogIsStayFrames | applications/protective_stop/src/session.c:169-199 | the frames of the current stay are what the log holds |
| SlotHistory.DueExactlyWhen | applications/protective_stop/src/session.c:116-165 | a slot is due, and with which frame, exactly as its past says: a BOND at once and every five seconds, in a bond once half the newest window is over, never when parked |
| SlotHistory.KnocksExactlyWhen | applications/protective_stop/src/session.c:116-130 | a bonding slot's BOND leaves, in a tick that may send, exactly when five seconds have passed since the last; an idle or just rebonded slot's at once; a parked one's never |
| SlotHistory.HeartbeatsExactlyWhen | applications/protective_stop/src/session.c:89-130 | a bonded slot sends exactly when half the newest window of this stay, between 100 and 1000 ms, has passed since its last frame |
| SlotHistory.OpenForTheConfiguredPeer | applications/protective_stop/src/lockstep.c:110-133 | in every run a slot is open exactly for the machine of its last configuration, if that opened |
| SlotHistory.HeardOnlyFromThePeer | applications/protective_stop/src/session.c:216-235 | every adopted reply came in a verified, frame-sized datagram from that machine's address |
| SlotHistory.ShutIsIdle | applications/protective_stop/src/session.c:80-87 | a slot that is not open is idle |
| Ticks.ArmingSafety | applications/protective_stop/src/lockstep.c:257-295 | in every run from boot, any frame handed to a socket that carries OK means both channels' last three samples were all healthy, and its session is bonded |
| Ticks.StopIsUnanimous | applications/protective_stop/src/lockstep.c:257-295 | a transmitted STOP means neither channel was armed |
| Ticks.AgreedExactlyWhen | applications/protective_stop/src/lockstep.c:257-295 | an on-time primed tick transmits iff no due bonded slot saw split verdicts and no due slot saw the sender id change between builds |
| Ticks.AllOrNothing | applications/protective_stop/src/lockstep.c:257-295 | in an agreeing tick exactly the due slots get exactly one send attempt each; in any other tick none does |
| Ticks.TicksAccountedFor | applications/protective_stop/src/lockstep.c:345-365 | gated, mismatched, missed and agreeing ticks add up to all ticks, and the counters hold those numbers mod 2^32 |
| Ticks.GateOpensOnce | applications/protective_stop/src/lockstep.c:261-268 | once one tick passes the boot gate no later tick is gated |
| Ticks.SilentBeforeTheGate | applications/protective_stop/src/lockstep.c:261-268 | before that, no slot attempts any send |
| Ticks.HandedExactly | applications/protective_stop/src/lockstep.c:289-294 | a socket is handed a frame iff its slot attempts a send, and it is the compared frame |
| Ticks.SlotsRunIndependently | applications/protective_stop/src/lockstep.c:300-373 | every slot of a comparator run goes through a slot run, so all slot theorems hold of it |
| Ticks.RunCounterContiguity | applications/protective_stop/src/lockstep.c:289-294 | in every comparator run each slot's transmitted frames count 1, 2, 3, ... and the frame any further tick compares for it carries the next counter |
| Ticks.LoggedFrameIsTheComparedFrame | applications/protective_stop/src/lockstep.c:289-294 | what a slot run logs is the frame that was compared and sent |
| Ticks.FourTicksSendOk | applications/protective_stop/src/lockstep.c:257-295 | an OK is really sent: four on-time ticks from boot with a closed loop, the BOND of the third answered, hand the slot an OK frame |
| RunHistory.PendingExactlyWhen | applications/protective_stop/src/lockstep.c:300-316 | the pending requests are exactly those made since the last tick |
| RunHistory.OpenForItsMachine | applications/protective_stop/src/lockstep.c:110-133 | in every run, read off requests and settings, each slot is open exactly for the machine its last reconfiguration found |
| RunHistory.FramesNameTheirMachine | applications/protective_stop/src/lockstep.c:289-294 | every frame handed to a socket carries that machine's id as receiver |
| RunHistory.SentExactlyWhen | applications/protective_stop/src/lockstep.c:289-294 | in an agreeing tick exactly the slots whose past wants a frame are sent to, each its frame; a bonding one a BOND exactly five seconds after its last |
| RunHistory.ReportedExactlyWhen | applications/protective_stop/src/lockstep.c:353-360 | the observer is told of a tick exactly when it is on time and both channels have settled |
| Lockstep.FirstDifference | applications/protective_stop/src/lockstep.c:205-211 | the reported offset is the first at which the frames differ |
| Lockstep.Comparator.Init | applications/protective_stop/src/lockstep.c:135-163 | opens exactly the configured slots whose socket opens, each for its configured machine, and yields a boot state |
| Lockstep.Comparator.SlotApplyConfig | applications/protective_stop/src/lockstep.c:110-133 | closes one slot and reopens it for exactly the machine in the settings, if any and if its socket opens, and touches no other |
| Lockstep.Comparator.BeginTick | applications/protective_stop/src/lockstep.c:300-334 | consumes both request sets, applies them, snapshots due slots and mints the next generation |
| Lockstep.Comparator.SamplerPass | applications/protective_stop/src/lockstep.c:170-185 | adds one sample to one channel, writes exactly its due frames, then its completion time and its generation stamp |
| Lockstep.Comparator.SamplersPublished | applications/protective_stop/src/lockstep.c:191-199 | true iff both stamps equal the generation |
| Lockstep.Comparator.CompareAll | applications/protective_stop/src/lockstep.c:205-279 | decides whether all due pairs agree; if not, records the first due slot that disagrees, the first byte at which it does, both verdicts and the time |
| Lockstep.Comparator.ComparatorPass | applications/protective_stop/src/lockstep.c:257-295 | counts and transmits as the outcome says; a mismatch is attributed to its first slot and byte, and nothing else touches the diagnostics |
| Lockstep.Comparator.RunTickBody | applications/protective_stop/src/lockstep.c:345-373 | declines on a stale stamp or a late sampler and records who was late, by how much and when, reports on-time primed ticks to the observer, then polls and watches every active slot |
| Lockstep.Comparator.TickSync | applications/protective_stop/src/lockstep.c:375-389 | one synchronous tick takes the whole in-place state to exactly the specified next world, hands out exactly the specified frames, reports and attributes exactly as specified |
| Lockstep.Comparator.RunAll | applications/protective_stop/src/lockstep.c:375-389 | any sequence of synchronous ticks and requests goes through the specified run, with all its frames and all its observer reports |
| Lockstep.Comparator.RequestRebond | applications/protective_stop/src/lockstep.c:457-464 | sets the request for a valid slot and refuses any other |
| Lockstep.Comparator.RequestReconfigure | applications/protective_stop/src/lockstep.c:424-431 | sets the request for a valid slot and refuses any other |
| Handshake.CompareIsFresh | applications/protective_stop/src/lockstep.c:474-545 | whenever the comparison for a generation runs, both samplers' wanted frames were built wholly from that generation's snapshot after its mint, although late samplers may read it half written; stale gives never cause a comparison |
| Handshake.QuietUntilMint | applications/protective_stop/src/lockstep.c:481-488 | a sampler that is done writes no frame and takes no sample until the next mint, under any interleaving |
| Handshake.RunKeepsInv | applications/protective_stop/src/lockstep.c:474-545 | every reachable state of every guarded interleaving keeps the generation and freshness invariant |
| Handshake.ThreadedArmingSafety | applications/protective_stop/src/lockstep.c:474-545 | in any guarded interleaving, compared identical OK frames mean both channels' last three samples were all healthy |
| Handshake.CoarseRunsAreGuarded | applications/protective_stop/src/lockstep.c:481-488 | with mint-to-wake and take-then-read each one step, every run is guarded |
| Handshake.ComparesOnlyOnTime | applications/protective_stop/src/lockstep.c:517-555 | in any run frames are compared only when no take timed out since the mint, and a take is only satisfied by a give made since then |
| Handshake.StaleWakeUpTears | applications/protective_stop/src/lockstep.c:513-528 | from any state where a sampler still holds a wake-up, some continuation of a mint overlaps a pass with the comparison |
| Handshake.MintSafeExactlyWhenCaughtUp | applications/protective_stop/src/lockstep.c:513-528 | a mint is safe from overlap in all continuations iff both samplers have consumed their wake-ups |
| Handshake.MintAndWakeSafeExactlyWhen | applications/protective_stop/src/lockstep.c:513-528 | minting and waking in one step is safe in all continuations iff no sampler is between its take and its read |
| Handshake.MissedTickTears | applications/protective_stop/src/lockstep.c:513-528 | from the start, after one tick both samplers missed, each split form goes on to compare while a sampler may write frames, whatever the ticks write |
| Handshake.HistoryIsSamplesIn | applications/protective_stop/src/lockstep.c:170-174 | a channel's history is exactly the samples its thread took |
| Threads.ThreadsRefineTicks | applications/protective_stop/src/lockstep.c:474-556 | any guarded interleaving that does what the code does ends every tick with exactly the slots, requests, counters, reports and sent frames of one run of the tick specification, one tick a generation |
| Threads.StepStays | applications/protective_stop/src/lockstep.c:300-373 | every step of every thread, each of begin_tick's writes and each slot's poll included, and every request made at any moment, keeps that relation |
| Threads.ThreadedTicksAccountedFor | applications/protective_stop/src/lockstep.c:345-365 | on the threads each generation has one of four outcomes and the counters hold the three that send nothing |
| Threads.ThreadedSendsAreSafe | applications/protective_stop/src/lockstep.c:257-295 | whenever the threads compare, each frame sent is both channels' frame of a wanted slot with its next counter, all wanted slots get theirs, OK means both threads' last three samples were healthy, STOP that neither's were |
| Threads.OnTimeTickHappens | applications/protective_stop/src/lockstep.c:474-556 | conversely every on-time tick with one sample a channel is gone through by some interleaving, from any related state at rest |
| Threads.LateTickHappens | applications/protective_stop/src/lockstep.c:538-545 | and so is a tick both samplers miss, unless one is between its take and its read |
| Threads.OkReachesTheWire | applications/protective_stop/src/lockstep.c:474-556 | from the start some interleaving bonds a slot whose peer answers and sends it an OK |
| LogRing.TornHeaderIsInvalid | applications/protective_stop/src/log_ring.c:10-27 | changing exactly one header word of a valid ring makes it invalid |
| LogRing.StillValidExactlyWhen | applications/protective_stop/src/log_ring.c:10-27 | any header reached from a valid one is valid iff magic and ranges hold and the check word changed by what head and wrap flag changed by together |
| LogRing.UnnoticedChangeWitness | applications/protective_stop/src/log_ring.c:10-27 | a changed head with a matching check word goes unnoticed |
| LogRing.CheckIsComplement | applications/protective_stop/src/log_ring.c:10-27 | the check word is the bitwise complement of the exclusive or of the other three |
| LogRing.Ring.Write | applications/protective_stop/src/log_ring.c:29-59 | after any write of any length the ring is valid and holds the tail of everything written |
| LogRing.Ring.Copy | applications/protective_stop/src/log_ring.c:61-87 | yields exactly the last min(cap, 4096, total) characters written, oldest first; nothing from an invalid ring |
| LogRing.WindowReads | applications/protective_stop/src/log_ring.c:71-85 | reading on around the end from the computed start gives the tail |
| LogRing.WriteAllAndCopy | applications/protective_stop/src/log_ring.c:15-87 | reset, any sequence of writes, copy: the tail of the concatenation |
| HealthLogic.Detector.Step | applications/protective_stop/src/health_logic.c:55-85 | the in-place detector does the specified step for any channel number, out of range ones included |
| HealthLogic.DroppedExactlyWhen | applications/protective_stop/src/health.c:97-98 | dropping channel 0's result reports exactly the rising edges iff the tick is new or channel 0 did not itself cross the level |
| HealthLogic.FirstIsBaseline | applications/protective_stop/src/health_logic.c:76-83 | the first aligned observation reports nothing |
| HealthLogic.CountsRisingEdges | applications/protective_stop/src/health_logic.c:55-85 | over any history of distinct successive ticks the reported presses and mismatches are exactly the rising edges after the baseline |
| HealthLogic.BlobLayout | applications/protective_stop/src/health_logic.c:25-36 | the version, the six big-endian counters, the identity and the swap count lie at their documented offsets |
| HealthLogic.StoredIsReadBack | applications/protective_stop/src/health_logic.c:25-53 | every counter record survives encode and decode, field for field |
| HealthLogic.AcceptedExactlyWhen | applications/protective_stop/src/health_logic.c:38-53 | exactly the 34-byte blobs of version 1 decode, and re-encode to themselves |
| Health.Conserved | applications/protective_stop/src/health.c:93-143 | in any interleaving of observer, fold and flush steps, stored plus in flight plus pending grows by exactly the reported edges, mod 2^32 |
| Health.CountsFromBoot | applications/protective_stop/src/health.c:93-143 | from boot, that total is the loaded value plus the number of rising edges after the baseline |
| Health.ResetRestartsPresses | applications/protective_stop/src/health.c:267-303 | after either reset, presses count exactly the edges reported since the reset emptied the pending ones, however steps interleave |
| Health.ResetRestartsMismatches | applications/protective_stop/src/health.c:267-303 | the same for mismatches |
| Health.DirtyTellsTheTruth | applications/protective_stop/src/health.c:113-143 | without resets, once the flag is true it stays true: whenever nothing is dirty storage holds the whole record but powered time, failed saves included |
| Health.TruthfulSinceTheLastSave | applications/protective_stop/src/health.c:126-143 | any successful save makes it true, whatever it was before |
| Health.PowerCutLosesOnlyPending | applications/protective_stop/src/health.c:166-206 | a power cut when nothing is dirty loses exactly the edges no fold had taken and the powered time since storage was written |
| Health.PowerCutGoesBackToTheLastSave | applications/protective_stop/src/health.c:126-206 | a power cut at any moment goes back to exactly the record of the last successful save; without resets that loses exactly the edges pending then and reported since |
| Health.RebootRestores | applications/protective_stop/src/health.c:126-143 | after a successful flush, observer steps interleaved in any way, storage decodes to the whole record in memory, the next boot has it one boot later, and only pending edges are missing |
| Health.UptimeAccumulates | applications/protective_stop/src/health.c:186-194 | across a reboot one boot more, one flash more iff the build changed, powered time goes on from the stored value, all else as stored |
| Health.NewUnitBoots | applications/protective_stop/src/health.c:166-194 | without a readable record a boot starts one: one boot, one flash unless the build is blank, powered time from this boot on |
| Health.ResetButtonAlone | applications/protective_stop/src/health.c:267-283 | a button reset with a failed save and no observer in between leaves a true flag iff something was dirty or pending or storage already held the swapped record |
| Health.ResetAllAlone | applications/protective_stop/src/health.c:285-303 | a full reset likewise leaves a true flag iff something was dirty or storage already held the zeroed record |
| Health.FailedSaveExactlyWhen | applications/protective_stop/src/health.c:93-143 | any lock-holder program without a successful save, interleaved with any observer steps, ends with a true flag iff a fold takes an edge or it would with nothing pending |
| Health.FailedResetExactlyWhen | applications/protective_stop/src/health.c:267-283 | a button reset with a failed save, in any interleaving, leaves a true flag iff something was dirty, one of its folds takes an edge, or the record was already swapped: zero counts and 255 swaps if the flag was true before |
| Health.FailedFullResetExactlyWhen | applications/protective_stop/src/health.c:285-303 | a full reset with a failed save, in any interleaving, likewise, where only edges published after the drop can be taken |
| Health.FailedBootExactlyWhen | applications/protective_stop/src/health.c:166-206 | a boot whose flush fails leaves a true flag iff a fold takes an edge, or storage could not be read and already held a new unit's first boot |
| Health.ResetAllRestartsUptime | applications/protective_stop/src/health.c:285-303 | after a full reset in any interleaving, saved or not, the record is a new unit's of this build and powered time counts from the reset, in this and every later fold |
| Health.ResetButtonKeepsTheRest | applications/protective_stop/src/health.c:267-283 | a button reset in any interleaving counts exactly one swap up to 255 and leaves boots, flashes, updates, identity and powered time as they go on |
| Health.ResetsLeaveNoEdges | applications/protective_stop/src/health.c:267-303 | either reset, undisturbed, leaves no press or mismatch recorded or pending |
| Health.SavesAreCounted | applications/protective_stop/src/health.c:126-143 | over any run every save is counted once, as worked or failed, and the time of the last attempt is kept |
| Health.Keeper.constructor | applications/protective_stop/src/health.c:166-206 | boot loads or starts from zero, counts the boot and a changed build, and flushes |
| Health.Keeper.Observe | applications/protective_stop/src/health.c:93-105 | detects with both channel reports and bumps each pending count at most once |
| Health.Keeper.Fold | applications/protective_stop/src/health.c:113-124 | is the take, take, add sequence of atomic steps |
| Health.Keeper.Flush | applications/protective_stop/src/health.c:126-143 | folds, then saves; a failed save keeps the dirty flag and storage |
| Health.Keeper.Poll | applications/protective_stop/src/health.c:208-219 | flushes exactly when 600 s have passed since the last attempt, or 60 s and anything is dirty or pending |
| Health.Keeper.ResetButton | applications/protective_stop/src/health.c:267-283 | is fold, zero the two counts and count a swap up to 255, flush |
| Health.Keeper.ResetAll | applications/protective_stop/src/health.c:285-303 | drops pending counts, zeroes everything but the build identity, flushes |
| Observer.LevelsAreVerdicts | applications/protective_stop/src/lockstep.c:355-360 | a reported tick is a press level iff neither channel is armed, a mismatch level iff exactly one is |
| Observer.CountsTheSwitch | applications/protective_stop/src/lockstep.c:353-360 | end to end, the counters hold the loaded value plus one per reported tick at which both channels came to STOP |
| MismatchFilter.Filter.Update | applications/protective_stop/src/ring.c:163-189 | the in-place update and answer are those of the specification, with the window test on the unsigned 64-bit difference |
| MismatchFilter.ShowsExactlyWhen | applications/protective_stop/src/ring.c:163-189 | purple iff the last trigger holds it, for 300 ms unless that sum wraps; a trigger is an advance after three advanced windows in a row, or the close of the third |
| MismatchFilter.NeedsThreeWindows | applications/protective_stop/src/ring.c:173-186 | every trigger has three successive advanced windows of at least 250 ms behind it |
| MismatchFilter.ClearsAfterTheLastAdvance | applications/protective_stop/src/ring.c:163-189 | after the last advance nothing shows from 300 ms past the close of its window on |
| CodexJson.SkipStringLoop | applications/codex_keys/src/codex_json.c:21-36 | ends just past the closing quote, or reports an unterminated string; never reads past the NUL |
| CodexJson.SkipValueLoop | applications/codex_keys/src/codex_json.c:39-75 | ends just past the value, or reports a truncated one; never reads past the NUL |
| CodexJson.Member | applications/codex_keys/src/codex_json.c:77-125 | the scanner loop terminates on any NUL-terminated text and returns what the lookup specification gives |
| CodexJson.NestedValue | applications/codex_keys/src/codex_json.c:45-67 | any printed value, however nested, leaves the bracket depth as it was |
| CodexJson.ValueSkips | applications/codex_keys/src/codex_json.c:39-75 | any printed value is skipped exactly |
| CodexJson.FindsAmongMembers | applications/codex_keys/src/codex_json.c:87-124 | scanning printed members finds the first with the raw name, never a nested one |
| CodexJson.LookupFindsFirst | applications/codex_keys/src/codex_json.c:77-125 | for every printed object the answer is the raw text of the first top-level member with that raw name, or none if absent |
| CodexJson.LookupExactlyWhen | applications/codex_keys/src/codex_json.c:80-125 | on any NUL-terminated text, malformed ones included, a lookup finds a value iff a brace and well-shaped members separated by commas stand before it, the first with that name |
| CodexJson.ValueEndExactly | applications/codex_keys/src/codex_json.c:39-75 | a value ends exactly where its string, its brackets or its run of characters does |
| CodexJson.StrEqExactly | applications/codex_keys/src/codex_json.c:127-136 | on printed values, equality holds exactly for the string with that raw text |
| CodexHid.Receiver.ObjectComplete | applications/codex_keys/src/codex_hid.c:62-89 | the scan loop decides completeness of the buffer as specified |
| CodexHid.Receiver.Append | applications/codex_keys/src/codex_hid.c:91-125 | buffer and handler calls after one payload are those of the specification |
| CodexHid.Receiver.SetReport | applications/codex_keys/src/codex_hid.c:127-154 | ignores other reports, strips a forwarded id, drops short ones, clamps the length |
| CodexHid.Send | applications/codex_keys/src/codex_hid.c:176-213 | sends the reports of the framed message, or exactly the prefix before the first refused one, or nothing if too long |
| CodexHid.ReportsCarryTheMessage | applications/codex_keys/src/codex_hid.c:193-208 | the reports are 63 bytes each, typed, counted and zero-padded, and together carry the message whole and in order |
| CodexHid.PayloadExactlyWhen | applications/codex_keys/src/codex_hid.c:136-153 | a report carries a payload exactly in the two accepted forms, with or without a forwarded report id |
| CodexHid.OnlyRequestsAreHandled | applications/codex_keys/src/codex_hid.c:91-125 | whatever reports come in, the handler only gets complete objects that fit the buffer, and none stays complete in it |
| CodexHid.OverflowDropsAll | applications/codex_keys/src/codex_hid.c:111-115 | a fragment that would overflow takes the whole buffer away |
| CodexHid.CompleteExactlyFrom | applications/codex_keys/src/codex_hid.c:62-89 | no proper prefix of a whole object completes; every longer text does |
| CodexHid.DeliversOnce | applications/codex_keys/src/codex_hid.c:91-125 | from any buffer state, a message's reports hand its text to the handler exactly once, save a trailing newline, and leave the buffer empty |
| CodexHid.DeliveredExactlyWhen | applications/codex_keys/src/codex_hid.c:93-97 | and they do so iff no later fragment starts like a new request |
| CodexMessages.PrintedIsWhole | applications/codex_keys/src/codex_hid.c:62-89 | every printed JSON object completes exactly at its own last brace |
| CodexMessages.RequestArrives | applications/codex_keys/src/codex_hid.c:91-125 | a printed request is delivered once from any state and any key then finds its first top-level member |
| CodexMessages.WellformedRequestLost | applications/codex_keys/src/codex_hid.c:93-97 | a well-formed request within both sides' limits, with a nested method member at the second fragment's start, is never delivered |
| Teleop.Stick.Step | applications/joystick_controller/src/teleop.c:26-67 | the in-place step does the specified transition and publication |
| Teleop.Stick.GraspStep | applications/joystick_controller/src/teleop.c:69-77 | the same for the gripper |
| Teleop.Stick.Reset | applications/joystick_controller/src/teleop.c:79-82 | the reset state, blocked |
| Teleop.MotionExactlyWhenArmed | applications/joystick_controller/src/teleop.c:26-67 | a tick drives the robot iff deflected and, since enable was last off or mod last changed, centred while enabled, with enable seen off before; a mod change in the middle of motion spends its tick on the stop and does not arm; all read off the inputs alone |
| Teleop.ModChangeSpendsItsTick | applications/joystick_controller/src/teleop.c:34-44 | after such a change neither that tick nor the next one moves, even with the stick centred at once |
| Teleop.OneStopPerBurst | applications/joystick_controller/src/teleop.c:16-24 | a stop is published exactly at the tick after motion that is not motion; motion is never followed by silence |
| Teleop.MotionFollowsTheStick | applications/joystick_controller/src/teleop.c:54-66 | each axis drives its own component in proportion up to full deflection and at the limit beyond, mod selecting lift, pitch and roll, and nothing else moves |
| Teleop.MotionIsNotZero | applications/joystick_controller/src/teleop.c:56-67 | with positive limits an all-zero twist is always such a stop |
| Teleop.PublishedWithinLimits | applications/joystick_controller/src/teleop.c:5-8 | no published component exceeds its limit, whatever the axes report |
| Teleop.GraspFollowsSwitch | applications/joystick_controller/src/teleop.c:69-77 | the gripper is commanded exactly when its live switch differs from the last live one |
| Teleop.OnlySinceReset | applications/joystick_controller/src/teleop.c:79-82 | every run is the run of the ticks since the last link loss |
| Teleop.TrueSpanIsLargest | applications/joystick_controller/src/teleop.c:84-96 | the span is the largest symmetric one that fits |
| Teleop.CalibratedExactlyWhen | applications/joystick_controller/src/teleop.c:84-96 | the promise holds iff no 16-bit store wraps on the accepting path |
| Teleop.InsideNeverWraps | applications/joystick_controller/src/teleop.c:84-96 | with rest inside the swept range the result is right for all inputs |
| Teleop.WrappedSpanWitness | applications/joystick_controller/src/teleop.c:84-96 | outside it, a rejected calibration can be accepted |
| CamMgmt.PageIsSlice | applications/data_collection/src/cam_mgmt.c:315-331 | a page is the frame's bytes from its offset, exactly as many as asked for, at most 1024, or all that are left; eof marks exactly the last page; past the end only the end |
| CamMgmt.AnswersComeFromTheNamedFrame | applications/data_collection/src/cam_mgmt.c:319-325 | after any captures, READ for seq q answers from the q-th good frame iff that was the last capture, else ENOENT |
| CamMgmt.Pull | applications/data_collection/README.md:84-90 | the client loop ends with any lengths and any interleaved captures, with the whole named frame or nothing |
| CamMgmt.Camera.Read | applications/data_collection/src/cam_mgmt.c:297-343 | the handler's clamping gives the specified answer |
| CamMgmt.Camera.Release | applications/data_collection/src/cam_mgmt.c:152-155 | a released buffer is neither free already nor with the driver, so nothing is released twice |
| CamMgmt.Camera.Drain | applications/data_collection/src/cam_mgmt.c:226-231 | releases everything handed back except, by identity, the retained frame, even if a driver hands that back |
| CamMgmt.Camera.Capture | applications/data_collection/src/cam_mgmt.c:136-235 | on every exit path each pool buffer is free or the one retained frame and the queues are empty; readers see the new frame iff every step worked |
| CamMgmt.Camera.CaptureAll | applications/data_collection/src/cam_mgmt.c:136-235 | over any sequence of captures no buffer is lost and readers see the history of outcomes |
| CamMgmt.HandedOver | applications/data_collection/src/cam_mgmt.c:220-231 | once the stream is stopped each buffer is free, handed over once, or the frame |
| StackUsage.Prune | scripts/stack_usage.py:482-485 | the removing-while-iterating loop, index and first-equal removal included |
| StackUsage.RemovesTheFirst | scripts/stack_usage.py:482-485 | the element removed is the first equal one and the rest keeps its order |
| StackUsage.CheckStacks | scripts/stack_usage.py:498-511 | the heavier stack, the current one on a tie |
| StackUsage.MaxMemUsage | scripts/stack_usage.py:442-485 | the walk computes the specified report |
| StackUsage.PrunedKeeps | scripts/stack_usage.py:482-485 | pruning never drops a frame above the next call |
| StackUsage.PathStep | scripts/stack_usage.py:449-469 | in a preorder list the next call's ancestors are the front of the current path |
| StackUsage.HeaviestStackIsReported | scripts/stack_usage.py:442-485 | every root has its one entry, in order, and it is the heaviest stack weighed at a leaf of its tree |
| StackUsage.NeverUnderstates | scripts/stack_usage.py:442-485 | that entry is at least every root-to-leaf path sum of the tree and at most the whole tree |
| StackUsage.TidyStackIsPath | scripts/stack_usage.py:482-485 | as long as no call returns by more than one level inside a tree, the stack is the current path, nothing more |
| StackUsage.TidyIsExact | scripts/stack_usage.py:442-485 | on such a list every entry is the largest root-to-leaf path sum, attained by one |
| StackUsage.UntidyOverstates | scripts/stack_usage.py:482-485 | on any other shape some usages make an entry exceed every path |
| StackUsage.ExactExactlyWhenTidy | scripts/stack_usage.py:442-485 | so the report is exact for all usages iff the shape is tidy |
| StackUsage.OverstatesWitness | scripts/stack_usage.py:482-485 | a four-call tree whose report exceeds its heaviest path |
| HttpUtil.ParseU32 | applications/common/http_util/http_util.c:119-150 | accepts exactly decimal or 0x/0X hexadecimal numerals below 2^32, with their value; the 64-bit accumulator never overflows |
| HttpUtil.PrintedNumbersParse | applications/common/http_util/http_util.c:119-150 | both printed forms of every 32-bit number are read back |
| HttpUtil.UpperNumbersParse | applications/common/http_util/http_util.c:119-150 | so is the form with upper-case digits after 0X |
| HttpUtil.HexDigitsExactly | applications/common/http_util/http_util.c:119-150 | hexadecimal digits are exactly 0-9, a-f and A-F, case not mattering |
| HttpUtil.NoDigitsNoNumber | applications/common/http_util/http_util.c:119-150 | a text without digits, or with any other character, is refused |
| HttpUtil.ParseIpv4 | applications/common/http_util/http_util.c:64-103 | the octet loop decides as specified and never leaves 32 bits |
| HttpUtil.AcceptedExactlyWhenDotted | applications/common/http_util/http_util.c:64-103 | accepted iff four dotted groups of one to three digits, each at most 255 |
| HttpUtil.DottedParses | applications/common/http_util/http_util.c:85-97 | and the address is the one the groups spell |
| HttpUtil.PrintedAddressesParse | applications/common/http_util/http_util.c:64-103 | inverts the dotted-quad printer |
| HttpUtil.QueryGet | applications/common/http_util/http_util.c:13-55 | copies the looked-up value whole and terminated, or leaves out empty with the documented error |
| HttpUtil.QueryFlag | applications/common/http_util/http_util.c:57-62 | true iff the key's value is exactly "1" |
| HttpUtil.PairsRejoin | applications/common/http_util/http_util.c:31-52 | the pairs are the query cut at every ampersand |
| HttpUtil.FirstValueIsFirst | applications/common/http_util/http_util.c:35-46 | the value is that of the first pair starting with the key and an equals sign |
| HttpUtil.PrintedQueriesLookUp | applications/common/http_util/http_util.c:13-55 | in every printed query a key finds the first parameter of that name |

## Left out

- The pstop_c library is not part of this model: decoding a received frame and verifying its checksum arrive as inputs, and a received message type is UNBOND or any other. Encoding follows the documented 48-byte layout.
- Generation and frame-sequence counters are unbounded; `Observer.CountsTheSwitch` therefore speaks of runs of fewer than 2^32 ticks.
- Threads: in Threads and Handshake, begin_tick's writes are one step for each slot or stamp, as are each per-slot build and poll; clearing both request sets, reading both stamps, and comparing with sending and reporting (both samplers being quiet then) are one step each; the memory model is sequentially consistent. The threads' diagnostics and latency maxima are left out; the synchronous comparator has the diagnostics.
- Estop.Channel.Sample: driving the loop and the settle delay are outside; the two read-backs are inputs.
- Session.PeerSession.Poll: log lines are not modelled.
- Health.Keeper.Poll: wear and mismatch warnings, the warning board and snapshots are not modelled.
- Health.Keeper.constructor: hashing of the build string is an input.
- Teleop: axis scaling is over reals, so rounding of doubles is not captured.
- MismatchFilter: its theorems are about non-decreasing times; pixel composition, blink patterns and colours of the ring are left out.
- CamMgmt.Camera.Capture: format choice and cache-line rounding are inputs; stopping the stream is taken to move every queued buffer to the done queue; response encoding errors are left out.
- CodexHid.Receiver.SetReport: Bluetooth registration and the handler's own work are left out.
- CodexHid.Send: the inter-fragment delay and the transmit lock are left out.
- StackUsage.MaxMemUsage: one object file's list at a time; extracting it from DWARF is left out.
- HttpUtil: Basic authentication is left out.
- Display, USB, Wi-Fi supervision, HTTP routing, power statistics, motor mixing and shell commands: no invariant deeper than their body.
