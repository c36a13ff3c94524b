# Build-to-target motor output: a verified model

A Dafny model of the BuildToTarget motor-output stack and of the FreeRTOS data structures it runs on,
with proofs of what they keep over every run. It covers the shipped profile (`SD700_BUILD_TO_TARGET=1`).

`dafny verify dfyconfig.toml` checks everything.

## What is modelled

- **Executor** (`ExecutorSpec`, `ExecutorSafety`, `ExecutorTheorems`, `FailingCalls`, `AcceptedCalls`,
  `MissedDisable`, `OutputAuthority`, `OwnerHistory`, `OneRest`): the
  owner, its segments, BRAKE, the exposure ledger, the rest epoch and the TIM5 cutoff as one state machine over
  unbounded time in microseconds. Main-loop calls, timer interrupts (also those met inside a call), failing
  hardware and the passing of time are its events; the theorems quantify over every sequence of them.
- **Executor as it is written** (`ExecutorWords`, `Executor`, `StopTimer`): the same calls as methods over 32-bit
  words and over the registers of TIM5 (counter, compare, reload, flags). Each method is proved to do to its words
  what the unbounded function does to true time, and a whole run from boot on the words to be the run over true
  time (`Executor.Live`), so every theorem above is one about the words.
- **Source** (`Source`, `SourceLadder`, `SourcePush`, `SourceFilter`): the adaptive pulse ladder, its filters and
  latches, as a class with the original's variables. It does not consult the executor's envelope (`Admission`);
  that its requests fit the envelope is a theorem.
- **Machine and plan protocol** (`BuildMachine`, `SessionTime`, `PlanProtocol`, `StartAuthority`): the no-response
  budget, the target, the one request per frame, and what the budget and the executor's rest epochs together
  allow one session; and the begin/stage/commit/read/acknowledge/arm transaction behind one START.
- **Trajectory and servo** (`Trajectory`, `Servo`): the cubic reference in real arithmetic.
- **FreeRTOS** (`Timers`, `List`, `StreamBuffer`, `Queue`): two timer lists across the wrap of the tick, the pointer
  ring, the byte ring and the copy-in queue, each against a plain sequence.

## Assumptions

- Intervals the firmware compares by the sign of a difference are shorter than 2^31 ms, intervals between two looks of
  the timer task shorter than 2^32 ticks. For a run of the executor this is one bound (`Executor.Paced`): from a moment
  at which nothing runs and no answer is awaited to the next such moment less than 2^31 ms less 66 seconds pass, and no
  reported frame is older than 65 seconds. From it the conditions each single call states are derived.
- A bridge whose disable did not read back is in an unknown state and may be driving. `MissedDisable` says what holds of
  it: the cutoff, the account and the rest cover every bridge not known to be OFF exactly under the conditions on
  the run's events stated there. Statements about a bridge that "drives or brakes" are about one commanded to.
- The millisecond tick is fixed inside a critical section, except where the code re-reads it; the time that passes
  there, and in the hardware calls, is a parameter, less than a minute where it is met inside a transition of the
  timer. Turning a lease into a pulse's cutoffs takes place within one tick. A receive tick is never later than the call that reports it.
- TIM5 counts at exactly 10 kHz. Volts, newtons and the reference are reals; the ladder's voltages are whole millivolts.
- Answers of the hardware (a disable that does not read back, a failed configuration read, a timer that does not
  start) are free parameters of every call.
- The machine looks at a frame right after its safety check of the same tick, as its only callers do.

## What the proofs found

- A pulse end served before its hard deadline is not always handed over: within the timer's last count (100 us) the
  hand-over is refused and the owner ends OFF (`LastCountIsTooLate`; exact condition in `FinishExactly`).
- Nor is an end by the main loop: when it meets the pulse's own compare, however far the hard deadline, it serves that
  interrupt, throws away the BRAKE it may have led to, ends OFF with the owner closed and demands the full rest
  (`EndMeetsCompare`; `EndInTime` is exact, `EndTooLate` says what always condemns).
- A disable that does not read back cancels the cutoff and closes the account all the same: after such a STOP whatever the
  output still does is neither cut off nor charged (`MissedStopEscapes`). Over any run, a cutoff is in force at every
  moment at which the bridge is not known to be OFF, exactly when the only missed disables are the bridge's own
  falls while a cutoff was armed (`CutoffAlwaysInForce`); and all such time is charged, exactly when each missed disable
  was such a fall or a guard's, with a segment or BRAKE on (`LedgerIsConserved`).
- "Continuous verified OFF" is verified where the rest starts, not throughout: a failing disable that no accounting
  call sees does not restart the 108 s (`UnseenFailureDoesNotRestartRest`). The bridge is OFF at every moment of a rest
  that ends an epoch exactly when no event since OFF was verified ran a disable that did not read back (`RestIsOffExactly`).
- An approach ended by BRAKE leaves the executor waiting for an answer the machine does not know it owes: every later
  request of that owner is refused (`EndedApproachIsStuck`), and the machine's next request is the session's fault
  (`EndedApproachFaults`).
- `xQueueOverwrite` on a queue of more than one slot breaks the link between its two positions; the assertion that
  would forbid it is commented out (`MovesStayLinked` gives the exact condition).
- From 800 N on, a pulse nearer the target than the one before it can be stronger or longer; below 800 N it never is
  (`CloserIsGentler`). It is so exactly on entering the last 10 N, under the conditions of `HarderExactly` (volts) and
  `LongerExactly` (width). Nearer means by at least the one newton a frame can tell; less is a stall, and a stall
  climbs at any target (`StallPushesHarder`).
- From 800 N on the last half volt depends on where a session has been: a stall that does not end comes to 12 V, but
  only to 11.5 V once the pressure was within 20 N of the target and not yet within 10, or within 3 (`UnendingStall`).
- A pulse whose end tick happens to be 0 reads as "no pulse ended", and the next pulse does not wait for the settling time
  asked for (`PulsedAgain` shows both sides; `Step` says the only other case is a pulse that arrives in the last 3 N and
  is braked on tick 0). The executor's own settling test still holds (`SegmentsAreSeparated`).
- The servo's integral can grow against a limited output: it does exactly while the error times its gain exceeds the
  tracking gain times what was not committed (`WindsUpExactly`, `WindsUpWhileLimited`).
- The response clock drops what a look finds beyond its budget. Only a look that ends the session or sees a new epoch
  can drop any (`Safety`, `ResponseTimeIsBounded`); were a frame weighed later than the check before it, a gain could
  forgive time never charged.
- A message of length zero writes its length prefix behind the head without ever committing it, and reports 0.

## Model

| member | source | states |
|---|---|---|
| MissedDisable.CutoffAlwaysInForce | Board/Motor/motor_executor_real.c:1238-1394 | over every run from boot: at every moment a bridge not known to be OFF has TIM5 armed, healthy and enabled to interrupt no later than 130 ms after the receive tick of the frame that last authorised or renewed it, if and only if each disable the run missed was the bridge's own fall while a cutoff was armed |
| MissedDisable.CutoffExactly | Board/Motor/motor_executor_real.c:368-411 | at any one moment that is so if and only if the last disable that was run read back or a cutoff is still armed |
| MissedDisable.UnknownExactly | Board/Motor/motor_executor_real.c:67-82 | the bridge is in an unknown state if and only if the last disable that was run did not read back, each event's guard saying whether it runs one |
| MissedDisable.StepAnswers | Board/Motor/motor_executor_real.c:198-1394 | event by event: a disable leaves OFF or unknown as it read back, cancels the cutoff and, but for the guard's, closes the account; nothing else changes what is known, and OFF is dated only where it is |
| FailingCalls.StartFailsExactly | Board/Motor/motor_executor_real.c:1238-1318 | a start is refused outright if and only if the owner, its order or what runs forbids it, and turns everything off if and only if, that passed, one of its checks fails: rest, age, what it begins from, the envelope, the approach budget, or a cutoff that cannot be armed or passes while the bridge is energised; each guard is written out on the state, the request and the delays |
| FailingCalls.EndFailsExactly | Board/Motor/motor_executor_real.c:1319-1352 | so does an end of a running segment, if and only if it cannot be handed over in time |
| FailingCalls.RefreshFailsExactly | Board/Motor/motor_executor_real.c:1370-1394 | so does a renewal of a running lease, if and only if the lease is broken or its compare passed; it is refused outright exactly for its owner, age and order |
| FailingCalls.PostsExactly | Board/Motor/motor_executor_real.c:1353-1367 | an answer is taken if and only if it bears the open owner's token and its last request, is newer than the frame that started it, received after the end and at most 20 ms old, and BRAKE holds under a cutoff ahead of both deadlines, or the output is OFF and idle; taking it clears the mark and touches nothing else |
| AcceptedCalls.StartLeaves | Board/Motor/motor_executor_real.c:1277-1310 | an accepted start leaves exactly the segment asked for: started now, its deadlines, its least duty, its hard limit reserved, what it continues from charged to the millisecond, the log, and a cutoff on its normal and hard widths within one count |
| AcceptedCalls.RefreshLeaves | Board/Motor/motor_executor_real.c:1376-1387 | an accepted renewal leaves the new deadline, the compare in the millisecond before it, and all else as it was |
| AcceptedCalls.HandOverLeaves | Board/Motor/motor_executor_real.c:1214-1237 | a hand-over charges the pulse from its start to now, brakes from now on the lease of its frame, and awaits the answer |
| AcceptedCalls.ApproachLeaves | Board/Motor/motor_executor_real.c:1214-1237 | so does the end of an approach |
| AcceptedCalls.BeginGrants | Board/Motor/motor_executor_real.c:1200-1212 | an owner is opened if and only if output may be armed and the executor is rested, idle, healthy and OFF; its token is the next, never 0 |
| AcceptedCalls.StopLeaves | Board/Motor/motor_executor_real.c:368-411 | STOP succeeds if and only if the disable reads back; either way it closes, cancels, clears the pending event and charges what ran to now |
| AcceptedCalls.SnapshotIsChargedByStop | Board/Motor/motor_executor_real.c:1187-1192 | the exposure a snapshot reports is exactly what a STOP at that moment would leave charged |
| AcceptedCalls.LeaseRunsOut | Board/Motor/motor_executor_real.c:198-223 | a lease that runs out ends OFF, charged, with a backstop for the main loop |
| AcceptedCalls.PulseRunsOut | Board/Motor/motor_executor_real.c:198-223 | a pulse that meets its overflow ends OFF with a backstop for the main loop, one that cannot be handed over with an error; both charged and ended late |
| AcceptedCalls.FailLeaves | Board/Motor/motor_executor_real.c:1311-1315 | the failing tail keeps an event already waiting, charges what ran to now and gives its reason, the hard limit overrun before any other |
| AcceptedCalls.ServiceReports | Board/Motor/motor_executor_real.c:591-712 | what the main loop reports of a timer event, and when it disables the output again |
| AcceptedCalls.ServiceWatches | Board/Motor/motor_executor_real.c:591-712 | without an event it leaves alone exactly a sound running output or a sound rest, and turns off the rest |
| AcceptedCalls.GuardKeepsOrStops | Board/Motor/motor_executor_real.c:739-821 | the guard leaves alone exactly a request that runs as planned under a sound timer, and otherwise turns off at once without touching an account |
| AcceptedCalls.PulseFollowsPulse | Board/Motor/motor_executor_real.c:1238-1367 | a run from boot in which one owner pulses, is handed over, has its answer taken and pulses again: four log items, 3 ms and 32 ms charged, 7 ms reserved |
| ExecutorTheorems.LitIsCutOff | Board/Motor/motor_executor_real.c:1238-1394 | in every run, whatever disables it missed, a bridge commanded to drive or brake has its cutoff in force and is not counted as resting |
| ExecutorTheorems.PulseCutoffIsFinal | Board/Motor/motor_executor_real.c:1368-1389 | no event whatever moves the compare or the hard cutoff of a pulse that is still running |
| ExecutorTheorems.PassedCompareIsNeverRenewed | Board/Motor/motor_stop_timer_tim5.c:285-304 | feedback extends a lease only while its compare is ahead and nothing is pending; every other answer leaves all off and the owner closed, or changes nothing |
| ExecutorTheorems.FinishExactly | Board/Motor/motor_executor_real.c:1214-1237 | with working hardware the hand-over succeeds if and only if it completes before the hard deadline, the counter had not reached its last count when it was read, and no timer flag is up and the new compare is ahead once the registers are written |
| ExecutorTheorems.FinishInTime | Board/Motor/motor_executor_real.c:1214-1237 | a pulse handed over leaves its owner open and braking, 2 to 130 ms of lease ahead, charged between 1 and its reserved `hard_ms`, nothing refunded |
| ExecutorTheorems.EndInTime | Board/Motor/motor_executor_real.c:1319-1352 | a reduction by the main loop ends braking exactly when the compare is not met and the hand-over completes in time, and otherwise ends OFF with the owner closed; one that meets the compare also demands a full rest |
| ExecutorTheorems.EndMeetsCompare | Board/Motor/motor_stop_timer_tim5.c:166-175 | a concrete run in which an end half a millisecond before the hard deadline meets the compare and condemns the motor to a full rest, though the interrupt alone would have ended braking |
| ExecutorTheorems.CompareInTime | Board/Motor/motor_stop_timer_tim5.c:198-263 | the compare interrupt ends a pulse braking exactly when the hand-over completes before the deadline and before the last count |
| ExecutorTheorems.LastCountIsTooLate | Board/Motor/motor_stop_timer_tim5.c:312-318 | a concrete run in which a compare served before the hard deadline still ends OFF, because the counter stands on its last count |
| ExecutorTheorems.EndTooLate | Board/Motor/motor_executor_real.c:1330-1338 | an end at or after the hard deadline, or one met by a stopped, unhealthy or flagged timer however early, closes the owner, turns all off and demands a full rest |
| ExecutorTheorems.InterruptTooLate | Board/Motor/motor_executor_real.c:198-223 | so does an interrupt at or after it |
| ExecutorTheorems.SegmentsAreSeparated | Board/Motor/motor_executor_real.c:1246-1253 | in every run, two consecutive segments of an owner are separated by an end within the hard limit, a newer frame received after that end, and the settling time of the first; only a running approach continues straight into a pulse |
| ExecutorTheorems.OwnersRunInOrder | Board/Motor/motor_executor_real.c:1200-1352 | in every run an approach is only ever an owner's first segment, and nothing follows the close |
| ExecutorTheorems.OutputHasOneOwner | Board/Motor/motor_executor_real.c:1200-1352 | in every run segment and BRAKE are never both active, and without an open owner nothing drives, brakes or counts |
| ExecutorTheorems.StaleTokenIsInert | Board/Motor/motor_executor_real.c:1246-1247 | a start, end, post or refresh with a stale token, or after the close, changes nothing at all |
| MissedDisable.LedgerIsConserved | Board/Motor/motor_executor_real.c:42-82 | over every run the reported exposure covers every microsecond in which the bridge was not known to be OFF, now and however long nothing more happens, if and only if each missed disable was a guard's or the bridge's own fall, with a segment or BRAKE on |
| MissedDisable.MissedStopEscapes | Board/Motor/motor_executor_real.c:372-385 | a concrete run in which a STOP that did not read back leaves possible output without cutoff and uncharged |
| ExecutorTheorems.LedgerBalances | Board/Motor/motor_executor_real.c:42-82 | in every run the exposure covers all such time but what passed with the bridge unknown and no account open; reservations cover each segment's hard limit and real use, and an epoch holds at most one approach, of exactly 8000 ms and 40,000,000 command-ms |
| ExecutorTheorems.ChargesOnlyGrow | Board/Motor/motor_executor_real.c:42-98 | in every run no event lowers a charge of the running epoch; the only way down is a new epoch |
| MissedDisable.RestIsOffExactly | Board/Motor/motor_executor_real.c:67-98 | when an epoch ends, OFF was verified at least 108000 ms before, and the bridge was OFF at every moment since if and only if no event since ran a disable that did not read back |
| MissedDisable.EpochNeedsRest | Board/Motor/motor_executor_real.c:84-98 | without such an event, an epoch ends only 108000 ms after the bridge was last anything but OFF |
| ExecutorTheorems.RestIsDark | Board/Motor/motor_executor_real.c:84-98 | with or without, only 108000 ms after it was last commanded to drive or brake |
| OneRest.OneRestPerOwner | Board/Motor/motor_executor_real.c:84-98 | in every run the exposure epoch changes at most once while one owner is open, the call that opened it included |
| ExecutorTheorems.StopsNeverRenewRest | Board/Motor/motor_executor_real.c:65-71 | over any sequence of stops, services, guards and waiting, the verified-OFF instant a rest counts from does not move |
| ExecutorTheorems.RestCompletes | Board/Motor/motor_executor_real.c:84-98 | 108000 ms after OFF was first verified the next look clears every account and starts the next epoch |
| ExecutorTheorems.UnseenFailureDoesNotRestartRest | Board/Motor/motor_executor_real.c:67-71 | a concrete run in which a disable that did not read back, unseen by any accounting call, does not restart the rest clock |
| OutputAuthority.DriveIsAdmitted | Board/Motor/motor_executor_real.c:1238-1318 | whatever the event, the bridge starts to drive only for a START by the open owner, inside the envelope, on a frame at most 20 ms old, at the least of 4799 counts that gives the command's share of 24000 mV |
| Admission.DutyIsLeast | Board/Motor/motor_executor_real.c:291-298 | the duty of a command up to the supply is the least count with at least its share of the period, within the period, and grows with it |
| OutputAuthority.NeverLost | Board/Motor/motor_executor_real.c:67-82 | while every disable reads back, no run reaches an unknown bridge state |
| OutputAuthority.EnvelopeSuffices | Board/Motor/motor_executor_real.c:1263-1276 | a request inside the envelope, on a fresh frame and for the owner's target, passes admission if and only if it is not an approach out of BRAKE |
| OutputAuthority.EndedApproachIsStuck | Board/Motor/motor_executor_real.c:1246-1247 | after an approach is ended by BRAKE, over any events but a post, every request of that owner is refused while it stays open |
| OwnerHistory.SegmentsFollow | Board/Motor/motor_executor_real.c:1246-1253 | what a legal owner log says of two consecutive segments, without the automaton that reads it |
| OwnerHistory.LegalOrder | Board/Motor/motor_executor_real.c:1200-1212 | an approach comes first, a rest only before it, a close last |
| OwnerHistory.PrefixLegal | Board/Motor/motor_executor_real.c:1238-1352 | every prefix of a legal log is legal, and none but the whole is closed |
| OwnerHistory.ShapeOf | Board/Motor/motor_executor_real.c:1238-1367 | the automaton's state names the last segment, its end and its answering frame |
| ExecutorSafety.StepKeeps | Board/Motor/motor_executor_real.c:198-1394 | every main-loop call, interrupt and mishap keeps the invariant, takes time forward and refunds nothing within an epoch |
| ExecutorSafety.RunKeeps | Board/Motor/motor_executor_real.c:313-365 | hence the invariant holds after every run from boot |
| ExecutorSafety.FinishPulseKeeps | Board/Motor/motor_executor_real.c:1214-1237 | a hand-over ends in BRAKE under a live lease or leaves the pulse under its own cutoff |
| ExecutorSafety.ExpiredKeeps | Board/Motor/motor_executor_real.c:198-223 | a timer event ends OFF with the owner closed, or turns a pulse it met in time into BRAKE |
| ExecutorSafety.IrqKeeps | Board/Motor/motor_stop_timer_tim5.c:198-263 | so does the interrupt as a whole, whatever the flags read |
| ExecutorSafety.CommittedKeeps | Board/Motor/motor_stop_timer_tim5.c:155-181 | a commit succeeds only on an unflagged timer and an open owner, and otherwise has served the event |
| ExecutorSafety.RenewKeeps | Board/Motor/motor_stop_timer_tim5.c:285-304 | a renewal leaves the cutoff no later than the new receive deadline, or fails safe |
| ExecutorSafety.RestKeeps | Board/Motor/motor_executor_real.c:84-98 | clearing the ledger happens only from a completed dark interval |
| ExecutorSafety.StartKeeps | Board/Motor/motor_executor_real.c:1238-1318 | a start either launches a segment under an armed cutoff, with its reservation, or ends with everything off |
| ExecutorSafety.EndKeeps | Board/Motor/motor_executor_real.c:1319-1352 | an end leaves BRAKE or nothing running |
| ExecutorSafety.PostKeeps | Board/Motor/motor_executor_real.c:1353-1367 | a post answers the last segment once, under the standing lease |
| ExecutorSafety.RefreshKeeps | Board/Motor/motor_executor_real.c:1370-1394 | feedback never lengthens a pulse |
| ExecutorSafety.ServiceKeeps | Board/Motor/motor_executor_real.c:591-712 | serving a completion leaves no output without cutoff |
| ExecutorSafety.GuardKeeps | Board/Motor/motor_executor_real.c:739-821 | the guard only ever takes output away |
| ExecutorSafety.FailOffIsDead | Board/Motor/motor_executor_real.c:1310-1316 | the failing tail leaves nothing on and the owner closed, whatever the hardware answers |
| ExecutorWords.PulseWords | Board/Motor/motor_executor_real.c:42-55 | on 32-bit words the end of a pulse charges, closes and demands rest exactly as in true time |
| ExecutorWords.RestWord | Board/Motor/motor_executor_real.c:84-98 | the wrapped rest test is the one on true distance modulo the word |
| ExecutorWords.DeadlineWords | Board/Motor/motor_executor_real.c:140-144 | the sign-bit deadline tests are the true comparisons while the marks stay near |
| ExecutorWords.ReserveWords | Board/Motor/motor_executor_real.c:1277-1296 | admission's word arithmetic is the true reservation |
| ExecutorWords.RenewalWord | Board/Motor/motor_executor_real.c:1380-1382 | the renewed deadline, and the lease armed for it, are the true ones |
| ExecutorWords.SnapshotWord | Board/Motor/motor_executor_real.c:1187-1192 | the reported exposure is the true one, modulo the word |
| Executor.Executor.Step | Board/Motor/motor_executor_real.c:198-1394 | any one call, interrupt or mishap on the 32-bit words and the registers of TIM5 is exactly one event of a run over true time and keeps the invariant |
| Executor.Executor.Play | Board/Motor/motor_executor_real.c:198-1394 | so is any sequence of events on the words, under one bound on the time between idle moments |
| Executor.Live | Board/Motor/motor_executor_real.c:313-365 | from boot the words live through any such sequence as true time does, so what holds of every run holds of them: the cutoff is in force whenever the last disable read back and the bridge is not OFF |
| Executor.Executor.constructor | Board/Motor/motor_executor_real.c:313-365 | after a boot the rest is required and nothing is owned |
| Executor.Executor.RecordPulseEnd | Board/Motor/motor_executor_real.c:42-55 | the words after a pulse's end stand for the unbounded state after it |
| Executor.Executor.ChargeBrake | Board/Motor/motor_executor_real.c:58-64 | the same for the wall time of BRAKE |
| Executor.Executor.ConfirmOff | Board/Motor/motor_executor_real.c:67-71 | the same for OFF verification |
| Executor.Executor.RecordOff | Board/Motor/motor_executor_real.c:72-82 | the same for a shutdown |
| Executor.Executor.RefreshRest | Board/Motor/motor_executor_real.c:84-98 | the same for the rest and its new epoch |
| Executor.Executor.FinishPulse | Board/Motor/motor_executor_real.c:1214-1237 | both re-reads of the tick and the remaining lease, computed on words, decide the hand-over as in true time |
| Executor.Executor.FinishApproach | Board/Motor/motor_executor_real.c:1214-1237 | the same for an approach, whose lease is renewed instead |
| Executor.Executor.Expired | Board/Motor/motor_executor_real.c:198-223 | only a normal compare of a pulse can end braking; every other expiry ends OFF with its event latched |
| Executor.Executor.Irq | Board/Motor/motor_stop_timer_tim5.c:198-263 | the flags in the registers lead to the event of the true instants, and a racing overflow is never acknowledged away |
| Executor.Executor.CommitArm | Board/Motor/motor_stop_timer_tim5.c:155-181 | a pending flag is served before anything is committed |
| Executor.Executor.RenewLease | Board/Motor/motor_stop_timer_tim5.c:285-304 | a lease is extended only unflagged; its sign test can find no passed compare the flags did not show |
| Executor.Executor.FailOff | Board/Motor/motor_executor_real.c:1310-1316 | the failing tail restores a consistent timer even after a refused change of cutoffs |
| Executor.Executor.BeginBuild | Board/Motor/motor_executor_real.c:1200-1212 | a new owner, never with token zero, only where output may be armed at all |
| Executor.Executor.StartSegment | Board/Motor/motor_executor_real.c:1238-1318 | frame age, settling, lease left, approach budget, deadlines and both cutoffs computed on wrapped words give the outcome they have in true time, on every path, also when a timer event is met half way |
| Executor.Executor.EndSegment | Board/Motor/motor_executor_real.c:1319-1352 | whether an end came in time is decided on words as in true time, and every late one condemns the owner |
| Executor.Executor.AcceptPost | Board/Motor/motor_executor_real.c:1353-1367 | age, order and deadlines of the answering frame are judged on words as in true time |
| Executor.Executor.Refresh | Board/Motor/motor_executor_real.c:1370-1394 | the renewed deadline is the true one, never past the segment's own, and a lapsed lease is found lapsed |
| Executor.Executor.Disable | Board/Motor/motor_executor_real.c:368-411 | STOP always ends everything, charged, whatever was running and whatever the hardware answers |
| Executor.Executor.Publish | Board/Motor/motor_executor_real.c:225-269 | a late end is published as an error, and any but a normal completion turns output off and charges it first |
| Executor.Executor.Service | Board/Motor/motor_executor_real.c:591-712 | the backstop is compared by sign of the difference as in true time; any inconsistency it finds ends OFF |
| Executor.Executor.Guard | Board/Motor/motor_executor_real.c:739-821 | it leaves a valid active request alone and otherwise only takes output and timer away |
| Executor.Executor.Snapshot | Board/Motor/motor_executor_real.c:1184-1195 | the snapshot refreshes the rest and reports exposure with running time included |
| Executor.Executor.ApproachLeft | Board/Motor/motor_executor_real.c:1279-1284 | the word tests of the approach budget decide as the true ones |
| StopTimer.UpCounts | Board/Motor/motor_stop_timer_tim5.c:131-141 | one hardware count raises each flag exactly at the instant it stands for |
| StopTimer.StopTimer.Elapse | Board/Motor/motor_stop_timer_tim5.c:131-141 | registers keep standing for the unbounded instants as time passes |
| StopTimer.StopTimer.ReadsTrue | Board/Motor/motor_stop_timer_tim5.c:183-191 | armed, overflow and compare as read from the registers are the true ones |
| StopTimer.StopTimer.Cancel | Board/Motor/motor_stop_timer_tim5.c:40-50 | a cancelled timer stands for a cancelled one at any time |
| StopTimer.StopTimer.Arm | Board/Motor/motor_stop_timer_tim5.c:104-153 | two cutoffs on a counter restarted at zero; ranges that do not fit are refused |
| StopTimer.StopTimer.StartLease | Board/Motor/motor_stop_timer_tim5.c:267-283 | a lease on a fresh counter, at most 130 ms |
| StopTimer.StopTimer.Handoff | Board/Motor/motor_stop_timer_tim5.c:312-326 | a pulse's hard cutoff becomes a lease without stopping the counter, not on its last count, and not if a flag rises or the new compare passes while the registers are written |
| StopTimer.StopTimer.PulseCutoffs | Board/Motor/motor_stop_timer_tim5.c:327-338 | a lease becomes a pulse's two cutoffs; one that would wrap past the last count is refused, and one whose flags or last count come while the registers are written |
| StopTimer.StopTimer.MoveLease | Board/Motor/motor_stop_timer_tim5.c:299-303 | only an unflagged lease moves, and only its compare |
| StopTimer.StopTimer.LeaseAhead | Board/Motor/motor_stop_timer_tim5.c:294-298 | an unflagged lease is never read as passed |
| StopTimer.StopTimer.Classify | Board/Motor/motor_stop_timer_tim5.c:221-257 | what the interrupt reads, and that only a normal one-shot compare is acknowledged |
| MachineWord.ReachedExact | Board/Motor/motor_executor_real.c:140-144 | the sign-bit test is the true comparison within half the word circle |
| MachineWord.WrappedNeverLonger | Application/force_build_source.c:984-990 | a wrapped interval never exceeds the true one |
| SourceFilter.AcceptedIsAFrame | Application/force_build_source.c:899-932 | over any frames the accepted pressure is one of them, and doubts are about the latest ones |
| SourceFilter.JumpsAreConfirmed | Application/force_build_source.c:904-921 | consecutive accepted pressures differ by at most 80 N unless three frames in a row agreed within 5 N |
| SourceFilter.ConfirmedIsBelieved | Application/force_build_source.c:904-921 | and such a jump is accepted on the third frame: when nothing is doubted, the third of three frames more than 80 N away that agree with the first becomes the accepted pressure |
| SourceFilter.LastingIsBelieved | Application/force_build_source.c:904-932 | whatever was doubted before, a pressure that stays for three frames is accepted |
| SourceLadder.PulseFits | Application/force_build_source.c:471-537 | every ladder state gives a pulse inside the executor's precision caps |
| SourceLadder.StaysInRange | Application/force_build_source.c:366-439 | level, extra, escape and counters stay in their ranges, and the band never loosens |
| SourceLadder.PushIsEarned | Application/force_build_source.c:339-439 | over any run of first pulses, answers, pauses and resets the push is no higher than the stalls since the last reset, one rung each (two from 800 N on) |
| Source.Source.PushIsEarned | Application/force_build_source.c:339-439 | and the ladder of any session is what such a run makes of it |
| SourceLadder.StallClimbs | Application/force_build_source.c:366-393 | over any run of stalled answers in one band since everything was forgotten, the ladder is exactly: a rung for every second one (two from 800 N on, each answer after a clear fall) up to 32, then up to 3 ms, and from the sixth on an escape step for every second one up to 26 |
| SourceLadder.StalledPulse | Application/force_build_source.c:441-537 | so below 800 N each climb adds exactly 250 mV up to the executor's cap, the caps of the band never in the way, and the 4th, 8th, 12th, 18th, 24th and 30th a millisecond |
| SourceLadder.StalledHighVolts | Application/force_build_source.c:441-537 | from 800 N on 500 mV, until the caps, which follow by 250 mV from the third on |
| SourceLadder.StalledHighWidth | Application/force_build_source.c:445-537 | and exactly which climbs add milliseconds, by band, distance and target |
| SourceLadder.UnendingStall | Application/force_build_source.c:366-537 | a stall that does not end comes to 5.5 V, 7 V or 12 V by target, and to 11.5 V in a session whose tightest band is that of 20 N or 3 N; with exactly these widths |
| SourceLadder.TwelveStalls | Application/force_build_source.c:366-537 | twelve answers without a rise at 1000 N: from 4 V and 3 ms to 6.5 V and 6 ms |
| SourceLadder.RisesSlacken | Application/force_build_source.c:394-407 | over any run of rises: 1 to 2 N keep the ladder, up to 4 N take back two rungs, two escapes and a millisecond each, more than that three, three and two |
| SourceLadder.BandTightens | Application/force_build_source.c:420-439 | on getting nearer than ever exactly 8, 6 or 4 rungs and no escapes are left, and the pulse they give; a high target that was raised by 1 to 2 N keeps all |
| SourceLadder.CloserIsGentler | Application/force_build_source.c:350-541 | in any session below 800 N a pulse nearer the target than the one before it is never stronger or longer, whatever answer, pause or reset lies between and however far the pressure fell back before |
| SourceLadder.HarderExactly | Application/force_build_source.c:350-541 | in any session from 800 N on it is stronger if and only if it enters the last 10 N and the one before was below the new cap; with no escapes left, if and only if the one before stood below rung 8 or had few of them |
| SourceLadder.LongerExactly | Application/force_build_source.c:350-541 | and longer if and only if it enters the last 10 N of a target below 1500 N on a rung that asks for no less, and its band allows more |
| SourceLadder.HighTargetsPushHarderAtTheEnd | Application/force_build_source.c:441-446 | a concrete session at 1000 N: 4 V at 20 N, a pause, 6 V at 10 N |
| SourceLadder.StallPushesHarder | Application/force_build_source.c:368-393 | a concrete session below 800 N in which half a newton nearer is a stall and the pulse stronger |
| SourceLadder.NextPulse | Application/force_build_source.c:339-439 | between two pulses the ladder only backs off, by one answer or to nothing, before the second records its band |
| Source.Source.MovesAreLinked | Application/force_build_source.c:339-541 | every session's moves are such a run: each answer is the change of pressure since the pulse right before it |
| SourcePush.StaysInRange | Application/force_build_source.c:272-337 | the ordinary boost stays in 0 to 9 V, its width in 9 to 12 ms, its near level at most 4 |
| SourcePush.GoodRiseHolds | Application/force_build_source.c:300-322 | a rise of 2 to 8 N, from 1 N on in the last 50 N, changes neither volts nor width |
| SourcePush.StallPushes | Application/force_build_source.c:281-318 | over any run of answers that rise too little, the boost is exactly half a volt for every second one up to 9 V, with a millisecond up to 12 far from the target or a level up to 4 in the last 50 N |
| SourcePush.RisesEase | Application/force_build_source.c:295-328 | over any run of rises above 8 N exactly that is taken back |
| SourcePush.StalledPulse | Application/force_build_source.c:671-713 | and the pulses that gives: from the bare voltage at 9 ms to 10 V at 12 ms far out, to 7 V at 8 ms or 5 V at 4 ms in the last 50 N |
| SourcePush.OrdinaryFits | Application/force_build_source.c:688-713 | every ordinary pulse is inside the executor's caps for its phase |
| Source.BaseIsLinear | Application/force_build_source.c:632-639 | the bare voltage is 0.8 V at 3 N and 3 V at 50 N from the target, and linear between |
| Source.NearestMillivolt | Application/force_build_source.c:223-223 | a command is its voltage to the nearest millivolt |
| Source.CapsAreReached | Board/Motor/motor_executor_real.c:1267-1272 | the executor's caps are tight: a stall comes to each of them, but for 2 ms outside the heavy targets |
| Source.Source.constructor | Application/force_build_source.c:1100-1107 | a session starts with nothing learned |
| Source.Source.PulseBoost | Application/force_build_source.c:272-337 | the step-by-step boost is the one of StallPushes and RisesEase |
| Source.Source.Climb | Application/force_build_source.c:368-393 | a stall climbs as in StallClimbs |
| Source.Source.Slacken | Application/force_build_source.c:397-407 | a strong rise backs off as in RisesSlacken |
| Source.Source.PrecisionObserve | Application/force_build_source.c:362-418 | and pauses exactly on more than 4 N, or more than 2 N in the last 10 |
| Source.Source.PrecisionBand | Application/force_build_source.c:420-439 | the tightest band reached and what reaching it costs |
| Source.Source.PrecisionPulse | Application/force_build_source.c:441-537 | the staged clamps come out as the ladder's one bound on volts and width |
| Source.Source.PrecisionStep | Application/force_build_source.c:659-668 | the precision branch: a pulse, a wait for a new frame, or BRAKE, exactly by the answer to the last pulse |
| Source.Source.OrdinaryStep | Application/force_build_source.c:669-713 | the ordinary branch pulses at the bare voltage plus its boost, inside the caps |
| Source.Source.Pace | Application/force_build_source.c:609-626 | the wait between pulses is over exactly when none ended, the last one settled and a new frame came (two for a low target), or above a low target 400 ms passed |
| Source.Source.OrdinaryPulse | Application/force_build_source.c:669-713 | the volts are the bare ones plus the boost, cut at 10 V far out and never in the last 50 N, where the boost gives way instead |
| Source.Source.MicroMode | Application/force_build_source.c:593-745 | its decision is exactly the verdict of the pressure: brake a pulse that has lasted, wait for one to settle and be seen, and pulse on as its answer allows |
| Source.Source.FineMode | Application/force_build_source.c:747-856 | the same in the last 3 N, always by the ladder |
| Source.Source.FilterFrame | Application/force_build_source.c:899-932 | a frame is counted once however often it is seen; a pressure is accepted if and only if it is within 80 N of the last or the third in a row to agree on another, and what is accepted is below the target |
| Source.Source.HoldBack | Application/force_build_source.c:933-948 | a doubted or fast pressure pauses and forgets what earlier pulses earned |
| Source.Source.WatchNear | Application/force_build_source.c:958-983 | near the target the same, and a pulse that arrived is braked exactly then; a frame close to the last changes nothing |
| Source.Source.ChooseMode | Application/force_build_source.c:1003-1025 | below the target the mode is never HOLD |
| Source.Source.Act | Application/force_build_source.c:1003-1090 | every announced pulse fits the executor's envelope, and the verdict of the pressure is carried out |
| Source.Source.Control | Application/force_build_source.c:949-1090 | a leap or a running pause brakes, any other new pressure is answered by its verdict; contact, latch and band never go back |
| Source.Source.Step | Application/force_build_source.c:1108-1132 | every decision over every frame sequence: a frame taken as it stands is answered exactly by its verdict (approach until contact, brake a pulse that lasted or arrived, wait, or pulse), a leap or a running pause by BRAKE, a frame between control ticks by none; a pulse is inside the executor's envelope, exactly the ladder's or the boost's, never backwards, never while a jump is unconfirmed or within 400 ms of a pause, and only after the settling time given with the last, but for an end tick of 0 and a running pulse braked on arrival on tick 0; OFF exactly at the target |
| Source.PulsedAgain | Application/force_build_source.c:609-626 | a concrete session: the second pulse comes before the settling time asked for if and only if the first ended on tick 0 |
| BuildMachine.Machine.Account | Application/force_build_machine.c:7-16 | driving time outside the approach is charged, up to 45000 ms; all of it is recorded |
| BuildMachine.Machine.CatchUp | Application/force_build_machine.c:67-71 | what a look drives beyond the budget is the time of that one look, and is forgiven only by a new epoch |
| BuildMachine.Machine.SyncEpoch | Application/force_build_machine.c:17-24 | only a new epoch clears the response clock |
| BuildMachine.Machine.StartReady | Application/force_build_machine.c:55-60 | a START needs an answered pulse and response budget left |
| BuildMachine.Machine.Fail | Application/force_servo_machine.c:82-98 | a fault ends the session and refunds nothing |
| BuildMachine.Machine.Stop | Application/force_servo_machine.c:212-224 | STOP refunds nothing |
| BuildMachine.Machine.Safety | Application/force_build_machine.c:67-93 | a session survives the check if and only if its frame is recent, its owner valid, no cutoff passed and budget left outside the approach; unless the epoch changed, all it drove since the last look is then charged |
| BuildMachine.Machine.TargetOff | Application/force_build_machine.c:94-107 | at the target everything is off and only watching remains |
| BuildMachine.Machine.Progress | Application/force_build_machine.c:205-207 | only a post-pulse gain of at least 2 N restarts the clock |
| BuildMachine.Machine.Consult | Application/force_build_machine.c:199-200 | the frame reaches the source with the running pulse and its end tick, an approach counting as neither, and the source's verdict on it comes back |
| BuildMachine.Machine.Decide | Application/force_build_machine.c:198-227 | one decision becomes at most one request, inside the executor's envelope, at the volts and width of the ladder or the boost, spaced by the settling time, for the session's own target |
| BuildMachine.Machine.Respond | Application/force_build_machine.c:176-227 | a frame renews what runs, answers the last pulse, reaches the source and is passed on exactly as it decides: the request, the end, or nothing; any refusal by the executor is a fault |
| BuildMachine.Machine.Pressure | Application/force_build_machine.c:161-230 | no request at or above the target, none on a stale frame, none while watching; below it exactly the request, end or wait the source's verdict calls for, and a gain of 2 N after a pulse restarts the clock |
| BuildMachine.Machine.HandleSample | Application/force_servo_machine.c:353-365 | a frame handled from check to decision: a session that survives the check passes on exactly what the source's verdict on the frame calls for, in the phase it belongs to; and while it drives on outside the approach in one epoch, the distance left to the target and then the budget left go down with every millisecond, in that order |
| BuildMachine.Machine.AtBoundary | Application/force_build_machine.c:167-172 | 3000 N is the target of a 3000 N session, which is then off and watching, and a fault for any other |
| BuildMachine.Machine.Begin | Application/force_build_machine.c:108-130 | a new session measures progress from its first frame, carries the response clock over exactly, unless the epoch changed, and answers that frame with the approach or a pulse, unless the last pulse ended less than 30 ms before or the target is low |
| BuildMachine.Machine.ResponseTimeIsBounded | Application/force_build_machine.c:67-207 | all the time a session drives outside the approach is at most one budget, one more per 2 N gained below the target, and a budget and a look per rest, and a look that ends it |
| SessionTime.DrivingIsBounded | Application/force_build_machine.c:17-93 | for a session whose epochs were read while its own owner was open there is at most one rest |
| SessionTime.EndedApproachFaults | Application/force_build_machine.c:215-227 | after an approach was ended by BRAKE and while no answer is posted, the machine's next request is refused by the executor and faults the session |
| SessionTime.ReadOnce | Application/force_build_machine.c:17-24 | such a session sees at most one new epoch |
| StartAuthority.AuthorisedStays | Transport/Modbus/force_servo_protocol.c:79-84 | an armed plan stays authorised until something supersedes or edits it |
| StartAuthority.AllStayProper | Application/force_servo_machine.c:241-272 | every act keeps all past sessions traced to a request and a commit of their own |
| StartAuthority.StartIsProper | Application/force_servo_machine.c:159-170 | a session started on an untouched request has its own commit, read, acknowledged and armed |
| StartAuthority.SessionsShareNothing | Application/force_servo_machine.c:267-271 | no two sessions share a START or a commit |
| StartAuthority.NewCommit | Transport/Modbus/force_servo_protocol.c:49-74 | versions strictly rise |
| PlanProtocol.Desk.ArmAuthorises | Transport/Modbus/force_servo_protocol.c:79-84 | arming after 12 words read and a matching acknowledgement authorises exactly the commit in force |
| PlanProtocol.Desk.Open | Transport/Modbus/force_servo_protocol.c:41-44 | begin takes back the plan and empties the masks |
| PlanProtocol.Desk.Stage | Transport/Modbus/force_servo_protocol.c:45-48 | a staged word lands in its slot and disarms |
| PlanProtocol.Desk.Acknowledge | Transport/Modbus/force_servo_protocol.c:75-78 | an acknowledged word lands in its slot and disarms |
| PlanProtocol.Desk.CommitPlan | Transport/Modbus/force_servo_protocol.c:49-74 | a commit is taken if and only if whole, of the current version, valid, with its own digest, and the motor quiet |
| PlanProtocol.Desk.Arm | Transport/Modbus/force_servo_protocol.c:79-84 | after it the plan is authorised |
| PlanProtocol.Desk.Write | Transport/Modbus/force_servo_protocol.c:36-107 | which writes are taken and exactly what each leaves in the masks, the words, the plan and the trace; every other one revokes the plan |
| PlanProtocol.Desk.ReadWord | Transport/Modbus/force_servo_protocol.c:168-175 | the float words read back are the words staged, and reading is recorded |
| PlanProtocol.Desk.Start | Application/force_servo_machine.c:241-272 | START is accepted if and only if armed and everything is quiet and ready, and uses the plan up |
| PlanProtocol.Desk.Stop | Application/force_servo_machine.c:212-224 | STOP is always taken and ends all authority |
| PlanProtocol.Desk.ReportFault | Application/force_servo_machine.c:82-98 | so does a fault |
| PlanProtocol.Desk.Reset | Application/force_servo_machine.c:225-228 | clearing a fault gives nothing back |
| PlanProtocol.Desk.SetTarget | Application/force_servo_machine.c:229-232 | a target command revokes the plan and never changes a target |
| PlanProtocol.Desk.Begin | Application/force_servo_machine.c:159-206 | a session takes the target of its own commit, under a number never zero |
| PlanProtocol.Desk.FirstFrame | Application/force_servo_machine.c:413-430 | only a recent frame received since START can start the session, and one that cannot is a fault |
| PlanProtocol.Desk.AwaitFrame | Application/force_servo_machine.c:286-293 | an unanswered START faults after 250 ms, or at once if the motor is not quiet |
| PlanProtocol.Desk.TargetIsFixed | Application/force_servo_machine.c:159-206 | a running session's target is the one its own commit named |
| PlanProtocol.StartsASession | Transport/Modbus/force_servo_protocol.c:36-107 | any valid plan of the current version, staged, committed, read back, acknowledged and armed on a fresh desk, is a session for its own target after START and a new frame |
| Trajectory.ReferenceBetween | Application/force_servo.c:259-264 | the reference stays between start and target and only moves on |
| Trajectory.ReferenceMoves | Application/force_servo.c:259-264 | it moves at most rate times time |
| Trajectory.RateMoves | Application/force_servo.c:263-264 | its rate changes at most acceleration times time |
| Trajectory.RateIsItsSlope | Application/force_servo.c:259-264 | the reported rate is the slope of the reference: over any time it misses the displacement by at most half the acceleration times the time squared |
| Trajectory.ReferenceStarts | Application/force_servo.c:259-264 | it leaves from the start, at rest |
| Trajectory.ReferenceArrives | Application/force_servo.c:259-264 | it ends on the target, at rest |
| Trajectory.ReferenceIsSmooth | Application/force_servo.c:247-264 | all of this between any two moments of any run of steps |
| Servo.TrajectorySeconds | Application/force_servo.c:169-173 | the time is long enough for both limits, and no longer than one of them needs |
| Servo.LimitedIsRamped | Application/force_servo.c:279-281 | only a growing output is ramped, an opposite one from zero |
| Servo.Servo.Init | Application/force_servo.c:242-250 | an accepted start times the cubic for both limits |
| Servo.Servo.Advance | Application/force_servo.c:260-264 | each step keeps the reference on the path inside both limits |
| Servo.Servo.Prepare | Application/force_servo.c:251-288 | accepted exactly for valid inputs; filtered value and derivative move by their share, the demand is that of the gains, the output limited and ramped |
| Servo.Servo.Filter | Application/force_servo.c:265-266 | a filtered value moves by the share of the step in step and time constant, between the old one and the measurement |
| Servo.SmoothedSettles | Application/force_servo.c:265-267 | that share, exactly |
| Servo.Servo.Commit | Application/force_servo.c:289-308 | the integral follows what was committed, stays in bounds, and grows if and only if the error's pull exceeds what the uncommitted part holds back |
| Servo.WindsUpExactly | Application/force_servo.c:289-308 | the same before the bounds; never on an error that asks for less |
| Servo.TracksCommitted | Application/force_servo.c:294-304 | without an error, what a limited output was short of being committed shrinks by a fixed share a step and never turns over |
| Servo.GathersError | Application/force_servo.c:297-304 | a demand committed but for its fraction gathers the error over time |
| Servo.WindsUpWhileLimited | Application/force_servo.c:289-308 | a valid configuration and a limited output against which it grows |
| Timers.TimerTask.Insert | Middlewares/FreeRTOS/timers.c:711-752 | true exactly when the due time has truly passed; else filed for the era it falls in |
| Timers.TimerTask.Reload | Middlewares/FreeRTOS/timers.c:517-533 | it ends, after exactly as many calls as whole periods have passed, and files the next due time after now |
| Timers.TimerTask.ProcessExpired | Middlewares/FreeRTOS/timers.c:536-560 | an expired head is called once for each period and filed again if it reloads |
| Timers.TimerTask.ProcessOrBlock | Middlewares/FreeRTOS/timers.c:599-658 | the task blocks if and only if nothing is due in the running era, and then every timer was called once for each of its periods; otherwise the due head is called or the lists switch |
| Timers.TimerTask.SampleTime | Middlewares/FreeRTOS/timers.c:688-708 | a wrap of the tick is noticed exactly when it happened, and then the lists switch, none lost and none called twice |
| Timers.TimerTask.SwitchLists | Middlewares/FreeRTOS/timers.c:903-926 | it ends with every timer of the ended era called for its periods, none lost and none twice |
| Timers.TimerTask.Start | Middlewares/FreeRTOS/timers.c:816-845 | a command met late makes up exactly the periods it missed; within an era every other timer stays listed as it was |
| Timers.TimerTask.StopTimer | Middlewares/FreeRTOS/timers.c:847-851 | a stopped timer is listed nowhere and called no more; within an era no other timer is touched |
| Timers.TimerTask.ChangePeriod | Middlewares/FreeRTOS/timers.c:853-866 | the first expiry is a whole new period away; within an era no other timer is touched |
| Timers.NothingDue | Middlewares/FreeRTOS/timers.c:617-640 | without a due head, the call count of every timer is the floor of time over period |
| Timers.CalledAgain | Middlewares/FreeRTOS/timers.c:517-533 | k + 1 calls move a timer's due time by k + 1 periods |
| Timers.WithoutOrdered | Middlewares/FreeRTOS/timers.c:799-803 | removing a timer keeps a list in order |
| List.List.constructor | Middlewares/FreeRTOS/list.c:50-72 | an empty ring through its end marker |
| List.List.InsertEnd | Middlewares/FreeRTOS/list.c:87-114 | behind every item the index has yet to visit |
| List.List.Find | Middlewares/FreeRTOS/list.c:133-171 | the search ends, at the stable place of the value |
| List.List.Insert | Middlewares/FreeRTOS/list.c:117-185 | stable sorted insertion, the largest value included; the ring stays whole |
| List.List.Remove | Middlewares/FreeRTOS/list.c:188-214 | exactly this item goes, the count is right, the index steps back if it stood there |
| OrderedList.Position | Middlewares/FreeRTOS/list.c:150-171 | the place behind all equals |
| OrderedList.PutKeepsOrder | Middlewares/FreeRTOS/list.c:117-185 | insertion there keeps the order |
| StreamBuffer.StreamBuffer.BytesInBuffer | Middlewares/FreeRTOS/stream_buffer.c:1231-1249 | the wrapped subtraction is the number of bytes held |
| StreamBuffer.StreamBuffer.SpacesAvailable | Middlewares/FreeRTOS/stream_buffer.c:497-527 | one cell short of the ring |
| StreamBuffer.StreamBuffer.WriteBytes | Middlewares/FreeRTOS/stream_buffer.c:1141-1184 | the two copies land the bytes behind the head and touch no other cell |
| StreamBuffer.StreamBuffer.ReadBytes | Middlewares/FreeRTOS/stream_buffer.c:1187-1228 | the two copies read what the ring holds |
| StreamBuffer.StreamBuffer.Send | Middlewares/FreeRTOS/stream_buffer.c:542-670 | a stream takes what fits, a message is taken whole or not at all; nothing held is disturbed |
| StreamBuffer.StreamBuffer.Receive | Middlewares/FreeRTOS/stream_buffer.c:767-868 | bytes received and held are the bytes accepted, in order; messages come whole and in order, one too long is left untouched |
| StreamBuffer.StreamBuffer.ReceiveMessage | Middlewares/FreeRTOS/stream_buffer.c:968-1017 | the oldest message whole, or nothing and no change |
| StreamBuffer.StreamBuffer.NextMessageLength | Middlewares/FreeRTOS/stream_buffer.c:871-908 | the length of the oldest message |
| MessageFrames.FramesParseBack | Middlewares/FreeRTOS/stream_buffer.c:724-764 | length-prefixed messages parse back to themselves, any number of them |
| MessageFrames.FrameBehind | Middlewares/FreeRTOS/stream_buffer.c:724-764 | appending a message appends its frame |
| MessageFrames.HeaderReadsBack | Middlewares/FreeRTOS/stream_buffer.c:741-760 | a length prefix, least significant byte first, reads back as the length |
| StreamBuffer.Extended | Middlewares/FreeRTOS/stream_buffer.c:1141-1184 | bytes written into free cells extend what is read |
| Queue.MovesStayLinked | Middlewares/FreeRTOS/queue.c:2160-2240 | a send keeps the two positions in step if and only if it is not an overwrite, or the queue has one slot or was empty |
| Queue.OverwriteLosesItsPlace | Middlewares/FreeRTOS/queue.c:814-816 | a concrete overwrite of a two-slot queue that does not |
| Queue.Queue.Reset | Middlewares/FreeRTOS/queue.c:281-284 | an emptied queue |
| Queue.Queue.CopyIn | Middlewares/FreeRTOS/queue.c:2160-2240 | back appends, front prepends, overwrite replaces |
| Queue.Queue.Send | Middlewares/FreeRTOS/queue.c:834-842 | refused only when full, never for an overwrite |
| Queue.Queue.Receive | Middlewares/FreeRTOS/queue.c:1381-1390 | the oldest item leaves |
| Queue.Queue.Peek | Middlewares/FreeRTOS/queue.c:1744-1759 | the oldest item is read and nothing changes |

## Left out

- ExecutorTheorems.RestCompletes: reads the rest from a 32-bit difference, so it asks that fewer than 2^32 ms have passed since OFF was verified.
- BuildMachine.Machine.ResponseTimeIsBounded: bounds time outside the approach only, as the source's clock does (the executor bounds the approach); a look is measured by its 32-bit difference.
- BuildMachine.Machine.Pressure: the executor's answers to the calls it makes are parameters; it asks that the safety check of the same tick came before, as both its callers arrange.
- BuildMachine.Machine.TargetOff: the servo controller's reset integral and the published diagnostics are not part of it.
- BuildMachine.Machine.HandleSample: of a frame whose receive tick the source saw before it says what every decision keeps, not which one is taken.
- SessionTime.DrivingIsBounded: that a look which finds its token valid finds the same owner open since it was opened is asked for, tokens being reused only after 2^32 owners.
- Source.PulsedAgain: a first frame stamped 0 is left out; the filter would take it for one already seen.
- PlanProtocol.Desk.CommitPlan: plan validity, profile validity and the FNV digest are parameters; the config identity and version it also sets are not modelled.
- PlanProtocol.Desk.Begin: the diagnostics and progress fields it clears are not modelled.
- Source.Source.Step: reverse pulses, HOLD and emergency stop are left out of the code it runs; that they cannot be reached is asserted where they would be.
- Servo.Servo.Prepare: NaN and infinity are not represented, nor IEEE rounding.
- Servo.TrajectorySeconds: the square root is any value whose square covers 6 times distance over acceleration.
- Executor.Executor.StartSegment: a failing `MotorExecutor_PlanCommand` is left out, since no admitted command exceeds its supply reference.
- Executor.Executor.RenewLease: no time passes between its reading of the counter and its commit; a compare met in between would stay flagged and be served.
- Executor.Executor.BeginBuild: initialisation and the closed continuous owner it also asks for hold throughout this profile.
- Executor.Executor.Service: it reads the tick itself instead of taking the caller's.
- Executor.Executor.constructor: boots with hardware that initialises.
- Queue.Queue.Send: blocking, item size zero (semaphores), mutexes, queue sets and waking tasks are left out.
- StreamBuffer.StreamBuffer.Send: blocking, trigger levels and waking tasks are left out; message lengths are four bytes.
- Timers.TimerTask.ProcessOrBlock: blocking on the command queue, suspension of the scheduler and callbacks that issue commands are left out.
- List.List.Insert: list integrity check macros are left out.
- The continuous and boost path of the executor and servo machine, which refuses in this profile.
- The separate state machine of `Application/machine.c`, compiled out when the servo is enabled.
- Register, GPIO, UART and NVIC detail below the three bridge states and TIM5's counter, compare, reload and flags.
- Failure stages, last-completion codes, diagnostics, snapshot serialisation and the build-policy checks.
- FreeRTOS tasks, event groups and co-routines; the Python tools and firmware image checks.
