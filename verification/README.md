# Argon utilities: verified core

A Dafny model of the parts of the Argon utilities that must not go wrong while nobody watches: who
may cancel whose poweroff, when the UPS may wake the machine, what reaches the fan, what a serial
reader makes of noise, and what records survive a crash.

Objects that the program updates in place are classes. Each method is proved to do to the object
exactly what a specification function says on values (`Snapshot()`), and the theorems about runs
are lemmas on those functions: a labelled transition system per protocol, with the environment
(operators, refused calls, failed reads, lost replies, restarts, crashes, delays) as arbitrary
inputs of the steps. A sequence of steps is always arbitrary; nothing bounds its length.

| files | what they cover |
|---|---|
| `Clock`, `Logind`, `Coordinator`, `Button`, `Messages` | logind's one pending shutdown, the low-battery coordinator and the case button that share it, and the wall messages that tell their poweroffs apart |
| `History`, `Protocol`, `Ownership`, `ObjectSteps` | all actors interleaved, one operation on logind at a time: ownership, adoption, protection; and the proof that the objects' jobs are these operations |
| `CoordinatorRuns`, `ButtonRuns` | runs of the coordinator: scheduled once, holds, dry run, restart, recovery; runs of presses |
| `Calendar`, `Wake`, `UpsLink`, `WakeRequest`, `WakeLoop` | the UPS's calendar, the wake rules, BCD and the lossy link, one wake transaction, and the timed safety net |
| `Bytes`, `Zigbee`, `ZigbeeStream` | the Z-Stack MT encoder and byte-at-a-time reader, against a parser of whole streams |
| `FanStack`, `FanRuns` | fan task over MCU driver over rate limiter over simulated firmware |
| `Lid`, `LidRuns`, `Radios`, `RadioRecord` | the lid policy and the crash-safe record of radios |
| `Handover` | control requests handed to the UPS thread through a queue and a flag |
| `Descriptor` | trimming a padded HID report descriptor |
| `Text`, `Numbers`, `KeyValue`, `Drift`, `Status`, `SeenUps` | the text records: printers, parsers, the drift record and its rate |

Run `dafny verify dfyconfig.toml` to check all of it.

## How the environment is modelled

Time on the wall clock is in nanoseconds or whole seconds since the epoch, monotonic time is a
natural number. A `Weather` says how each read of logind and each command goes and what everybody
else makes of the slot in every gap between two of them. In `Protocol` there are no gaps: every
read and every command is a step of its own, and `ObjectSteps` proves that the two views agree.
`Attempt`, `Exchanges`, `SetOutcome`, `Writing` and `stuck` do the same for the I2C bus, the serial
link, a file write and the radio switches. Charge levels and battery advice reach the coordinator
as an arbitrary stream of decisions, and the fan curve's output as an arbitrary duty per iteration.

## Results that correct the code's own description

* `Calendar.DateRoundTrips`, `Calendar.ThirtiethOfFebruary`: `to_unix_seconds` is documented as the
  inverse of `from_unix_seconds`. It also accepts days that do not exist, takes 30 February for
  2 March, and is the inverse exactly for real dates.
* `WakeLoop.ExactBound`: the promise that a wake never comes due on a running machine holds, from
  boot on, exactly if the longest time between two rounds of the loop plus twice the longest check
  is at most 300 s, to the nanosecond. The slack is the window less the interval between checks;
  checks count double because each is judged by the clock at its start, and the next one is timed
  from its end and may still be at work when the wake comes due. Nothing in the code bounds the
  poll interval that this depends on.
* `WakeLoop.SecureExactly`, `WakeLoop.RecoverableExactly`: at any such pace, however fast, a state
  keeps the promise exactly if the schedule's time can be told and does not fall before the next
  check can be over; and a wake request leads to such a state exactly if it is refused, succeeds,
  or leaves no mis-stored schedule to fear.
* `WakeRequest.LiveAfterError`: an error answer must never leave a live schedule. It does exactly
  when the schedule was stored and either the reply to it or the park was lost.
* `Ownership.ButtonOwnership`, `Ownership.PressTakesAnothers`: the button's and the UPS thread's
  operations on logind interleave freely. A press can cancel a wake's poweroff that was scheduled
  between its read and its cancel, and only such an intervention makes it cancel another's.
* `CoordinatorRuns.RecoveryTakes`, `Ownership.NearbyShutdownIsTakenForOurs`: ownership is judged by
  time alone. A recovery spares what is pending exactly if it could be read and is more than 90 s
  from the record, whoever placed it.
* `RadioRecord.CrashSafe`, `RadioRecord.SecondCloseLoses`: "nothing can end up off without being on
  the record" fails exactly for radios that are still off from before when a close overwrites it.
* `RadioRecord.TornExactly`, `RadioRecord.TornLineNamesAnother`: the radio record is written in
  place. Cut short inside a line, restoring gives back the original states exactly when the cut
  line does not name a radio that the user had off.
* `Drift.CutLineCostsTheNext`: a damaged line is documented to cost only that line. It does exactly
  if nothing is left of it; otherwise the next entry, appended to it, is lost too, and the two can
  be read as a check at a time that never was (`Drift.CutLineMerges`) or as a correction by the
  next entry's time (`Drift.CutLineCorrects`).
* `FanRuns.BeliefExactly`, `FanRuns.MuteBreaksBelief`: a write recorded as done is the duty the fan
  runs exactly if it is the last frame to have reached it. A frame that gets through and is reported
  failed makes the record false.
* `FanRuns.DutyArrives`: on firmware with only single-byte commands, the register dialect sets full
  speed whatever duty was meant.
* `ZigbeeStream.ResultCanTakeThatLong`: the bound of 254 bytes on a result is reached.

## Model

| member | source | states |
|---|---|---|
| Logind.Manager.SchedulePoweroff | crates/argon-device/src/power.rs:82-89 | Whatever others do just before it, an accepted command replaces the pending shutdown; whatever they do just after it, the time reported is that of what the read-back finds pending, and the intended one if it fails or finds nothing. A refused command changes nothing itself. |
| Logind.Manager.Cancel | crates/argon-device/src/power.rs:91-93 | An accepted cancel removes whatever is pending at that moment, including what another actor has just placed. |
| Logind.EstimateIsClose | crates/argon-device/src/power.rs:82-87 | The time intended is a whole number of minutes ahead, at least one, no less than the delay and less than a minute more. |
| Coordinator.ShutdownCoordinator.OnDecision | crates/argon-device/src/power.rs:279-291 | One poll leaves the coordinator, logind, the reported action and the command issued exactly as the specification `Decide` has them. |
| Coordinator.ShutdownCoordinator.OnAdvice | crates/argon-device/src/power.rs:293-357 | The advised branch: stand-down, dry run, the record against what is pending, adoption by message, scheduling, and the failed call, each with its effect on logind. |
| Coordinator.ShutdownCoordinator.OnRecovery | crates/argon-device/src/power.rs:360-397 | The recovery branch: forgets the stand-down and the dry-run record, gives up the record without a command when what is pending is more than 90 s from it, issues the cancel otherwise, keeps the record when that is refused, adopts nothing. |
| Button.Button.Press | crates/argon-device/src/button.rs:115-138 | A press changes the button's records and decides exactly as specified: unconfigured, bounce, ours, somebody else's, unreadable, nothing pending. |
| Button.OnPress | crates/argon-daemon/src/button.rs:92-104 | One press from reading logind to the command's outcome: recognition by the exact message, then the decision, then the effect on logind and on the record only if the command was accepted. |
| Button.PairEdges | crates/argon-daemon/src/button.rs:59-107 | The loop reports exactly the pulses made of a rise directly followed by a fall and 10 to 40 ms wide, at the time of the fall. |
| ButtonRuns.PressesAre | crates/argon-device/src/button.rs:27-56 | The times counted as presses are exactly those of a fall that directly follows a rise by 10 to 40 ms, in nanoseconds. |
| ButtonRuns.VerdictsExactly | crates/argon-device/src/button.rs:115-138 | For every press, exactly the readings, records and messages on which it is unconfigured, a bounce, unreadable, somebody else's, a cancel or a schedule; so it schedules only where logind could be read and nothing is pending. |
| ButtonRuns.PressLeaves | crates/argon-daemon/src/button.rs:110-161 | What a press leaves pending and on record after each verdict, a refused command included, unless somebody else acts after its last read. |
| ButtonRuns.PressesAreApart | crates/argon-device/src/button.rs:115-124 | Over any run of presses in time order, two that are not turned down as bounces are at least a second apart. |
| ButtonRuns.OnlyArmedInFullModePlaces | crates/argon-daemon/src/button.rs:126-136 | Over any run, an unconfigured button leaves logind alone, and outside full mode no press places a poweroff. |
| ButtonRuns.SecondPressCancels | crates/argon-device/src/button.rs:44-50 | A second press at least a second later cancels the first one's poweroff exactly when its message can be read or the record is logind's own time; after a restart in between, exactly when its message can be read. |
| Messages.WakeMessageIsNotOurs | crates/argon-device/src/wake.rs:78-86 | For every time a wake can name, its poweroff's message contains neither the battery message nor equals the button's, so neither actor adopts it. |
| Messages.ButtonMessageIsNotOurs | crates/argon-device/src/button.rs:44-50 | The button's and the battery coordinator's messages are never taken for one another. |
| Messages.FoundInside | crates/argon-device/src/power.rs:408-414 | The coordinator's message is known for its own wherever a longer text carries it; no message and an empty one are not. |
| Protocol.RunKeeps | crates/argon-device/src/power.rs:293-393 | Over every interleaving of the single reads and commands of polls, presses, wake requests and operators, with restarts in the middle of anything, both actors' records are the claims read off the history, and every event of the history was entitled. |
| Ownership.CoordinatorOwnership | crates/argon-device/src/power.rs:225-229 | Every cancel of the coordinator in every run follows a shutdown it placed or adopted and has not let go; what it removes is more than 90 s from the record only if its read failed or anybody else, the button included, changed the slot after it, and is that very shutdown if nobody else touched the slot since the record's origin. |
| Ownership.CommandsFollowDecisions | crates/argon-device/src/power.rs:279-291 | In every run, a cancel of the coordinator belongs to a poll whose decision is on mains, confirmed, and does not advise shutdown; a schedule belongs to one that advises shutdown, not merely one held for uptime. |
| Ownership.OthersHold | crates/argon-device/src/power.rs:279-291 | From any state, a poll with any other decision leaves slot, records and everybody else alone and is over at once. |
| Ownership.NeverPlacesTwice | crates/argon-device/src/power.rs:293-357 | In no run does the coordinator or the button schedule a poweroff while it answers for one. |
| Ownership.SchedulesOnlyIntoRoom | crates/argon-device/src/button.rs:115-138 | In every run, the button schedules only after seeing nothing pending, and the coordinator only after seeing nothing or being unable to see; so neither replaces a shutdown that was there at its look. |
| Ownership.RecordIsReadBack | crates/argon-device/src/power.rs:135-137 | In every run, a record made by scheduling is the time of what the read-back finds pending, and the estimate only if it fails or finds nothing. |
| Ownership.ButtonOwnership | crates/argon-device/src/button.rs:115-138 | Every cancel of the button in every run removes a shutdown whose time equals the button's record, unless anybody else, the coordinator and a wake request included, changed the slot between its read and its command. |
| Ownership.PressTakesAnothers | crates/argon-daemon/src/button.rs:92-104 | A concrete run, with no operator in it, in which a press's cancel removes a wake's poweroff scheduled after its read. |
| Ownership.AdoptionIsSound | crates/argon-device/src/power.rs:330-342 | In every run, a shutdown the coordinator or the button takes for its own by message was its own or an operator's, unless an operator replaced it by one worded like the actor's between the read of the time and the read of the message. |
| CoordinatorRuns.RecoveryTakes | crates/argon-device/src/power.rs:374-390 | With nobody acting in between, a recovery leaves what is pending exactly if it could be read and is outside the tolerance of the record, and cancels it otherwise, whoever placed it; the record is given up either way. |
| CoordinatorRuns.CommandsExactly | crates/argon-device/src/power.rs:279-397 | For every poll, exactly the decisions, records and readings on which a schedule or a cancel command is issued. |
| CoordinatorRuns.ActionsExactly | crates/argon-device/src/power.rs:279-397 | For every poll, exactly when it reports a schedule, a cancel, a failure, an override by the operator, or a dry run's stand-in. |
| CoordinatorRuns.TakesOverExactly | crates/argon-device/src/power.rs:310-342 | A pending shutdown is adopted exactly if an advised poll without a record reads it and its message is ours; reported as already pending exactly if the message is not, or it is more than 90 s from the record. |
| CoordinatorRuns.MemoryExactly | crates/argon-device/src/power.rs:293-397 | Exactly what record, stand-down and dry-run memory every poll leaves. |
| CoordinatorRuns.ReportedTime | crates/argon-device/src/power.rs:82-89 | The time reported scheduled is the deadline read back, and the estimate where it cannot be. |
| Ownership.Protection | crates/argon-device/src/power.rs:293-357 | When any poll advising shutdown ends, in any run, a shutdown is pending, or the call failed, or the coordinator has stood down, or somebody else changed the slot in the middle of the poll; with logind unreadable, a disturbance since the record can also be the reason. |
| Ownership.StandsDownForAReason | crates/argon-device/src/power.rs:310-327 | When deadlines are kept, the coordinator stands down only if another actor changed the slot after its record's origin. |
| Ownership.AloneIsProtected | crates/argon-device/src/power.rs:293-357 | Left alone, and with deadlines kept, every poll advising shutdown ends with a shutdown pending or reports that scheduling failed, whatever reads and read-backs fail. |
| Ownership.PromptRuns | crates/argon-device/src/power.rs:135-137 | If every accepted command of the coordinator is carried out within 90 s of its estimate, then in any run an undisturbed record is within 90 s of what is pending, even where the read-back failed. |
| Ownership.NearbyShutdownIsTakenForOurs | crates/argon-device/src/power.rs:219-229 | A concrete run in which the button's poweroff is cancelled as the coordinator's own, because only time identifies it. |
| ObjectSteps.PollIsItsSteps | crates/argon-device/src/power.rs:279-393 | Whatever the button and operators do before each operation of a poll, its operations one by one lead to the state, slot and action that the object's specification gives in the weather they make. |
| ObjectSteps.PressIsItsSteps | crates/argon-daemon/src/button.rs:92-161 | The same for a press, with polls, wake requests and operators in between. |
| CoordinatorRuns.ScheduledOnce | crates/argon-device/src/power.rs:293-357 | Between two accepted schedule commands there is a confirmed recovery, whatever reads return and whoever else acts. |
| CoordinatorRuns.HoldsAreInvisible | crates/argon-device/src/power.rs:279-291 | Deleting every hold from a run changes neither the commands, nor what logind holds after each, nor the final state. |
| CoordinatorRuns.DryRunTouchesNothing | crates/argon-device/src/power.rs:298-303 | In every environment a dry run issues no command, leaves logind alone and never reports a scheduled time. |
| CoordinatorRuns.DryRunPredicts | crates/argon-device/src/power.rs:293-393 | With no other actor, no refused command, and every deadline within 90 s of its estimate, a dry run reports poll for poll what the real run does, even through failed reads. |
| CoordinatorRuns.RestartIsTransparent | crates/argon-device/src/power.rs:330-342 | After a restart with our poweroff pending and any holds, the first advised poll adopts it, and every later action, command and effect is the one the unrestarted coordinator would have had. |
| CoordinatorRuns.RestartShowsOnlyAtRecovery | crates/argon-device/src/power.rs:371-373 | If instead a recovery comes first, the restarted coordinator leaves the poweroff pending where the other would have cancelled it; advice first shows no difference. |
| Calendar.InstantRoundTrips | crates/argon-proto/src/ups/status.rs:163-215 | Every instant the device can hold is read as a date that exists, and back to the same second. |
| Calendar.DateRoundTrips | crates/argon-proto/src/ups/status.rs:193-233 | Reading a plausible date as an instant and back is exact if and only if that day exists. |
| Calendar.ThirtiethOfFebruary | crates/argon-proto/src/ups/status.rs:193-215 | 30 February 2026 is accepted and comes back as 2 March. |
| Calendar.DeviceInstants | crates/argon-proto/src/ups/status.rs:156-182 | An instant is representable if and only if it lies from the start of 2000 to the end of 2099. |
| Wake.AcceptedRequest | crates/argon-device/src/wake.rs:180-188 | An accepted request names its own instant rounded down to the minute, on a real date, at least 15 minutes out. |
| Wake.AcceptedExactly | crates/argon-device/src/wake.rs:180-188 | Exactly which requests are accepted and which are out of the device's range. |
| Wake.NetRespectsRequest | crates/argon-device/src/wake.rs:121-144 | The safety net leaves an accepted request alone for the first five minutes, which covers the poweroff, and from then on parks it exactly when it is within ten minutes of due or past. |
| Wake.ParkedIsLeft | crates/argon-device/src/wake.rs:23-33 | The parked schedule is left alone exactly until its own window in 2097. |
| Wake.AssessedExactly | crates/argon-device/src/wake.rs:121-144 | The verdict on any schedule by the instant it is due: past up to now, due soon up to 600 s ahead, left beyond that, unreadable if it names no instant. |
| Wake.MessageShowsTheTime | crates/argon-device/src/wake.rs:78-86 | The wall message shows year, month, day, hour and minute, in that order and in digits of fixed width whose values are the fields. |
| UpsLink.ScheduleRoundTrips | crates/argon-proto/src/ups/status.rs:146-154 | A schedule can be sent if and only if its fields fit two BCD digits, and then arrives as itself to the minute. |
| UpsLink.DecodedIsEncodable | crates/argon-proto/src/ups/status.rs:103-132 | Whatever bytes arrive, a schedule that decodes is one that can be sent back. |
| UpsLink.ScheduleBytes | crates/argon-proto/src/ups/status.rs:146-154 | On the wire a schedule is five bytes, each showing two decimal digits: year in the century, month, day, hour, minute. |
| UpsLink.Ups.SetWake | crates/argon-device/src/ups.rs:222-236 | A set reports success and changes the device independently: refused by the gate, lost, stored as sent, or mis-stored, with or without a reply. |
| UpsLink.SetLeaves | crates/argon-device/src/ups.rs:222-236 | Success is reported exactly if the gate is open, the schedule can be sent and a reply came; with the gate shut nothing changes; and what the device then holds is what it held, what was sent, or what the bytes it heard decode to. |
| UpsLink.Ups.Answer | crates/argon-sim/src/ups.rs:173-179 | What the device sends for a get-wake decodes to exactly the schedule it holds. |
| UpsLink.Ups.Receive | crates/argon-sim/src/ups.rs:189-196 | A payload that does not decode is acknowledged and changes nothing. |
| WakeRequest.HandleRequest | crates/argon-daemon/src/ups.rs:612-664 | The set, read-back, schedule, park transaction leaves device, logind and answer as specified on every outcome of every exchange. |
| WakeRequest.CheckWake | crates/argon-daemon/src/ups.rs:679-722 | One round of the safety net parks only what the assessment says, only if it could read, and only where wake writes are allowed. |
| WakeRequest.NetActsExactly | crates/argon-daemon/src/ups.rs:679-722 | A round changes the device only if writes are allowed, the schedule could be read, and it names no instant or one no more than 600 s ahead; and then a stored park stands. |
| WakeRequest.SuccessMeansBothAreSet | crates/argon-daemon/src/ups.rs:612-664 | A success answer implies the device holds the requested minute, at least 15 minutes out, and our poweroff was placed, before the wake if the command ran promptly, and is pending unless somebody else has acted since. |
| WakeRequest.AnswerTellsThePoweroff | crates/argon-daemon/src/ups.rs:646-656 | The poweroff time in a success answer is the second of the deadline read back, or a minute from the command where nothing could be read; with a prompt command it is before the wake time in the same answer. |
| WakeRequest.AnswersExactly | crates/argon-daemon/src/ups.rs:612-664 | Exactly which answer every request gets, with the lead in a refusal, and a park reported done if and only if it was answered. |
| WakeRequest.ErrorLeavesNoWake | crates/argon-daemon/src/ups.rs:629-663 | An error answer implies no poweroff was placed, and the device holds its old schedule if nothing was sent, and otherwise exactly what the set and, if that was answered, the park left, whichever step failed. |
| WakeRequest.LiveAfterError | crates/argon-daemon/src/ups.rs:608-611 | Where nothing is mis-stored, an error answer leaves the requested schedule live if and only if it was stored, or had been there, and the reply to it or the park was lost. |
| WakeRequest.WithoutGarblingOnlyTheRequest | crates/argon-daemon/src/ups.rs:629-674 | Even with lost writes and replies, the device holds only its old schedule, the parked one, or the requested minute with its lead. |
| WakeLoop.UpsThread.Round | crates/argon-daemon/src/ups.rs:256-259 | A round checks exactly when a check is due, judging by the clock in whole seconds as the check begins, and times the next check from the end of this one. |
| WakeLoop.UpsThread.Serve | crates/argon-daemon/src/ups.rs:586-593 | A request is judged by a clock reading that may be older than its effect, and does to the schedule what the transaction does. |
| WakeLoop.NeverDue | crates/argon-device/src/wake.rs:8-17 | From any secure state on, over every interleaving of waiting, rounds, checks that take time and recoverable wake requests, no schedule comes due on the running machine, during a check included, and none is left whose time cannot be told, provided the longest time between rounds and twice the longest check fit into 300 s and checks can read and park. |
| WakeLoop.FirstCheck | crates/argon-daemon/src/ups.rs:256-259 | Whatever the UPS was left holding at boot, the first round's check leads to a secure state. |
| WakeLoop.SecureExactly | crates/argon-daemon/src/ups.rs:256-259 | At every pace that fits, down to a nanosecond between rounds, the states from which every run keeps the promise are exactly those whose schedule can be told and does not fall between now and the last moment at which the next check can be over. |
| WakeLoop.RecoverableExactly | crates/argon-daemon/src/ups.rs:612-674 | From a secure state, a request leaves every run keeping the promise if and only if it is refused, or its set is answered, reads back as asked and the poweroff is accepted, or nothing mis-stored is to be feared of the park, where the set was answered and the park changed the device, and of the set otherwise. |
| WakeLoop.ExactBound | crates/argon-device/src/wake.rs:33-63 | Every run from boot, starting with a check, keeps the promise if and only if the longest time between rounds plus twice the longest check is at most 300 s and a nanosecond. |
| Zigbee.EncodeInto | crates/argon-proto/src/zigbee.rs:80-96 | Writes exactly the encoded frame at the front of the buffer and nothing beyond it, or nothing at all if it does not fit. |
| Zigbee.ComputeFcs | crates/argon-proto/src/zigbee.rs:100-102 | The running XOR over part of an array is the check sequence of those bytes. |
| ZigbeeStream.FcsIsParity | crates/argon-proto/src/zigbee.rs:100-102 | Each bit of the check byte is set if and only if an odd number of the bytes have it set. |
| ZigbeeStream.FcsJoins | crates/argon-proto/src/zigbee.rs:100-102 | The check byte of two stretches together is the exclusive or of their own. |
| ZigbeeStream.FrameOnTheWire | crates/argon-proto/src/zigbee.rs:80-96 | Start byte, length, both command bytes, the data, and a check byte that is bit for bit the parity of everything between. |
| ZigbeeStream.PingOnTheWire | crates/argon-proto/src/zigbee.rs:80-102 | The system ping without data goes out as FE 00 21 01 20. |
| Zigbee.MtReader.Push | crates/argon-proto/src/zigbee.rs:151-178 | One byte into the 255-byte buffer holds and reports what the reader on values does; the index never leaves the buffer. |
| ZigbeeStream.ReaderIsParser | crates/argon-proto/src/zigbee.rs:129-178 | Fed byte by byte, any stream yields the events and leftover that a recursive parser of the whole stream yields, from any point inside a frame. |
| ZigbeeStream.RoundTrip | crates/argon-proto/src/zigbee.rs:52-178 | Any frames sent with any noise between them that holds no start byte arrive as exactly those frames, in order, nothing rejected, nothing left over. |
| ZigbeeStream.CorruptFrameIsContained | crates/argon-proto/src/zigbee.rs:98-178 | Changing any one byte of command, data or check gives exactly one rejection, naming the check byte seen and the one due, and everything after reads as if the frame had not been there. |
| ZigbeeStream.OverlongIsContained | crates/argon-proto/src/zigbee.rs:151-163 | A length above 250 gives one rejection naming it, and the rest of the stream reads as if alone. |
| ZigbeeStream.ResultComes | crates/argon-proto/src/zigbee.rs:151-178 | Inside a frame, some result comes within 254 further bytes, whatever they are. |
| ZigbeeStream.ResultCanTakeThatLong | crates/argon-proto/src/zigbee.rs:24 | A frame of the largest size gives nothing until its last byte, so the bound cannot be lowered. |
| Bytes.XorIsInjective | crates/argon-proto/src/zigbee.rs:100-102 | Exclusive or with a fixed byte tells any two bytes apart, which is why one changed byte always shows. |
| FanStack.Clamped | crates/argon-proto/src/fan/mod.rs:63-71 | Only zero stops the fan, a duty below 10 becomes 10 and one above 100 becomes 100, and a duty already in range is kept. |
| FanStack.RateLimiter.Write | crates/argon-hal/src/i2c.rs:221-239 | A write inside the interval is refused and counted; otherwise it goes through, and only a success restarts the interval. |
| FanStack.Mcu.Drive | crates/argon-device/src/mcu.rs:99-155 | Each driver call sends its dialect's bytes, remembers a duty only once it was sent, and the bootloader call is refused without a byte. |
| FanStack.FanTask.Iterate | crates/argon-device/src/fan.rs:93-142 | One iteration through the whole stack, sensor failures, refusals and rate limits included, changes every layer as specified. |
| FanRuns.DutyArrives | crates/argon-sim/src/mcu.rs:99-161 | A duty sent is the duty run if and only if the firmware understands the dialect or the duty is full; nothing else in the firmware moves. |
| FanRuns.RunKeeps | crates/argon-device/src/fan.rs:93-142 | Over every run with the fan task as sole writer, lost acknowledgements included, the fan runs what reached it last, the record is what was acknowledged last, an acknowledged frame is followed no sooner than the interval, and modes, power cut and bootloader stay untouched. |
| FanRuns.BeliefExactly | crates/argon-device/src/fan.rs:123-142 | From boot, over every run, the firmware runs the recorded duty if and only if there is no record or the last frame to reach it was of that duty; so always, where no frame gets through unacknowledged. |
| FanRuns.MuteBreaksBelief | crates/argon-device/src/fan.rs:123-142 | An iteration makes a true record false exactly when a changed duty passes the limiter, gets through and is reported failed. |
| FanRuns.WroteMeansDelivered | crates/argon-device/src/fan.rs:112-142 | `wrote` is reported exactly when one more frame got through acknowledged; an iteration that failed records nothing, and delivered something exactly if only the acknowledgement was lost. |
| FanRuns.ReportsExactly | crates/argon-device/src/fan.rs:93-142 | What an iteration reports, exactly when it fails, and that the only frame it can let through is of the wanted duty, the safe one where the sensor failed. |
| FanRuns.FailuresAreCounted | crates/argon-device/src/fan.rs:93-118 | Over every run the failure count is the number of failed readings in a row at its end, up to the limit of 32 bits, and the last temperature is that of the last reading that worked. |
| FanRuns.NothingIsForgotten | crates/argon-device/src/fan.rs:123-142 | While the record is true, after an iteration the fan runs the wanted duty, or the fan task will try again and a limit or the bus was the reason. |
| FanRuns.ReadOnlyDeliversNothing | crates/argon-hal/src/i2c.rs:130-142 | Over a read-only transport nothing reaches the firmware and the fan task never believes it did. |
| FanRuns.DryRunRecordsTheRun | crates/argon-hal/src/i2c.rs:174-182 | On a working bus a dry run writes down exactly the frames the live run delivers, in order, and touches nothing. |
| FanRuns.DriverIsSafe | crates/argon-device/src/mcu.rs:113-155 | No sequence of driver calls, in either dialect on either firmware, enters the bootloader, and only the call for it arms the power cut. |
| FanRuns.DriverIsExact | crates/argon-device/src/mcu.rs:99-155 | After every sequence of driver calls, by those that got through: on single-byte firmware the power mode is the last one set, and the register firmware never leaves its own; the power cut is armed if and only if it was or a call for it got through; the fan runs the last duty set, in a dialect the firmware understands. |
| FanRuns.CallOnTheWire | crates/argon-device/src/mcu.rs:99-155 | A call that gets through sends exactly FE for always on, FD for the button, FF for the power cut, the duty alone or after 80; one that does not sends nothing. |
| FanRuns.WaitIsExact | crates/argon-hal/src/i2c.rs:221-239 | A refused write is counted, changes nothing else, and names a wait after which a write is let through and before which none is. |
| FanRuns.IntervalFromTheEnd | crates/argon-hal/src/i2c.rs:221-239 | After a write that worked, another is refused exactly if it starts sooner than the interval after that one's end. |
| FanRuns.GuardBreaksBelief | crates/argon-device/src/safety.rs:87-104 | The shutdown guard's write leaves the fan task's record true if and only if there is no record, it is the safe duty, the limiter is in the way, or the bus is down. |
| Lid.Lid.OnReport | crates/argon-device/src/lid.rs:94-101 | A report acts only on a change, never on the first report, and closing and opening emit and remember as specified. |
| Lid.Lid.OnTick | crates/argon-device/src/lid.rs:104-113 | A tick powers off exactly when it is due, the lid is closed and it has not been asked for. |
| Lid.Lid.RestoreAll | crates/argon-device/src/lid.rs:123-126 | A stop undoes what a close turned down and drops a pending poweroff. |
| LidRuns.PowersOffExactly | crates/argon-device/src/lid.rs:94-178 | In any run a tick powers off if and only if an earlier close, with no open and no stop since, is at least the delay old, under the shutdown action, and it was not asked for before. |
| LidRuns.PowersOffOnce | crates/argon-device/src/lid.rs:66-113 | In any run it is asked for at most once. |
| LidRuns.DownExactlyWhileHeld | crates/argon-device/src/lid.rs:123-178 | Radios off and restored strictly alternate, as do cap and uncap, across stops too; and each is down exactly while configured and a close has been followed by neither an open nor a stop. |
| LidRuns.CancelledExactly | crates/argon-device/src/lid.rs:155-167 | The cancellation is announced if and only if an open ends a countdown that has not run out. |
| LidRuns.AlertedExactly | crates/argon-device/src/lid.rs:145-151 | In any run the countdown is announced, with the configured length, at exactly those closes under the shutdown action that come before the poweroff is asked for. |
| LidRuns.ScreenExactly | crates/argon-device/src/lid.rs:132-178 | In any run the screen goes off at exactly the closes under the saving action, and on at every open after a close and at a stop that ends a saving close. |
| Radios.Agent.RadiosOff | crates/argon-cli/src/lid_agent.rs:305-325 | Records every radio that is on before switching any, stops at the first switch that refuses, and leaves exactly the specified radios and record at every such point. |
| Radios.Agent.RestoreRadios | crates/argon-cli/src/lid_agent.rs:265-286 | Tries every recorded radio that is still off, and removes the record only if every switch worked. |
| RadioRecord.CloseBlocksAll | crates/argon-cli/src/lid_agent.rs:229-325 | A close at which nothing refuses leaves every managed radio blocked and changes nothing else, and its record reads back as exactly the managed radios that nothing had blocked. |
| RadioRecord.RecordOnFile | crates/argon-cli/src/lid_agent.rs:218-237 | A radio is on the record as its type's name, wlan or bluetooth, a space and its own name. |
| RadioRecord.CrashSafe | crates/argon-cli/src/lid_agent.rs:229-325 | From any close, interrupted or refused at any point once the record is written, over every run of further closes, renumberings and failed or interrupted attempts: the radios off and unlisted are exactly those still owed when a later close overwrote the record; and an attempt where nothing refuses gives every radio back as it was if and only if there are none. |
| RadioRecord.SecondCloseLoses | crates/argon-cli/src/lid_agent.rs:305-325 | On any machine with a radio on, a restore at which its switch refuses and another close lose it. |
| RadioRecord.TornExactly | crates/argon-cli/src/lid_agent.rs:320 | With the record cut short anywhere, restoring leaves every radio as it was if and only if the cut line, trimmed, names no radio the user has off. |
| RadioRecord.TornLineNamesAnother | crates/argon-cli/src/lid_agent.rs:320 | A concrete record cut to another radio's label, which then comes on. |
| Handover.Mailbox.ServeRequests | crates/argon-daemon/src/ups.rs:579-594 | With nobody else at work, everything waiting is answered in order and the flag is down. |
| Handover.Mailbox.Relay | crates/argon-daemon/src/control.rs:129-134 | A client's request enters the queue before the flag goes up, and neither happens once the thread has ended. |
| Handover.RunKeeps | crates/argon-daemon/src/control.rs:129-139 | Under every interleaving of any number of clients with the thread, the requests answered, in hand and waiting are all that were ever sent, in order, each once; and with the thread asleep and the flag down, each waiting request's client is about to raise it. |
| Handover.NoLostWakeup | crates/argon-daemon/src/control.rs:129-139 | A waiting request means the flag is set, or its client is between send and store, or the thread is between clearing and its last empty receive, or has ended; so once no client is mid-send, the flag that ends the sleep between polls is up. |
| Handover.DrainAnswersAll | crates/argon-daemon/src/ups.rs:585-593 | Under every interleaving, when the receive that ends a drain finds nothing, every request sent up to then has been answered. |
| Handover.AnsweredInOrder | crates/argon-daemon/src/ups.rs:586-593 | No request is answered twice, and none before one sent earlier. |
| Descriptor.TrimDescriptor | crates/argon-hal/src/hidraw.rs:180-204 | The result is the longest prefix made of whole items that ends in an End Collection with every collection closed, or nothing. |
| Descriptor.PaddingComesOff | crates/argon-hal/src/hidraw.rs:173-179 | What was trimmed is trimmed to itself under any zero padding, none included. |
| Descriptor.DescriptorSurvives | crates/argon-hal/src/hidraw.rs:173-179 | A whole descriptor comes back from any padding, whatever bytes it ends in. |
| Descriptor.SizeCodes | crates/argon-hal/src/hidraw.rs:185-186 | The two low bits of an item's prefix mean 0, 1, 2 or 4 bytes of data. |
| Descriptor.LooksLikeTheEnd | crates/argon-hal/src/hidraw.rs:180-204 | A concrete descriptor in which a four-byte item ends in the byte that ends collections: only the whole is a descriptor. |
| Drift.EntryRoundTrips | crates/argon-device/src/drift.rs:57-93 | Parsing a printed entry gives that entry, for every time, offset and action of the fields' widths. |
| Drift.SampleLines | crates/argon-device/src/drift.rs:57-66 | Three printed lines, character by character, one for each action. |
| Drift.CommentsAreSkipped | crates/argon-device/src/drift.rs:68-76 | A comment or blank line anywhere leaves what the file says unchanged. |
| Drift.Record.Append | crates/argon-device/src/drift.rs:109-126 | The file becomes the old lines and the new one, cut to the newest 500 once there are more than 1000. |
| Drift.RecordReadsBack | crates/argon-device/src/drift.rs:97-126 | After any number of appends the file reads back as the newest entries, in order, between 500 and 1000 of them once there have been more than that. |
| Drift.KeptExactly | crates/argon-device/src/drift.rs:97-126 | Of n entries appended, how many are left: all up to 1000, and from then on between 500 and 1000, by the remainder. |
| Drift.CutLineCostsTheNext | crates/argon-device/src/drift.rs:8-12 | With a line cut short after any number of characters and a later entry appended, the record reads as its other lines and that entry if and only if nothing was left of the line. |
| Drift.CutLineMerges | crates/argon-device/src/drift.rs:109-117 | A line cut inside its time and the entry appended after it are read as one entry with a later time. |
| Drift.CutLineCorrects | crates/argon-device/src/drift.rs:109-117 | A line cut just before the offset it was corrected to, and the entry appended after it, are read as a correction by that entry's time. |
| Drift.MeasureRate | crates/argon-device/src/drift.rs:154-177 | The loop yields the change in offset from the last correction, or the first entry, to the last entry, over the time between, if that is at least a day. |
| Drift.RateIsTheGain | crates/argon-device/src/drift.rs:154-177 | There is a rate exactly if the latest free-running stretch lasts 86 400 s, and it times the span is the gain in offset over that stretch times 86 400, so its sign is that of the gain. |
| Drift.OnlyTheLatestStretch | crates/argon-device/src/drift.rs:148-177 | Whatever precedes a correction has no influence on the rate. |
| Drift.CuttingKeepsRate | crates/argon-device/src/drift.rs:109-177 | The rate read from the cut file is the rate of the whole history, as long as a correction is still on the file. |
| KeyValue.PairReads | crates/argon-device/src/status.rs:117-121 | A line written as key and value is read as that key and the trimmed value, even where the value ends in a carriage return. |
| KeyValue.ControlsBecomeSpaces | crates/argon-device/src/status.rs:439-443 | A name with a newline, a tab and a carriage return in it, made one line: only those become spaces. |
| Status.ParseText | crates/argon-device/src/status.rs:108-151 | One pass over the lines fills the fields as specified and stops at the first malformed percentage or time. |
| Status.StatusRoundTrips | crates/argon-device/src/status.rs:67-151 | Every status published with a one-line level is read back with times to the second, the level trimmed, and a missing UPS's name, whatever it contains, sanitised and without effect on any other field. |
| Status.PlainStatusReadsBack | crates/argon-device/src/status.rs:67-151 | A status whose texts are printable ASCII without outer spaces and whose times are whole seconds comes back exactly as it was. |
| Status.ParsedExactly | crates/argon-device/src/status.rs:103-151 | What any text is read as: the first malformed percentage or shutdown time is the error; otherwise each field is that of the last line with its key, and exactly which missing field or version is the error; no other line matters. |
| Status.StatusOnFile | crates/argon-device/src/status.rs:67-95 | The file line by line: which keys, in which order, with which values, and no more than five lines unless a UPS is missing. |
| SeenUps.ParseSeen | crates/argon-device/src/ups_seen.rs:66-93 | One pass over the lines, ignoring empty and malformed values, and nothing at all without a name. |
| SeenUps.SeenRoundTrips | crates/argon-device/src/ups_seen.rs:44-93 | A recorded unit is read back as itself, sanitised; one whose name shows nothing after sanitising is read back as no record. |
| SeenUps.SeenOnFile | crates/argon-device/src/ups_seen.rs:44-66 | The record line by line: name, serial and time, an absent serial as an empty value. |
| SeenUps.RememberedSettles | crates/argon-device/src/ups_seen.rs:44-93 | What was read back is from then on written and read back unchanged. |
| Numbers.UnsignedRoundTrips | crates/argon-device/src/status.rs:67-95 | Every number in the field's range survives printing and parsing. |
| Numbers.PlusAndLimits | crates/argon-device/src/status.rs:120-138 | A leading plus is accepted; a number too large for the field, a lone sign and an empty value are refused. |
| Numbers.SignedRoundTrips | crates/argon-device/src/drift.rs:57-66 | Every signed offset survives printing with its sign and parsing. |

## Left out

- D-Bus, polkit, sockets, serial framing, GPIO and I2C system calls, the `shutdown` and `busctl` subprocesses: each is a step whose outcome the environment chooses; UPS and I2C writes can also take effect and be reported failed.
- A power command that takes effect and still reports failure: not among the environment's choices for logind.
- The read-back after a wake's poweroff: it changes nothing, so in `Protocol` the wake request ends with its command.
- The sleep while another program holds the port, which ignores the flag and is followed by no serving: requests then wait for the port, and `Handover` says nothing of when the thread next serves.
- The text `busctl` prints, its unquoting, and logind's own rules for who may schedule.
- Battery policy, gauge reading and fan curve: arbitrary inputs, so no claim is made about when advice is given or which duty a temperature asks for.
- Polls that fail and the reopening of the port: a `Round` of the wake loop is one after a successful poll, so the time between rounds in `WakeLoop` counts from one such poll to the next.
- Steps of the system clock: one clock of nanoseconds stands for both the monotonic instants and, rounded down, the seconds since the epoch in the wake loop.
- The seconds between a mis-stored set and the park that replaces it: in `WakeLoop` a request takes effect at one moment, while a check's park takes effect at the end of the check.
- Log lines, and the flags that only suppress repeated ones.
- Configuration files and their validation, command-line arguments, the tray, OLED, metrics and D-Bus presentation: no state to reason about beyond what is modelled, or presentation only.
- Memory order of relaxed atomics, mutex poisoning and the answer timeout's length: interleavings are sequentially consistent and a client may stop waiting at any time.
- Overflow of the 32-bit collection depth after two thousand million collections, and of an instant beyond the platform's range in a damaged record.
- The rate's rounding: rates are exact rationals, and the difference of two offsets is exact.
- Notification wording, the watcher that turns status changes into notices, and when the record of the last UPS is rewritten.
- Crash points between creating the drift record's temporary file and renaming it: the rename is atomic, and a stray temporary file is ignored by the reader.
- Handover.Mailbox.ServeRequests: states the drain with no client at work in between, because the interleavings are the subject of Handover.RunKeeps and Handover.DrainAnswersAll.
- RadioRecord.CrashSafe: takes every close to have written its whole record; one cut short is RadioRecord.TornExactly.
- CoordinatorRuns.RestartIsTransparent: assumes no other shutdown falls within one record's tolerance and outside the other's, because the two records may differ by up to 90 s.
