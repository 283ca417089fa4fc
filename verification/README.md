# Autonomous parking: verified model

A Dafny 4.11 model of the safety-relevant logic of the parking system, and proofs about it. The system has a parking
simulator that books road nodes for every vehicle, a host that drives small cars over a reliable-command protocol, the
car's firmware, a bridge for remote driving, and the geometry and matching code around them. Every module that the
original writes as objects changing their fields appears twice: as functions on a state value, and as a class whose
methods are proved to compute those functions. The main results are lemmas about every run of the functions.

| part | files |
|---|---|
| reservation and traffic simulator | `ParkingLayout`, `ParkingSpec`, `ParkingTables`, `ParkingSafety`, `ParkingEnv`, `ParkingDecisions`, `ParkingCases` |
| car firmware: control task and actuator | `VehicleTypes`, `VehicleSpec`, `VehicleSafety`, `VehicleLog`, `VehicleStop`, `VehicleEffects`, `VehicleCases`, `VehicleStall`, `VehicleControl`, `Actuator` |
| reliable commands, host and channel | `Reliability`, `CommandProtocol`, `ProtocolCases`, `HostLink` |
| host control loop | `PoseControl`, `HostControl`, `HostController`, `ModeHandshake` |
| remote-driving bridge | `Bridge`, `BridgeController` |
| stream framing | `Framing` |
| geometry and matching | `SegmentDistance`, `CollisionMonitor`, `Association` |
| shared | `Options`, `Reals` |

`dafny verify dfyconfig.toml` checks the whole project.

## What is assumed

- Time is exact. Simulator time is a real number, firmware ticks are natural numbers from 1 on that never run backwards
  and never wrap, and sequence numbers do not wrap.
- Random draws of the simulator (arrival gaps, parking times, initial occupancy) are arbitrary values in their stated
  ranges; clock advances and the wait time are not negative.
- Payload equality replaces the 64-bit fingerprint of a command.
- A handshake answer that opens a session brings a session id not used before, except that a hold may leave it empty,
  as the host does; commands name a session. The end-to-end results also use that sessions number their commands from 1.
- The safety invariant of the firmware assumes that the host echoes the vehicle's boot id. `HelloSafeExactly` says
  exactly which answers are safe, and `MismatchLeavesMotorTurning` gives the run in which another boot id locks the
  vehicle with its motor turning.
- `StopHolds` assumes that no connection is handled while an earlier handshake is open, which is so if the loss of the
  link is handled between any two connections (`AlternatingLinkIsEnough`). `ConnectKeepsLockExactly` says exactly when a
  connection keeps a lock, and `OvertakenLossForgetsStop` gives a run of loop passes in which one does not: a pass
  handles the notice of a loss before that of a connection, in whichever order they came.
- Faults during the mode handshake are the rejections, failures, resyncs, faults and stops that `IsFault` lists; a
  camera that loses the car in a tick faults only an authority already armed.

## Where the code and its comments differ

The model follows the code.

- The comments above the slot tables of the simulator call A4 and B4 the closest slots, with four route nodes; the
  tables make them the farthest, with seven.
- The docstring of `_spawn_exiting_vehicle` says that an exit retraces the way in to the entrance; the tables end it at
  the exit node (`ExitRetracesEntry`).
- The docstring of `_ensure_free_slot` promises a free slot; a deferred departure frees none. `FastForwardFrees` says
  exactly when one is freed, and `FullLotStaysFull` gives a run of the repository's lot in which none is.

## Model

| member | source | states |
|---|---|---|
| ParkingLayout.TheLotIsGood | integrated/host/rl/parking_env.py:142-171 | every route has the shape the separation argument needs: it starts or ends at its own slot front, meets no other front, and only exits use the exit node |
| ParkingLayout.ExitRetracesEntry | integrated/host/rl/parking_env.py:142-171 | an exit route is the reversed entry route except for its last node |
| ParkingLayout.NearerColumnIsNearer | integrated/host/rl/parking_env.py:84-120 | of two slots the one in the nearer column is nearer to the junction, on both sides alike |
| ParkingSafety.BookingsStayApart | integrated/host/rl/parking_env.py:747-878 | over every run, bookings ever made on one node by two vehicles, moving or parked, stay a safety margin apart, purged ones included |
| ParkingSafety.RouteIndexIsCurrent | integrated/host/rl/parking_env.py:651-711 | a moving vehicle's route index is the unique segment whose interval contains the clock; it is on that node, heads for the one after it and arrives when its last interval ends |
| ParkingSafety.NoSharedNode | integrated/host/rl/parking_env.py:651-743 | moving vehicles have distinct ids and are never on the same node |
| ParkingSafety.StandingVehiclesUndisturbed | integrated/host/rl/parking_env.py:527-571 | no moving vehicle is ever on the slot front of a vehicle standing there, even one whose departure is overdue |
| ParkingSafety.SlotsMirrorParked | integrated/host/rl/parking_env.py:774-797 | taken slots are exactly the parked vehicles' slots, one each, and issued ids equal parked plus departed |
| ParkingSafety.NoDeadlock | integrated/host/rl/parking_env.py:963-978 | the deadlock branch of the termination check never fires |
| ParkingSafety.EpisodeEndsAtMaxSteps | integrated/host/rl/parking_env.py:427-571 | an episode ends exactly with its 64th accepted decision |
| ParkingSafety.RunKeeps | integrated/host/rl/parking_env.py:378-571 | the whole invariant holds after any sequence of resets, steps, mask queries and clock advances |
| ParkingSafety.DeparturesFree | integrated/host/rl/parking_env.py:774-797 | departures never take a slot, and free one exactly when some vehicle is due and every entry on its exit keeps the margin to its passage |
| ParkingSafety.FastForwardFrees | integrated/host/rl/parking_env.py:880-903 | fast-forwarding frees a slot of a full lot exactly when, at the earliest scheduled departure, some vehicle is due and every entry on its exit keeps the margin to its passage |
| ParkingSafety.LeavesExactly | integrated/host/rl/parking_env.py:774-795 | a parked vehicle may leave exactly when it is due and every other vehicle's entry on the i-th node of its exit ends a margin before, or starts a margin after, its passage i seconds from now |
| ParkingDecisions.NobodyLeavesEarly | integrated/host/rl/parking_env.py:774-780 | before its scheduled departure a vehicle stays parked and its slot taken |
| ParkingDecisions.FirstDueLeaves | integrated/host/rl/parking_env.py:774-795 | the first vehicle in list order that is due leaves, frees its slot and starts its exit, if and only if its exit is clear |
| ParkingDecisions.NobodyClearIsLeft | integrated/host/rl/parking_env.py:774-797 | after departures nobody still parked is due with a clear exit |
| ParkingDecisions.GuestLeavesOnTime | integrated/host/rl/parking_env.py:378-425 | one vehicle due at 9.0 in an otherwise empty lot has left its slot when the clock is moved to 9.0 |
| ParkingDecisions.TimePassesExactly | integrated/host/rl/parking_env.py:651-743 | the clock moves by exactly the step, and a vehicle is under way exactly until its trip is over |
| ParkingDecisions.ShieldExactly | integrated/host/rl/parking_env.py:907-936 | the shield lets a vehicle through exactly to a free slot whose entry route is clear of every entry by the margin |
| ParkingDecisions.StepExactly | integrated/host/rl/parking_env.py:427-571 | what each decision does to clock and counters, and that exactly a vehicle sent to a free slot with a clear way is let in, on its route and for its stay |
| ParkingDecisions.EpisodeStartsExactly | integrated/host/rl/parking_env.py:378-425 | an episode starts with exactly the drawn vehicles parked, in the order drawn |
| ParkingDecisions.MasksExactly | integrated/host/rl/parking_env.py:574-645 | asking for the masks moves the clock exactly if no waiting is left and every slot is taken, then to the earliest departure |
| ParkingDecisions.EarliestIsEarliest | integrated/host/rl/parking_env.py:897-898 | the earliest departure is some vehicle's and no later than anyone's |
| ParkingCases.FullLotStaysFull | integrated/host/rl/parking_env.py:880-903 | a run of the repository's own lot that fills it and in which fast-forwarding to the earliest departure frees no slot, since the exit is still crossed by the last vehicle admitted |
| ParkingTables.RegisterMember | integrated/host/rl/parking_env.py:938-952 | registering a route adds exactly one booking per node of it |
| ParkingTables.RemoveVehicleMember | integrated/host/rl/parking_env.py:868-878 | removing a vehicle removes its reservations everywhere and nobody else's |
| ParkingEnv.ParkingRoutingEnv.Reset | integrated/host/rl/parking_env.py:378-425 | a reset yields a fresh episode with the drawn vehicles parked |
| ParkingEnv.ParkingRoutingEnv.Step | integrated/host/rl/parking_env.py:427-571 | one decision: errors, wait, refused or admitted slot, then clock, departures and termination |
| ParkingEnv.ParkingRoutingEnv.ActionMasks | integrated/host/rl/parking_env.py:585-647 | offers exactly the slots the shield admits; the fallback only when there is none, and then the nearest free slot alone |
| ParkingEnv.ParkingRoutingEnv.AdvanceTime | integrated/host/rl/parking_env.py:651-713 | clock, vehicles, purge of completed exits and departures advance together |
| ParkingEnv.ParkingRoutingEnv.ProcessDepartures | integrated/host/rl/parking_env.py:747-797 | every parked vehicle in turn leaves if it is due and its exit is clear |
| ParkingEnv.ParkingRoutingEnv.CheckConflictExcluding | integrated/host/rl/parking_env.py:799-819 | true exactly if some other vehicle's reservation comes within the margin of the route |
| ParkingEnv.ParkingRoutingEnv.CheckConflict | integrated/host/rl/parking_env.py:922-936 | the same without exception |
| ParkingEnv.ParkingRoutingEnv.BuildIntervals | integrated/host/rl/parking_env.py:907-915 | consecutive one-second intervals from the start time |
| ParkingEnv.ParkingRoutingEnv.RegisterReservation | integrated/host/rl/parking_env.py:938-952 | one table entry per route node |
| ParkingEnv.ParkingRoutingEnv.RemoveReservationsForVehicle | integrated/host/rl/parking_env.py:868-878 | the vehicle's entries are filtered from every node |
| ParkingEnv.ParkingRoutingEnv.SpawnExitingVehicle | integrated/host/rl/parking_env.py:821-866 | a vehicle at the start of its exit route, which is booked |
| ParkingEnv.ParkingRoutingEnv.EnsureFreeSlot | integrated/host/rl/parking_env.py:880-903 | with every slot taken the clock runs to the earliest departure |
| ParkingEnv.ParkingRoutingEnv.NearestFreeSlot | integrated/host/rl/parking_env.py:632-645 | the first of the free slots nearest to the junction, or none |
| ParkingEnv.ParkingRoutingEnv.CheckDone | integrated/host/rl/parking_env.py:963-978 | true exactly at the step limit or in a deadlock |
| VehicleSafety.MotorRunsOnlyWhileDriving | integrated/esp32_main/main/vehicle_control.c:595-738 | in every run the motor turns exactly in MOVING, and then in REMOTE_DIRECT with an active session and stream; the reported duty is the real one; a loaded target implies WAYPOINT_AUTO |
| VehicleSafety.MotorNeedsFreshCommand | integrated/esp32_main/main/vehicle_control.c:719-738 | after the timeout check a turning motor has a command younger than the timeout |
| VehicleSafety.GoIsNeverAccepted | integrated/esp32_main/main/vehicle_control.c:443-483 | in no run whatever a GO is accepted, since the pose it needs never becomes valid |
| VehicleSafety.HelloSafeExactly | integrated/esp32_main/main/vehicle_control.c:324-334 | a handshake answer keeps the vehicle safe if and only if it echoes the boot id or the motor stands still |
| VehicleSafety.BouncedRecordsNothing | integrated/esp32_main/main/vehicle_control.c:239-268 | a refused or repeated command changes nothing but the status queue, apart from a STOP having stopped the vehicle |
| VehicleSafety.FreshIsRecorded | integrated/esp32_main/main/vehicle_control.c:270-278 | a fresh command is recorded under its number with its verdict |
| VehicleCases.MismatchLeavesMotorTurning | integrated/esp32_main/main/vehicle_control.c:326-334 | a run in which a mismatched boot id locks the vehicle with the motor turning, and it turns on through any events other than a STOP, WAIT, RESET or link event |
| VehicleCases.OvertakenLossForgetsStop | integrated/esp32_main/main/vehicle_control.c:769-800 | a run of loop passes in which the loss of a connection is handled before that connection, and after the next one a stopped vehicle drives without a RESET |
| VehicleLog.CommandsTakeEffectInOrder | integrated/esp32_main/main/vehicle_control.c:239-278 | in every run a session's commands are processed in strictly increasing number order, so at most once, and after a STOP or WAIT nothing lower |
| VehicleLog.OldNumbersAreOnlyAnswered | integrated/esp32_main/main/vehicle_control.c:239-268 | a repeat of the last processed command only replays its recorded result, another payload is a conflict, a lower number is stale |
| VehicleStop.StopHolds | integrated/esp32_main/main/vehicle_control.c:532-640 | after any STOP the motor turns again only after, in this order, an accepted RESET, an accepted REMOTE_DIRECT mode and an applied direct command, as long as no connection is handled while an earlier handshake is open |
| VehicleStop.AlternatingLinkIsEnough | integrated/esp32_main/main/vehicle_control.c:280-322 | no connection is handled during an open handshake if the loss of the link is handled between any two connections |
| VehicleStop.LossHolds | integrated/esp32_main/main/vehicle_control.c:280-322 | after a link loss the motor turns again only after a new connection, an accepted REMOTE_DIRECT mode and an applied direct command |
| VehicleStop.ConnectKeepsLockExactly | integrated/esp32_main/main/vehicle_control.c:280-298 | a connection keeps a lock if and only if no earlier handshake is still open |
| VehicleStop.LockedKept | integrated/esp32_main/main/vehicle_control.c:300-387 | one event keeps a lock through reconnects, holds and timeouts, unless it is an accepted RESET, which disarms |
| VehicleStall.BoostsAreFair | integrated/esp32_main/main/vehicle_control.c:637-682 | in every run a command is boosted exactly if it comes the stall timeout or more into one standstill and less than the boost time after any earlier boost of it |
| VehicleStall.BoostDuty | integrated/esp32_main/main/vehicle_control.c:684-706 | an applied command drives at the boost duty if boosted, and otherwise at the calibrated duty |
| VehicleEffects.PowerOnExactly | integrated/esp32_main/main/vehicle_control.c:860-888 | a vehicle starts at rest, unattached and in WAYPOINT_AUTO, having heard, done and said nothing |
| VehicleEffects.ResetExactly | integrated/esp32_main/main/vehicle_control.c:548-593 | a fresh RESET is recorded as accepted exactly in a lock, or over a lock in a held handshake; a lock then gives READY, WAYPOINT_AUTO and rest |
| VehicleEffects.SetModeExactly | integrated/esp32_main/main/vehicle_control.c:595-616 | a fresh SET_MODE is recorded as accepted exactly in READY; it sets the mode and drops the stream |
| VehicleEffects.StopExactly | integrated/esp32_main/main/vehicle_control.c:532-546 | every STOP puts the vehicle at rest in EMERGENCY_STOP; a fresh one is recorded as accepted |
| VehicleEffects.WaitExactly | integrated/esp32_main/main/vehicle_control.c:492-530 | every fresh WAIT puts the vehicle at rest; the table of results, states and plans |
| VehicleEffects.WaypointExactly | integrated/esp32_main/main/vehicle_control.c:389-441 | the table of answers to a fresh WAYPOINT; exactly an accepted one is loaded and waited with |
| VehicleEffects.GoExactly | integrated/esp32_main/main/vehicle_control.c:453-483 | the table of refusals of a fresh GO without a valid pose; nothing moves |
| VehicleEffects.GoWithPose | integrated/esp32_main/main/vehicle_control.c:453-490 | with a valid pose a GO for the loaded waypoint would be accepted |
| VehicleEffects.OthersAreAnswered | integrated/esp32_main/main/vehicle_control.c:239-268 | a command that is not fresh changes nothing and is answered by one status with the right result and numbers |
| VehicleEffects.ConnectionExactly | integrated/esp32_main/main/vehicle_control.c:280-298 | a connection puts the vehicle at rest in the handshake, remembering state and session |
| VehicleEffects.LossExactly | integrated/esp32_main/main/vehicle_control.c:300-322 | a loss puts the vehicle at rest, keeps a lock or else ends in COMM_TIMEOUT, and is reported |
| VehicleEffects.AnswerExactly | integrated/esp32_main/main/vehicle_control.c:324-387 | the table of handshake answers: session, state, mode, error and reported result of each |
| VehicleEffects.DirectExactly | integrated/esp32_main/main/vehicle_control.c:619-716 | exactly a newer value of the live, unlocked direct session is put out: bounded throttle and steering, their direction, the servo angle, the state and the status that follow |
| VehicleEffects.TimeoutExactly | integrated/esp32_main/main/vehicle_control.c:719-738 | the check stops the vehicle exactly if it moves on a value as old as the timeout |
| VehicleEffects.PeriodicExactly | integrated/esp32_main/main/vehicle_control.c:844-855 | the periodic status is sent exactly while a session is open |
| VehicleEffects.MotorTurnsTheCommandedWay | integrated/esp32_main/main/actuator.c:226-279 | in every run a turning motor turns forward or backward as the sign of the last value applied says |
| VehicleEffects.DeliberateStepsDrive | integrated/esp32_main/main/vehicle_control.c:532-716 | from any run with a live session, STOP, RESET, SET_MODE and a driving value lead back to MOVING: the converse of `StopHolds` |
| VehicleControl.PassEndsFresh | integrated/esp32_main/main/vehicle_control.c:755-858 | whatever a loop pass found and whatever ticks it read, at its end a turning motor has a command that was younger than the timeout at the check |
| VehicleControl.VehicleController.ControlPass | integrated/esp32_main/main/vehicle_control.c:755-858 | one pass handles STOP, link events, WAIT, up to four commands, the stream value, the timeout and the periodic status, in this order, each timer by its own reading of the tick count |
| VehicleControl.PassOrder | integrated/esp32_main/main/vehicle_control.c:769-858 | the events of a pass that finds everything, with and without a STOP |
| VehicleControl.EmptyPass | integrated/esp32_main/main/vehicle_control.c:813-858 | a pass without notices empties a short queue and runs its timers |
| VehicleControl.Mailbox.Submit | integrated/esp32_main/main/vehicle_control.c:908-950 | STOP and WAIT overwrite their slots, other commands queue up to twelve |
| VehicleControl.Mailbox.Notify | integrated/esp32_main/main/vehicle_control.c:890-906 | notices add up until a pass takes them |
| VehicleControl.VehicleController.StoreDirect | integrated/esp32_main/main/vehicle_control.c:932-945 | the newest direct value replaces the stored one |
| VehicleControl.VehicleController.BeginReliable | integrated/esp32_main/main/vehicle_control.c:239-268 | a command is fresh exactly if its session is live and its number above the last one; otherwise it is answered |
| VehicleControl.VehicleController.FinishReliable | integrated/esp32_main/main/vehicle_control.c:270-278 | the command is recorded, remembered and answered |
| VehicleControl.VehicleController.HandleWaypoint | integrated/esp32_main/main/vehicle_control.c:417-441 | a waypoint is loaded in the waypoint mode if the route allows it |
| VehicleControl.VehicleController.HandleGo | integrated/esp32_main/main/vehicle_control.c:453-483 | the five conditions of GO, in order |
| VehicleControl.VehicleController.HandleWait | integrated/esp32_main/main/vehicle_control.c:492-530 | stop first, then wait for the loaded waypoint only |
| VehicleControl.VehicleController.HandleStop | integrated/esp32_main/main/vehicle_control.c:532-546 | stop and lock before any check |
| VehicleControl.VehicleController.HandleReset | integrated/esp32_main/main/vehicle_control.c:548-593 | a lock is cleared; a held vehicle starts its handshake over |
| VehicleControl.VehicleController.HandleSetMode | integrated/esp32_main/main/vehicle_control.c:595-616 | the mode changes only in READY |
| VehicleControl.VehicleController.HandleTcpConnected | integrated/esp32_main/main/vehicle_control.c:280-298 | a connection stops, disarms and starts the handshake, remembering the state before |
| VehicleControl.VehicleController.HandleCommTimeout | integrated/esp32_main/main/vehicle_control.c:300-322 | a lost link stops and disarms, keeping the stronger lock |
| VehicleControl.VehicleController.HandleHelloAck | integrated/esp32_main/main/vehicle_control.c:324-387 | ready, hold, rejected, locked, misplaced or mismatched answers |
| VehicleControl.VehicleController.HandleDirect | integrated/esp32_main/main/vehicle_control.c:619-716 | a direct value drives only in a live, unlocked direct session and with a higher sequence number |
| VehicleControl.VehicleController.TrackStall | integrated/esp32_main/main/vehicle_control.c:637-682 | the stall episode and boost window after one sample |
| VehicleControl.VehicleController.CheckDirectTimeout | integrated/esp32_main/main/vehicle_control.c:719-738 | an expired stream stops the vehicle and makes it wait |
| Actuator.ServoMapIsLinear | integrated/esp32_main/main/actuator.c:48-61 | the four-piece servo map equals 86 degrees plus 40 times the steering |
| Actuator.DutyRange | integrated/esp32_main/main/actuator.c:73-96 | the duty is zero exactly in the deadband and otherwise between 16 and 54 |
| Actuator.DutyMonotone | integrated/esp32_main/main/actuator.c:73-96 | the duty never falls with more throttle or more steering, across the knee and through rounding |
| Actuator.DutySymmetric | integrated/esp32_main/main/actuator.c:73-96 | the duty depends on the magnitudes only |
| Actuator.DriveDuty | integrated/esp32_main/main/actuator.c:226-279 | exactly 54 when boosted outside the deadband, the calibrated duty when not |
| Actuator.LiftedDuty | integrated/esp32_main/main/actuator.c:226-258 | any minimum lifts a nonzero duty to itself, at most to 255, and leaves zero at zero |
| Actuator.DutyIsRounded | integrated/esp32_main/main/actuator.c:73-96 | outside the deadband the duty is the rounded value of one bilinear formula on either side of the knee |
| Actuator.RoundIsNearest | integrated/esp32_main/main/actuator.c:92-92 | rounding goes to the nearest integer, half-way values away from zero |
| Actuator.Outputs.ApplyDirect | integrated/esp32_main/main/actuator.c:226-279 | what is reported is what was put on the pins |
| Actuator.Outputs.SafeStop | integrated/esp32_main/main/actuator.c:206-219 | motor off, servo centred |
| Reliability.TransmissionsAreOrderly | integrated/host/comm/reliability.py:69-150 | under any interleaving numbers never go back, a number always carries the same command, and none is transmitted more than five times |
| Reliability.NewNumbersIncrease | integrated/host/comm/reliability.py:69-101 | a command that is not refused gets a number above all before it |
| Reliability.StopIsOnlyEndedByItsAck | integrated/host/comm/reliability.py:69-150 | a pending STOP ends only by its acknowledgement, exhaustion or clearing |
| Reliability.LateAckSparesNewer | integrated/host/comm/reliability.py:105-127 | an acknowledgement decided from an earlier reading never clears a newer command |
| Reliability.ReliableSender.SendCommand | integrated/host/comm/reliability.py:69-101 | refused, or numbered and outstanding; only a higher priority preempts |
| Reliability.ReliableSender.OnAck | integrated/host/comm/reliability.py:105-111 | clears the outstanding command if its number is reached |
| Reliability.ReliableSender.OnTick | integrated/host/comm/reliability.py:129-150 | retransmits after the timeout or gives up |
| Reliability.SendExactly | integrated/host/comm/reliability.py:69-101 | a command goes out under the next number exactly if none is outstanding or it outranks that one, with its own timeout |
| Reliability.TickExactly | integrated/host/comm/reliability.py:129-150 | an expired command is transmitted again up to the fifth time and then given up; before that nothing happens |
| Reliability.AckExactly | integrated/host/comm/reliability.py:105-111 | an acknowledgement ends the outstanding command exactly if it reaches its number |
| Reliability.OthersExactly | integrated/host/comm/reliability.py:64-120 | clearing drops the outstanding command alone, taking a number only counts it |
| Reliability.UnansweredIsRepeated | integrated/host/comm/reliability.py:129-150 | n expired ticks without an answer, up to four, transmit the command n more times |
| Reliability.UnansweredIsGivenUp | integrated/host/comm/reliability.py:129-150 | the fifth gives it up |
| Reliability.ReliableSender.SetSeqStart | integrated/host/comm/reliability.py:59-62 | the next number is the start, or 1 if that is not positive |
| Reliability.ReliableSender.NextSeq | integrated/host/comm/reliability.py:64-67 | hands out the next number |
| CommandProtocol.AcceptedMeansAccepted | integrated/host/comm/server.py:359-381 | whenever the host reports a command as accepted, the vehicle processed that very command in that session with that result, whatever the channel did |
| CommandProtocol.HearingReportsExactly | integrated/host/comm/server.py:359-381 | hearing a status reports exactly the result of the outstanding command that it quotes as processed or rejected |
| ProtocolCases.AcceptanceGetsThrough | integrated/host/comm/server.py:359-381 | a run of host, channel and vehicle that ends with the report of an acceptance |
| CommandProtocol.CommandsAreProcessedOnce | integrated/host/comm/server.py:331-381 | over every run of host, channel and vehicle a session's commands are processed once and in order |
| CommandProtocol.CarStepSends | integrated/esp32_main/main/vehicle_control.c:133-278 | every status with a positive result quotes a command processed with that result |
| HostLink.SnapshotIsGreatest | integrated/host/comm/server.py:343-351 | in any order of arrival the snapshot kept is the status with the greatest number, whatever other messages arrive |
| HostLink.OutagesAreAnnouncedOnce | integrated/host/comm/server.py:440-460 | failures and recoveries are announced in turn, once per outage |
| HostLink.HearingRefinesTheHost | integrated/host/comm/server.py:331-381 | dispatching an answer, in a status or in a message of its own, is the protocol host's judgement followed by its acknowledgement |
| HostLink.AnswersAreReported | integrated/host/comm/server.py:331-381 | a status or result of this car and session, or of none, is reported and ends the outstanding command if and only if it carries its final result |
| HostLink.SnapshotExactly | integrated/host/comm/server.py:343-351 | the snapshot changes exactly to a status of this car and session, or of none, numbered above it |
| HostLink.ArrivalsAreAnswered | integrated/host/comm/server.py:352-357 | exactly an arrival that names its event is answered |
| HostLink.OutageExactly | integrated/host/comm/server.py:440-460 | anything heard ends an outage; a failure starts one and drops the outstanding command |
| HostLink.PushExactly | integrated/host/comm/server.py:145-157 | throttle and steering of the newest value in their places, under the next number |
| HostLink.OperatesExactly | integrated/host/comm/server.py:118-143 | sending and ticking change the sender alone |
| HostLink.VehicleSession.Dispatch | integrated/host/comm/server.py:331-357 | recovery, session and car filter, then by kind: a status is judged and may become the snapshot, a result is judged only, an arrival is only answered |
| HostLink.VehicleSession.ConsumeCommandResult | integrated/host/comm/server.py:359-381 | exactly a final result for the outstanding number is reported and ends the command |
| HostLink.VehicleSession.CommFail | integrated/host/comm/server.py:440-452 | announces the start of an outage and drops the outstanding command |
| HostLink.VehicleSession.Push | integrated/host/comm/server.py:145-157 | the newest control value under the next number of this session |
| PoseControl.DriveNeedsUsablePose | integrated/host/controller/pose_controller.py:72-135 | a command that moves or steers needs a valid, recent pose with a heading, permission and a target out of reach, and stays in the limits |
| PoseControl.ThrottleInLimits | integrated/host/controller/pose_controller.py:153-182 | the throttle is zero or in the moving range, also after rounding |
| PoseControl.SteeringInLimits | integrated/host/controller/pose_controller.py:137-151 | the steering is in [-1, 1], also after rounding |
| PoseControl.SteersTowardTarget | integrated/host/controller/pose_controller.py:137-151 | with both terms of the control law, the steering is negative exactly if the law asks for more than half a rounding unit to the left, positive exactly if for more than that to the right |
| PoseControl.ComputeExactly | integrated/host/controller/pose_controller.py:72-135 | the table of cases: gates with their reasons, arrival or missed heading, and driving, with the remembered error |
| PoseControl.WantedSpeedExactly | integrated/host/controller/pose_controller.py:166-178 | the speed falls in proportion to the heading error down to a floor, and in proportion to the remaining way |
| PoseControl.ThrottleExactly | integrated/host/controller/pose_controller.py:176-182 | the throttle is the speed in proportion, between the least and the greatest moving one, rounded |
| PoseControl.NoSpeedNoThrottle | integrated/host/controller/pose_controller.py:171-178 | no throttle without speed or within the stopping distance |
| PoseControl.SteeringExactly | integrated/host/controller/pose_controller.py:137-151 | the steering is the negated control law, cut off at full steering and rounded |
| PoseControl.DerivativeExactly | integrated/host/controller/pose_controller.py:190-198 | the rate is the change of the error over the time since, or zero |
| PoseControl.Round4IsNearest | integrated/host/controller/pose_controller.py:182-182 | rounding to four decimals gives the nearest such number |
| PoseControl.RoundEvenIsNearest | integrated/host/controller/pose_controller.py:182-182 | half-way values go to the even one |
| PoseControl.DefaultsAreSensible | integrated/host/controller/config.py:66-103 | the default configuration has the limits the results above ask for |
| PoseControl.PoseWaypointController.ComputeCommand | integrated/host/controller/pose_controller.py:43-135 | the gates, arrival, alignment and driving cases in order, with the derivative memory |
| HostControl.AutoPayloadIsBacked | integrated/host/host_control/host_controller.py:73-116 | under AUTO_HOST a payload that is not zero needs a running mission and a usable last observation, and stays in the limits |
| HostControl.AutoPayloadExactly | integrated/host/host_control/host_controller.py:91-116 | under AUTO_HOST the payload is exactly the controller's throttle and steering, and the mission takes the command |
| HostControl.ManualPayloadExactly | integrated/host/host_control/producers.py:40-55 | by hand the payload is the rounded throttle of the input, between zero and the greatest, and its rounded steering with the sign turned, each axis from its own input |
| HostControl.ManualReverseExactly | integrated/host/host_control/producers.py:40-55 | the same with reverse allowed |
| HostControl.ManualCommandDrives | integrated/host/host_control/producers.py:56-66 | a command by hand drives or holds and never claims an arrival |
| HostControl.AuthorityExactly | integrated/host/host_control/authority.py:77-118 | the authority after every operation |
| HostControl.ReasonExactly | integrated/host/host_control/authority.py:85-107 | the first fault is the one remembered until cleared |
| HostControl.HostStartsExactly | integrated/host/host_control/host_controller.py:49-65 | a host starts disarmed, with nothing sent, and its mission at the first waypoint |
| HostControl.FaultHoldsUntilRearmed | integrated/host/host_control/authority.py:77-125 | after a fault every payload is zero until the fault is cleared and, then or later, an authority armed |
| HostControl.CameraLossFaults | integrated/host/host_control/host_controller.py:104-112 | losing the camera under AUTO_HOST latches a fault and sends zero |
| HostControl.OneProducerAtATime | integrated/host/host_control/host_controller.py:84-116 | manual input is ignored under AUTO_HOST, and everything else under MANUAL |
| HostControl.UnarmedSendsZero | integrated/host/host_control/host_controller.py:86-89 | disarmed or faulted, only zero is sent |
| HostControl.PayloadsAreNumbered | integrated/host/host_control/direct_control.py:82-91 | control numbers count the payloads one by one |
| HostControl.PoseIsLastObserved | integrated/host/host_control/pose_source.py:32-76 | the stored pose is the last one observed, with its own time |
| HostControl.MissionNeedsEveryArrival | integrated/host/host_control/mission.py:64-107 | a mission is done exactly after arriving at every waypoint up to its final one |
| HostControl.MissionEventsExactly | integrated/host/host_control/mission.py:77-119 | loading, resetting and confirming, and that nothing else between ticks touches the mission |
| HostControl.MissionStartsExactly | integrated/host/host_control/mission.py:39-69 | a loaded mission runs at its first waypoint, or is empty; a running one has its waypoint as target |
| HostControl.AligningSuspends | integrated/host/host_control/mission.py:85-96 | a missed heading suspends the mission |
| HostController.HostController.TickOnce | integrated/host/host_control/host_controller.py:73-116 | one payload per tick, from the authority's own producer (`AutoPayloadExactly`, `ManualPayloadExactly`, `UnarmedSendsZero` say which) |
| HostController.ControlAuthority.Fault | integrated/host/host_control/authority.py:92-96 | a fault latches with its first reason |
| HostController.ControlAuthority.Rearm | integrated/host/host_control/authority.py:109-118 | clears a fault and arms, unless an authority is active |
| HostController.HostController.ArmAuto | integrated/host/host_control/host_controller.py:119-121 | forgets the derivative and arms from DISARMED only |
| HostController.HostController.RearmAuto | integrated/host/host_control/host_controller.py:136-138 | forgets the derivative, clears a fault and arms unless an authority is active |
| HostController.HostController.ArmManual | integrated/host/host_control/host_controller.py:123-124 | arms the manual authority from DISARMED only |
| HostController.HostController.EmergencyStop | integrated/host/host_control/host_controller.py:129-131 | latches like any fault |
| HostController.HostWaypointMission.NotifyResult | integrated/host/host_control/mission.py:85-107 | next waypoint, done, replan or no change |
| HostController.HostWaypointMission.ConfirmParked | integrated/host/host_control/mission.py:109-112 | only a finished mission is confirmed as parked |
| HostController.CameraPoseSource.Observe | integrated/host/host_control/pose_source.py:32-52 | keeps the observation with its own time |
| HostController.DirectControlSender.Transmit | integrated/host/host_control/direct_control.py:82-91 | the next number and the rounded values |
| ModeHandshake.ArmingNeedsAcceptance | integrated/host/integration/remote_direct_session.py:86-184 | unless the host is armed past the session, AUTO_HOST is entered only after the handshake's own request was accepted, and a rejection, failure, resync, fault or stop lies in between if and only if one does that was cleared again |
| ModeHandshake.DrivingNeedsAcceptance | integrated/host/integration/remote_direct_session.py:107-119 | a payload that moves or steers under AUTO_HOST has a running mission, a usable observation and such an arming behind it, and nothing has left AUTO_HOST since |
| ModeHandshake.ClearedFaultLetsItArm | integrated/host/integration/remote_direct_session.py:107-119 | a run in which the link fails after the acceptance, an operator clears the fault, and the host arms all the same |
| ModeHandshake.AnswerExactly | integrated/host/integration/remote_direct_session.py:128-144 | what a result and a rejection do |
| ModeHandshake.SessionStartsExactly | integrated/host/integration/remote_direct_session.py:50-59 | a session starts idle and unanswered over a disarmed host |
| ModeHandshake.LinkExactly | integrated/host/integration/remote_direct_session.py:146-170 | what a failure, a recovery and a greeting do |
| ModeHandshake.ThreadExactly | integrated/host/integration/remote_direct_session.py:86-184 | what each step of the arming thread does |
| ModeHandshake.RemoteDirectSession.OnCommandResult | integrated/host/integration/remote_direct_session.py:128-137 | only this car's result for the latest request counts |
| ModeHandshake.RemoteDirectSession.OnCommandRejected | integrated/host/integration/remote_direct_session.py:139-144 | any rejection of this car faults the host and ends the wait |
| ModeHandshake.RemoteDirectSession.OnCommFail | integrated/host/integration/remote_direct_session.py:146-154 | a communication failure of this car faults the host |
| ModeHandshake.RemoteDirectSession.WaitAccepted | integrated/host/integration/remote_direct_session.py:100-105 | a wait without an answer faults |
| ModeHandshake.RemoteDirectSession.CheckRejection | integrated/host/integration/remote_direct_session.py:115-117 | a wait that a rejection ended faults instead of arming |
| ModeHandshake.RemoteDirectSession.Arm | integrated/host/integration/remote_direct_session.py:107-119 | opens the stream and arms from DISARMED only |
| ModeHandshake.RemoteDirectSession.OnResync | integrated/host/integration/remote_direct_session.py:161-170 | faults and forgets the request |
| ModeHandshake.RemoteDirectSession.BeginRearm | integrated/host/integration/remote_direct_session.py:173-177 | a latched fault is cleared before the request is sent again |
| Bridge.DriveImpliesStreaming | remote-direct-bridge/controller.py:283-404 | in every run a desired drive other than zero means that streaming is armed |
| Bridge.ArmedByPendingRequest | remote-direct-bridge/controller.py:204-221 | a status arms only as the acceptance of a mode request that no STOP has followed |
| Bridge.LastStatusIsGreatest | remote-direct-bridge/session.py:147-158 | for any order of arrival the session knows the greatest status number, and its snapshot is the status with that number or one without a number |
| Bridge.EncoderDeltasAddUp | remote-direct-bridge/controller.py:252-257 | exactly the published snapshots with an encoder count have a delta, and the deltas add up to the last count minus the first |
| Bridge.StatusExactly | remote-direct-bridge/controller.py:204-272 | what a status does to stream, mode request, outstanding command, snapshot and wanted drive |
| Bridge.SetDriveExactly | remote-direct-bridge/controller.py:365-374 | each axis becomes its own bounded value; not streaming, anything but zero zeroes both |
| Bridge.SetThrottleExactly | remote-direct-bridge/controller.py:347-354 | one axis is set and the other kept |
| Bridge.SetSteeringExactly | remote-direct-bridge/controller.py:356-363 | one axis is set and the other kept |
| Bridge.NudgeExactly | remote-direct-bridge/controller.py:376-390 | nudging adds to one axis; centring and neutral zero one |
| Bridge.PauseExactly | remote-direct-bridge/controller.py:392-404 | pausing disarms and zeroes; resuming arms at zero exactly in READY or WAITING of the direct mode |
| Bridge.ModeIntentExactly | remote-direct-bridge/controller.py:283-317 | when a mode request goes out, and when the stream is armed again at once |
| Bridge.StopIntentExactly | remote-direct-bridge/controller.py:319-329 | disarms, and when STOP goes out |
| Bridge.ResetIntentExactly | remote-direct-bridge/controller.py:331-345 | when RESET goes out |
| Bridge.DirectPeriodExactly | remote-direct-bridge/controller.py:460-481 | pauses exactly an armed stream that the last snapshot forbids |
| Bridge.ResendExactly | remote-direct-bridge/controller.py:483-508 | sends again up to five times and then drops the command and its mode request |
| Bridge.HelloExactly | remote-direct-bridge/controller.py:124-193 | which greetings keep the session, and the session any other opens |
| Bridge.AttachExactly | remote-direct-bridge/controller.py:80-100 | attaching arms nothing, detaching ends everything |
| BridgeController.Controller.OnStatus | remote-direct-bridge/controller.py:223-272 | answers complete commands first; only newer snapshots are taken |
| BridgeController.Controller.FinishPendingMode | remote-direct-bridge/controller.py:204-221 | acceptance in the direct mode arms, a refusal quiets |
| BridgeController.Controller.OnHello | remote-direct-bridge/controller.py:124-193 | a repeated greeting keeps the session, any other opens a fresh, quiet one |
| BridgeController.Controller.CmdModeRemote | remote-direct-bridge/controller.py:283-317 | one request at a time, only in READY; already in the direct mode it re-arms at neutral |
| BridgeController.Controller.CmdStop | remote-direct-bridge/controller.py:319-329 | quiets first, then preempts with STOP |
| BridgeController.Controller.CmdReset | remote-direct-bridge/controller.py:331-345 | only for a locked or held vehicle |
| BridgeController.Controller.CmdSetDrive | remote-direct-bridge/controller.py:365-374 | clamps, and refuses to drive when not streaming |
| BridgeController.Controller.CmdSetThrottle | remote-direct-bridge/controller.py:347-354 | clamps, and stays neutral when not streaming |
| BridgeController.Controller.CmdResume | remote-direct-bridge/controller.py:397-404 | streams again at neutral, in READY or WAITING of the direct mode only |
| BridgeController.Controller.AttachSender | remote-direct-bridge/controller.py:80-82 | attaching a sender arms nothing |
| BridgeController.Controller.SendReliable | remote-direct-bridge/controller.py:414-448 | one outstanding command unless it preempts |
| BridgeController.Controller.DirectPeriod | remote-direct-bridge/controller.py:460-481 | sends the desired drive only while streaming and allowed by the last snapshot |
| BridgeController.Controller.ResendPeriod | remote-direct-bridge/controller.py:483-508 | resends at most five times, then gives the command and its mode request up |
| BridgeController.VehicleSession.ConsumeTerminalResult | remote-direct-bridge/session.py:112-145 | only an exact final result clears the outstanding command |
| BridgeController.VehicleSession.RecordSnapshot | remote-direct-bridge/session.py:153-158 | keeps any snapshot; a missing or older number never lowers the greatest one |
| BridgeController.VehicleSession.IsStaleSnapshot | remote-direct-bridge/session.py:147-151 | stale exactly if it has a number not above the greatest |
| Framing.EveryCutDeliversTheLines | integrated/esp32_main/main/network_client.c:127-169 | however a stream of lines of at most 512 bytes is cut, exactly its non-empty lines are delivered in order and the unfinished one is kept |
| Framing.OverlongLinesCostNothingElse | integrated/esp32_main/main/network_client.c:127-169 | for any stream and any cut a line of at most 512 bytes is delivered in its place whatever is around it; a longer one delivers nothing or what follows its first 513 bytes or more |
| Framing.CutDecidesWhatIsLeft | integrated/esp32_main/main/network_client.c:163-169 | one overlong line delivers nothing in one cut and its last byte in another |
| Framing.NeverOverflows | integrated/esp32_main/main/network_client.c:127-137 | for any stream at most 512 bytes are retained, so the overflow branch is unreachable |
| Framing.KeptAreNonEmpty | integrated/esp32_main/main/network_client.c:151-161 | of lines that fit, exactly the empty ones are not delivered |
| Framing.StripCrExactly | integrated/esp32_main/main/network_client.c:155-157 | exactly one trailing carriage return goes |
| Framing.OverflowLosesAll | integrated/esp32_main/main/network_client.c:130-134 | a chunk without room is lost with the buffer |
| Framing.StreamBuffer.AppendStream | integrated/esp32_main/main/network_client.c:127-169 | in-place buffering equals splitting buffer and chunk into lines, each without one trailing carriage return |
| Framing.Communicate | integrated/esp32_main/main/network_client.c:180-214 | the receive loop delivers the stream's lines |
| Framing.LineDrain.DrainLines | remote-direct-bridge/server.py:115-140 | complete lines leave the buffer, an overlong rest is dropped |
| Framing.HandleClient | remote-direct-bridge/server.py:88-101 | the bridge's read loop delivers the stream's lines |
| SegmentDistance.SegSegIsLowerBound | integrated/host/parking/safety.py:55-85 | no two points of the segments are nearer than the closed form says |
| SegmentDistance.SegSegIsAttained | integrated/host/parking/safety.py:55-85 | some two points are exactly that far apart, touching, collinear and degenerate segments included |
| SegmentDistance.CrossingTest | integrated/host/parking/safety.py:76-80 | the crossing test fires only if the segments meet, and fires if they meet inside both |
| SegmentDistance.FootIsNearest | integrated/host/parking/safety.py:64-71 | the clamped projection is the nearest point of the segment |
| CollisionMonitor.DangerExactly | integrated/host/parking/safety.py:121-137 | a pair is reported if and only if it is too close with a car moving, or both move and their planned ways come too close somewhere |
| CollisionMonitor.WithinExactly | integrated/host/parking/safety.py:121-137 | the test on squares is the test on distances |
| CollisionMonitor.WaiterYields | integrated/host/parking/safety.py:88-94 | the stopped car moves and the other goes first or stands |
| CollisionMonitor.CheckIsSymmetric | integrated/host/parking/safety.py:121-146 | the verdict on a pair, who stops included, does not depend on the order the two are listed in |
| CollisionMonitor.FirstKeepsGoing | integrated/host/parking/safety.py:112-119 | while all cars move, the one that goes first is never stopped |
| CollisionMonitor.RowsHave | integrated/host/parking/safety.py:112-119 | the events are exactly those of the pairs in danger |
| CollisionMonitor.CollisionMonitor.CheckAll | integrated/host/parking/safety.py:112-119 | every pair is checked once, in order |
| Association.AssociationIsStable | integrated/host/cv/association.py:87-132 | the matching is one to one, of admissible candidates, and stable |
| Association.GreedyIsTheStableChoice | integrated/host/cv/association.py:113-129 | with distinct scores the greedy choice is the only stable one |
| Association.SortIsStable | integrated/host/cv/association.py:113-113 | sorting keeps candidates of equal score in order |
| Association.SortSorts | integrated/host/cv/association.py:113-113 | sorting permutes the candidates into descending order |
| Association.CarsArePartitioned | integrated/host/cv/association.py:131-132 | a car is listed as unpaired, once, exactly if no pair uses it |
| Association.CandidatesAre | integrated/host/cv/association.py:91-111 | the candidates are exactly the admissible combinations with their scores |
| Association.AdmissibleExactly | integrated/host/cv/association.py:32-101 | whether a car and a cushion may be paired, in whole numbers |
| Association.SelectExactly | integrated/host/cv/association.py:87-88 | cars and cushions are exactly the detections of their kind, in order |
| Association.PickPairs | integrated/host/cv/association.py:114-129 | the loop over used cars and cushions makes the greedy choice |
| Association.Associate | integrated/host/cv/association.py:69-132 | pairs and unpaired cars of a frame |

## Left out

- Rewards, observations, diagnostics counters, physical positions and the exit log of the simulator: they influence no decision.
- Vehicle and parked-vehicle records of the simulator are values in lists, not shared mutable dictionaries.
- The lot of the simulator is any pair of route tables of the stated shape; the tables of the repository are one (`TheLotIsGood`).
- Liveness of the simulator's fast-forward beyond `FastForwardFrees`.
- ParkingEnv.ParkingRoutingEnv.Reset: takes the drawn vehicles as an argument in place of the random generator.
- Negative command results: after a reconnect a status without a session id can carry a number of the old session, so the code does not attribute them reliably, and nothing is claimed about them.
- Overflow of the vehicle's status queue and of its status text is channel loss; `status_seq` does not wrap; the encoder count in statuses is an input of the bridge only.
- VehicleSafety.MotorRunsOnlyWhileDriving: says nothing of the reported servo angle, which `SET_MODE` resets in the report without moving the servo.
- Coordinates, tolerances and flags of a waypoint are carried unread by the vehicle, as in the firmware.
- GPIO, LEDC, tasks, mutexes, sockets, heartbeats, Wi-Fi and JSON: atomic steps and arbitrary event orders stand for them.
- Transmission outside the sender's lock: decisions are logged in lock order, and the channel may reorder.
- HostLink.VehicleSession.Dispatch: the acknowledgement follows the judgement at once, and callbacks run to completion; the delayed one is covered by `LateAckSparesNewer` and by `CommandProtocol`, where acknowledgements come at any time.
- Hold judgement, resynchronisation callbacks, pose stream and heartbeats of the server.
- Distance, heading error and final heading error enter the pose controller as numbers; wrap-around of angles, `atan2` and `hypot` are not modelled. Steering gains apply to an error in radians with the normalisation angle given in radians; a normalisation angle of zero, which the source cannot divide by, demands nothing here.
- ModeHandshake.RemoteDirectSession.BeginHandshake: one thread arms, one handshake at a time; storing the number of the request and sending it are one step, as under the session's lock.
- The zero value that the session pushes through the server on a failure or resync, and chaining its callbacks behind existing ones.
- The bridge's intents run to completion; interleaving at their suspension points, logging, status printing and heartbeats are left out.
- UTF-8 decoding and message parsing behind the framing.
- The distances in collision events are squared and not rounded.
- Association.Associate: scores are an arbitrary function, so nothing is claimed about closeness, confidence or heading terms.
- Mission orchestration over WAYPOINT and GO, the pipeline runner, training, vision, the web application and all front ends.
