# Verification of the train control, its parsers and its onboard supervision

This project models the safety-critical parts of the repository in Dafny and proves properties of the model. Most parts
come twice: as functions from a state and an event to the next state, which the theorems are about, and as classes and
methods in the form of the program, proved to compute those functions. `dafny verify dfyconfig.toml` checks everything.

| file | models |
|---|---|
| `ring.dfy` | a closed line of sections or stations |
| `rtu.dfy`, `rtu_line.dfy` | one station controller; a line of them with trains and channels of any delay |
| `rtu_start.dfy`, `rtu_progress.dfy`, `rtu_timing.dfy` | the start-up of the whole line; whether the line can go on; how long lights and counts last |
| `events.dfy`, `dc_alg.dfy`, `jg_alg.dfy`, `lockstep.dfy` | the events of the track, two independently written occupancy machines, and how far they agree |
| `startup_alg.dfy` | the voter that lets one train start in each electrical zone, and the evaluation of the stop lights |
| `sim.dfy`, `sim_safety.dfy`, `sim_traffic.dfy` | the plant of trains, the vote and its latch; freedom from collisions; how each train comes, runs and goes |
| `zone_plant.dfy` | the plant with the voter for zones among its voters |
| `green_time.dfy`, `schedule.dfy`, `schedule_stops.dfy` | the schedule controller: when lights turn green, train numbers, the pace clock; when it stops |
| `crc.dfy` | the CRC of MODBUS frames and the errors it finds |
| `chars.dfy` | character classes and NULs, shared by the parsers |
| `json_scan.dfy`, `json_split.dfy`, `json_safety.dfy` | the in-place JSON scanner, on any terminated buffer |
| `json_values.dfy`, `json_parts.dfy`, `json_number.dfy` | JSON texts, and what the scanner makes of them |
| `splitter.dfy` | the in-place splitter of delimited lines |
| `profile.dfy`, `speed.dfy` | the cursor over a speed profile; the three onboard speed supervisors |
| `batch.dfy` | batched point reads and the packing of outputs |

`double` is modelled by `real`, `int` by unbounded integers, 16-bit words by `bv16` in the CRC and by numbers below
65536 in the batched reads. Times, sensor readings, received messages and the answers of other voters are inputs.

## Results in which the program and its documentation or intent differ

- `classic_tcontrol/rtu.cpp:235` passes `false` where the comment says red and every other call uses `true` for red. The
  class `StationController` does what the code does. Safety is proved for the level the comment means
  (`SafeOnEveryRun`). For the level that is written it holds exactly for lines with fewer than two trains or without a
  free segment (`SafeAsWrittenIff`); along a single run, as long as every train that starts has leave
  (`SafeWithLeave`, `InvIffLeave`, `LeaveDecides`). With the written level a light left green is never taken back
  (`LeftGreenAsWritten`), with the other one it is after thirty seconds (`NotLeftGreen`).
- A station discards a count that stays partial for 30 seconds (`classic_tcontrol/rtu.cpp:245-253`), as after an emergency
  stop across the sensor. The train is then never reported, and the line comes to stand for good although it stays safe
  (`GoesOnIff` and `MiscountedIffTold` have the exact conditions, `ALineStandsForGood` the run, `OneLossStopsTheLine` the
  bound).
- During the start-up handshake the sensor is read at two messages; if a train arrives in between, a station starts with
  its green rule broken (`HandshakeInAnyOrder` has the exact condition).
- The voter for zones may take a green light back from a train that has passed it, and the detector is then crossed at
  red (`RedIffTakenBack` has the exact condition, `CrossingAtRedHappens` the run).
- `init_at_entry` (`classic_tcontrol/sim.cpp:220-236`) keeps the record of having arrived from an earlier turn of the
  train object; a train that enters with it never arrives and never departs (`LeavesWithRecord`, `ComesStranded`,
  `StrandedForGood`).
- The comment at `classic_tcontrol/startup_alg.cpp:235` and the code differ when the sensor is crossed late
  (`BlockEndsAsPromised` has the exact condition).
- The second occupancy machine alone shows a stale green after an entry behind which a train has come up
  (`StrictIffFreeEntries` has the exact condition, `StrictFails` a run); the first machine masks it
  (`StaleGreenIsMasked`, `JointVote`).
- `controlalg.cpp` turns a light green when an entry is cancelled, whatever the timetable says (`LitIffCancelsDue` has
  the exact condition, `LightsFail` a run), and its numbers do not survive trains that come and go
  (`EntryKeepsIdentity`, `ExitEndsIdentity`). A negative slot of a train that enters is moved a cycle away from zero, not
  into the cycle (`EntryIsBooked`).
- `rt_json_skip_number` does not know the capital E that RFC 8259 allows (`ValueIsSkipped`, `ArrayIsCut` and
  `ObjectIsCut` have the exact condition).
- The three speed supervisors differ between their limits, by up to two thousandths (`AgreeOutsideBands` has the exact
  condition).
- The profile cursor lags after a jump (`CursorIsSearch` has the exact condition; `JumpCanDisorder` shows what it costs).

## Main results

Each holds for every run, or for every text, frame or profile; the table below has a row for each.

- Distributed line (`rtu_line.dfy`, `rtu_progress.dfy`): `SafeOnEveryRun`, `SafeAsWrittenIff`, `GoesOnIff`,
  `MiscountedIffTold`, `GoesOnUnlessPartial`, `OneLossStopsTheLine`; time (`rtu_timing.dfy`): `NotLeftGreen`,
  `NotDiscardedEarly`; start-up (`rtu.dfy`, `rtu_start.dfy`): `HandshakeInAnyOrder`, `LineStarts`.
- Plant and voters (`sim_safety.dfy`, `sim_traffic.dfy`, `zone_plant.dfy`): `CollisionFree`, `CollisionFreeWithinTick`,
  `StopsOnlyOnRefusal`, `TickDoes`, `StrandedForGood`, `RedIffWithdrawn`, `RedIffTakenBack`, `CrossingAtRedHappens`,
  `ApartInBothWays`, `NobodyEnters`.
- Voter for zones (`startup_alg.dfy`): `OneGreenPerZone`, `SecondPassSettles`, `NoIffOvertaken`, `NoSecondStart`.
- Occupancy machines (`dc_alg.dfy`, `lockstep.dfy`): `LightsTellOnEveryRun`, `LockstepOnEveryRun`,
  `AgreeUnlessDivergent`, `JointVote`, `StrictIffFreeEntries`, `Lockstep.SomebodyMayGo`, `NamesAreNotReused`,
  `HaltsAtStartIff`.
- Schedule (`green_time.dfy`, `schedule.dfy`, `schedule_stops.dfy`): `GreenIsOnSchedule`, `LastIsIgnored`,
  `TrainsKeepTheirPlaces`, `TimeIsConserved`, `CrossingIsBooked`, `LitIffCancelsDue`, `LightsFollowTimetable`,
  `StartIsSound`, `StoppedIffEverRefused`, `BooksStaySame`.
- CRC (`crc.dfy`): `BurstsAreFound`, `OddErrorsAreFound`, `TrickIsByteStep`, `CrcIsSerial`, `AcceptedIffZero`.
- Texts (`json_*.dfy`, `splitter.dfy`): `ArrayIsCut`, `ObjectIsCut`, `ArrayCutsOnly`, `ObjectCutsOnly`, `ValueIsSkipped`,
  `ArrayIsSeparated`, `ReadsNumbers`, `ReadsTheLongest`, `Splitter.RoundTrip`, `Splitter.GetDelimArgs`, `RestIsLast`.
- Onboard and points (`profile.dfy`, `speed.dfy`, `batch.dfy`): `CursorIsSearch`, `LimitsFollowCurve`,
  `LimitsStayInOrder`, `AgreeOutsideBands`, `DownUntilReleased`, `BatchReadsPoints`, `BatchIsSingles`, `CountIsGreatest`.

## Model

| member | source | states |
|---|---|---|
| `RtuLine.SafeOnEveryRun` | classic_tcontrol/rtu.cpp:201-465 | On every run of the line, with the light red after a crossing and messages delayed for any time: no two trains share a segment, each pair of neighbours has at most one message under way, `allow_green` is "train behind and none in front" at every station, and no station raises a surprise alarm |
| `RtuLine.SafeWithLeave` | classic_tcontrol/rtu.cpp:203-262 | The same for either light level after a crossing, for runs in which every train that starts has leave |
| `RtuLine.LeaveDecides` | classic_tcontrol/rtu.cpp:212-230 | A train that starts on a green light and crosses raises a surprise alarm exactly if the station had not given leave |
| `RtuLine.SafeAsWrittenIff` | classic_tcontrol/rtu.cpp:234-235 | With the literal `false` of the source as the level after a crossing, a line is free of shared segments on every run from its start exactly if it has fewer than two trains or no free segment |
| `RtuLine.UnsafeAsWritten` | classic_tcontrol/rtu.cpp:234-235 | From every quiet state in which one train has a free segment in front and another train is anywhere behind it, that level admits a run into a collision |
| `RtuLine.GoOn` | classic_tcontrol/rtu.cpp:201-441 | A train with a free segment in front goes on into it and, all messages delivered, the line is quiet again with the beliefs of all stations right |
| `RtuLine.Collide` | classic_tcontrol/rtu.cpp:234-235 | With the level of the source, a train right behind one that goes on follows it into the same segment |
| `RtuLine.FullStands` | classic_tcontrol/rtu.cpp:453-465 | On a line without a free segment no light turns green and no train moves, whatever is written after a crossing |
| `RtuLine.SuchALineExists` | classic_tcontrol/rtu.cpp:234-235 | There is a line with trains and a free segment, so the deviation is real |
| `RtuLine.AFullLineExists` | classic_tcontrol/rtu.cpp:234-235 | There is a line without a free segment too |
| `RtuLine.InvIffLeave` | classic_tcontrol/rtu.cpp:203-262 | The token invariant holds all along a run, for either level, exactly if every train that starts has leave |
| `RtuProgress.GoesOnIff` | classic_tcontrol/rtu.cpp:203-262 | In any state of the line with lights that are green with leave only, for either level after a crossing: some continuation leads to the report of a train exactly if some train has a free segment in front and none of its pulses have been discarded; otherwise no train ever departs again |
| `RtuProgress.MiscountedIffTold` | classic_tcontrol/rtu.cpp:245-253 | On every run from the start pulses of some train have been discarded exactly if a station has raised the partial count alarm |
| `RtuProgress.GoesOnUnlessPartial` | classic_tcontrol/rtu.cpp:203-262 | No deadlock without that alarm: on every run of a line that is neither empty nor full some continuation leads to a report |
| `RtuProgress.MiscountedForever` | classic_tcontrol/rtu.cpp:245-253 | A train of which pulses have been discarded is never reported, on any continuation |
| `RtuProgress.OneLossStopsTheLine` | classic_tcontrol/rtu.cpp:245-253 | After the alarm, however the run goes on, at most trains times (segments - 1) further crossings are ever reported |
| `RtuProgress.ALineStandsForGood` | classic_tcontrol/rtu.cpp:245-253 | A run of a two-segment line with one train, red after a crossing, at whose end all messages are delivered, the train is in a segment of its own, and it never departs again |
| `RtuProgress.SomebodyMayGo` | classic_tcontrol/rtu.cpp:453-465 | When all messages have arrived and no pulses are lost, a line that is neither empty nor full has a train that departs on the green light of the next request if it still stands at its station, and that a run brings to its report wherever it is |
| `RtuProgress.GoesOn` | classic_tcontrol/rtu.cpp:203-262 | From any state a train with a free segment in front and no lost pulse is reported after its messages, pulses and one poll |
| `RtuProgress.ActionCounts` | classic_tcontrol/rtu.cpp:203-262 | Every action with leave keeps what has been miscounted and keeps the alarm telling |
| `RtuProgress.StuckStays` | classic_tcontrol/rtu.cpp:203-262 | A line in which no train can go on in that sense stays so |
| `RtuProgress.ReportsCloseGaps` | classic_tcontrol/rtu.cpp:201-262 | Each report closes the gaps behind the lost train by one segment |
| `RtuStart.LineStarts` | classic_tcontrol/rtu.cpp:136-465 | From a line whose stations have all been reset, with trains in segments of their own and no poll of a waiting station later than 15 seconds after its first message: once every station has been ordered to start and all messages have arrived, delayed for any time, the line is in the state its runs start from |
| `RtuStart.StepsKeep` | classic_tcontrol/rtu.cpp:136-465 | All along, what each station has heard is what the sensors read, and exactly the words not yet heard are under way |
| `RtuStart.OrderKeeps` | classic_tcontrol/rtu.cpp:300-322 | The order of the centre puts one word for each neighbour under way |
| `RtuStart.HearLastKeeps` | classic_tcontrol/rtu.cpp:396-441 | Hearing the word from behind |
| `RtuStart.HearNextKeeps` | classic_tcontrol/rtu.cpp:341-392 | Hearing the word from in front |
| `RtuStart.TurnKeeps` | classic_tcontrol/rtu.cpp:266-284 | A turn of the polling loop in time |
| `RtuLine.InvSafe` | classic_tcontrol/rtu.cpp:201-262 | The four-phase token of every segment implies that trains are apart and channels hold at most one message |
| `RtuLine.InitInv` | classic_tcontrol/rtu.cpp:159-180 | The state after the start-up handshake satisfies the token invariant |
| `RtuLine.ActionKeeps` | classic_tcontrol/rtu.cpp:266-441 | Every action of trains, stations, channels and centre keeps the invariant unless it starts a train without leave |
| `RtuLine.CrossingPollKeeps` | classic_tcontrol/rtu.cpp:212-244 | Reporting a crossing moves the token of both neighbouring segments together |
| `RtuLine.QuietPollKeeps` | classic_tcontrol/rtu.cpp:245-260 | A poll with a partial count changes no belief |
| `RtuLine.DeliverForwardKeeps` | classic_tcontrol/rtu.cpp:396-441 | Taking a neighbour's crossing message from behind keeps the invariant |
| `RtuLine.DeliverBackwardKeeps` | classic_tcontrol/rtu.cpp:341-392 | Taking a neighbour's crossing message from in front keeps the invariant |
| `RtuLine.CentralKeeps` | classic_tcontrol/rtu.cpp:288-338 | No request of the centre to a running station can break the invariant |
| `RtuLine.NextIsFree` | classic_tcontrol/rtu.cpp:453-465 | Leave to cross means that the segment in front is free of trains, also of trains under way |
| `RtuLine.PolledStation` | classic_tcontrol/rtu.cpp:203-262 | What one poll does to a running station: which messages it sends and exactly when it raises the crossing alarm |
| `Rtu.HandshakeInAnyOrder` | classic_tcontrol/rtu.cpp:136-180 | The start message of the centre and one occupancy message of each neighbour, in any order, each with its own sensor reading and time and with any turns of the polling loop between them, start a station exactly if no turn comes more than 15 seconds after the first message; the green rule is then established exactly if the segment in front is occupied or the two readings of the sensor agree |
| `Rtu.OneMoreGreeting` | classic_tcontrol/rtu.cpp:159-180 | Each of the three messages is remembered, with the sensor reading it came with, until the others have come |
| `Rtu.PolledWaiting` | classic_tcontrol/rtu.cpp:136-155 | Turns of the polling loop leave a waiting station alone up to 15 seconds after the first message and make it forget everything at a later one |
| `Rtu.ReadyIsTold` | classic_tcontrol/rtu.cpp:159-180 | Ready is told to the centre exactly by the message that completes the three; none of them causes an alarm |
| `Rtu.FailureIsTold` | classic_tcontrol/rtu.cpp:136-155 | A waiting station tells that its start-up has failed exactly at a turn later than 15 seconds after the first message |
| `Rtu.PolledLight` | classic_tcontrol/rtu.cpp:184-262 | What one turn makes of the light of a running station, for every count, time and level: a light green for more than 30 seconds is red afterwards and told, a full count sets the level, and no other light changes |
| `Rtu.PolledTimer` | classic_tcontrol/rtu.cpp:245-260 | What one turn makes of the count: cleared when full, told and discarded when partial for more than 30 seconds, timed from the first turn that sees it |
| `Rtu.CentreIsAnswered` | classic_tcontrol/rtu.cpp:288-338 | The lamp and the beliefs of a station after each message of the centre, and what is sent |
| `Rtu.NeighboursAreHeard` | classic_tcontrol/rtu.cpp:341-441 | The beliefs and the lamp of a running station after each message of a neighbour, and its alarm |
| `RtuTiming.NotLeftGreen` | classic_tcontrol/rtu.cpp:184-199 | On every run, red after a crossing: a light that is green right after a poll at some time has been ordered green by the centre, at most 30 seconds before |
| `RtuTiming.NotDiscardedEarly` | classic_tcontrol/rtu.cpp:245-253 | On every run a poll discards a partial count only more than 30 seconds after another poll of the station |
| `RtuTiming.LeftGreenAsWritten` | classic_tcontrol/rtu.cpp:234-235 | With the literal `false` of the source a light left green after a crossing is not timed, and no number of polls takes it back |
| `RtuTiming.RunTimed` | classic_tcontrol/rtu.cpp:184-260 | On every run green lights are timed from an order of the centre and counts from a poll |
| `RtuTiming.ActionTimed` | classic_tcontrol/rtu.cpp:184-260 | Every action keeps that |
| `Rtu.StationController.constructor` | classic_tcontrol/rtu.cpp:445-450 | A new controller is stopped with nothing heard; the new fields, messages and alarms are those the transition system is built from |
| `Rtu.StationController.DoReset` | classic_tcontrol/rtu.cpp:469-484 | Forgets the handshake and shows red; the new fields, messages and alarms are those the transition system is built from |
| `Rtu.StationController.EvaluateLight` | classic_tcontrol/rtu.cpp:453-465 | Light and brake follow the two beliefs and the wish of the centre; the new fields, messages and alarms are those the transition system is built from |
| `Rtu.StationController.CheckReady` | classic_tcontrol/rtu.cpp:159-180 | Starts only when all three partners have been heard; the new fields, messages and alarms are those the transition system is built from |
| `Rtu.StationController.CheckProgress` | classic_tcontrol/rtu.cpp:136-155 | Gives the start-up up after 15 seconds; the new fields, messages and alarms are those the transition system is built from |
| `Rtu.StationController.CheckGreen` | classic_tcontrol/rtu.cpp:184-199 | Takes a green light back after 30 seconds; the new fields, messages and alarms are those the transition system is built from |
| `Rtu.StationController.PollCounter` | classic_tcontrol/rtu.cpp:203-262 | Turns a full count into a crossing, times a partial one, and sends the three reports; the new fields, messages and alarms are those the transition system is built from |
| `Rtu.StationController.Run` | classic_tcontrol/rtu.cpp:266-284 | One turn of the station; the new fields, messages and alarms are those the transition system is built from |
| `Rtu.StationController.ProcessCentralMessage` | classic_tcontrol/rtu.cpp:288-338 | What each message of the centre does; the new fields, messages and alarms are those the transition system is built from |
| `Rtu.StationController.HearStart` | classic_tcontrol/rtu.cpp:288-338 | The start request of the centre; the new fields, messages and alarms are those the transition system is built from |
| `Rtu.StationController.ProcessNextNeighborMessage` | classic_tcontrol/rtu.cpp:341-392 | What each message from the station in front does; the new fields, messages and alarms are those the transition system is built from |
| `Rtu.StationController.HearNextOccupancy` | classic_tcontrol/rtu.cpp:341-392 | The occupancy message from in front; the new fields, messages and alarms are those the transition system is built from |
| `Rtu.StationController.ProcessLastNeighborMessage` | classic_tcontrol/rtu.cpp:396-441 | What each message from the station behind does; the new fields, messages and alarms are those the transition system is built from |
| `Rtu.StationController.HearLastOccupancy` | classic_tcontrol/rtu.cpp:396-441 | The occupancy message from behind; the new fields, messages and alarms are those the transition system is built from |
| `SimSafety.CollisionFree` | classic_tcontrol/sim.cpp:1071-1183 | On every run of ticks, whatever the other voters say, whatever keys are pressed and however fast trains drive, the physical sections of the active trains are pairwise distinct and each is booked by the dc machine |
| `SimSafety.CollisionFreeWithinTick` | classic_tcontrol/sim.cpp:153-211 | The same in the middle of a tick, after any number of trains has been moved |
| `SimSafety.StopsOnlyOnRefusal` | classic_tcontrol/dc_alg.cpp:164-320 | The dc machine accepts every crossing, exit and granted entry of every run: it calls for a stop exactly if an entry was asked for when it had to refuse |
| `SimSafety.RedIffWithdrawn` | classic_tcontrol/sim.cpp:171-210 | On every run a crossing is reported at a lamp latched red exactly if, at some crossing, a voter other than the dc machine had said no to the section in the tick before |
| `SimSafety.TickReports` | classic_tcontrol/sim.cpp:171-180 | A tick reports a crossing at red exactly for the trains that reach the detector of a section whose lamp was latched red |
| `SimSafety.RedIsWithdrawn` | classic_tcontrol/sim.cpp:476-500 | The dc machine never takes the green light back from a train between lamp and detector |
| `ZonePlant.RedIffTakenBack` | classic_tcontrol/startup_alg.cpp:224-291 | With the voter for zones among the voters: on every run a crossing is reported at red exactly if, in the tick before some crossing, a remaining voter said no, the zone of the section was blocked for another section, or the zone was open and another section of it with all other votes rose first |
| `ZonePlant.CrossingAtRedHappens` | classic_tcontrol/sim.cpp:262-273 | Such a run from the start exists, with the dwell time and the time to the detector of the program and the remaining voters saying what dc says: the light rises at 0, the train leaves at 21, the zone opens and the light is taken back at 31, and the detector is crossed at red at 32 |
| `ZonePlant.ApartInBothWays` | classic_tcontrol/sim.cpp:1071-1183 | On every run of plant and voter together no two trains are in one section and no two lights of a zone are green |
| `ZonePlant.LosesIffTakenBack` | classic_tcontrol/sim.cpp:476-500 | For one tick: a train past its lamp loses the green light exactly in those cases |
| `ZonePlant.StepIsTick` | classic_tcontrol/sim.cpp:1131-1145 | To the plant, a tick with the voter for zones is one of its own ticks with that voter's final votes as input |
| `ZonePlant.StepsAreRun` | classic_tcontrol/sim.cpp:1071-1183 | So is a run |
| `SimSafety.MidSafe` | classic_tcontrol/sim.cpp:153-211 | The invariant with its gap between lamp and detector implies that trains are apart |
| `SimSafety.LeaveKeeps` | classic_tcontrol/sim.cpp:159-170 | Leaving the system happens from the booked section only |
| `SimSafety.DetectKeeps` | classic_tcontrol/sim.cpp:171-180 | A crossing is reported at a free section by the one train booked behind it |
| `SimSafety.MoveKeeps` | classic_tcontrol/sim.cpp:181-211 | Passing the lamp opens the gap only on a green that belongs to a free section |
| `SimSafety.UpdateKeeps` | classic_tcontrol/sim.cpp:153-211 | One train's update keeps the invariant and never makes the dc machine call for a stop |
| `SimSafety.AddKeeps` | classic_tcontrol/sim.cpp:844-886 | A train is put in only where none is and none can come; the stop is called exactly when the dc machine refuses |
| `SimSafety.RemoveKeeps` | classic_tcontrol/sim.cpp:829-840 | Marking a train for removal keeps the invariant |
| `SimSafety.TickKeeps` | classic_tcontrol/sim.cpp:1071-1183 | One turn of the main loop keeps the invariant, votes latched last |
| `SimSafety.InitBetween` | classic_tcontrol/sim.cpp:998-1022 | Trains in distinct sections and the dc machine told of them satisfy the invariant |
| `SimSafety.RunKeeps` | classic_tcontrol/sim.cpp:1071-1183 | The invariant holds after every run |
| `SimTraffic.TickDoes` | classic_tcontrol/sim.cpp:1071-1183 | One turn of the main loop for each train by itself: one that is out comes in exactly if an entry is asked for, dc and all others grant it and it is the first that is out; one that is in goes out exactly if it is told to and at an entrance; and the others arrive, board and depart by their clocks and the lamps of the turn before |
| `SimTraffic.RefusedStaysOut` | classic_tcontrol/sim.cpp:844-886 | An entry that another voter refuses leaves trains, bookings, lights and lamps as they were |
| `SimTraffic.NobodyComesUngranted` | classic_tcontrol/sim.cpp:844-886 | On every run on which no entry is granted by all, a train that is out stays out |
| `SimTraffic.KeyDoes` | classic_tcontrol/sim.cpp:1076-1128 | What a key does to each train |
| `SimTraffic.UpdateDoes` | classic_tcontrol/sim.cpp:153-211 | What one update does to its train: leaving, the detector, the station and the departure; the other trains stay as they are |
| `SimTraffic.EntrantArrives` | classic_tcontrol/sim.cpp:220-236 | An entrant is in section 0, past its detector, not at a station, and due there as long after as the way from the entrance takes; what its record says about having arrived stays |
| `SimTraffic.LeavesWithRecord` | classic_tcontrol/sim.cpp:159-211 | A train that leaves the system keeps the record of having arrived, or even arrives in the update in which it leaves |
| `SimTraffic.ComesStranded` | classic_tcontrol/sim.cpp:220-236 | An entrant is recorded as arrived, but not at a station, after the tick exactly if its record said so before |
| `SimTraffic.StrandedForGood` | classic_tcontrol/sim.cpp:181-211 | Such a train stays in section 0 for good, on every run, whatever the keys and the lamps |
| `ZonePlant.NobodyEnters` | classic_tcontrol/startup_alg.cpp:187-190 | The voter for zones refuses every entry, so on every run a train that is out stays out |
| `Sim.Simulator.constructor` | classic_tcontrol/sim.cpp:998-1070 | All lamps dark, the trains as given; the new state is the one the safety theorems speak of |
| `Sim.Simulator.Leave` | classic_tcontrol/sim.cpp:159-170 | A train that has reached its exit point leaves and tells the machines; the new state is the one the safety theorems speak of |
| `Sim.Simulator.Detect` | classic_tcontrol/sim.cpp:171-180 | A train that has reached the detector reports its crossing; the new state is the one the safety theorems speak of |
| `Sim.Simulator.Move` | classic_tcontrol/sim.cpp:181-211 | Arrival at the station, and departure on the latched lamp; the new state is the one the safety theorems speak of |
| `Sim.Simulator.Update` | classic_tcontrol/sim.cpp:153-211 | One train for one tick; the new state is the one the safety theorems speak of |
| `Sim.Simulator.Insert` | classic_tcontrol/sim.cpp:844-886 | A train asks to enter and enters if all grant it; the new state is the one the safety theorems speak of |
| `Sim.Simulator.Remove` | classic_tcontrol/sim.cpp:829-840 | Marks the next train to leave; the new state is the one the safety theorems speak of |
| `Sim.Simulator.EvalStopLights` | classic_tcontrol/sim.cpp:476-500 | Lamps are latched to the conjunction of the votes; the new state is the one the safety theorems speak of |
| `Sim.Simulator.Press` | classic_tcontrol/sim.cpp:1076-1128 | What a key does; the new state is the one the safety theorems speak of |
| `Sim.Simulator.UpdateAll` | classic_tcontrol/sim.cpp:1131-1136 | All trains in their order; the new state is the one the safety theorems speak of |
| `Sim.Simulator.Turn` | classic_tcontrol/sim.cpp:1071-1183 | Keys, trains and then the vote; the new state is the one the safety theorems speak of |
| `DcAlg.LightsTellOnEveryRun` | classic_tcontrol/dc_alg.cpp:131-359 | After the start and every sequence of events, right or wrong, a light is green exactly if its section has no train and no entry is pending |
| `DcAlg.HandleKeeps` | classic_tcontrol/dc_alg.cpp:164-359 | An accepted event calls for no stop, any other does nothing but call for it, and the light rule is kept |
| `DcAlg.DcAlgorithm.constructor` | classic_tcontrol/dc_alg.cpp:31-127 | No trains, no requests, all lights off |
| `DcAlg.DcAlgorithm.Start` | classic_tcontrol/dc_alg.cpp:131-160 | Books the trains and permits the free sections |
| `DcAlg.DcAlgorithm.PermitFree` | classic_tcontrol/dc_alg.cpp:151-160 | Adds a green light to every free section |
| `DcAlg.DcAlgorithm.ProcessCrossing` | classic_tcontrol/dc_alg.cpp:164-218 | Moves a booking one section on, or calls for a stop |
| `DcAlg.DcAlgorithm.ProcessEntry` | classic_tcontrol/dc_alg.cpp:222-249 | A requested entry becomes a booking |
| `DcAlg.DcAlgorithm.ProcessExit` | classic_tcontrol/dc_alg.cpp:253-279 | A booking ends |
| `DcAlg.DcAlgorithm.ProcessRequest` | classic_tcontrol/dc_alg.cpp:283-320 | Grants an entry only with this section and the one before it free |
| `DcAlg.DcAlgorithm.ProcessCancel` | classic_tcontrol/dc_alg.cpp:324-359 | A request ends without a train |
| `StartupAlg.OneGreenPerZone` | classic_tcontrol/startup_alg.cpp:224-291 | On every run of crossings, clock updates and evaluations, at most one section of each electrical zone is green after each evaluation, and the voter says no to a section exactly if its zone is blocked for another |
| `StartupAlg.NoSecondStart` | classic_tcontrol/startup_alg.cpp:224-291 | Separation in time: over every run from a state in which a zone is blocked for a section, no other light of the zone is green before the time at which the zone is free, which crossings of the sensor and a second rise of the same light set anew |
| `StartupAlg.NoIffOvertaken` | classic_tcontrol/startup_alg.cpp:224-291 | An evaluation ends with this voter's no to a section to which all others say yes exactly if its zone was blocked for another section, or open with another one of its lights rising first |
| `StartupAlg.EvalTakes` | classic_tcontrol/sim.cpp:476-500 | An evaluation lets the first light that competes for a zone take it, leaves the other zones alone, and shows the votes |
| `StartupAlg.PassTakes` | classic_tcontrol/sim.cpp:476-500 | The same for one pass, although each rising light rewrites votes in the middle of it |
| `StartupAlg.SecondPassSettles` | classic_tcontrol/sim.cpp:476-500 | The second pass of the evaluation reaches a fixpoint that shows exactly the votes, and the third changes nothing |
| `StartupAlg.EvalLeavesOne` | classic_tcontrol/sim.cpp:476-500 | One evaluation keeps the voter consistent and leaves one green light a zone |
| `StartupAlg.OnePassIsNotEnough` | classic_tcontrol/sim.cpp:476-500 | One pass is not enough: a concrete voter whose first pass shows two green lights in a zone |
| `StartupAlg.PassDoes` | classic_tcontrol/sim.cpp:476-500 | What a pass does although each rising light rewrites other votes in the middle of it |
| `StartupAlg.QuietPass` | classic_tcontrol/sim.cpp:476-500 | A pass in which no light rises shows the votes and leaves the voter alone |
| `StartupAlg.LightToGreenKeeps` | classic_tcontrol/startup_alg.cpp:224-255 | Blocking a zone takes votes away and gives none |
| `StartupAlg.ReleaseKeeps` | classic_tcontrol/startup_alg.cpp:259-291 | Releasing a zone gives its sections their votes back together |
| `StartupAlg.UpdateOpens` | classic_tcontrol/startup_alg.cpp:259-291 | An update opens exactly the blocked zones whose time is up |
| `StartupAlg.BlockEndsAsPromised` | classic_tcontrol/startup_alg.cpp:161-237 | The comment promises the earlier of 30 seconds after green and 10 after the sensor; the code keeps that promise exactly if the sensor is crossed within 20 seconds |
| `StartupAlg.TickKeeps` | classic_tcontrol/sim.cpp:1137-1183 | Crossings, update and evaluation of one tick keep the rule |
| `StartupAlg.StartupAlgorithm.InitialState` | classic_tcontrol/startup_alg.cpp:131-157 | Votes yes everywhere |
| `StartupAlg.StartupAlgorithm.SetStationZones` | classic_tcontrol/startup_alg.cpp:295-314 | Files each section under its zone, with all zones open |
| `StartupAlg.StartupAlgorithm.Block` | classic_tcontrol/startup_alg.cpp:224-255 | Blocks the zone of a section that turned green for all others of the zone |
| `StartupAlg.StartupAlgorithm.Write` | classic_tcontrol/startup_alg.cpp:224-255 | Writes one vote for all sections of a zone but one, in this voter's column only |
| `StartupAlg.StartupAlgorithm.ProcessCrossing` | classic_tcontrol/startup_alg.cpp:161-171 | Sets the time at which the zone is free |
| `StartupAlg.StartupAlgorithm.UpdateTime` | classic_tcontrol/startup_alg.cpp:259-291 | Releases the zones whose time is up |
| `StartupAlg.StartupAlgorithm.ReleaseZone` | classic_tcontrol/startup_alg.cpp:259-291 | Releases one zone |
| `StartupAlg.StopLights.EvalLight` | classic_tcontrol/sim.cpp:476-500 | One light: the conjunction of its row of votes, telling the voter when it rises |
| `StartupAlg.StopLights.EvalOnce` | classic_tcontrol/sim.cpp:476-500 | One pass over all lights |
| `StartupAlg.StopLights.EvalStopLights` | classic_tcontrol/sim.cpp:476-500 | Three passes, ending with the last shown state |
| `Lockstep.LockstepOnEveryRun` | classic_tcontrol/jg_alg.cpp:146-296 | Over every run of events that dc accepts (no repeated pending request, train cap not reached) jg raises no halt and its store stays equal to dc's, trains counted and named apart |
| `Lockstep.EventKeepsStep` | classic_tcontrol/jg_alg.cpp:146-296 | The same for one event, with the same answer to a request |
| `Lockstep.StartInStep` | classic_tcontrol/jg_alg.cpp:110-142 | Told the same distinct locations the two machines start in step |
| `Lockstep.AgreeUnlessDivergent` | classic_tcontrol/jg_alg.cpp:146-296 | The exact condition under which machines in step judge an event differently |
| `Lockstep.JointVote` | classic_tcontrol/sim.cpp:476-500 | On every run, entries included, the joint vote of dc and jg is green exactly at sections that are free, not asked for and have a train right behind |
| `Lockstep.StrictIffFreeEntries` | classic_tcontrol/jg_alg.cpp:146-296 | On a run of fair, accepted events jg's light is green exactly at the free sections with a train right behind, all along, exactly if every entry comes with the section behind free |
| `Lockstep.StrictFails` | classic_tcontrol/jg_alg.cpp:200-219 | A run from the start of both machines on which it does not: an entry is asked for, a train crosses up behind, the entry comes |
| `Lockstep.EventKeepsLights` | classic_tcontrol/jg_alg.cpp:146-296 | That strict rule is broken by one event only: an entry into a section that a train has come up behind meanwhile |
| `Lockstep.EntryKeepsLights` | classic_tcontrol/jg_alg.cpp:200-219 | An entry keeps the strict rule exactly if the section behind is free |
| `Lockstep.CoverOnEveryRun` | classic_tcontrol/jg_alg.cpp:146-296 | Every free section with a train right behind has a green light of jg after every run |
| `Lockstep.SomebodyMayGo` | classic_tcontrol/jg_alg.cpp:146-296 | The interlock does not block itself: with trains in some but not all sections and nobody waiting to enter, a section is green under both votes |
| `Lockstep.StaleGreenIsMasked` | classic_tcontrol/jg_alg.cpp:200-219 | The stale green of jg after such an entry is red at dc |
| `Lockstep.InsertOk` | classic_tcontrol/jg_sec_colection.cpp:164-177 | Trains put into distinct free sections are all accepted and named apart |
| `Lockstep.CarryOk` | classic_tcontrol/jg_sec_colection.cpp:113-143 | A train is carried to the next section under its own name |
| `Lockstep.OccupyOk` | classic_tcontrol/jg_sec_colection.cpp:113-125 | A free section takes a train with a name not in use |
| `Lockstep.RemoveOk` | classic_tcontrol/jg_sec_colection.cpp:274-300 | Taking a train out of an exit section keeps count and names |
| `Lockstep.CrossingKeepsStep` | classic_tcontrol/jg_alg.cpp:146-196 | A crossing dc accepts is taken by jg with the same books |
| `Lockstep.EntryKeepsStep` | classic_tcontrol/jg_alg.cpp:200-219 | An entry dc accepts is taken by jg with the same books |
| `Lockstep.ExitKeepsStep` | classic_tcontrol/jg_alg.cpp:223-241 | An exit dc accepts is taken by jg with the same books |
| `Lockstep.RequestKeepsStep` | classic_tcontrol/jg_alg.cpp:245-281 | A fair request dc grants is granted by jg |
| `Lockstep.CancelKeepsStep` | classic_tcontrol/jg_alg.cpp:285-296 | A cancellation dc accepts is taken by jg with the same books |
| `Lockstep.NamesAreCarried` | classic_tcontrol/jg_alg.cpp:146-296 | One accepted event: a crossing carries the name of its train on, an entry gives the next name, an exit ends one, and no other section changes its name |
| `Lockstep.NamesAreNotReused` | classic_tcontrol/jg_sec_colection.cpp:220-300 | On every run no name is given twice: a train seen under a name given before has been there all along |
| `Lockstep.RefusalsLeave` | classic_tcontrol/jg_alg.cpp:146-296 | What jg does not take leaves its store as it was; it halts exactly unless it is a request for an occupied section or an entry in use, and a crossing with nobody behind still costs the light |
| `Lockstep.HaltsIff` | classic_tcontrol/jg_alg.cpp:146-296 | In any state of its store, consistent or not, the exact condition under which jg halts at an event |
| `Lockstep.HaltsAtStartIff` | classic_tcontrol/jg_alg.cpp:110-142 | jg halts at the start exactly if two trains are to be in one section, a section does not exist, or there are too many trains; otherwise it names them in their order |
| `Lockstep.StopsAtStartIff` | classic_tcontrol/dc_alg.cpp:131-160 | dc stops at the start exactly if a section does not exist, with the trains listed before booked and no light lit |
| `JgAlg.SecCollection.constructor` | classic_tcontrol/jg_sec_colection.cpp:38-78 | An empty store; the store is what the error leaves of it when an exception is thrown midway |
| `JgAlg.SecCollection.Take` | classic_tcontrol/jg_sec_colection.cpp:113-125 | Puts a named train into a section or throws; the store is what the error leaves of it when an exception is thrown midway |
| `JgAlg.SecCollection.GiveUp` | classic_tcontrol/jg_sec_colection.cpp:127-143 | Empties a section or throws; the store is what the error leaves of it when an exception is thrown midway |
| `JgAlg.SecCollection.NewTrain` | classic_tcontrol/jg_sec_colection.cpp:164-177 | Names and counts a new train; the store is what the error leaves of it when an exception is thrown midway |
| `JgAlg.SecCollection.ReserveEntry` | classic_tcontrol/jg_sec_colection.cpp:179-217 | Reserves an entry, refuses, or throws; the store is what the error leaves of it when an exception is thrown midway |
| `JgAlg.SecCollection.EnterTrain` | classic_tcontrol/jg_sec_colection.cpp:220-244 | Turns a reservation into a train; the store is what the error leaves of it when an exception is thrown midway |
| `JgAlg.SecCollection.DropEntry` | classic_tcontrol/jg_sec_colection.cpp:247-271 | Drops a reservation; the store is what the error leaves of it when an exception is thrown midway |
| `JgAlg.SecCollection.TakeOut` | classic_tcontrol/jg_sec_colection.cpp:274-300 | Takes a train out of the system; the store is what the error leaves of it when an exception is thrown midway |
| `JgAlg.JlAlgorithm.Start` | classic_tcontrol/jg_alg.cpp:110-142 | Inserts the trains and sets the first lights |
| `JgAlg.JlAlgorithm.ProcessCrossing` | classic_tcontrol/jg_alg.cpp:146-196 | Carries the train over and sets the three lights around it, or halts |
| `JgAlg.JlAlgorithm.ProcessEntry` | classic_tcontrol/jg_alg.cpp:200-219 | Takes the entry and sets the light in front |
| `JgAlg.JlAlgorithm.ProcessExit` | classic_tcontrol/jg_alg.cpp:223-241 | Takes the train out and sets two lights |
| `JgAlg.JlAlgorithm.ProcessRequest` | classic_tcontrol/jg_alg.cpp:245-281 | Answers a request, or halts |
| `JgAlg.JlAlgorithm.ProcessCancel` | classic_tcontrol/jg_alg.cpp:285-296 | Drops a request and sets the light |
| `GreenTime.GreenIsOnSchedule` | classic_tcontrol/controlalg.cpp:61-139 | For every positive cycle the result is congruent to time + green_location - (pace + slot) and within half a cycle of now |
| `GreenTime.OnlyOneNearest` | classic_tcontrol/controlalg.cpp:61-139 | Those two properties determine the result, except at the two ends of the cycle around now |
| `GreenTime.LastIsIgnored` | classic_tcontrol/controlalg.cpp:102-112 | The time of the previous green and the 3000-second shortcut make no difference unless the light is due in exactly half a cycle |
| `GreenTime.LastDecidesTies` | classic_tcontrol/controlalg.cpp:102-136 | In that case the shortcut decides between the two nearest times |
| `GreenTime.LatenessOnSchedule` | classic_tcontrol/controlalg.cpp:118-127 | The error stays congruent to pace + slot - where_you_are |
| `GreenTime.LatenessIsSmall` | classic_tcontrol/controlalg.cpp:118-127 | The exact condition under which the two 1000-second corrections bring the error below 1000 seconds |
| `GreenTime.LatenessIsDistance` | classic_tcontrol/controlalg.cpp:83-127 | The lateness is the distance from the place of the cycle where the train should be, or, from 1000 seconds on, that in the neighbouring cycle, unless a late train is as far off there |
| `GreenTime.PlaceOfCycle` | classic_tcontrol/controlalg.cpp:83-90 | That place is congruent to pace + slot and within the cycle, unless the slot leads before its start |
| `GreenTime.WaitIsOfCycle` | classic_tcontrol/controlalg.cpp:91-100 | The wait for a green of the cycle is congruent to green_location - (pace + slot), not negative and less than a cycle |
| `GreenTime.RaisedIsNear` | classic_tcontrol/controlalg.cpp:129-132 | The first loop ends within half a cycle below, at a congruent time |
| `GreenTime.LoweredIsNear` | classic_tcontrol/controlalg.cpp:133-136 | The second loop ends within half a cycle above, at a congruent time |
| `GreenTime.CalcTimeAtGreen` | classic_tcontrol/controlalg.cpp:61-139 | Both loops terminate; the results are the functions the lemmas above are about |
| `Schedule.TrainsKeepTheirPlaces` | classic_tcontrol/controlalg.cpp:322-402 | On every run of crossings, updates, requests and cancellations a section has a train exactly if one train says it is there, the one the section names; and the numbers read round the line are a rotation of the initial list |
| `Schedule.NobodyOvertakes` | classic_tcontrol/controlalg.cpp:322-402 | That rotation is by one for each train that passes from the last section to the first |
| `Schedule.CrossingKeepsIdentity` | classic_tcontrol/controlalg.cpp:322-402 | A crossing carries the train number over consistently |
| `Schedule.CrossingKeepsOrder` | classic_tcontrol/controlalg.cpp:322-402 | A crossing turns the cyclic order by one exactly if it is accepted at section 0, and else leaves it |
| `Schedule.TimeIsConserved` | classic_tcontrol/controlalg.cpp:586-630 | Over every run, trains that enter and leave included, cycle_number * cycle + cycle_seconds + total_slip is what it was plus the increments, and cycle_seconds stays within the cycle |
| `Schedule.ChangeKeepsBounds` | classic_tcontrol/controlalg.cpp:322-630 | Every event, entries and exits included, keeps train numbers and sections within bounds |
| `Schedule.UpdateKeepsTime` | classic_tcontrol/controlalg.cpp:586-630 | One update: the clock counts the increment, a slip moves all latenesses by the same amount as total_slip, and the greatest lateness left is a whole number of cycles |
| `Schedule.SlipIsRemainder` | classic_tcontrol/controlalg.cpp:606-610 | The slip is the lateness without whole cycles, in (0, cycle] |
| `Schedule.CrossingIsBooked` | classic_tcontrol/controlalg.cpp:368-386 | A crossing books a lateness and a time at green that agree, modulo the cycle, with the seconds counted since the start and the slips so far |
| `Schedule.LitIffCancelsDue` | classic_tcontrol/controlalg.cpp:517-552 | On every run in which time does not run back, a light is green exactly if the train behind has had its light, all along, exactly if every cancelled entry finds the train behind past its light |
| `Schedule.LightsFollowTimetable` | classic_tcontrol/controlalg.cpp:143-180 | On every run whose cancelled entries find the train behind past its light, after every update a light is green exactly if the section before has a train whose booked time is past |
| `Schedule.LightsFail` | classic_tcontrol/controlalg.cpp:476-552 | A run from the start, on a line of three sections of 40 seconds, on which the light rule fails: the train crosses into section 1, and an entry into 0 is asked for and cancelled with nobody behind |
| `Schedule.StepKeepsLights` | classic_tcontrol/controlalg.cpp:143-552 | One event keeps the light rule exactly if it is not a cancellation out of turn |
| `Schedule.EntryKeepsIdentity` | classic_tcontrol/controlalg.cpp:406-441 | An accepted entry keeps the train numbers consistent exactly if the unused record happens to name the section, which the program never sets |
| `Schedule.EntryKeepsLights` | classic_tcontrol/controlalg.cpp:406-441 | It keeps the light rule exactly if the train behind has not had its light and the unused record says the same of the new one |
| `Schedule.ExitEndsIdentity` | classic_tcontrol/controlalg.cpp:445-472 | An accepted exit always breaks the consistency of train numbers, because the record of the train stays |
| `Schedule.ExitKeepsLights` | classic_tcontrol/controlalg.cpp:445-472 | It keeps the light rule exactly if the train behind has had its light and the one that leaves has not |
| `Schedule.DepartedStillLights` | classic_tcontrol/controlalg.cpp:143-472 | A train that has left still turns the next light green when its time comes |
| `Schedule.CancelLightsOutOfTurn` | classic_tcontrol/controlalg.cpp:517-552 | A cancelled entry turns a light green whatever the timetable says: the light rule survives it exactly if the train behind has had its light |
| `Schedule.CrossingKeepsLights` | classic_tcontrol/controlalg.cpp:322-402 | A crossing keeps the light rule |
| `Schedule.UpdateKeepsLights` | classic_tcontrol/controlalg.cpp:586-630 | An update makes the lights agree with the booked times |
| `Schedule.StartIsSound` | classic_tcontrol/controlalg.cpp:287-318 | The start of the program, distinct locations, train times and time slots, gives consistent numbers and lights, and each train the light of its slot: congruent to the timetable and within half a cycle of the start |
| `Schedule.CrossingTouchesOne` | classic_tcontrol/controlalg.cpp:368-394 | A crossing changes the record of one train only |
| `Schedule.OwnTimes` | classic_tcontrol/controlalg.cpp:649-667 | Set to the times of its section, a train has the slot of the place at which it boards, its light is due when that slot comes to the green, and nothing but these times changes |
| `Schedule.UpdateRecords` | classic_tcontrol/controlalg.cpp:143-180 | An update notes a train whose time has come as past its green, leaving now and expected in the next section; nothing else in the records but the lateness changes |
| `Schedule.EntryIsBooked` | classic_tcontrol/controlalg.cpp:406-441 | A train that enters is not late and is given the slot that brings it to its entrance now, or, if that is negative, the one a whole cycle further from zero |
| `ScheduleStops.StoppedIffEverRefused` | classic_tcontrol/controlalg.cpp:322-552 | On every run, entries and exits included, a stop has been called for exactly if some event was refused; the refusals are spelled out from the books before the event |
| `ScheduleStops.StopsIffRefused` | classic_tcontrol/controlalg.cpp:322-552 | A refused event changes nothing but to call for the stop, and no other event calls for one |
| `ScheduleStops.BooksAfter` | classic_tcontrol/controlalg.cpp:322-552 | An event that is not refused is booked, and nothing else is |
| `ScheduleStops.LightsAfter` | classic_tcontrol/controlalg.cpp:143-552 | Of the lights an event changes that of its section only: off with a train or a request, on when a train leaves or a request is withdrawn; the clock turns lights on in front of trains whose time has come |
| `ScheduleStops.NumbersAfter` | classic_tcontrol/controlalg.cpp:322-472 | A crossing carries the number of its train on, an entry gives the next one, and no other number changes |
| `ScheduleStops.CancelUndoesRequest` | classic_tcontrol/controlalg.cpp:476-552 | A request that is cancelled leaves books, trains and clock as they were |
| `ScheduleStops.BooksStaySame` | classic_tcontrol/controlalg.cpp:322-552 | Told the same, the schedule controller and dc keep the same books over every run, and stop at the same moment |
| `ScheduleStops.DcHears` | classic_tcontrol/dc_alg.cpp:164-359 | In any state dc refuses the same events, without booking anything, and books the others in the same way |
| `ScheduleStops.BooksStartSame` | classic_tcontrol/controlalg.cpp:287-318 | They start with the same books |
| `ScheduleStops.StopsAtStartIff` | classic_tcontrol/controlalg.cpp:287-318 | At the start it stops exactly if a location is no section: the trains listed before are entered and the lights stay as they were; otherwise all lights are off |
| `Schedule.ControlAlgorithm.Start` | classic_tcontrol/controlalg.cpp:287-318 | Enters the trains up to the first bad location |
| `Schedule.ControlAlgorithm.SetTimes` | classic_tcontrol/controlalg.cpp:649-667 | Gives each train its slot and its first time at green |
| `Schedule.ControlAlgorithm.SetSlots` | classic_tcontrol/controlalg.cpp:634-645 | Overwrites the slot and the time at green of each train |
| `Schedule.ControlAlgorithm.ProcessEntry` | classic_tcontrol/controlalg.cpp:406-441 | Fills the next record and books the train, or calls for a stop |
| `Schedule.ControlAlgorithm.ProcessExit` | classic_tcontrol/controlalg.cpp:445-472 | Frees the section and permits it, or calls for a stop |
| `Schedule.ControlAlgorithm.ProcessCrossing` | classic_tcontrol/controlalg.cpp:322-402 | Moves the train's record and books its times, or calls for a stop |
| `Schedule.ControlAlgorithm.ProcessRequest` | classic_tcontrol/controlalg.cpp:476-513 | Grants only with this section and the one before it free |
| `Schedule.ControlAlgorithm.ProcessCancel` | classic_tcontrol/controlalg.cpp:517-552 | Drops the request and permits the section |
| `Schedule.ControlAlgorithm.UpdateOne` | classic_tcontrol/controlalg.cpp:143-168 | Gives a train its light once, when its time is past |
| `Schedule.ControlAlgorithm.UpdateAll` | classic_tcontrol/controlalg.cpp:586-630 | Clock, trains, and slip |
| `Schedule.ControlAlgorithm.SlipSchedule` | classic_tcontrol/controlalg.cpp:604-626 | Slips the clock and all latenesses if the latest train is more than 15 seconds late |
| `Crc.BurstsAreFound` | modbus/rt_modbus_utility.cpp:69-76 | A frame that differs from an accepted one only within 16 consecutive transmitted bits, for any length and position, CRC field included, is accepted exactly if it is the same frame |
| `Crc.SeventeenCanPass` | modbus/rt_modbus_utility.cpp:69-76 | Sixteen is the most: two frames that differ within 17 bits and are both accepted |
| `Crc.OddErrorsAreFound` | modbus/rt_modbus_utility.cpp:69-76 | A frame with an odd number of wrong bits is not accepted |
| `Crc.AcceptedIffZero` | modbus/rt_modbus_utility.cpp:69-76 | A frame passes exactly if the CRC of the whole frame, CRC bytes included, is zero |
| `Crc.TrickIsByteStep` | modbus/rt_modbus_utility.cpp:52-62 | One turn of the byte-wise parity trick equals eight shifts with the polynomial 0xA001 |
| `Crc.CrcIsSerial` | modbus/rt_modbus_utility.cpp:42-64 | The CRC is what a one-bit shift register holds after the bits in the order of transmission |
| `Crc.Crc16` | modbus/rt_modbus_utility.cpp:42-64 | For every message and start value the result is the bit-by-bit CRC of MODBUS over Serial Line V1.02, section 6.2.2 |
| `Crc.Odd` | modbus/rt_modbus_utility.cpp:15-27 | The loop computes the exclusive-or of all bits |
| `Crc.CheckCrc` | modbus/rt_modbus_utility.cpp:69-76 | True exactly if the last two bytes, low byte first, are the CRC of the rest |
| `Crc.AddCrc` | modbus/rt_modbus_utility.cpp:80-87 | Afterwards the frame is accepted, the CRC of the whole is zero, and no other byte has changed |
| `Crc.WindowTells` | modbus/rt_modbus_utility.cpp:42-64 | Bit streams that differ within a 16-bit window drive the register to different values |
| `Crc.SerialIsShifts` | modbus/rt_modbus_utility.cpp:42-64 | Up to 16 bits may be put into the register ahead of the shifts |
| `Crc.SerialInjective` | modbus/rt_modbus_utility.cpp:42-64 | Equal bits never bring different registers together |
| `Crc.ShiftsInjective` | modbus/rt_modbus_utility.cpp:42-64 | Shifting loses nothing, by linearity and a trivial kernel |
| `Crc.SerialParity` | modbus/rt_modbus_utility.cpp:42-64 | Registers after two streams differ in parity exactly if the streams differ in an odd number of places |
| `Crc.KnownCrc` | modbus/rt_modbus_utility.cpp:42-64 | The example of the standard: the frame 02 07 41 12 is accepted |
| `JsonValues.ValueIsSkipped` | librtcommon/rt_json.cpp:118-163 | Behind any white space, and for a number in front of anything that does not go on like one, the scanner stops exactly at the end of every JSON value, except at the capital E of a top-level number |
| `JsonValues.NestedValue` | librtcommon/rt_json.cpp:81-113 | Within an open object or array a whole value, however deep, changes neither count |
| `JsonValues.SkipRaw` | librtcommon/rt_json.cpp:51-76 | A string is skipped to behind its closing quote, escapes included |
| `JsonValues.SkipWholeNumber` | librtcommon/rt_json.cpp:31-46 | A number is skipped whole, or up to its capital E |
| `JsonValues.SkipContainer` | librtcommon/rt_json.cpp:81-113 | An object or array is skipped to its own closing character |
| `JsonValues.StringEnds` | librtcommon/rt_json.cpp:51-76 | On any text the scanner ends behind the closing quote of a string, or at the terminator |
| `JsonValues.NestedByDepth` | librtcommon/rt_json.cpp:81-113 | Of brackets in any order it passes as much as it takes to have as many braces and as many brackets closed as open, which need not be the right ones |
| `JsonValues.GarbageIsPassed` | librtcommon/rt_json.cpp:118-163 | What stands in place of a value is passed up to the next value or the terminator |
| `JsonParts.ArrayIsCut` | librtcommon/rt_json.cpp:460-507 | Cutting a printed array succeeds exactly if no element is a number with a capital E; then the fields are the element texts in order, each a C string within the buffer, and what follows the array is left |
| `JsonParts.ObjectIsCut` | librtcommon/rt_json.cpp:392-456 | The same for objects, each field being a name, its colon and its value |
| `JsonParts.ElementsAreCut` | librtcommon/rt_json.cpp:460-507 | The same from any element on, behind any white space |
| `JsonParts.FieldsAreCut` | librtcommon/rt_json.cpp:392-456 | The same from any field on |
| `JsonSafety.ArrayCutsOnly` | librtcommon/rt_json.cpp:460-507 | On any NUL-terminated text: no NUL is passed, nothing from the returned position on is changed, and only white space, commas and closing brackets become NULs |
| `JsonSafety.ObjectCutsOnly` | librtcommon/rt_json.cpp:392-456 | The same for objects |
| `JsonSafety.OnlyBracketed` | librtcommon/rt_json.cpp:392-507 | On any NUL-terminated text: without the opening character nothing is changed; success means that the closing character was passed last and is a NUL now; an array fails at something else |
| `JsonSafety.ArrayIsSeparated` | librtcommon/rt_json.cpp:460-507 | On any NUL-terminated text, between any two elements found there is a comma with only white space behind it |
| `JsonSafety.ObjectIsSeparated` | librtcommon/rt_json.cpp:392-456 | The same for the members of an object |
| `JsonScan.PassString` | librtcommon/rt_json.cpp:51-76 | Terminates within the buffer at the position the function gives |
| `JsonScan.PassNumber` | librtcommon/rt_json.cpp:31-46 | Terminates at the first character that no number has |
| `JsonScan.PassObjectArray` | librtcommon/rt_json.cpp:81-113 | Terminates at the position where as many brackets are closed as opened, or at the terminator |
| `JsonScan.PassValue` | librtcommon/rt_json.cpp:118-163 | Terminates within the buffer at the end of the value |
| `JsonScan.PassColon` | librtcommon/rt_json.cpp:341-362 | Passes spaces and at most one colon, and says whether there was one |
| `JsonSplit.FindSpacesOneComma` | librtcommon/rt_json.cpp:366-389 | Passes spaces and at most one comma, makes exactly these NULs, and says whether there was a comma |
| `JsonSplit.SplitElements` | librtcommon/rt_json.cpp:460-507 | The loop in place: buffer, fields and position are those of the function |
| `JsonSplit.SplitArray` | librtcommon/rt_json.cpp:460-507 | The whole buffer, all fields and the position afterwards, on any NUL-terminated buffer |
| `JsonSplit.SplitMembers` | librtcommon/rt_json.cpp:392-456 | The loop in place for objects |
| `JsonSplit.SplitObject` | librtcommon/rt_json.cpp:392-456 | The whole buffer, all fields and the position afterwards, on any NUL-terminated buffer |
| `JsonNumber.ReadsNumbers` | librtcommon/rt_json.cpp:167-338 | The reader succeeds exactly on texts that start with a number of RFC 8259, section 6, that no longer number could go on from, and stops right behind it |
| `JsonNumber.ReadsTheLongest` | librtcommon/rt_json.cpp:167-338 | No number that the text starts with is longer than the one read |
| `JsonNumber.NumberIsPassed` | librtcommon/rt_json.cpp:167-338 | Reading a number brings the reader behind it whatever follows |
| `JsonNumber.GetNumber` | librtcommon/rt_json.cpp:167-338 | The ten-state loop terminates in spite of its steps that consume nothing, with the result of the function |
| `Splitter.RoundTrip` | librtcommon/arg.cpp:145-209 | A buffer with fields free of the delimiter and NUL, each followed by the delimiter, is cut into just these fields, blanks and spaces included; exactly the delimiter bytes become NUL and nothing else in the buffer changes |
| `Splitter.GetDelimArgs` | librtcommon/arg.cpp:145-209 | On any terminated buffer: the whole buffer afterwards, the count, the place of each argument in the old text, and each argument as a C string at that place; a blank rest behind the last delimiter does not count |
| `Splitter.CutChanges` | librtcommon/arg.cpp:162-191 | Byte by byte: what changes was one of the first `max_args` delimiters or white space trimmed from the end, and is NUL now; from the old terminator on nothing changes |
| `Splitter.PlacesTell` | librtcommon/arg.cpp:172-193 | Each argument starts right behind the start of the line or a delimiter, and reaches up to the next delimiter or the end |
| `Splitter.MarkArguments` | librtcommon/arg.cpp:172-193 | The loop in place: buffer, places and arguments are those of the functions |
| `Splitter.TrimEnd` | librtcommon/arg.cpp:162-170 | White space at the end is cut, but no delimiter and not the first character |
| `Splitter.JoinedArguments` | librtcommon/arg.cpp:145-209 | Splitting undoes joining |
| `Splitter.RestIsLast` | librtcommon/arg.cpp:172-209 | Any line is fields, each followed by a delimiter, and a rest; with room for it the rest is the last argument if there is any of it, and counts exactly if it is not blank |
| `Splitter.NoRoomForMore` | librtcommon/arg.cpp:172-209 | With room for just the fields the rest is left alone and does not count |
| `Splitter.AnyLine` | librtcommon/arg.cpp:172-209 | Every line can be read in this way |
| `Splitter.TrimmedStops` | librtcommon/arg.cpp:162-170 | No white space is left at the end of a longer line, unless it is a delimiter |
| `Profile.CursorIsSearch` | onboard/profile_reader.cpp:219-240 | Along any run of distances that do not decrease the remembered index is always the one a full search finds, exactly if no sample jumps over a whole segment |
| `Profile.MovesTowards` | onboard/profile_reader.cpp:233-240 | A cursor that lags goes exactly one segment towards the place of the search |
| `Profile.LimitsStayInOrder` | onboard/profile_reader.cpp:275-299 | If low <= desired <= high <= very_high at all breakpoints, then also, clamps included, at every sample within the profile |
| `Profile.JumpCanDisorder` | onboard/profile_reader.cpp:233-299 | After a jump the limits can be out of order |
| `Profile.KeepsOrder` | onboard/profile_reader.cpp:27-41 | Interpolation keeps the order of the values at the breakpoints |
| `Profile.MeetsBreakpoints` | onboard/profile_reader.cpp:27-41 | Interpolation gives the values of the breakpoints |
| `Profile.LiesOnLine` | onboard/profile_reader.cpp:27-41 | For all values the interpolated one lies on the line through the two breakpoints |
| `Profile.LimitsFollowCurve` | onboard/profile_reader.cpp:219-303 | At every sample of a steady run each limit is the greater of its clamp (0, -1, 5, 8) and the value on the line of the segment the sample lies in, as an equation without division |
| `Profile.ProfileReader.CalcDesired` | onboard/profile_reader.cpp:219-303 | Index, limits, kind of segment and warning for one sample |
| `Batch.BatchReadsPoints` | modbus/modio.cpp:144-207 | With a device that answers as MODBUS Application Protocol V1.1b3, sections 6.1 to 6.3, every request of a sorted list that shares a message gets the value of its own point |
| `Batch.BatchIsSingles` | modbus/modio.cpp:144-207 | Reading points together gives each the value it gets when read alone |
| `Batch.BatchIsInside` | modbus/modio.cpp:151-160 | The offset of every coalesced request is within the message |
| `Batch.CountIsGreatest` | modbus/modio.cpp:149-157 | A message takes as many requests as are of one kind, with gaps of at most 20 points and within 128 points, or 120 registers, of the first; the next one breaks one of these rules |
| `Batch.MessageAsks` | modbus/modio.cpp:162-176 | The message asks the device with this address for the points, counted from zero, with the function code of their kind |
| `Batch.FailureLeaves` | modbus/modio.cpp:176-207 | The data are set exactly if a reply of three bytes and two for every register, or one for every eight points begun, has come; else nothing changes and -1 is returned |
| `Batch.ReplyHolds` | modbus/modio.cpp:176-206 | A reply of the expected size has each point at the byte and bit where it is looked for |
| `Batch.PackOutputs` | modbus/modio.cpp:620-647 | The packing loop produces the packing of the standard for every number of outputs |
| `Batch.PackedBit` | modbus/modio.cpp:105-110 | What is packed is read back bit by bit |
| `Batch.NothingIsAdded` | modbus/modio.cpp:620-647 | There are as few bytes as hold the outputs, and the bits left over are zero |
| `Batch.CountBatch` | modbus/modio.cpp:149-157 | How many requests go into one message |
| `Batch.TakeData` | modbus/modio.cpp:199-206 | The data of the coalesced requests, and no other, are set |
| `Batch.ReadRequests` | modbus/modio.cpp:144-207 | Message, size check and data of one batched read |
| `Speed.AgreeOutsideBands` | onboard/spd_algo_DC.cpp:39-97 | On every run away from the station the three supervisors report the same up to the first shutdown exactly if the speed never falls between their limits |
| `Speed.DifferOnlyInBand` | onboard/spd_algo_VV.cpp:41-97 | From the same state the next reports differ exactly if the speed lies between the limits |
| `Speed.WarningIsLimited` | onboard/spd_algo_VV.cpp:52-66 | For each supervisor an unbroken stretch of high-speed warnings spans at most 20 units of time, for RD away from distance zero, where it starts afresh |
| `Speed.ShutdownIsLatched` | onboard/spd_algo_RD.cpp:42-43 | RD stays in shutdown as long as the distance is not zero |
| `Speed.OthersForget` | onboard/spd_algo_DC.cpp:39-97 | DC and VV forget a shutdown at the next normal speed |
| `Speed.ReportsAre` | onboard/spd_algo_RD.cpp:37-131 | The report of each version for every sample and every memory, hysteresis included |
| `Speed.FreshAtZero` | onboard/spd_algo_RD.cpp:112-131 | At distance zero RD reports shutdown exactly from the very high limit on, and otherwise what the limits without hysteresis give, whatever it remembers |
| `Speed.DownUntilReleased` | onboard/spd_algo_RD.cpp:37-131 | On every run from a shutdown RD stays down exactly up to the first sample at distance zero with a speed below the very high limit |
| `Speed.SpeedAlgorithmDC.Evaluate` | onboard/spd_algo_DC.cpp:39-117 | One sample of DC |
| `Speed.SpeedAlgorithmRD.Evaluate` | onboard/spd_algo_RD.cpp:37-131 | One sample of RD, with its reset at distance zero |
| `Speed.SpeedAlgorithmVV.Evaluate` | onboard/spd_algo_VV.cpp:41-116 | One sample of VV |

## Left out

- Rtu.StationController.ProcessCentralMessage: STOP and START sent to a running station are modelled for the one station, but the runs of the line exclude them, because they take a station out of the state the handshake has established.
- RtuStart.LineStarts: no train moves during the start-up, so that sensors are stable, and the centre orders each station once; what a late poll does is stated for the single station (`HandshakeInAnyOrder`).
- Rtu.StationController.PollCounter: the counter hardware is part of the controller's state; its pulses are given by the trains of the line.
- Sim.Simulator.Insert: when all train slots are in use the program indexes below the array; the model requires a free slot, and the runs ignore the key then.
- Sim.Simulator.Update: the train objects are values in a sequence, so that aliasing between them is not captured; driving times are inputs, at least as long as the time to the detector.
- Schedule.TrainsKeepTheirPlaces: runs have no entries and exits, because the numbers do not survive them; what one of them does is stated for the single event.
- Schedule.ControlAlgorithm.Start: a negative location makes the program write in front of its array of sections; the model requires locations that are not negative.
- ZonePlant.Step: the tick of plant and voter together is composed of the functions that the classes of the parts are proved to compute, not given as a class of its own.
- Schedule.ControlAlgorithm.UpdateOne: the percentage travelled is display only.
- JsonSplit.SplitArray: `argv` grows as needed; the program writes into an array whose capacity it does not check.
- JsonNumber.GetNumber: the value computed by atof is not modelled.
- Crc.CheckCrc: copying a word from and to the buffer is modelled for a machine that stores the low byte first.
- Batch.ReadRequests: one method stands for the three copies for inputs, outputs and registers; requests must be sorted, as an unsorted list makes the program read before its reply; numbers start from one.
- Splitter.GetDelimArgs: `max_args` must be positive, as the program reads the argument before the first one otherwise.
- Speed.AgreeOutsideBands: the vote over the three reports is a stub in the repository.
- The stage counter, the section, entry and stop keys, log strings and the screen of all control algorithms: they do not decide anything.
- The capacities MAX_SECTIONS and MAX_TRAINS of the fixed arrays; sequences of the needed length stand for them.
- `check_internal_state` in `classic_tcontrol/rtu.cpp`: it returns at once.
- `rt_json_get_string`, the repeated array splitter of `arg.cpp`, and the transmission of writes in `modio.cpp`, whose send calls are commented out.
- File readers, configuration, sockets, serial ports, clocks, keypad and displays: plumbing around the modelled logic.
- The points of `react/`: each reads a few other points once per scan and sets its own value, alarm state or output from them, with a timer at most; there is no protocol between them, and the expression evaluator and the sequencer are further files.
