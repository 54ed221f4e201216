# Onboard autonomy: the session protocol, the camera pipeline and three small algorithms

This project models, in Dafny, the parts of the onboard companion that are hardest to get right, and
proves what every run of them keeps. It verifies with `dafny verify dfyconfig.toml`.

**The companion session protocol.** Messages arrive already framed, as values. `MavlinkDecoder` decides
which of them reach `VehicleState`, which overwrites one stamp per measured quantity and keeps a list of
warnings. `VehicleLog` says what an observer *ought* to know from a plain event log; `VehicleState` is
proved to show exactly that, `VehicleView` tells every field shown by positions in the log, and
`MessageMeaning` tells by a message's own fields which ones count and as what. `TelemetryStreamConfigurator` and `CompanionLinkFailsafe` are the two small
protocols driven by the application; each is a class proved against step functions, and the theorems are
about arbitrary runs of those; `StreamSetupTiming` tells the stream set-up by what happened to it and when.
`CompanionModel` puts everything together as a state machine with one step
per message and one per poll, `CompanionApplication` implements it on mutable objects (its `Poll` equals
the machine's step), and `SessionProtocol` and `Observation` prove what every run keeps: one vehicle a
session, one order on the wire, nothing lost on the way to the observers. `SessionHistory` shows that a run of
polls is a run of each component over the events it induces, and so carries the component theorems over to
runs of polls; `SessionWire` says what the frames come to on the transport and over a whole link. `PollFrames` and
`PollEvents` tell by history alone which frames each poll of a run hands over and which events it tells, and
`SessionTiming` carries the pauses of the stream set-up over to the frames of a session.

**The camera pipeline.** `PipeReaders` holds the two loops that read from a child process and shows that
their results depend on the bytes alone. `CameraCapture` is the one-slot mailbox between a worker and the
`CameraMonitor` that infers losses from sequence gaps, over every interleaving. `RpicamCameraSource` adds
the metadata thread, the timestamp queue and restarts; the worker's loops are proved to be paths of the
step machine whose every path pairs the k-th frame of an attempt's stream with its k-th timestamp, and to
make progress: frames that come are published, and only a stop ends the worker.

**Three smaller cores.** `LogRotation` and `LogStreaming` (greedy rotation, segments), `YoloXOutputDecoder`
(the cell grid and the arg-max decoder), `HttpCameraPreviewServer` (the rate limit) and `ConsoleView` (word
wrap).

Conventions. Time is an unbounded integer number of nanoseconds, non-decreasing where the source's clock
is; a default-constructed time point is 0. A floating-point value is NaN, an infinity or an exact real.
What the outside world decides (bytes read, partial writes, interruptions, stop requests, the order of
threads, the encoder, `exp`) is a parameter, and the claims hold for all of them. Ghost fields hold
histories only.

Four facts about the code that a reader may not expect, each proved:

- A NaN `BATT_ARM_VOLT` turns the voltage check off: for a valid voltage the check passes if and only if the
  threshold is NaN or the voltage reaches it (`VehicleLog.ClampedThreshold`, lifted to the log by
  `VehicleLog.VoltageIsEvidence`); with a NaN threshold a vehicle at one millivolt is armable
  (`VehicleLog.NanThresholdArms`). A negative threshold changes nothing, since every valid voltage reaches it.
  src/mission/flight/VehicleState.cpp:168-173 and 295-299.
- A link gap that closes inside one poll is not seen as a disconnect: telemetry is forgotten, the finished
  stream set-up is kept (`SessionProtocol.UnseenGapKeepsSetup`); if another vehicle takes over in that poll
  the failsafe reads go on where they stopped (`SessionProtocol.UnseenSwapKeepsIndex`).
- A frame that a restart throws away is missing from the reported drop count; the report is exact if and
  only if no restart discarded a frame or all losses lie between received frames
  (`CameraCapture.RestartHidesLoss`, `CameraCapture.ReportIsLowerBound`).
- A word of at most 76 characters is split across console rows if and only if the text is one leading space
  followed by a word of exactly 76 characters (`ConsoleView.ShortWordsAreSplitIff`).

## Model

| member | source | states |
|---|---|---|
| VehicleLog.LatestIsKnown | src/mission/flight/VehicleState.cpp:57-219 | For every event log and every kind of quantity, what is known is exactly the last valid sample since the session began, value and time |
| VehicleLog.KnownIffSampled | src/mission/flight/VehicleState.cpp:57-219 | Something is known of a kind if and only if the session holds a valid sample of it |
| VehicleLog.SessionStartIsLastBreak | src/mission/flight/VehicleState.cpp:66-75 | The session begins at the last heartbeat that came after silence or from another controller, and no later heartbeat broke it |
| VehicleLog.LatestPosition | src/mission/flight/VehicleState.cpp:57-219 | Every known quantity has a position in the current session's part of the log; an unknown one has none |
| VehicleLog.ArmableIsEvidence | src/mission/flight/VehicleState.cpp:228-318 | A snapshot shows the vehicle as armable if and only if the last heartbeat is at most 3 s old and the session's log has a recent 3D fix, a recent voltage that reaches the reported threshold (a NaN threshold asks for none), a recent healthy status covering the battery, no recent low charge and no warning still blocking |
| VehicleLog.VoltageIsEvidence | src/mission/flight/VehicleState.cpp:291-304 | The voltage condition, as positions of the last voltage and the last threshold in the log |
| VehicleLog.ClampedThreshold | src/mission/flight/VehicleState.cpp:168-173 | For a valid voltage the clamped threshold is met if and only if the reported one is NaN or reached; a NaN threshold is met though no voltage reaches it, and every threshold at or below 0 is reached |
| VehicleLog.NanThresholdArms | src/mission/flight/VehicleState.cpp:291-318 | With everything else in order and a battery at one millivolt, the vehicle is shown as armable if and only if the threshold is NaN or at most one millivolt |
| VehicleLog.HealthIsEvidence | src/mission/flight/VehicleState.cpp:272-278 | Health and the battery sensor bit together are one condition on the last status: every enabled sensor healthy, the battery sensor enabled |
| VehicleLog.WarningIsEvidence | src/mission/flight/VehicleState.cpp:279-318 | A text blocks arming for 5 s after it was last seen, for 30 s if it mentions the battery |
| VehicleLog.UnblockedMeansNoWarning | src/mission/flight/VehicleState.cpp:279-318 | The two flags the code computes from the warning list are false if and only if no text blocks |
| VehicleLog.ConnectedIsAlive | src/mission/flight/VehicleState.cpp:221-247 | For every log: shown as connected if and only if the last heartbeat of the log is at most 3 s old |
| VehicleView.IdentityIsLastHeartbeat | src/mission/flight/VehicleState.cpp:230-237 | System, component, types, status, mode and armed are those of the last heartbeat in the log, on a lost link too; before the first heartbeat there are none |
| VehicleView.MetadataIsLatest | src/mission/flight/VehicleState.cpp:175-178 | The metadata shown are m if and only if the last version report of the session says m |
| VehicleView.BreakIsSilenceOrChange | src/mission/flight/VehicleState.cpp:57-75 | A log entry opens a session if and only if it is a heartbeat more than 3 s after the last one before it, or from another system or component |
| VehicleView.FixIsFresh | src/mission/flight/VehicleState.cpp:249-255 | The fix shown is x if and only if the link is alive and the session's last GPS report is at most 5 s old and says x |
| VehicleView.SatellitesAreFresh | src/mission/flight/VehicleState.cpp:249-255 | The same for the satellites |
| VehicleView.GpsReadyIsFresh | src/mission/flight/VehicleState.cpp:249-255 | Ready to navigate if and only if that report has a fix of 3 or better |
| VehicleView.AltitudeIsFresh | src/mission/flight/VehicleState.cpp:257-259 | The altitude shown is m metres if and only if the link is alive and the session's last report is at most 2 s old and says 1000 m millimetres |
| VehicleView.LocalIsFresh | src/mission/flight/VehicleState.cpp:261-265 | The local position shown is (n, e, d) if and only if the link is alive and the session's last one is at most 2 s old and says so |
| VehicleView.AttitudeIsFresh | src/mission/flight/VehicleState.cpp:267-272 | The same for the four angles of the attitude |
| VehicleView.VoltageIsFresh | src/mission/flight/VehicleState.cpp:291-293 | The voltage shown is x if and only if the link is alive and the session's last valid voltage is at most 10 s old and is x; it is finite and positive |
| VehicleView.CurrentIsFresh | src/mission/flight/VehicleState.cpp:285-287 | The same for the current, finite and not negative |
| VehicleView.RemainingIsFresh | src/mission/flight/VehicleState.cpp:288-290 | The same for the remaining charge, 0 to 100 |
| VehicleView.ValidReports | src/mission/flight/VehicleState.cpp:140-158 | A report is a valid sample of the voltage if and only if it has a finite one above 0, of the current from 0 on, of the charge from 0 to 100 |
| VehicleView.ArmingVoltageIsLatest | src/mission/flight/VehicleState.cpp:168-173 | The arming threshold shown is x if and only if a voltage is shown and x is what the session's last reported threshold clamps to: itself above 0, otherwise 0, NaN included |
| VehicleView.BatteryReadyIsEvidence | src/mission/flight/VehicleState.cpp:274-304 | The battery is shown as ready if and only if the link is alive and the log has a fresh voltage reaching the threshold, a fresh status with the battery sensor enabled and healthy, no fresh charge below 20 and no battery text of the last 30 s |
| VehicleView.HealthIsFresh | src/mission/flight/VehicleState.cpp:306-308 | Health is known for 5 s after the session's last status, and fine if and only if that left no enabled sensor unhealthy |
| VehicleView.WarningsAreFresh | src/mission/flight/VehicleState.cpp:221-227 | A text is listed if and only if its last occurrence in the session is at most 30 s old |
| VehicleView.NotableTexts | src/mission/flight/VehicleState.cpp:197-203 | A text is kept as a warning if and only if it is not empty and has severity 4 or less, or contains prearm: in any case |
| VehicleView.LostLinkShowsNothing | src/mission/flight/VehicleState.cpp:245-247 | On a lost link nothing measured is shown |
| VehicleState.PruneKeepsMatch | src/mission/flight/VehicleState.cpp:224-227 | Pruning is transparent: it forgets nothing that can still be shown, and what stays is exactly the set of texts seen within 30 s |
| VehicleState.NoteKeepsMatch | src/mission/flight/VehicleState.cpp:205-219 | Refreshing or appending a warning keeps one entry per text, stamped with its last occurrence |
| VehicleState.NoteEntries | src/mission/flight/VehicleState.cpp:205-219 | After noting a text the entries are those of the other texts and the new one, still distinct |
| VehicleState.VehicleState.constructor | src/mission/flight/VehicleState.cpp:57-97 | A new observer knows nothing |
| VehicleState.VehicleState.OnHeartbeat | src/mission/flight/VehicleState.cpp:57-83 | The fields afterwards are what the log extended by this heartbeat says, session break included |
| VehicleState.VehicleState.EnterSession | src/mission/flight/VehicleState.cpp:66-75 | A heartbeat after silence or from another controller leaves no telemetry, any other leaves all of it |
| VehicleState.VehicleState.ResetTelemetry | src/mission/flight/VehicleState.cpp:85-97 | Every stamp, the threshold, the metadata and the warnings are cleared; nothing else is |
| VehicleState.VehicleState.OnGps | src/mission/flight/VehicleState.cpp:99-106 | The fields follow the log extended by this fix |
| VehicleState.VehicleState.OnGlobalPosition | src/mission/flight/VehicleState.cpp:108-114 | The fields follow the log extended by this altitude |
| VehicleState.VehicleState.OnLocalPosition | src/mission/flight/VehicleState.cpp:116-125 | The fields follow the log extended by this position |
| VehicleState.VehicleState.OnAttitude | src/mission/flight/VehicleState.cpp:127-138 | The fields follow the log extended by this attitude |
| VehicleState.VehicleState.UpdateBattery | src/mission/flight/VehicleState.cpp:140-158 | Voltage, current and charge are taken over one by one, each only if valid, with its own stamp |
| VehicleState.VehicleState.OnBattery | src/mission/flight/VehicleState.cpp:160-166 | The fields follow the log extended by this battery report |
| VehicleState.VehicleState.OnBatteryArmingVoltage | src/mission/flight/VehicleState.cpp:168-173 | The fields follow the log extended by this threshold, clamped at 0 (NaN included) |
| VehicleState.VehicleState.OnAutopilotMetadata | src/mission/flight/VehicleState.cpp:175-178 | The fields follow the log extended by this metadata record |
| VehicleState.VehicleState.OnSystemStatus | src/mission/flight/VehicleState.cpp:180-195 | The fields follow the log extended by this status and its battery part |
| VehicleState.VehicleState.OnStatusText | src/mission/flight/VehicleState.cpp:197-219 | The fields follow the log extended by this text; only notable texts become warnings |
| VehicleState.VehicleState.Snapshot | src/mission/flight/VehicleState.cpp:221-319 | Everything shown is the log's view at this time, which the `VehicleView` lemmas give field by field by positions in the log; the warnings are exactly the distinct texts seen within 30 s, and the log is unchanged, so extra snapshots change nothing later |
| MavlinkDecoder.OriginsExplainLog | src/hardware/mavlink/MavlinkDecoder.cpp:122-191 | The observer's log is the message run with some messages left out: entry for entry, in order, with its times |
| MavlinkDecoder.SessionEntryIsOwn | src/hardware/mavlink/MavlinkDecoder.cpp:122-191 | No blending: for every message run, each log entry of the current session was caused by a message whose system and component are the identified vehicle's, and that component is the autopilot |
| MavlinkDecoder.ShownIsOwn | src/hardware/mavlink/MavlinkDecoder.cpp:122-191 | Whatever is known of any kind was measured by one message of the identified autopilot, received in the current session, at that message's time and with its value |
| MavlinkDecoder.HeartbeatComponent | src/hardware/mavlink/MavlinkDecoder.cpp:170-191 | The identified component is always the autopilot |
| MavlinkDecoder.SessionsBreakOnlyInSilence | src/hardware/mavlink/MavlinkDecoder.cpp:122-191 | Behind the filter a session only ever breaks after 3 s of silence; the change-of-controller test never fires on its own |
| MavlinkDecoder.IdentityHeldWhileLinked | src/hardware/mavlink/MavlinkDecoder.cpp:122-191 | While every message arrives on a live link the identity stays what it was, whatever other systems send |
| MavlinkDecoder.MavlinkDecoder.HandleMessage | src/hardware/mavlink/MavlinkDecoder.cpp:122-168 | The dispatch extends the log by this message's event if and only if the filter admits it, and fires exactly the callback it calls for |
| MavlinkDecoder.MavlinkDecoder.HandleHeartbeat | src/hardware/mavlink/MavlinkDecoder.cpp:170-191 | Only an autopilot's heartbeat is taken, and another vehicle's only without a live link |
| MavlinkDecoder.MavlinkDecoder.CompareSource | src/hardware/mavlink/MavlinkDecoder.cpp:124-130 | Taking a snapshot to compare the sender leaves the log alone |
| MavlinkDecoder.BatteryVoltage | src/hardware/mavlink/MavlinkDecoder.cpp:24-49 | The pack voltage is the sum of the cells that report one, over both cell lists, and absent if none does |
| MessageMeaning.AdmittedIffCounts | src/hardware/mavlink/MavlinkDecoder.cpp:122-191 | A message is let through if and only if, in its own fields: a heartbeat of component 1 and autopilot type other than 8, of the vehicle being heard if there is one; anything else from the sender of the last heartbeat, at most 3 s old |
| MessageMeaning.OriginsAreWhatCounts | src/hardware/mavlink/MavlinkDecoder.cpp:122-191 | Message i of a run has an entry in the log if and only if it counts when it arrives and has something to say: nothing that counts is lost |
| MessageMeaning.CallbackIsWhatCounts | src/hardware/mavlink/MavlinkDecoder.cpp:122-168 | An ACK or a parameter value is passed on if and only if it counts, field by field as it came |
| MessageMeaning.MessagesWithEntries | src/hardware/mavlink/MavlinkDecoder.cpp:131-300 | Only ACKs, undecoded messages, versions of other components and parameters other than BATT_ARM_VOLT have no entry |
| MessageMeaning.MotionIsTakenOver | src/hardware/mavlink/MavlinkDecoder.cpp:183-307 | Fix, position, attitude, threshold, text and heartbeat are entered field by field |
| MessageMeaning.BatteryIsMeasured | src/hardware/mavlink/MavlinkDecoder.cpp:24-63 | The voltage is a thousandth of the millivolts of all cells of both lists that are neither 0 nor 65535, absent if there are none; the current a hundredth of the centiamperes unless negative; the charge as it is unless negative |
| MessageMeaning.StatusIsMeasured | src/hardware/mavlink/MavlinkDecoder.cpp:235-252 | The same for the one voltage of a system status, next to its sensor masks |
| MessageMeaning.VersionIsUnpacked | src/hardware/mavlink/MavlinkDecoder.cpp:254-276 | The packed version is its four bytes put together, most significant first |
| Basics.UntilNul | src/hardware/mavlink/MavlinkDecoder.cpp:65-80 | A character field is read up to its first NUL, or whole |
| TelemetryStreamConfigurator.RunKeepsTrack | src/hardware/mavlink/TelemetryStreamConfigurator.cpp:58-140 | For every run of updates and ACKs, what was sent since the set-up began is in table order with confirmations counting from 0 and ends at the current attempt; completed = current = ACKs accepted |
| TelemetryStreamConfigurator.TableOrderIsBounded | src/hardware/mavlink/TelemetryStreamConfigurator.cpp:20-54 | Table order is strictly increasing in (stream, confirmation), and allows at most 18 commands |
| TelemetryStreamConfigurator.TableOrderSkipsNothing | src/hardware/mavlink/TelemetryStreamConfigurator.cpp:72-98 | Every stream up to the last one sent was asked for |
| TelemetryStreamConfigurator.LastAttempts | src/hardware/mavlink/TelemetryStreamConfigurator.cpp:76-98 | A command with confirmation c is preceded by the c earlier attempts at the same stream |
| TelemetryStreamConfigurator.OutcomesAreEarned | src/hardware/mavlink/TelemetryStreamConfigurator.cpp:72-140 | Active means six accepted ACKs and every stream asked for; failed without a result means three attempts at one stream went unanswered |
| TelemetryStreamConfigurator.UpdatesAreProgress | src/hardware/mavlink/TelemetryStreamConfigurator.cpp:58-98 | While a set-up is still configuring, there were no more updates, spaced by the deadline, than commands it has used up, wherever the set-up stood before |
| TelemetryStreamConfigurator.SetupTerminates | src/hardware/mavlink/TelemetryStreamConfigurator.cpp:58-140 | Whatever the ACKs, none IN_PROGRESS, and updates at least the deadline apart: active or failed after 19 connected updates, from any state of the set-up whose pending deadline is at most 2 s off by then |
| TelemetryStreamConfigurator.DeadlineIsRecent | src/hardware/mavlink/TelemetryStreamConfigurator.cpp:88-122 | In every run a pending deadline is 2 s after some event of the run |
| TelemetryStreamConfigurator.EighteenUpdatesAreNotEnough | src/hardware/mavlink/TelemetryStreamConfigurator.cpp:58-140 | The bound is reached: some such run is still configuring after 18 |
| TelemetryStreamConfigurator.FinishedStaysSilent | src/hardware/mavlink/TelemetryStreamConfigurator.cpp:58-140 | Once active or failed, no update or ACK of the session changes or sends anything |
| StreamSetupTiming.RunTells | src/hardware/mavlink/TelemetryStreamConfigurator.cpp:58-140 | After every run of updates and ACKs, phase, progress, attempts, deadline and result are what the history of commands sent and ACKs taken says |
| StreamSetupTiming.NextUpdate | src/hardware/mavlink/TelemetryStreamConfigurator.cpp:58-98 | What the next update does after any run: a new vehicle is asked for the first stream at once; a set-up that is over, or whose outstanding command or last IN_PROGRESS is less than 2 s old, neither changes nor sends; otherwise it sends the next command for the first stream not accepted, or gives up after three |
| StreamSetupTiming.NextAck | src/hardware/mavlink/TelemetryStreamConfigurator.cpp:100-140 | What the next ACK does after any run, in its own fields: only one of command 511 from the vehicle, to this companion or to all, while a command is outstanding counts; result 0 completes the command (active after the sixth), 5 changes the deadline only, any other fails the set-up with that result |
| StreamSetupTiming.RunKeepsPace | src/hardware/mavlink/TelemetryStreamConfigurator.cpp:72-98 | In every run the next command or giving up comes at least 2 s after the command or IN_PROGRESS before it; every command is for the first stream not accepted, numbered by its tries, and giving up takes three |
| StreamSetupTiming.CommandsArePaced | src/hardware/mavlink/TelemetryStreamConfigurator.cpp:76-98 | On a clock that does not run backwards two commands for one stream are at least 2 s apart |
| StreamSetupTiming.GivingUpIsLate | src/hardware/mavlink/TelemetryStreamConfigurator.cpp:76-84 | Giving up comes after three tries, at least 2 s after everything else in the set-up, postponements included |
| TelemetryStreamConfigurator.TelemetryStreamConfigurator.Update | src/hardware/mavlink/TelemetryStreamConfigurator.cpp:58-98 | The fields and the frame are those of the step function, of which `StreamSetupTiming.NextUpdate` says by history when it waits, sends or gives up |
| TelemetryStreamConfigurator.TelemetryStreamConfigurator.OnCommandAck | src/hardware/mavlink/TelemetryStreamConfigurator.cpp:100-140 | Likewise for an ACK, ignored ones included |
| TelemetryStreamConfigurator.TelemetryStreamConfigurator.Reset | src/hardware/mavlink/TelemetryStreamConfigurator.cpp:156-165 | The set-up is idle |
| TelemetryStreamConfigurator.TelemetryStreamConfigurator.Begin | src/hardware/mavlink/TelemetryStreamConfigurator.cpp:167-173 | The set-up starts over for a vehicle |
| TelemetryStreamConfigurator.TelemetryStreamConfigurator.Snapshot | src/hardware/mavlink/TelemetryStreamConfigurator.cpp:142-154 | What is reported of a set-up, a stream only while one is left |
| CompanionLinkFailsafe.AcceptedIffSafe | src/mission/safety/CompanionLinkFailsafe.cpp:34-169 | For every run: accepted if and only if a vehicle is connected, all four parameters arrived in its session, and their last values are LAND, 2 to 10 s, no continuation bit, and its own non-zero id |
| CompanionLinkFailsafe.HeldIffLastValue | src/mission/safety/CompanionLinkFailsafe.cpp:34-89 | A value is held if and only if it is the last one reported in the session under its name |
| CompanionLinkFailsafe.HeldValueIsLast | src/mission/safety/CompanionLinkFailsafe.cpp:34-89 | No evidence survives an observed disconnect or change of vehicle |
| CompanionLinkFailsafe.OrderDoesNotMatter | src/mission/safety/CompanionLinkFailsafe.cpp:48-169 | Two runs for the same vehicle with the same last values show the same, whatever their order |
| CompanionLinkFailsafe.RunShowsSummary | src/mission/safety/CompanionLinkFailsafe.cpp:34-169 | Everything shown is a function of the session's vehicle and the values held |
| CompanionLinkFailsafe.VerdictIsSafe | src/mission/safety/CompanionLinkFailsafe.cpp:105-168 | The chain of checks ends in acceptance if and only if the four values meet the requirement |
| CompanionLinkFailsafe.PhaseIsProgress | src/mission/safety/CompanionLinkFailsafe.cpp:34-103 | Waiting if and only if there is no vehicle, reading if and only if some of the four names has no value in the session |
| CompanionLinkFailsafe.VerdictIsShown | src/mission/safety/CompanionLinkFailsafe.cpp:91-169 | Once all four values are in, the detail shown is the first complaint the last values give rise to, and the values shown are theirs where they are in range |
| CompanionLinkFailsafe.VerdictTells | src/mission/safety/CompanionLinkFailsafe.cpp:105-168 | Each complaint says that everything checked before it was met and what was not |
| CompanionLinkFailsafe.ExactInteger | src/mission/safety/CompanionLinkFailsafe.cpp:16-24 | A value yields i if and only if it is finite, integral and equal to i within 0..maximum |
| CompanionLinkFailsafe.CompanionLinkFailsafe.ObserveVehicle | src/mission/safety/CompanionLinkFailsafe.cpp:34-46 | The fields follow the step function |
| CompanionLinkFailsafe.CompanionLinkFailsafe.OnParameter | src/mission/safety/CompanionLinkFailsafe.cpp:48-71 | Only the connected vehicle's autopilot is listened to, and only for the four names |
| CompanionLinkFailsafe.CompanionLinkFailsafe.Reset | src/mission/safety/CompanionLinkFailsafe.cpp:77-89 | All values and everything shown are cleared |
| CompanionLinkFailsafe.CompanionLinkFailsafe.Validate | src/mission/safety/CompanionLinkFailsafe.cpp:91-169 | What is shown is the verdict on the four raw values, stage by stage |
| SessionProtocol.EveryPollServesOneVehicle | src/mission/CompanionApplication.cpp:243-379 | After every poll of every run, the stream set-up and the failsafe monitor serve the vehicle of the polled snapshot (none without a link), every frame handed over in it is addressed to that vehicle, and without a link the wire is untouched |
| SessionProtocol.PollServesOneVehicle | src/mission/CompanionApplication.cpp:371-379 | The same for one poll from any coherent state |
| SessionProtocol.RunStaysSound | src/mission/CompanionApplication.cpp:260-369 | In every session (a run of polls serving one vehicle) of every run: stream commands in table order, version and parameter reads only once the set-up is active and no stream command after them, failsafe reads following one another through the four names with the pauses owed, heartbeats at least 1 s apart |
| SessionWire.LinkReadsCycle | src/mission/CompanionApplication.cpp:243-330 | Over a whole link of every run, from the poll that newly saw the vehicle connected to the next such poll, unseen changes of vehicle included: the first failsafe read is for FS_GCS_ENABLE, and the reads cycle through the four names, 200 ms apart, after a full cycle 2 s, or 10 s if accepted; the index stays in range |
| PollFrames.PollHandsOverOwed | src/mission/CompanionApplication.cpp:260-379 | Every poll of every run hands over exactly what history says it owes, in order, stamped with its time and the failsafe verdict: to the vehicle served, a heartbeat a second after the last due one; the stream command its marks call for; and once all six streams are accepted the next failsafe read after the pause owed on this link, a version request while the metadata are unknown and an arming-threshold read while it is not shown, 2 s after the last of its kind; without a vehicle, nothing |
| PollFrames.QuestionsWhenDue | src/mission/CompanionApplication.cpp:298-369 | In every poll each of the three questions is put exactly once if it is due, and otherwise not at all |
| PollFrames.QuestionsAreSpread | src/mission/CompanionApplication.cpp:332-369 | In every run two version requests, and two threshold reads, are at least 2 s apart |
| PollFrames.SeenByPositions | src/mission/CompanionApplication.cpp:371-379 | What a poll uses of the vehicle, by positions in the log: link, identity, mode, armed, metadata and whether the threshold is shown |
| SessionTiming.FramesAreMarks | src/mission/CompanionApplication.cpp:275-296 | After every run the stream commands among the frames of the session, with their times, are those its set-up sent |
| SessionTiming.SessionIsPaced | src/mission/CompanionApplication.cpp:275-296 | In every run of polls on a clock that does not run backwards, two commands for one stream in one session are at least 2 s apart |
| PollEvents.PollTells | src/mission/CompanionApplication.cpp:371-379 | Every poll of every run tells exactly these events, with its time: each ACK to this companion with the stream being set up, then the link lost or up or what changed in between, then its frames, each with whether it went out whole |
| PollEvents.HeartbeatActiveOnLink | src/mission/CompanionApplication.cpp:255-273 | A companion heartbeat is shown as active if and only if one went out whole since the link came up |
| SessionWire.RunIsOnWire | src/mission/CompanionApplication.cpp:559-576 | After every run the bytes on the wire are those of the frames handed over in its polls, in order and nothing else: each frame whole if reported sent, otherwise a proper prefix |
| SessionHistory.RunProjects | src/mission/CompanionApplication.cpp:138-206 | After every run of polls the log is what the filter lets through of all messages, and set-up and failsafe monitor are runs of their protocols over the ACKs, parameter values, updates and observations of the polls, in order |
| SessionHistory.RunShowsOwn | src/mission/CompanionApplication.cpp:371-379 | After every run of polls, whatever is known of any kind was measured by one message of the identified autopilot, received in the current session, at the time of its poll |
| SessionHistory.RunAcceptsIffSafe | src/mission/CompanionApplication.cpp:188-258 | After every run of polls the failsafe is accepted if and only if the last values of its session are safe |
| SessionHistory.PollsEndSetup | src/mission/CompanionApplication.cpp:275-296 | Whatever happened before, on a clock that does not run backwards, 19 polls that serve one vehicle, at least 2 s apart and without an IN_PROGRESS ACK, leave its set-up active or failed |
| SessionProtocol.PollStaysSound | src/mission/CompanionApplication.cpp:371-379 | One poll keeps that order, messages and session changes included |
| SessionProtocol.SessionBounds | src/mission/CompanionApplication.cpp:275-369 | At most 18 stream commands a session; a read implies that all six streams were asked for and accepted |
| SessionProtocol.FailedSetupLeavesHeartbeats | src/mission/CompanionApplication.cpp:260-369 | A poll that leaves the set-up failed hands over heartbeats only |
| SessionWire.FailedSetupStaysQuiet | src/mission/CompanionApplication.cpp:260-369 | Once a set-up has failed, every later poll of the run that still serves its vehicle hands over heartbeats only, and the set-up stays as it is |
| SessionProtocol.UnseenGapKeepsSetup | src/mission/CompanionApplication.cpp:243-258 | A gap closed inside one poll opens a new telemetry session but keeps the finished set-up |
| SessionProtocol.UnseenSwapKeepsIndex | src/mission/CompanionApplication.cpp:243-258 | A vehicle swapped inside one poll starts a new set-up but does not reset the failsafe reads |
| Observation.RunIsObserved | src/mission/CompanionApplication.cpp:424-460 | For every run, the observers attached before it are still attached, each received the link events 1, 2, ..., n once and in order, the ring holds the last min(n, 8), and the transitions received are exactly the phase changes along every single parameter value and link observation of the run, none left out or merged, from waiting for a vehicle to the failsafe's real phase |
| Observation.ObserverHoldsAll | src/mission/CompanionApplication.cpp:424-460 | Slot by slot: an observer attached before the run ends with exactly all events told and all those phase changes |
| Observation.RecordingIsFaithful | src/mission/CompanionApplication.cpp:438-460 | Recording an event numbers it next, tells every observer, detaches none, and drops the oldest of nine |
| Observation.ObservingIsFaithful | src/mission/CompanionApplication.cpp:424-436 | A change of phase is told to every observer as one transition from the phase last told; no change tells nothing; none is detached |
| Observation.MessageIsObserved | src/mission/CompanionApplication.cpp:188-206 | Each parameter message is followed up at once, so no intermediate phase goes untold |
| Observation.DrivenIsObserved | src/mission/CompanionApplication.cpp:243-379 | Everything after the messages tells at most the one transition of the link observation |
| Observation.WriteIsHonest | src/mission/CompanionApplication.cpp:559-576 | A frame is reported sent if and only if all of it is on the wire; otherwise a prefix of it is, and nothing earlier is disturbed |
| Observation.WriteGoesAsFarAsAccepted | src/mission/CompanionApplication.cpp:559-576 | A frame is sent if and only if the transport accepts that many bytes before it refuses; otherwise all it accepts is written |
| CompanionApplication.CompanionApplication.constructor | src/mission/CompanionApplication.cpp:138-213 | A new application is in the machine's initial state |
| CompanionApplication.CompanionApplication.Poll | src/mission/CompanionApplication.cpp:371-379 | One poll over all objects is exactly one step of the machine, of which `PollFrames.PollHandsOverOwed` and `PollEvents.PollTells` say by history what it hands over and tells |
| CompanionApplication.CompanionApplication.Ingest | src/mission/CompanionApplication.cpp:224-241 | The messages read are handled one after the other, each followed by its callbacks |
| CompanionApplication.CompanionApplication.OnMessage | src/mission/CompanionApplication.cpp:138-206 | One message is one step of the machine |
| CompanionApplication.CompanionApplication.OnCommandAck | src/mission/CompanionApplication.cpp:144-178 | An ACK is recorded with the stream it may answer before the set-up consumes it |
| CompanionApplication.CompanionApplication.OnParameter | src/mission/CompanionApplication.cpp:188-194 | A parameter is judged and a change of phase told before anything else |
| CompanionApplication.CompanionApplication.UpdateVehicleConnection | src/mission/CompanionApplication.cpp:243-258 | The failsafe monitor follows the link, a new connection restarts the failsafe reads, a lost one deactivates the heartbeat |
| CompanionApplication.CompanionApplication.ObserveVehicle | src/mission/CompanionApplication.cpp:487-557 | Exactly the events that the last poll's view and this one differ by are recorded |
| CompanionApplication.CompanionApplication.ObserveChanges | src/mission/CompanionApplication.cpp:525-556 | Of a vehicle already connected, new metadata, a new mode and a new armed state are recorded, in that order |
| CompanionApplication.CompanionApplication.SendCompanionHeartbeat | src/mission/CompanionApplication.cpp:260-273 | The machine's heartbeat step, partial writes included |
| CompanionApplication.CompanionApplication.UpdateTelemetrySetup | src/mission/CompanionApplication.cpp:275-296 | The machine's set-up step; ready if and only if the set-up is active |
| CompanionApplication.CompanionApplication.RequestFailsafeParameter | src/mission/CompanionApplication.cpp:298-330 | The machine's failsafe step, in range; when it reads and which name is in `PollFrames.PollHandsOverOwed` |
| CompanionApplication.CompanionApplication.RequestVehicleMetadata | src/mission/CompanionApplication.cpp:332-369 | The machine's version and threshold steps |
| CompanionApplication.CompanionApplication.RecordEvent | src/mission/CompanionApplication.cpp:438-460 | The journal afterwards is the one `Observation.RecordingIsFaithful` speaks of |
| CompanionApplication.CompanionApplication.ObserveFailsafePhase | src/mission/CompanionApplication.cpp:424-436 | The journal afterwards is the one `Observation.ObservingIsFaithful` speaks of |
| CompanionApplication.WriteAll | src/mission/CompanionApplication.cpp:563-570 | The write loop leaves on the wire what `Observation.WriteIsHonest` speaks of, for every pattern of partial writes |
| PipeReaders.ReadLines | src/hardware/camera/RpicamCameraSource.cpp:316-341 | For every way the stream is cut into reads, interruptions included, the lines delivered are the newline split of the whole stream |
| PipeReaders.LinesIsTheSplit | src/hardware/camera/GStreamerCameraSource.cpp:243-268 | That split is the only list of newline-free pieces that rejoin to the text, an unterminated last piece only if not empty |
| PipeReaders.ConsumeLines | src/hardware/camera/RpicamCameraSource.cpp:332-336 | Consuming what is complete changes nothing about the lines of what is still to come |
| PipeReaders.ReadExact | src/hardware/camera/RpicamCameraSource.cpp:343-388 | The bytes stored are the next ones of the stream, as many as the outcome says, for every pattern of polls, time-outs and interruptions |
| PipeReaders.ReadingIsExact | src/hardware/camera/RpicamCameraSource.cpp:343-388 | A read takes the whole frame if and only if it completes, and never a byte of the next one |
| PipeReaders.ReadCompletesIff | src/hardware/camera/RpicamCameraSource.cpp:343-388 | A frame read completes if and only if the pipe holds a frame and the turns offer it before a stop, an error, an empty offer or a quiet turn the time-out or more after bytes last came; interruptions never end it |
| PipeReaders.HarmDecides | src/hardware/camera/RpicamCameraSource.cpp:350-385 | Otherwise the first turn that ends the read decides the outcome: stopped, timed out, failed or end of file |
| PipeReaders.StoppedWasSeen | src/hardware/camera/RpicamCameraSource.cpp:350-353 | A read is stopped only by a stop that was seen |
| PipeReaders.ReadFrames | src/hardware/camera/RpicamCameraSource.cpp:203-235 | Frame k of an attempt is exactly bytes k*F to (k+1)*F of its stream; what was read beyond the last frame is less than a frame |
| CameraCapture.RunBalances | src/hardware/camera/GStreamerCameraSource.cpp:317-365 | Under every interleaving: produced = received + overwritten + discarded + pending, and last sequence = first - 1 + received + gaps |
| CameraCapture.MonitorCountsReceived | src/mission/cv/CameraMonitor.cpp:20-63 | The monitor has counted exactly the frames it took and those of them with a capture timestamp, and they came in rising order |
| CameraCapture.ReportIsLowerBound | src/mission/cv/CameraMonitor.cpp:65-76 | The reported drop count never exceeds the true loss, and equals it if and only if no restart discarded a frame or all losses lie between received frames |
| CameraCapture.RestartHidesLoss | src/hardware/camera/GStreamerCameraSource.cpp:354-360 | A pending frame thrown away by a restart is lost and not reported |
| CameraCapture.CameraSource.TakeLatestFrame | src/hardware/camera/GStreamerCameraSource.cpp:79-85 | The mailbox is handed over and emptied |
| CameraCapture.CameraSource.PublishFrame | src/hardware/camera/GStreamerCameraSource.cpp:337-346 | The frame gets the next number and replaces whatever was in the mailbox, counted as overwritten |
| CameraCapture.CameraSource.SetReconnecting | src/hardware/camera/GStreamerCameraSource.cpp:354-360 | A restart empties the mailbox and is counted |
| CameraCapture.CameraMonitor.Poll | src/mission/cv/CameraMonitor.cpp:20-63 | One poll of the monitor is one step of the interleaving, gaps included |
| CameraCapture.CameraMonitor.DroppedFrames | src/mission/cv/CameraMonitor.cpp:65-76 | The larger of gaps and overwrites; in every balanced state no more than the true loss |
| RpicamCameraSource.RunKeepsInStep | src/hardware/camera/RpicamCameraSource.cpp:105-250 | Under every interleaving of metadata thread, frame loop, consumer and restarts: the k-th frame of an attempt holds bytes k*F to (k+1)*F of that attempt's stream and carries the k-th timestamp parsed in it, and sequence numbers are 1, 2, 3, ... across attempts |
| RpicamCameraSource.StepKeepsAccounted | src/hardware/camera/RpicamCameraSource.cpp:180-235 | Every step keeps: timestamps parsed = carried + held + queued, and an image in hand is the next of the stream |
| RpicamCameraSource.StepKeepsNumbered | src/hardware/camera/RpicamCameraSource.cpp:433-461 | Every step keeps the numbering, and the mailbox holding the newest frame |
| RpicamCameraSource.TakenFrameIsPaired | src/hardware/camera/RpicamCameraSource.cpp:83-89 | A frame the consumer can take holds the bytes, and carries the timestamp, of its own position in its own attempt |
| RpicamCameraSource.ReachableIsInStep | src/hardware/camera/RpicamCameraSource.cpp:105-461 | Every state the object can be in satisfies all of that |
| RpicamCameraSource.DeliveredFramesArePublished | src/hardware/camera/RpicamCameraSource.cpp:202-235 | Progress: turns that each bring a whole frame and a timestamp, and no stop, have all their frames published, as long as the stream lasts |
| RpicamCameraSource.UnstoppedLoop | src/hardware/camera/RpicamCameraSource.cpp:202-235 | The frame loop ends by a stop only if some turn brings one |
| RpicamCameraSource.OnlyStopsEndTheWorker | src/hardware/camera/RpicamCameraSource.cpp:105-123 | The worker makes fewer attempts than there are only if one of those up to and including the first left out brings a stop |
| RpicamCameraSource.UnstoppedWorkerGoesOn | src/hardware/camera/RpicamCameraSource.cpp:105-123 | Without a stop every attempt is made and every one is followed by a restart |
| RpicamCameraSource.StopsEndTheWorker | src/hardware/camera/RpicamCameraSource.cpp:105-123 | No attempt begins once a stop is seen, and only the last may have been stopped |
| RpicamCameraSource.RpicamCameraSource.WaitForMetadata | src/hardware/camera/RpicamCameraSource.cpp:390-405 | The oldest queued timestamp, or none; a step of the machine |
| RpicamCameraSource.RpicamCameraSource.PrepareAttempt | src/hardware/camera/RpicamCameraSource.cpp:407-417 | Mailbox and queue are emptied, in two steps of the machine |
| RpicamCameraSource.RpicamCameraSource.OnMetadataLine | src/hardware/camera/RpicamCameraSource.cpp:180-191 | A line with a timestamp queues it, any other changes nothing |
| RpicamCameraSource.RpicamCameraSource.Publish | src/hardware/camera/RpicamCameraSource.cpp:232-234 | Publishing under the held timestamp is a step of the machine |
| RpicamCameraSource.RpicamCameraSource.PairFrame | src/hardware/camera/RpicamCameraSource.cpp:219-234 | A complete frame is published under the oldest timestamp if there is one; otherwise the loop ends, failed unless a stop is seen |
| RpicamCameraSource.RpicamCameraSource.ReadFrame | src/hardware/camera/RpicamCameraSource.cpp:204-217 | The outcome is that of the reading over the pipe's turns, and a complete read is the next frame of the attempt's stream |
| RpicamCameraSource.RpicamCameraSource.HandleFrame | src/hardware/camera/RpicamCameraSource.cpp:204-235 | One turn of the frame loop publishes its frame if and only if the read completes and a timestamp is there once others have run; it stays on a path of the machine and leaves the pipe at the next frame |
| RpicamCameraSource.RpicamCameraSource.FrameLoop | src/hardware/camera/RpicamCameraSource.cpp:202-235 | The loop publishes as many frames, and ends in the way, that its turns, bytes and timestamps determine, on a path of the machine |
| RpicamCameraSource.RpicamCameraSource.RunOnce | src/hardware/camera/RpicamCameraSource.cpp:125-272 | An attempt takes its course, is stopped only by a stop, and otherwise leaves behind the failure that ended it: start error, missing metadata, stall, read error or exit; the metadata reader is joined |
| RpicamCameraSource.RpicamCameraSource.ScheduleRestart | src/hardware/camera/RpicamCameraSource.cpp:112-119 | A restart carries the failure that caused it and is counted once |
| RpicamCameraSource.RpicamCameraSource.RunWorker | src/hardware/camera/RpicamCameraSource.cpp:105-123 | The worker leaves attempts out only after a stop; without one every attempt is made and one restart follows each; it ends stopped, with everything published in step |
| LogRotation.RotateJsonlLogs | python/rotate_jsonl_logs.py:23-64 | The directory loses exactly the removed files, no other file changes, and the candidates left are exactly those reported as kept; candidates that are at most max_files and max_total_bytes together all stay; invalid limits change nothing |
| LogRotation.Directory.Candidates | python/rotate_jsonl_logs.py:34-42 | The matching regular files, each once, newest first, ties by name |
| LogRotation.SortedIsSorted | python/rotate_jsonl_logs.py:34-42 | The candidates are sorted and a permutation of the listing |
| LogRotation.RotationPartitions | python/rotate_jsonl_logs.py:44-58 | Kept and removed together are the candidates, each once |
| LogRotation.RotationKeepsLimits | python/rotate_jsonl_logs.py:47-58 | The newest is always kept, at most max_files are, and at most max(max_total_bytes, newest size) bytes |
| LogRotation.RemovedIffLimitBroken | python/rotate_jsonl_logs.py:47-58 | A candidate is removed if and only if some newer ones are kept and these number at least max_files or exceed max_total_bytes together with it |
| LogRotation.AllFit | python/rotate_jsonl_logs.py:47-58 | Candidates that break no limit together are all kept |
| LogRotation.RotationIsIdempotent | python/rotate_jsonl_logs.py:47-64 | Rotating what was kept removes nothing |
| LogRotation.KeptIsListed | python/rotate_jsonl_logs.py:34-58 | Listing the directory after a rotation gives the kept list, in the same order |
| LogRotation.RotatingAgain | python/rotate_jsonl_logs.py:23-64 | Rotating the directory a second time, listed anew, removes nothing and keeps the same |
| LogRotation.OnlyKeptRemain | python/rotate_jsonl_logs.py:47-64 | After a rotation a candidate is in the directory if and only if it was kept |
| LogStreaming.StreamJsonlLogs | python/rotate_jsonl_logs.py:67-118 | For every line sequence and directory: the segments in creation order hold the input, and so does the mirror; each segment is within the limit or a single line, and no two neighbours would have fit into one; no name is used twice; every segment was created under a name free at that time; a file that was there before stays unchanged unless a rotation removed it; with rising write times the active segment keeps its entry |
| LogStreaming.NothingIsOverwritten | python/rotate_jsonl_logs.py:94-105 | In every chronicle of creations, writes and rotations that keeps to exclusive creation, a file that was there before and that no rotation removed is still there, unchanged, and the stream never wrote to it |
| LogStreaming.StreamLine | python/rotate_jsonl_logs.py:85-113 | One line is appended to the file last written or opens a segment under a free name, the directory changes by exactly that and the rotation after it, and the segment written last is spared |
| LogStreaming.OpenSegment | python/rotate_jsonl_logs.py:94-101 | Exclusive creation finds the first free number, and always finds one |
| LogStreaming.RollSegment | python/rotate_jsonl_logs.py:87-102 | A new segment is opened exactly when there is none, or the line would push a non-empty one over the limit |
| LogStreaming.SegmentNamesDiffer | python/rotate_jsonl_logs.py:95-96 | Different sequence numbers give different names |
| LogStreaming.ExtendedWithinLimit | python/rotate_jsonl_logs.py:87-106 | One more line keeps every segment within the limit or a single line |
| LogStreaming.ExtendedIsPacked | python/rotate_jsonl_logs.py:87-106 | One more line never leaves two neighbouring segments that would have fit into one file |
| LogStreaming.NewestSurvives | python/rotate_jsonl_logs.py:44-58 | A rotation never removes the newest file of the directory, nor one the pattern does not match |
| YoloXOutputDecoder.ValidateConfig | src/mission/cv/detection/YoloXOutputDecoder.cpp:21-40 | Accepts exactly the valid configurations, and names the first complaint |
| YoloXOutputDecoder.MakeGrid | src/mission/cv/detection/YoloXOutputDecoder.cpp:42-58 | The nested loops build the grid the index theorems are about |
| YoloXOutputDecoder.GridSize | src/mission/cv/detection/YoloXOutputDecoder.cpp:42-58 | The grid has the sum of the squared sides many cells |
| YoloXOutputDecoder.GridHoldsCell | src/mission/cv/detection/YoloXOutputDecoder.cpp:42-58 | Cell (x, y) of stride k is at index base(k) + y * side(k) + x |
| YoloXOutputDecoder.IndexHasCell | src/mission/cv/detection/YoloXOutputDecoder.cpp:42-58 | Every index is that of a cell |
| YoloXOutputDecoder.IndexIsInjective | src/mission/cv/detection/YoloXOutputDecoder.cpp:42-58 | Different cells have different indices |
| YoloXOutputDecoder.PlanesAreOrdered | src/mission/cv/detection/YoloXOutputDecoder.cpp:42-58 | All cells of a stride come before all cells of a later one |
| YoloXOutputDecoder.HighestScoringClass | src/mission/cv/detection/YoloXOutputDecoder.cpp:68-86 | The lowest accepted class with the maximum finite positive score, or none |
| YoloXOutputDecoder.BestIsUnique | src/mission/cv/detection/YoloXOutputDecoder.cpp:68-86 | That class and its score are unique |
| YoloXOutputDecoder.DecodeRow | src/mission/cv/detection/YoloXOutputDecoder.cpp:104-132 | A row yields a candidate if and only if one exists that meets the declarative conditions, and it is that one |
| YoloXOutputDecoder.RowEntry | src/mission/cv/detection/YoloXOutputDecoder.cpp:103-106 | Entry j of row i is entry i * columns + j of the output |
| YoloXOutputDecoder.BoxInCell | src/mission/cv/detection/YoloXOutputDecoder.cpp:115-119 | Finite entries put the centre as many strides from the cell's corner as the offset says, inside the cell's square for offsets from 0 to 1, and give the size in strides |
| YoloXOutputDecoder.DecodeYoloXOutput | src/mission/cv/detection/YoloXOutputDecoder.cpp:90-135 | Decoding is an order-preserving filter of the rows against their grid cells; each of the four errors is reported exactly when its condition holds and no earlier one does |
| HttpCameraPreviewServer.AtMostOneMoreThanFps | src/diagnostics/preview/HttpCameraPreviewServer.cpp:65-75 | No closed one-second window holds more than fps + 1 frames of one stream, for fps 1 to 60, although the interval is rounded down |
| HttpCameraPreviewServer.FpsPlusOneIsReached | src/diagnostics/preview/HttpCameraPreviewServer.cpp:65-75 | For every such fps the bound is reached |
| HttpCameraPreviewServer.TakenIsSpaced | src/diagnostics/preview/HttpCameraPreviewServer.cpp:176-210 | Frames taken over on one stream are at least the interval apart |
| HttpCameraPreviewServer.TakenWhenDue | src/diagnostics/preview/HttpCameraPreviewServer.cpp:176-210 | After any run a frame is taken over if and only if its picture has even sides and three bytes for every two pixels, and it comes an interval or more after the last one taken over on its stream |
| HttpCameraPreviewServer.IntervalIsRoundedDown | src/diagnostics/preview/HttpCameraPreviewServer.cpp:65-75 | The interval is the longest whole number of microseconds of which fps fit into a second; rates outside 1 to 60 have none |
| HttpCameraPreviewServer.RejectedFramesAreFree | src/diagnostics/preview/HttpCameraPreviewServer.cpp:176-210 | Leaving a rejected frame out of any run changes nothing that is taken over, before or after |
| HttpCameraPreviewServer.StreamsAreIndependent | src/diagnostics/preview/HttpCameraPreviewServer.cpp:176-210 | One stream takes over what it would take over alone |
| HttpCameraPreviewServer.HttpCameraPreviewServer.Publish | src/diagnostics/preview/HttpCameraPreviewServer.cpp:176-210 | One publication is one step of the budgets; a rejected frame leaves both arrays alone |
| ConsoleView.RowsKeepText | src/operator/ui/screen/ConsoleView.cpp:111-135 | The rows hold the non-space characters of the text, all and in order, each row at most 76 characters |
| ConsoleView.RenderedShowsRows | src/operator/ui/screen/ConsoleView.cpp:93-135 | Every line is one framed row and exactly 80 columns wide |
| ConsoleView.ShortWordsAreSplitIff | src/operator/ui/screen/ConsoleView.cpp:117-134 | A word of at most 76 characters is split if and only if the text is a leading space and then a word of exactly 76 |
| ConsoleView.RowsAreGreedy | src/operator/ui/screen/ConsoleView.cpp:117-134 | Every row but the last ends at the last space that leaves it within 76 columns, or fills all 76 if there is none; only spaces separate it from the next |
| ConsoleView.WriteLine | src/operator/ui/screen/ConsoleView.cpp:111-135 | The loop terminates for every text and writes exactly the rows of its printable form, none for the empty text |
| ConsoleView.Printable | src/operator/ui/screen/ConsoleView.cpp:82-91 | Control characters become spaces, one for one |
| ConsoleView.Fitted | src/operator/ui/screen/ConsoleView.cpp:93-97 | A longer value is cut to the width asked for, a shorter one padded with spaces |

## Left out

- MAVLink byte framing, checksums and message packing: messages are values and the encoder is an uninterpreted function.
- Rounding and overflow of floating-point numbers: finite values are exact reals; NaN and infinities are modelled.
- 64-bit wrap-around of counters, and width times height overflow: unbounded naturals.
- Labels, detail texts, directions and elapsed times of link events, and the last rx/tx activity: an event carries the data those are made of, not their wording.
- Camera and vision polling inside the application's poll, and simulated wind: they share no state with the session protocol.
- Observers that are attached twice, or replaced during a run: an observer is a slot of its own, empty or not.
- The order of the warnings in a snapshot: it depends on when earlier snapshots were taken; their set is proved.
- The fields of the vehicle observer are grouped in four records; each assignment replaces one field of a record.
- Credit of a COMMAND_ACK to a particular stream: an ACK carries no message id, so ACKs are counted only.
- Progress fields of a COMMAND_ACK, which the code ignores.
- RpicamCameraSource.RunWorker: process start, exit codes and the wording of their messages and of the stall message are parameters; an exhausted script is the end of the stream, and the end of the attempts; pauses, the behaviour of the pipe and stop requests are decided by a script; waiting is one atomic look at the queue; the metadata reader delivers parsed lines.
- Parsing of the FrameWallClock line, the last error line of the child, and the receive time and dimensions of a frame: a frame is its number, its timestamp and its bytes.
- The GStreamer source shares the mailbox model; its worker loop, which has no metadata, is not written out a second time.
- Latency, frame-rate and freshness statistics of the camera monitor: running sums over values not modelled.
- LogStreaming.StreamJsonlLogs: write, unlink and directory-creation errors and concurrent writers are not modelled; a line is its bytes; links are files that are not regular.
- Real-time bounds on scheduling: nothing is claimed about when a thread runs.
- `exp` in the YOLOX decoder is an arbitrary function; the neural network, image conversion and suppression of overlapping boxes are not modelled.
- HTTP routes, the stored image bytes, JSON, terminal colours, borders and the label selectors of the console.
