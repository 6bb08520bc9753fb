# A verified model of rocpmd

rocpmd is the daemon of the Red Oak Canyon PowerHAT board. It measures the battery by pulsing two GPIO
lines into a 64-step comparator and watching a third, keeps the last reading for clients on a Unix socket,
halts the machine when the user or the battery asks for it, and cuts the power by pulsing a fourth line.
This project models that behaviour in Dafny 4.11 and proves what every reading, every run and every
interleaving keeps. `dafny verify dfyconfig.toml` checks all of it.

## How the model is laid out

| file | what it holds |
|---|---|
| `optional.dfy` | a value that may be absent |
| `hardware.dfy` | the board as a value: pin levels and directions, the comparator's latched direction and wiper, the power controller; one effect for each access; `Env`, which says which accesses fail and what the pins that are not driven show |
| `measurement.dfy` | the closed form of one battery reading under any faults and samples, and its cost |
| `gpio.dfy`, `gpio_control.dfy` | the `Board` that changes in place, and the GPIO calls over it, proved against the closed forms |
| `battery.dfy` | what a reading means: exactness, recovery after faults, sequences of readings |
| `power.dfy`, `pinsetup.dfy` | the OFF pulses against the power controller; exporting, directing and releasing pins |
| `wiring.dfy` | exactly which boards and which wirings a reading works on for every battery |
| `timer.dfy`, `server.dfy`, `logger.dfy` | the rate limit, the socket server, the rotated log |
| `daemon_spec.dfy`, `daemon_runs.dfy`, `daemon.dfy` | the main loop as a transition system, what all its runs keep, and the `Rocpmd` class that refines it |
| `daemon_service.dfy` | what the daemon does for its clients: replies, power, and the time it sleeps |
| `commandline.dfy` | the battery options answered by the daemon or by the board |
| `config.dfy` | loading the configuration, and its validators |
| `lockfile.dfy` | the singleton lock over processes, inodes and POSIX record locks, one system call at a time |

Calls that change things in place are methods; each is tied by its `ensures` to a function on values, and
the theorems are lemmas about those functions. Faults, samples, clock values and client behaviour are
arbitrary functions and sequences, so every theorem speaks of all of them.

## What the proofs found

* On any board and any wiring, a reading works for every battery if and only if its four pins are exported,
  CS and UD are different driven pins without OFF on either, CS is released or the up direction is latched,
  PGOOD is an input other than D2, a driven D2 is high, and the board has power
  (`WiringCheck.SafeStartCondition`). In terms of the configuration alone: after a complete initialisation
  it works if and only if neither CS nor UD shares its pin with the other, OFF, PGOOD, D1 or D2, and PGOOD
  none with D2 (`WiringCheck.WiringCondition`). The directions of PGOOD, D1 and D2 are written last, so they
  undo those of pins they share; with OFF on CS or UD a reading cuts the power
  (`WiringCheck.ReadingKeepsPower`); and a shared OFF can leave the power-off call without effect
  (`WiringCheck.PowerOffCondition`).
* The loader accepts any legal wiring, shared pins included (`Config.EveryLegalWiringLoads`). The validator
  that would refuse such a file exists but is not called.
* On a proper wiring a fault during the search is the one way a reading spoils the board
  (`Battery.SafetyAfterReading`). The next reading then rails the comparator to the wrong end, and for any
  battery whose PGOOD is low at position 0 it returns 63, however full the battery is. With a powermap that
  maps 63 to 0 % one failed access therefore shuts the machine down: in a run that starts on a safe board and
  reads exactly, any single access of the search in the first timed reading is enough
  (`DaemonRuns.OneFaultInARun`). For every run, `DaemonRuns.ReadingsAreExact` says exactly which readings are
  right, and `DaemonRuns.EmptyReadingsAreRight` exactly when 0 % is a false alarm and when an empty battery
  is missed.
* Removing the lock file is safe exactly when no other process holds its lock or has it open to try for it
  (`Lockfile.UnlinkCondition`). Neither `cleanup` nor the signal handler checks this, and there is a run from
  an empty system that ends with two daemons (`Lockfile.TwoDaemonsFromScratch`).
* The daemon path and the direct path of the command line print different lines in exactly two cases
  (`CommandLine.PathsAgree`).
* The previous log is lost exactly when the rotated name is a directory (`Logger.RotationKeepsPreviousLog`).
* Clients are never told 0 % exactly when the reading before the loop is not 0 % or the daemon is asked to
  halt at once (`DaemonRuns.NobodyIsToldEmpty`): an in-loop reading of 0 % halts the daemon before it is
  served (`DaemonRuns.LowBatterySafety`), the one before the loop does not
  (`DaemonRuns.FirstEmptyReadingIsServed`).
* The daemon cuts the power only when a client has asked for it (`DaemonService.NoRequestNoPowerOff`), and
  whatever else it does it sleeps no longer than one search and one power-off call in a turn
  (`DaemonService.RunSleeps`).
* A power-off call cut short by a fault after one rising edge does not cut the power but asks the daemon to
  halt (`DaemonRuns.InterruptedPowerOffHalts`).

## Where the code and its documentation differ

The model follows the code. `man/rocpmd.1:279` calls the raw value the number of pulses; the code returns 63
minus the pulses. The comment at `src/gpio.cpp:327` says that 0 means the button was pressed; the function
returns 1. `validate_gpio_roles_vs_direction` wants UD to be an input while `gpio_init` makes it an output
(`Config.DirectionsDisagreeOnUd`). A D2 pin that cannot be read counts as charging, not as an error
(`src/gpio.cpp:377`), and a REQ_OFF pin that cannot be read counts as pressed (`src/rocpmd.cpp:319`).

## Model

| member | source | states |
|---|---|---|
| Gpio.Board.DigitalWrite | src/gpio.cpp:55-72 | a failed open returns GPIO_ERROR and changes nothing; otherwise GPIO_SUCCESS, and if the pin is an output its level is set and the board does what the edge does: latches the direction on CS, steps the wiper on UD, advances the power controller on OFF |
| Gpio.Board.DigitalRead | src/gpio.cpp:74-97 | GPIO_ERROR for a failed open, else the level the pin was last driven to if it is an output and what the environment shows if not, with no effect on the board |
| Gpio.Board.InitPin | src/gpio.cpp:99-112 | exports one pin or fails without effect |
| Gpio.Board.CleanupPin | src/gpio.cpp:114-127 | releases one pin or fails without effect |
| Gpio.Board.SetPinDirection | src/gpio.cpp:129-144 | sets the direction of one pin or fails without effect |
| Gpio.ReadReqOff | src/gpio.cpp:328-337 | 1 when REQ_OFF is low, 0 when high, GPIO_ERROR when unreadable |
| Gpio.ReadD2 | src/gpio.cpp:352-361 | 1 when D2 is low, 0 when high, GPIO_ERROR when unreadable |
| Gpio.ReadBatteryLevelRaw | src/gpio.cpp:363-452 | value, final board and number of accesses are those of the closed form for every fault pattern and sample stream; a successful reading of v makes 134 + 2(63 - v) writes and sleeps (136 + 2(63 - v)) gpio delays and one settling delay; a charging one sleeps one gpio delay, a stopped one what the accesses before the fault do |
| Gpio.ResetComparator | src/gpio.cpp:383-405 | the railing loop is accesses 2 to 195 of the reading, or stops at its first fault |
| Gpio.Search | src/gpio.cpp:428-445 | the counter ends at 63 minus the leading run of high samples, or the loop stops at its first fault |
| Measurement.ReadBattery | src/gpio.cpp:363-452 | every reading is GPIO_ERROR, CHARGING or 0 to 63, and uses at least one access |
| Measurement.PulsesAreTheLeadingRun | src/gpio.cpp:425-445 | the number of search pulses is the length of the leading run of high samples, capped at 63 |
| Measurement.CompleteCost | src/gpio.cpp:371-449 | the exact number of writes and the exact sleeping time of a search of n pulses, and the bound over all n |
| Measurement.ReadingOps | src/gpio.cpp:371-423 | which access each place of a reading outside the pulses is, and how long the nap after it is |
| Measurement.RailPulseOps | src/gpio.cpp:393-405 | a railing pulse is UD low, nap, UD high, nap, and a read of PGOOD without one |
| Measurement.SearchPulseOps | src/gpio.cpp:430-441 | a search pulse is UD high, nap, UD low, nap, and a read of PGOOD without one |
| Measurement.SleptInRailing | src/gpio.cpp:393-405 | the exact sleep before every access of the railing |
| Measurement.SleptAtTurn | src/gpio.cpp:407-423 | the exact sleep before every access between railing and search; the settling delay follows the release of CS |
| Measurement.SleptInSearch | src/gpio.cpp:430-451 | the exact sleep before every access of the search |
| Battery.AfterRailing | src/gpio.cpp:385-405 | the wiper after i railing pulses from an arbitrary position: it saturates at 63 from a safe start and at 0 from an unsafe one |
| Battery.AfterSearching | src/gpio.cpp:407-445 | after i search pulses the hidden wiper is exactly i below where railing left it, so the counter mirrors it |
| Battery.ReadingIsLeadingRun | src/gpio.cpp:425-451 | for any sample stream, stable or not, a completed reading v means 63 - v high samples and then, unless v is 0, a low one |
| Battery.ChargingLeavesTheBoardAlone | src/gpio.cpp:371-380 | a reading is CHARGING exactly when PGOOD can be read and D2 is low or unreadable, and then nothing on the board has changed |
| Battery.CompletedReading | src/gpio.cpp:430-451 | a completed reading leaves CS high, UD low and, from a safe start, the wiper at the returned value |
| Battery.SafeReadingIsExact | src/gpio.cpp:383-451 | from a safe start with CS and UD different driven pins and PGOOD an input that is fixed during the reading, the result is the largest position that is 0 or shows PGOOD low |
| Battery.ThresholdUnique | src/gpio.cpp:428-451 | there is only one such position |
| Battery.UnsafeReading | src/gpio.cpp:383-451 | from an unsafe start a completed reading is 0 or 63 and depends on position 0 alone |
| Battery.StuckReading | src/gpio.cpp:383-451 | from every other kind of bad start as well (one pin for CS and UD, either of them not an output) a completed reading is 0 or 63 by one position: where the wiper stands if the pulses never reach it, else the end it is driven to |
| Battery.ExactReadingCondition | src/gpio.cpp:383-451 | for one battery and any wiring with PGOOD an input: exact if and only if CS and UD are different driven pins and the start was safe, or the level at the one position that decides the value happens to fit |
| WiringCheck.SafeStartCondition | src/gpio.cpp:365-451 | a start on any board and any wiring gives every battery its level and keeps the power if and only if the stated condition on exports, directions, shared pins, CS, latch and power holds |
| WiringCheck.ReadingKeepsPower | src/gpio.cpp:383-451 | a completed reading ends with power if and only if it began with power and OFF is not an output on the pin of CS or UD |
| WiringCheck.WiringCondition | src/gpio.cpp:146-232 | after a complete initialisation of a powered board, readings work for every battery if and only if CS and UD share no pin with each other, OFF, PGOOD, D1 or D2 and PGOOD none with D2 |
| WiringCheck.PowerOffCondition | src/gpio.cpp:146-325 | after the same initialisation a complete power-off call cuts the power if and only if OFF shares no pin with PGOOD, D1 or D2, nor with REQ_OFF unless CS or UD has that pin too |
| Battery.SafetyAfterReading | src/gpio.cpp:371-451 | with CS and UD different driven pins, for every fault pattern: exactly when the board is safe after a reading; only a fault during the search makes a safe board unsafe |
| Battery.RecoveredReadingIsExact | src/gpio.cpp:371-451 | over any sequence of readings from any level of the pins under any faults, a completed reading is exact once an earlier one completed with only charging returns in between |
| Battery.SharedPinReading | src/gpio.cpp:365-366 | with CS and UD on one pin a completed reading is 0 or 63 by the wiper's unmoved position |
| Battery.StrongerBatteryReadsLower | src/gpio.cpp:428-451 | PGOOD high wherever another battery shows it high means a raw level that is no higher |
| PowerCut.CyclesRise | src/gpio.cpp:313-322 | on an output, n HIGH/LOW cycles give exactly n rising edges from a low pin and n - 1 from a high one, with presses in between |
| PowerCut.EdgesAdvance | man/rocpmd.1:214-224 | until the power is cut every rising edge brings the controller nearer |
| PowerCut.PressesCycle | man/rocpmd.1:214-224 | n button presses without a write to OFF move the controller n places round the cycle POWER_OFF, POWER_ON, REQ_OFF |
| PowerCut.ThreePulsesCutPower | src/gpio.cpp:306-325 | with OFF an output, from POWER_ON or REQ_OFF, any pin level and any button presses in between, the three pulses drive the board through POWER_OFF |
| PowerCut.PowerAfterWrites | src/gpio.cpp:313-322 | a call stopped by a fault has cut the power exactly when OFF is an output and its writes held enough rising edges; a complete one exactly when OFF is an output |
| PowerCut.ThreeIsTheLeast | src/gpio.cpp:313 | n cycles cut the power from every powered state with OFF an output if and only if n is at least 3 |
| PowerCut.PulsesKeepComparator | src/gpio.cpp:306-325 | the pulses leave CS, UD, the latch and the wiper alone |
| GpioControl.WriteOff | src/gpio.cpp:306-325 | does the six writes or the prefix before the first fault, and sleeps 200 ms after each write done |
| GpioControl.Init | src/gpio.cpp:146-232 | does the fifteen accesses or exactly the prefix before the first fault |
| GpioControl.Cleanup | src/gpio.cpp:234-304 | releases the seven pins or exactly the prefix before the first fault |
| PinSetup.InitSetsUpThePins | src/gpio.cpp:146-232 | a complete initialisation exports exactly the seven pins, with OFF, CS and UD as outputs, the other four as inputs, and CS high |
| PinSetup.InitDrives | src/gpio.cpp:146-232 | on any wiring, exactly which of the pins a complete initialisation leaves as outputs |
| PinSetup.InitInFull | src/gpio.cpp:146-232 | the fifteen accesses in order: CS is high before UD becomes an output |
| PinSetup.CleanupInFull | src/gpio.cpp:234-304 | the seven releases in order |
| PinSetup.CleanupUndoesInit | src/gpio.cpp:146-304 | however far the initialisation got, a complete clean-up leaves the old exports minus the seven pins: the old set if and only if none of them was in it |
| Timer.ExpiredInMicros | src/rocpmd.cpp:383-408 | the comparison with separate second and microsecond differences is that of the true microsecond difference |
| Timer.AtLeastIntervalApart | src/rocpmd.cpp:385-408 | accepted polls are at least one interval apart |
| Timer.AcceptedCount | src/rocpmd.cpp:385-408 | by time t at most (t - t0) / interval polls were accepted |
| Timer.LessThanIntervalPlusDelay | src/rocpmd.cpp:385-408 | with polls at most d apart, successive accepted polls are less than interval + d apart |
| Server.UdServer.HandleBatteryLevelRequests | src/ud_server.cpp:145-174 | sends the replies of `Replies`, which `PollRepliesInOrder` gives by place, and reports whether it ended normally |
| Server.UdServer.HandleOffRequests | src/ud_server.cpp:124-143 | any command sets the power-off flag, every one is acknowledged, nothing clears the flag |
| Server.UdServer.HandleRequests | src/ud_server.cpp:176-208 | battery clients first, then off clients; an exception skips the rest |
| Server.UdServer.SetBatteryLevelPercent | include/ud_server.h:55-58 | stores the cached percentage |
| Server.UdServer.SetBatteryLevelRaw | include/ud_server.h:60-63 | stores the cached raw level |
| Server.RepliesInOrder | src/ud_server.cpp:156-173 | for every command sequence the replies are one for each recognised command, in order |
| Server.PollRepliesInOrder | src/ud_server.cpp:145-208 | what reaches a client: one reply for each recognised command, at its place, as many as can be written; nothing without an accepted client |
| Server.PollEnds | src/ud_server.cpp:124-208 | exactly when a poll ends without an exception, and exactly when it sets the power-off flag |
| Server.RepliesFromCache | src/ud_server.cpp:156-173 | every reply of a poll repeats the cached pair |
| Logger.BatteryLog.Open | src/logger.cpp:46-99 | rotates the old log and opens an empty one, with exactly the cases in which it throws |
| Logger.BatteryLog.Log | src/logger.cpp:106-128 | the stream takes one line, which a regular log file then holds, or fails for good once a write has failed |
| Logger.OpenLeaves | src/logger.cpp:68-88 | what opening leaves at both names for every combination of file kinds; an old regular rotated log is deleted even when there is no log to rotate |
| Logger.RotationKeepsPreviousLog | src/logger.cpp:68-88 | the previous log survives under the rotated name if and only if that name is not a directory |
| Logger.RestartsKeepOneLog | src/logger.cpp:66-98 | after any number of restarts the log is the current run and the rotated file exactly the run before, with the same condition |
| DaemonSpec.CacheCoherence | src/rocpmd.cpp:309-357 | in every run the cached pair is the latest reading with its percentage, and every reply ever sent was that of the reading latest at the time |
| DaemonRuns.HaltReasons | src/rocpmd.cpp:315-352 | a run ends halted exactly when some turn had REQ_OFF asserted, unreadable, or an in-loop reading of 0 %; the state it halted in is final |
| DaemonRuns.LowBatterySafety | src/rocpmd.cpp:325-357 | an in-loop reading of 0 % is the last one and has halted the daemon, and no reply sent after the first in-loop reading is 0 % |
| DaemonRuns.FirstEmptyReadingIsServed | src/rocpmd.cpp:309-313 | a 0 % reading taken before the loop does not halt the daemon, and a client that asks in time is told 0 % |
| DaemonRuns.NobodyIsToldEmpty | src/rocpmd.cpp:309-357 | over all runs: no reply is ever 0 % if and only if the reading before the loop is not 0 % or the daemon is asked to halt in its first turn |
| DaemonRuns.RunTracksSafety | src/rocpmd.cpp:281-369 | in every run no pin changes direction, and the safety of the board, at every reading and now, is told exactly by the readings before it |
| DaemonRuns.SafeSinceRestored | src/gpio.cpp:371-451 | in terms of history: a board is safe exactly when no search has been stopped since a reading completed or was stopped with CS released, or since a safe beginning |
| DaemonRuns.ReadingsAreExact | src/rocpmd.cpp:281-369 | in every run, under any faults, for every completed reading, served or not: it is the exact threshold if and only if its board was safe or the level at 0 happens to fit, and otherwise it is 0 or 63 by that level |
| DaemonRuns.EmptyReadingsAreRight | src/rocpmd.cpp:325-352 | in every run, exactly when a reading says 0 % of a battery that is not empty and when it hides one that is; an in-loop reading of 0 %, right or wrong, has halted the daemon |
| DaemonRuns.RepliesAreExact | src/rocpmd.cpp:281-369 | in every run, under any faults, every reply that repeats a completed reading started on a safe board is the exact threshold, or its powermap entry |
| DaemonRuns.SafeAfterInit | src/gpio.cpp:146-232 | a complete initialisation makes the next reading start safe and, with distinct pins, leaves the directions the theorems about runs ask for |
| DaemonRuns.UnsafeReadingHaltsTheDaemon | src/rocpmd.cpp:325-351 | from an unsafe board the next completed in-loop reading of a battery with PGOOD low at 0 is 63 and halts the daemon |
| DaemonRuns.OneFaultShutsDown | src/gpio.cpp:428-451 | when the search of an in-loop reading stops at a fault, and nothing fails ever after, the next timed reading is 63 and halts the daemon |
| DaemonRuns.OneFaultInARun | src/rocpmd.cpp:309-352 | with distinct pins set up by the initialisation and a powermap that maps 63 to 0 %, from any safe board and for any battery with PGOOD low at 0: the first reading is exact, the only fault of the whole run is any one access of the search in the first timed reading, and the second one reports 63 and halts the daemon |
| DaemonRuns.StrongerBatteryHasMore | src/rocpmd.cpp:137-151 | end to end: the stronger battery gets no higher raw level and, under a non-increasing powermap, no lower percentage |
| DaemonRuns.LogIsTheReadings | src/rocpmd.cpp:325-345 | the log is exactly the in-loop readings in order with their percentages while no write fails, and a prefix of them otherwise |
| DaemonRuns.ReadingsFollowTheTimer | src/rocpmd.cpp:325-331 | the poll times of the in-loop readings of a running daemon are exactly the polls the timer accepts, in order |
| DaemonRuns.OffRequestsStick | src/ud_server.cpp:135-142 | no turn ever clears the power-off flag |
| DaemonRuns.OffRequestCutsPower | src/rocpmd.cpp:354-360 | a fault-free turn that serves its clients with the flag set leaves the board without power if and only if OFF is an output or there was no power before |
| DaemonRuns.InterruptedPowerOffHalts | man/rocpmd.1:214-224 | a power-off call from POWER_ON ends in REQ_OFF exactly when OFF is an output and a fault stops the call with one rising edge done; when that state drives the REQ_OFF pin, the next turn halts the daemon |
| DaemonService.TurnServes | src/rocpmd.cpp:354-360 | a turn that does not halt sends its battery client the replies in order from the pair cached in that turn; a turn that halts sends nothing |
| DaemonService.NegativeIsMinusOne | src/rocpmd.cpp:137-151 | in every run a charging or failed reading is cached, logged and served as -1 % |
| DaemonService.PowerAfterServing | src/rocpmd.cpp:354-365 | for every poll and every fault pattern: exactly when the flag is set, when the power-off call is made, how long it sleeps and whether it cuts the power; otherwise nothing on the board is touched |
| DaemonService.NoRequestNoPowerOff | src/rocpmd.cpp:354-360 | in every run without a command on the off socket the power controller stays where it was and the flag clear |
| DaemonService.RunSleeps | src/rocpmd.cpp:315-366 | over any run the daemon sleeps at most 262 gpio delays and one settling delay for each reading and 1.2 s for each turn |
| Daemon.Rocpmd.constructor | src/rocpmd.cpp:270-274 | takes the delays and the interval of the configuration, each under its own name, and starts the timer |
| Daemon.Rocpmd.BatteryLevelReadIntervalExpired | src/rocpmd.cpp:385-408 | accepts a poll and moves the timer, or refuses it and leaves the timer |
| Daemon.Rocpmd.Start | src/rocpmd.cpp:286-313 | opens the log if wanted and possible, on any kind of file, and takes the first reading |
| Daemon.Rocpmd.TimedReading | src/rocpmd.cpp:325-352 | the timed part of the loop body refines the transition system, in sleeping time as well |
| Daemon.Rocpmd.ServeClients | src/rocpmd.cpp:354-365 | serving clients and sending the OFF pulses refines the transition system, whose power `PowerAfterServing` determines |
| Daemon.Rocpmd.Turn | src/rocpmd.cpp:315-366 | one turn of the loop over the real board, server and log is one step of the transition system |
| Daemon.Rocpmd.DaemonMain | src/rocpmd.cpp:281-369 | on any log path, any finite stretch of the loop is a run of the transition system from the first reading |
| CommandLine.SendCommand | src/ud_client.cpp:49-127 | an unknown command or a failing call gives ROCPMD_COMM_ERROR, otherwise the cached value asked for; the off command sets the flag whenever it reaches the server |
| CommandLine.PrintFromDaemon | src/rocpmd.cpp:519-550 | one line for each option, raw first: the cached value, or the charging line when it is negative or the request fails; the two requests may find different caches |
| CommandLine.PrintFromSysfs | src/rocpmd.cpp:551-574 | the charging line once for a negative reading, otherwise one line for each option, raw first, from the fresh reading |
| CommandLine.PathsAgree | src/rocpmd.cpp:519-574 | for one reading both paths print the same lines except for both options while charging and for negative powermap entries |
| Config.ParseNode | src/config.cpp:231-323 | turns a node into a GPIO entry or reports its first error |
| Config.ConfigFile.Store | src/config.cpp:123-152 | an entry replaces the one of its own role and no other |
| Config.ConfigFile.Load | src/config.cpp:65-183 | reports the first error in file order; otherwise every role holds its last node, the powermap is `PowermapOf` and the reader `ReaderOf` the entries, which the rows below give by position |
| Config.ReaderIsTheLast | src/config.cpp:352-374 | the reader is the last section of its kind, with interval, gpio delay, pgood delay and log each taken from its own name |
| Config.NoReader | src/config.cpp:168-171 | without such a section there is no reader |
| Config.PowermapByPosition | src/config.cpp:338-347 | every powermap element stands behind those of the sections before it, and there are no others |
| Config.NodesByPosition | src/config.cpp:102-153 | the same for the GPIO nodes |
| Config.EntriesByPosition | src/config.cpp:88-96 | and for the entries of the documents |
| Config.FirstEntryError | src/config.cpp:88-183 | the error of a file is that of its first faulty entry |
| Config.FirstNodeError | src/config.cpp:114-121 | the error of a section is that of its first faulty node |
| Config.EntryErrors | src/config.cpp:100-112 | exactly which entries are accepted |
| Config.NodeErrors | src/config.cpp:231-323 | exactly which error a node has: pins 2 to 27, then the seven role names, then the directions, then the resistors |
| Config.NodeKept | src/config.cpp:231-323 | each text of an accepted node becomes the value of its name |
| Config.LoadedRoles | src/config.cpp:189-225 | a role that appears yields its last node, with a legal pin; a role that does not appear yields none |
| Config.LoadedWiring | src/config.cpp:189-225 | the looked-up pins are the wiring that the distinctness theorem speaks of |
| Config.EveryLegalWiringLoads | src/config.cpp:88-183 | any assignment of legal pins to the seven roles is accepted, shared pins included |
| Config.AcceptedReaderIsPositive | src/config.cpp:352-374 | an accepted reader section has positive interval and delays |
| Config.ValidateGpioPin | src/config.cpp:380-395 | accepts exactly the pins 2 to 27 |
| Config.ValidateGpioDuplicatePins | src/config.cpp:449-466 | accepts exactly the lists in which no two different indices share a pin |
| Config.ValidateGpioRolesVsDirection | src/config.cpp:469-497 | accepts exactly the lists in which every entry has the direction wanted for its role |
| Config.DirectionsDisagreeOnUd | src/config.cpp:469-497 | the direction the validator wants is the one a complete initialisation script sets, for every role but UD |
| Config.AtMost26Pins | src/config.cpp:380-395 | legal pins without a duplicate are at most 26 |
| Config.WiringIsDistinct | src/config.cpp:189-225 | the seven roles get seven different pins if and only if no two nodes in force share one, a node being in force when it is the last of its role; all pins are legal |
| Lockfile.StepKeepsInv | src/tdaemon.cpp:232-287 | every system call of every process keeps the lock invariant, given the condition on unlinking; a process between truncation and writing sees an empty file; signals can make any process without the lock unlink |
| Lockfile.SingletonSafety | src/tdaemon.cpp:115-121 | over every interleaving of system calls with serialised unlinks, crashes included, at most one process is past the check |
| Lockfile.InvExclusive | src/tdaemon.cpp:268-286 | the running process holds the lock of the file at the path, and the file carries its pid |
| Lockfile.UnlinkCondition | src/tdaemon.cpp:69-74 | an unlink leaves every continuation with serialised further unlinks, and every one without any, exclusive if and only if no other process holds the lock or has the file open to try for it |
| Lockfile.TwoDaemons | src/tdaemon.cpp:69-74 | in any state the invariant allows, an unlink while another process is interested has a continuation with two running daemons |
| Lockfile.TwoDaemonsFromScratch | src/rocpmd.cpp:67-79 | there is a run from an empty system, with one signal to a process that never held the lock, that ends with two running daemons |
| Lockfile.Tdaemon.IsRunning | src/tdaemon.cpp:256-287 | an uninterrupted start answers true exactly when the file at the path is locked and then leaves its text alone; otherwise it takes the lock and writes its pid |
| Lockfile.Tdaemon.Cleanup | src/tdaemon.cpp:69-74 | an uninterrupted clean-up, from whatever phase the process has reached, gives up this process's lock and no other and clears the path, and keeps the invariant when nobody else is interested |

## Left out

- Sysfs, sockets, select, syslog, shutdown and the C library: each is a step that succeeds, fails or yields a value. A sysfs open that fails for any reason is one of the environment's faults. A write error after a successful open goes unnoticed by the code; the one that is modelled is a write to a pin that is not an output.
- Gpio.Board.SetPinDirection: does not model the level the kernel drives when a pin becomes an output, because the kernel decides it and not this code; the model leaves the level as it was. The theorems about readings and OFF pulses hold from every level, and initialisation writes CS afterwards.
- A line that is not driven keeps its last level for the comparator and the controller; pull-ups and loads are not modelled.
- YAML parsing and the type errors it raises: loading starts from parsed records. The first list of a powermap section is taken as its value.
- Uninitialised fields: a role or reader that never appears is absent instead of undefined, and the daemon requires a reader and at least 64 powermap entries.
- Floating point: the timer uses exact reals; the doubles of the code agree for realistic clock values.
- Forks: a process starts at its final pid, as the lock is taken after both forks. Signal handlers that interrupt a handler, and the order of deletions at exit, are not modelled; a handler's unlink from a process that never held the lock is.
- Errors of open, ftruncate and write on the lock file: a process that exits on one of them is a process that dies at that step.
- The pid check of `rocpmd_instance_lives`, board detection, option parsing, verbose output and message texts: plumbing with easy claims only.
- A reply to a client that is shorter than an integer, apart from the single byte that answers the off command: the code then returns an undefined value. Broken-pipe signals and partial writes to a client are not modelled beyond the write that fails.
- gpio_read_d1: nothing calls it.
- Time stamps of log lines, symbolic links and empty directories in the log directory. A log path that is a device or pipe keeps nothing; the lines the stream has taken are recorded beside it.
- What the processor does once its power is cut: the remaining pulses of a power-off call have no effect in the model.
