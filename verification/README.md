# Drone simulation: a Dafny model of its core

The system is a set of cooperating processes that animate a drone on a
bounded 2-D field with obstacles and targets:

- **Coordinator** (`BlackBoard.c`). It owns the displayed state: the drone's
  position, a 20-slot ring of obstacles and a list of at most 20 targets. It
  multiplexes four input channels, rescales stored items when the terminal is
  resized, clamps the drone to the display, and sends one repulsion sample per
  cycle to the Controller. Stored coordinates are clamped only on the upper
  side (`ClampItem`), so they stay in `[0, bound-2]` only when the generators
  send non-negative ones. Each clamp of the drone sends a position override
  `"x,y"` to the Controller, one per clamped axis.
- **Controller** (`process_Drone.c`). It turns keys into a steering state
  (active key and boost level 0..2) and a force, adds the repulsion push, and
  integrates a discretised second-order motion law. It reports each new
  position as `"x,y"`.
- **Input relay** (`process_In.c`). It forwards every key to the Controller and
  the commands `q a p u` to the Coordinator.
- **Generators** (`process_Ob.c`, `process_Ta.c`). They emit random obstacle
  or target coordinates, in their own window space, at a fixed interval.
- **Process registry** (`logger.h`). It is a text file of
  `Process: <name> | PID: <pid>` lines, looked up by name.
- **Watchdog** (`watchdog.c`). It loads the registry, pings every registered
  process each round, and stops when none is alive.
- **Network bridge** (`Communication_Server.c`, `Communication_Client.c`). It
  is a newline-framed text protocol over a socket. Each side is modelled as
  its own state machine; no composed protocol is modelled.

Shared C text handling (`sscanf`, `%d`, `atoi`, `strtok`, `fgets`, NUL-ended
strings) is in module `CText`. Parameter files are in `Params`. Socket line
framing is in `Framing`.

Integers are unbounded. Where the C code truncates a division, `TruncDiv` and
`Trunc` model it explicitly. Controller physics is over `real`.
Nondeterministic inputs are parameters: the clock, `rand`, whether a process
responds to a signal, and what `select` finds ready.

## Model

| member | source | states |
|---|---|---|
| Params.IntFieldFromItsLine | process_Drone.c:95-137 | Integer parameter n is set from file line n when the file has that line and the line holds a value; otherwise it keeps its default |
| Params.EtaFromLineFour | process_Drone.c:118-120 | eta is the `atof` of the third `_`-separated token of line 4 when there is one, and otherwise keeps its default |
| Params.LaterLinesIgnored | process_Drone.c:108-136 | Lines after the ninth change no parameter |
| Params.ParameterFile | BlackBoard.c:69-127 | A missing file leaves every parameter unchanged; otherwise the result is the file's fgets lines applied in order |
| Params.GeneratorParameterFile | process_Ob.c:47-86 | A missing file means exit code 66, and only then; otherwise the window size is taken from lines 1 and 2 |
| Params.WindowLines | process_Ta.c:63-84 | Width comes from line 1 and height from line 2; each keeps its previous value when the line is absent or holds no value |
| CText.CString | BlackBoard.c:375 | The C string is the longest NUL-free prefix, stopped by the first NUL |
| CText.FormatInt | process_Ob.c:155 | `%d` output is non-empty, all digits, with a leading `-` exactly for negative values |
| CText.FormatNatValue | process_Ob.c:155 | The digits written by `%d` denote the formatted number |
| CText.FormatInt32Length | logger.h:26 | A 32-bit `%d` needs at most 11 characters |
| CText.SkipSpace | logger.h:48 | Removes exactly the leading white space |
| CText.ScanInt | logger.h:48 | A successful `%d` consumes at least one character |
| CText.ScanWord | logger.h:48 | A successful `%s` yields a non-empty word with no white space, and consumes input |
| CText.Scan | logger.h:48 | `sscanf` assigns no more values than the format has conversions |
| CText.ScanFormatInt | BlackBoard.c:392 | `%d` reads back what `%d` wrote, leaving the rest of the input untouched |
| CText.ScanFormatPair | process_Ob.c:155 | `"%d,%d"` parses back the two integers written by `"%d,%d"` |
| CText.AtoiFormatInt | process_Drone.c:110 | `atoi` of a `%d` rendering returns the number |
| CText.Tokens | process_Drone.c:100-106 | `strtok` on `_` gives at most the cap of tokens, each non-empty and free of `_` |
| CText.LineLen | process_Drone.c:95 | One `fgets` chunk is non-empty, fits the buffer, contains no newline before its end, and ends at a newline when it stops early |
| CText.Lines | process_Drone.c:95 | Every `fgets` line has between 1 and buffer-size characters |
| CText.LinesConcat | process_Drone.c:95 | Successive `fgets` calls partition the file: their lines concatenate back to its text |
| Registry.LogLineWhole | logger.h:26 | A registry line for a valid entry is a single NUL-free line ending in a newline |
| Registry.FirstMatch | logger.h:45-53 | The lookup returns the first entry registering the name, and none only when no entry does |
| Registry.PidByName | logger.h:40-58 | The loop over the file returns the lookup's pid, -1 when the file is missing or has no match |
| Registry.LinesOfText | logger.h:26-45 | Reading the registry back with `fgets` yields exactly the lines that were logged |
| Registry.ParseLogLine | logger.h:48 | `sscanf` with the log format parses a logged line back to its entry |
| Registry.ParseText | logger.h:45-48 | Parsing a whole registry file recovers every entry, in order |
| Registry.LookupRegistered | logger.h:45-53 | After registration the name's pid is found, whatever was logged after it |
| Registry.LookupMissing | logger.h:42-57 | A name never registered gives -1 |
| Registry.ProcessLog.LogProcess | logger.h:8-36 | A registration appends exactly its log line, or leaves the file unchanged when it cannot be opened or locked |
| Registry.TextSnoc | logger.h:26 | The registry text grows by one line per registration |
| Registry.FindWatchdog | process_In.c:53-64 | Retries the lookup at most the retry count, stops at the first hit, and gives -1 only after every try missed |
| Watchdog.Row | watchdog.c:89-91 | A loaded row keeps the entry's pid and name and starts active |
| Watchdog.Load | watchdog.c:82-94 | The table never holds more rows than the array |
| Watchdog.LoadRows | watchdog.c:86-91 | Every loaded row is active, is not the watchdog itself and is not the master |
| Watchdog.LoadTakes | watchdog.c:82 | Loading keeps the admitted entries in file order, cut at the array capacity |
| Watchdog.LoadRegistry | watchdog.c:79-94 | Loading a file written by the registry gives the first admitted registrations, in order |
| Watchdog.After | watchdog.c:107-141 | A check keeps the pid and name; the row stays active exactly when it was active and the process responded |
| Watchdog.NoneAlive | watchdog.c:193 | The active count is zero exactly when no row is active |
| Watchdog.AliveAfterChecks | watchdog.c:185-191 | After a round no one is alive exactly when no active row responded |
| Watchdog.Monitor.constructor | watchdog.c:22-23 | The monitor starts with an empty table |
| Watchdog.Monitor.LoadProcesses | watchdog.c:65-99 | A missing file changes nothing; otherwise the table becomes the loaded registry |
| Watchdog.Monitor.CheckAll | watchdog.c:185-191 | One round checks every row and returns the active count of the new table |
| Watchdog.Monitor.AwaitProcesses | watchdog.c:165-168 | Reloads until a file yields a non-empty table, and every earlier attempt yielded none |
| Watchdog.Monitor.Cycle | watchdog.c:178-191 | One cycle reloads the table from the round's file (keeping it when the file cannot be read), checks every row, and returns the number still active |
| Watchdog.Monitor.Watch | watchdog.c:172-198 | Every cycle run saw no termination request and its table is the previous one after reload and checks; every cycle but the last left someone alive; the loop ends with `AllDead` exactly when the last cycle left nobody active, with `Terminated` only at a round that requests it, and otherwise only when the rounds run out |
| Watchdog.RunAfterRounds | watchdog.c:172-191 | The table after cycle k of a run is the starting table folded through the first k rounds |
| Watchdog.CheckProcess | watchdog.c:102-142 | A vanished, responding or silent process gives the matching action, and only its own row changes |
| Watchdog.CheckRows | watchdog.c:186-191 | The in-place loop equals the pure round on the first `count` rows and leaves the rest alone |
| Watchdog.Fill | watchdog.c:82-94 | The array loop stores exactly the pure `Load` of the parsed lines |
| Watchdog.AddLine | watchdog.c:85-92 | One line appends its row when admitted and otherwise leaves the table as it was |
| Generators.Coordinate | process_Ob.c:152-153 | `rand() % (size-10) + 1` lies in 1..size-10 (or 1..10-size for a small window) |
| Generators.CoordinateRemainder | process_Ob.c:152-153 | The coordinate, computed by repeated subtraction, is one plus the remainder of the random value by `size-10`, for either sign of the divisor |
| Generators.CoordinateReaches | process_Ta.c:150-151 | Every position in 1..size-10 is produced by some random value |
| Generators.MessageTerminated | process_Ob.c:155-156 | The message written to the pipe ends with a NUL and carries no earlier NUL, so a reader splitting at NUL gets it whole |
| Generators.MessageParses | process_Ob.c:155-156 | The Coordinator's `"%d,%d"` scan recovers the emitted coordinates |
| Generators.Generator.constructor | process_Ob.c:133-134 | A generator starts with its interval, window and start time, and nothing sent |
| Generators.Generator.Step | process_Ob.c:150-158 | Emits exactly when the interval has elapsed; then it sends one message of fresh coordinates and restarts the timer; otherwise nothing changes |
| Generators.Generator.Run | process_Ta.c:136-158 | Stops at the first termination request or when the turns run out; every turn taken was a clock tick; the last emission time and the messages appended are the replay of those ticks, and every appended message carries a point `Coordinate` can draw for the window |
| Generators.Replay | process_Ta.c:149-157 | Replaying ticks sends at most one message per tick |
| Generators.ReplayInside | process_Ta.c:150-151 | Every message of a replay carries a point in 1..size-10 (or 1..10-size) on each axis |
| Generators.SentInside | process_Ta.c:149-157 | The messages a run of ticks appends to the pipe all carry points inside the window's range |
| Generators.Startup | process_Ob.c:107-126 | Exits 1 exactly when the watchdog is never found, 66 when the parameter file is missing, 64 without an argument; otherwise it is ready |
| Controller.OppositeKey | process_Drone.c:71-83 | The opposite of a direction is a different direction of the same kind (straight or diagonal); a non-direction has none |
| Controller.OppositeInvolution | process_Drone.c:71-83 | The opposite of the opposite is the key itself |
| Controller.Steer | process_Drone.c:308-347 | Space, NUL, `q` and `p` leave the steering alone; `d` brakes to idle; any key other than the active one or its opposite takes over at boost 0; the boost stays in 0..2, a change of active key resets it, and it grows only by one, on a repeat of the active key |
| Controller.PressActiveRepeatedly | process_Drone.c:331-333 | Holding the active key raises the boost one level per press up to 2 |
| Controller.PressOppositeRepeatedly | process_Drone.c:335-342 | Pressing the opposite key lowers the boost one level per press; one press past zero switches direction at boost 0 |
| Controller.Force | process_Drone.c:358-375 | No direction gives no force; a straight key gives the boosted force on one axis; a diagonal gives the scaled force on both axes |
| Controller.ForceOpposite | process_Drone.c:366-375 | Opposite keys give exactly opposite forces |
| Controller.Capped | process_Drone.c:394 | Repulsion magnitude is capped at 10 and otherwise unchanged |
| Controller.PushAlongOffset | process_Drone.c:388-396 | The repulsion push points along the sampled offset from the obstacle |
| Controller.PushLength | process_Drone.c:388-396 | The push's length is the capped magnitude |
| Controller.StepSolvesMotion | process_Drone.c:408-415 | The integrator's new position satisfies m(x-2x1+x2) + kT(x-x1) = F T^2 |
| Controller.StepUnique | process_Drone.c:408-415 | That position is the only solution of the motion law |
| Controller.AtRest | process_Drone.c:408-415 | With no force a drone at rest stays where it is |
| Controller.Inertia | process_Drone.c:408-415 | With no force and no friction the drone keeps its velocity |
| Controller.Trunc | process_Drone.c:424 | The `(int)` cast truncates toward zero |
| Controller.Drone.constructor | process_Drone.c:214-236 | Starts idle and running, all history slots at the initial position, with the file's parameters |
| Controller.Drone.Receive | process_Drone.c:258-303 | A closed channel stops the loop; a position override resets all history slots; a repulsion sample is stored and armed; steering and the current position are untouched |
| Controller.Drone.PressKey | process_Drone.c:305-353 | The steering becomes `Steer` of the key, `q` stops the loop, and nothing else changes |
| Controller.Drone.Advance | process_Drone.c:358-424 | Both axes take one integrator step under the total force, the history shifts, the repulsion is consumed, and the message is the truncated position |
| Controller.Drone.Tick | process_Drone.c:245-435 | One iteration steers by the key read; keeps running exactly when no pipe closed, no `q` came and the write succeeded; the new position on each axis is one integrator step from the history after any override, under the steered key's force plus the push of the stored or newly read sample; the history shifts by one and the message is the truncated position |
| Controller.Drone.Run | process_Drone.c:238-447 | Runs no tick when not running; every tick but the last continued and none saw a termination request; it is still running exactly when every tick continued; it stops early only on termination or a stop; the final steering is the keys of the ticks run, applied in order; the steering, push and position history are `Trace` of the ticks run, and the messages written are `Messages`, one per tick |
| Controller.Drone.Next | process_Drone.c:245-435 | One more tick extends the state's trace by that tick and the messages by its message, and keeps running exactly when the tick continued |
| Controller.Drone.TickMotion | process_Drone.c:258-415 | One tick on values spends the push, steers by the key read, and shifts the history so that the older slot holds the override or the previous position |
| Controller.Drone.TickOf | process_Drone.c:245-435 | What one tick does to the steering, the push, the sample and the history of both axes is `TickMotion` |
| Controller.Drone.Trace | process_Drone.c:238-447 | After any number of ticks a pending push still has a sample it can be computed from |
| Controller.Drone.Messages | process_Drone.c:421-422 | The ticks write exactly one position message each |
| Controller.Drone.MessagesAt | process_Drone.c:421-422 | Tick i writes the truncated position reached after the first i + 1 ticks |
| Controller.Drone.TraceSteers | process_Drone.c:305-353 | The steering after a run of ticks is the keys they read, applied in order by `SteerAll` |
| Controller.WentEvery | process_Drone.c:238-243 | The first ticks all went on exactly when none of them asked to terminate and each continued |
| Controller.Ran | process_Drone.c:238-447 | After the loop none of the ticks run saw a termination request, all but the last continued, and it goes on exactly when every tick continued |
| Coordinator.ClampItem | BlackBoard.c:403-405 | A stored coordinate is at most bound-2, moved only when it reached the edge |
| Coordinator.DisplayBounds | BlackBoard.c:134-137 | The display is the terminal less its margins, never below 3x3 |
| Coordinator.RescaleInBounds | BlackBoard.c:294-317 | A rescaled item lies below the far edges, and inside the display when it was non-negative |
| Coordinator.RecentAppend | BlackBoard.c:408-411 | Keeping the last 20 after each insertion equals keeping the last 20 of all insertions |
| Coordinator.RingInsert | BlackBoard.c:408-411 | Writing at the head and advancing it keeps the ring equal to the 20 most recent obstacles, evicting the oldest when full |
| Coordinator.RingRescale | BlackBoard.c:294-304 | Rescaling the first `count` slots rescales the ring's contents in order |
| Coordinator.TargetInsertIsRecent | BlackBoard.c:440-449 | Appending a target, or dropping the first when full, keeps the 20 most recent |
| Coordinator.WithoutMembers | BlackBoard.c:464-477 | After removal a point remains exactly when it was there and is not the drone's cell |
| Coordinator.WithoutLength | BlackBoard.c:464-477 | Removal shortens the list by the number of targets at the drone's cell |
| Coordinator.WithoutAppend | BlackBoard.c:464-477 | Removal distributes over concatenation, so survivors keep their order |
| Coordinator.FirstClose | BlackBoard.c:570-593 | Finds the first obstacle within the radius, and none only when no obstacle is |
| Coordinator.ObstacleWins | BlackBoard.c:577-592 | The first close obstacle decides the repulsion sample, and its squared distance is at least 1 |
| Coordinator.BoundaryPushesInward | BlackBoard.c:597-651 | With no close obstacle a sample is sent exactly near a wall; it lies on one axis, is non-zero and points away from that wall |
| Coordinator.Blackboard.constructor | BlackBoard.c:260-267 | Starts empty, running, with display bounds from the terminal and the drone at the display centre |
| Coordinator.Blackboard.InsertObstacle | BlackBoard.c:387-416 | Stores the rescaled obstacle at the head and leaves the ring as the 20 most recent; item bounds are kept |
| Coordinator.Blackboard.InsertTarget | BlackBoard.c:419-454 | The target list becomes the 20 most recent including the rescaled target; item bounds are kept |
| Coordinator.Blackboard.RemoveReachedTargets | BlackBoard.c:464-477 | Removes exactly the targets at the drone's cell, in place, keeping order |
| Coordinator.Blackboard.Resize | BlackBoard.c:284-326 | New bounds; every item rescaled and below the new edges; the drone recentred and pushed as an override; the next reported position skipped |
| Coordinator.Blackboard.DronePosition | BlackBoard.c:368-383 | The reported position is adopted unless it is the one to skip after a resize |
| Coordinator.Blackboard.ClampDrone | BlackBoard.c:546-567 | An axis at or past its last cell moves to `bound-1`, one at or below 0 moves to 0, any other is kept; one override per clamped axis, each with the position as it then stands (`ClampOverrides`) |
| Coordinator.Blackboard.ComputeRepulsion | BlackBoard.c:570-651 | The loop returns the obstacle-first repulsion choice on the stored slots |
| Coordinator.Blackboard.Receive | BlackBoard.c:352-454 | The new state is `ReceiveStep`: the drone report adopted unless skipped after a resize (which clears the skip), a received obstacle and target each rescaled and appended to the 20 most recent; item bounds kept |
| Coordinator.Blackboard.Respond | BlackBoard.c:457-651 | The new state is `RespondStep`: targets on the drone cell removed, `a` re-centres, the drone clamped, running cleared by a pause that ends in `q`; the overrides are the centre after `a` then the clamps; the repulsion is the obstacle-first choice |
| Coordinator.Blackboard.Cycle | BlackBoard.c:273-676 | The new state is `CycleStep` of the old: an exit request stops at once; a resize comes first; a failed poll then stops; otherwise the reads, a closed channel or `q` stop, and the response follows. The overrides are `CycleOverrides`; the repulsion is sent only past the poll |
| Coordinator.Got | BlackBoard.c:367-454 | A channel delivers a point exactly when its read returned data |
| Coordinator.Added | BlackBoard.c:387-454 | A received point, rescaled, becomes the newest of at most 20; with none the list is unchanged |
| Coordinator.Reported | BlackBoard.c:368-383 | The drone's position is the report, unless none came or a resize asked to skip it |
| Coordinator.ClampAxis | BlackBoard.c:546-567 | The clamp keeps an interior coordinate, maps the far side to `bound-1` and the near side to 0, and always lands inside the window |
| Coordinator.ClampOverrides | BlackBoard.c:546-567 | At most two overrides, none exactly when the drone is strictly inside; the last carries the clamped position |
| Coordinator.ResizeStep | BlackBoard.c:284-326 | New bounds from the terminal, items rescaled one for one, drone at the centre, next report skipped |
| Coordinator.ReceiveStep | BlackBoard.c:367-454 | Reads keep the window, the running flag and both lists at 20 or fewer; a pending skip keeps the drone where it is |
| Coordinator.RespondStep | BlackBoard.c:464-567 | The response leaves the drone inside the window, only shortens the target list, never restarts the loop and leaves the obstacles |
| Coordinator.CycleRemovesReached | BlackBoard.c:464-477 | After a cycle past the poll, a target remains exactly when it was received and is not on the drone's reported cell |
| Coordinator.OverridesTrackPosition | BlackBoard.c:284-567 | The last override of a cycle is the Coordinator's new drone position; with none, the position is the Controller's own report |
| Coordinator.Blackboard.Steer | BlackBoard.c:480-543 | `a` moves the drone to the centre and sends it; `p` ending in `q` clears running; nothing else changes |
| Coordinator.Blackboard.ResizeIfAny | BlackBoard.c:284-326 | The state is resized exactly when a resize came, and the centre is sent then |
| Coordinator.Blackboard.EndChecks | BlackBoard.c:350-461 | A closed channel or `q` clears running; nothing else changes |
| Coordinator.PushRing | BlackBoard.c:408-411 | The array ring update equals the 20-most-recent insertion |
| Coordinator.PushTarget | BlackBoard.c:440-449 | The array target update equals the 20-most-recent insertion |
| Coordinator.AppendTarget | BlackBoard.c:440-443 | Writing after the last target appends it |
| Coordinator.ShiftInTarget | BlackBoard.c:444-449 | When full, shifting left and writing last drops the oldest and appends |
| Coordinator.ShiftLeft | BlackBoard.c:446 | The shift moves one window down by one slot and leaves the rest |
| Coordinator.RemoveMatching | BlackBoard.c:467-476 | In-place compaction leaves exactly the non-matching targets, in order |
| Coordinator.RescaleRing | BlackBoard.c:294-304 | The obstacle loop rescales the ring's contents |
| Coordinator.RescaleSlots | BlackBoard.c:307-317 | The slot loop rescales the first n slots and leaves the others |
| InputRelay.BoardCarriesCommands | process_In.c:118-122 | The Coordinator's FIFO carries exactly the command keys, in order, one per line |
| InputRelay.DroneCarriesKeys | process_In.c:114-134 | Before `q`, the Controller's pipe carries every key, in order, one per line |
| InputRelay.QuitUnterminated | process_In.c:124-131 | The final `q` reaches the Controller without a newline |
| InputRelay.QuitPosted | process_In.c:118-131 | The final `q` reaches the Coordinator on its own line after the earlier commands |
| InputRelay.Relay.Run | process_In.c:107-145 | The channels grow by exactly what the polls up to the stop send; the relay stops right after the first `q` or before the first termination request, and no earlier poll was either, so nothing is written after `q` |
| InputRelay.Pump | process_In.c:107-136 | The loop's output equals the per-poll output of every poll it consumed; no earlier poll was `q` or termination |
| InputRelay.Route | process_In.c:114-134 | A key goes to the Controller (with a newline unless `q`), a command also to the Coordinator, and `q` ends the relay |
| Framing.Span | Communication_Server.c:81-86 | The read stops at the first newline or when the buffer is full |
| Framing.Receive | Communication_Server.c:78-89 | A line is returned unless input ends first with no newline; it is a newline-free prefix that fits and is followed by its newline or fills the buffer |
| Framing.ReadLine | Communication_Server.c:78-89 | The byte loop writes the received line NUL-terminated, returns -1 exactly on early end, and leaves the rest of the buffer |
| Framing.FillLine | Communication_Server.c:81-86 | The loop copies input up to a newline, the end of input or a full buffer |
| Framing.ReceiveNewline | Communication_Server.c:84 | A newline within the buffer ends the line and is consumed |
| Framing.ReceiveFull | Communication_Server.c:81 | A full buffer ends the line without consuming a newline |
| Framing.AfterRead | Communication_Client.c:41-52 | A read keeps the buffer's size |
| Framing.HeardLine | Communication_Client.c:98-99 | After a successful read the buffer's C string is the received line |
| Framing.StaleRead | Communication_Client.c:46 | A read at end of input leaves the buffer's old content |
| Framing.ReadInto | Communication_Client.c:41-52 | The client's read loop advances by the bytes used and leaves the buffer as `AfterRead` describes |
| Framing.ReadFresh | Communication_Server.c:78-89 | Reading into a fresh buffer yields the received line and position, or nothing at end of input |
| Framing.Frame | Communication_Server.c:91-95 | A sent frame is the message's C string, cut to the buffer, with a newline and no NUL |
| Framing.FrameRoundTrip | Communication_Server.c:78-95 | Reading a sent frame returns the message and consumes it with its newline |
| Framing.FullLineSplits | Communication_Server.c:81-84 | A line exactly filling the buffer is read whole, and its newline then arrives as an empty line |
| CommServer.Handshake | Communication_Server.c:184-203 | Sends `ok` and, after `ook`, the size; succeeds exactly when `ook` and then `w_h` arrive |
| CommServer.HandshakeAccepts | Communication_Server.c:185-198 | A client sending `ook` then `w_h` is accepted |
| CommServer.TurnAccepts | Communication_Server.c:273-292 | `dok` followed by a position line gives the position and consumes both lines |
| CommServer.Kept | Communication_Server.c:235-252 | A Coordinator message with both values replaces the position; with none converted (no message, an empty read, a failed select) the last position stays; with only `x` converted, `x` is replaced and `y` kept, since sscanf stores each value as it converts it |
| CommServer.TurnWords | Communication_Server.c:225-318 | A turn sends `drone`, the position, `obst`, `pok` in that order |
| CommServer.Replies | Communication_Server.c:273-301 | Reading replies only advances, and a client position is accepted only after the acknowledgment |
| CommServer.Reached | Communication_Server.c:225-301 | A turn sends between one and all four of its messages |
| CommServer.Posting | Communication_Server.c:305-326 | A client position is forwarded to the Coordinator, reformatted, exactly when it parses |
| CommServer.Turn | Communication_Server.c:224-326 | The turn keeps the position as `Kept`, counts it renewed exactly on a full reading, and its channels and whether the loop goes on are those of `TurnLink` |
| CommServer.Sample | Communication_Server.c:235-252 | Storing the converted values one by one gives `Kept`; the position is renewed exactly when both converted |
| CommServer.Exchange | Communication_Server.c:273-301 | The reply reading loop computes `Replies` |
| CommServer.CentreUntilReading | Communication_Server.c:212-252 | Until a Coordinator message converts a value, the position reported is the window centre |
| CommServer.LatestReading | Communication_Server.c:235-252 | After a full reading, the position reported stays that reading while no later message converts a value |
| CommServer.Serve | Communication_Server.c:184-353 | Status 1 exactly on a failed handshake, having sent `ok` and, only after `ook`, the size, and forwarded nothing; otherwise it sends `ok`, the size, the turns of `Rest` from the window centre at the first turn, then `quit`, and the position is the latest `Kept` of the turns played |
| CommServer.Session | Communication_Server.c:207-337 | The loop computes `Rest` from the first turn, with the centre as the first position, and the position it ends with is the latest `Kept` of the turns played |
| CommServer.Reading | Communication_Server.c:242-243 | A Coordinator message gives a full position exactly when both values convert |
| CommServer.Answers | Communication_Server.c:273-301 | The answer to a turn at each read position is the replies read from there, and each ends inside the client's bytes |
| CommServer.Advance | Communication_Server.c:224-326 | A turn only appends: it sends `drone` first and one to four messages, goes on exactly when it sent all four (`drone`, the position, `obst`, `pok`), moves the read position to where the replies end unless the pipe broke, and forwards at most one position, none when it breaks off |
| CommServer.TurnLink | Communication_Server.c:224-326 | A turn on the client's bytes only reads forward and stays within them |
| CommServer.Converse | Communication_Server.c:255-326 | After the pipe read, the turn's writes and reads come to `TurnLink` |
| CommServer.Rest | Communication_Server.c:215-337 | The loop plays turns until the first exit request, the first turn that breaks off, or the end of the turns: no turn played had an exit request, a loop that did not break stopped at an exit request or the end, and a broken turn was played |
| CommServer.RestTurn | Communication_Server.c:224-337 | A turn that has read the pipe is played, and the loop stops after it only when it broke off or at an exit request or the end |
| CommServer.RestMessages | Communication_Server.c:215-337 | Every turn played sends all four messages except a broken last one, which sends fewer |
| CommServer.RestKeepsMessages | Communication_Server.c:215-337 | The messages already sent stay a prefix of what the loop sends |
| CommServer.RestForwards | Communication_Server.c:305-326 | The loop forwards at most one position per turn played and keeps the earlier ones |
| CommClient.ConversionsInverse | Communication_Client.c:21-38 | The local/virtual conversions are inverse to each other |
| CommClient.FormatSpaced | Communication_Client.c:156 | A sent position has no NUL and no newline, so it travels as one line |
| CommClient.Assign | Communication_Client.c:129 | Coordinates that `sscanf` did not convert keep their old values |
| CommClient.PositionRoundTrip | Communication_Client.c:129 | Scanning a `"%d %d"` position recovers it |
| CommClient.ScanFormatSpaced | Communication_Client.c:129-156 | `"%d %d"` parses back what `"%d %d"` wrote |
| CommClient.SizeNeedsWord | Communication_Client.c:107-109 | A size line not starting with `size` leaves the stale size |
| CommClient.Step | Communication_Client.c:41-52 | A read only moves forward |
| CommClient.StepAtEnd | Communication_Client.c:46 | At end of input a read changes nothing |
| CommClient.HeardOne | Communication_Client.c:41-60 | Reading a sent frame consumes it and leaves the message in the buffer |
| CommClient.HeardWire | Communication_Client.c:41-60 | Reading a run of frames hears every message in order and consumes exactly them |
| CommClient.Hears | Communication_Client.c:41-60 | A client whose input is a run of frames has heard exactly those messages |
| CommClient.Client.constructor | Communication_Client.c:94-95 | The client starts at the start of its input with nothing heard or sent |
| CommClient.Client.Read | Communication_Client.c:98 | Each read adds exactly one line to what was heard |
| CommClient.Client.Greet | Communication_Client.c:97-112 | Proceeds exactly when `ok` arrives; then answers `ook` and `sok` and takes the size from the `size` line |
| CommClient.Client.Turn | Communication_Client.c:118-174 | A turn proceeds only through `drone`, `obst`, `pok`; forwards the server's position to the Coordinator; reports the local position; and answers `qok` to `q` |
| CommClient.Client.Drone | Communication_Client.c:120-142 | After `drone` the server position is taken and forwarded; the local position is reported only after `obst` and a successful pipe read |
| CommClient.Client.Opening | Communication_Client.c:127-138 | Reads the server's drone line and the next line; the first is adopted, acknowledged and forwarded, and exactly those two lines are added to what was heard |
| CommClient.Client.Position | Communication_Client.c:127-135 | The scanned position is adopted, acknowledged with `dok` and forwarded |
| CommClient.Client.Report | Communication_Client.c:144-171 | The local position from the pipe is sent; the turn continues only after `pok`, and `q` is acknowledged |
| CommClient.Client.Run | Communication_Client.c:97-174 | Proceeds past the greeting exactly when the first line is `ok`, and otherwise sends nothing; takes the size from the `size` line; every turn but the last heard `drone`, `obst`, `pok` with a good pipe read and no `q`; it quits exactly when the last turn matched and heard `q`; it stops before the pipe reads run out only after a turn that did not match or quit; the messages, Coordinator positions and both drones are the turns' effects in order; a quit ends with `qok` sent after `q` heard |
| CommClient.Client.Play | Communication_Client.c:117-174 | The loop goes on exactly while every turn matched without `q`; the lines heard are the turns' lines in order; the state is the turns' effects |
| CommClient.Client.Next | Communication_Client.c:118-173 | One more turn: it goes on exactly when its lines matched, quits exactly on `q`, and its effect on the state is TurnStep's |
| CommClient.TurnStep | Communication_Client.c:118-173 | A turn that stopped before the server's drone changes nothing; messages are only appended, at most three per turn; a turn that heard the server's drone passes exactly one position to the Coordinator |
| CommClient.StepOf | Communication_Client.c:118-173 | What one turn does to messages, Coordinator positions and both drones, case by case on how far it got, is TurnStep |
| CommClient.TurnsSend | Communication_Client.c:118-173 | Over many turns messages sent stay sent, at most three per turn go out, and each turn that heard the server's drone passes exactly one position to the Coordinator |
| CommClient.GoesOnEvery | Communication_Client.c:118-173 | The loop goes on after some turns exactly when each of them matched and none heard `q` |
| CommClient.WentOn | Communication_Client.c:118-173 | Every turn before the last one of a finished loop matched and did not hear `q` |
| CommClient.StoppedEarly | Communication_Client.c:118-173 | A loop that ended with pipe reads left ended at a turn that did not match or heard `q` |
| CommClient.QuitLast | Communication_Client.c:167-171 | After a turn that heard `q`, `qok` is the last message sent and `q` the last line heard |

## Left out

- Curses rendering, colours, terminal set-up, the log files, signal handlers and `sleep`/`usleep`/`alarm`/`pause` are left out. They are I/O with no effect on the modelled state.
- `select` readiness, `read` outcomes, the clock, `rand()` and whether a process answers a signal are inputs (the `Read`, `Poll`, `Health`, `Turn` and `PipeRead` values), not modelled behaviour.
- Loops that run until a signal are bounded by their input sequences: polls, rounds, turns, ticks, pipe reads and board readings. A run that ends because its input sequence is exhausted stands for a run that has not ended yet.
- Coordinator positions are integers. The initial `x_curr = ww/2.0` is modelled as `ww / 2`, and the `%.0f` text of overrides is not modelled.
- Coordinator distances are compared squared, on integers. The repulsion sample carries the squared distance, where the C code sends `sqrt` formatted with `%.2f`.
- The ratio of generator window to display is computed in `float` in the C code. The model uses truncating integer division (`TruncDiv`) and needs a positive generator window.
- The Coordinator's pause sub-loop is summarised by `PauseOutcome`, which says whether it ends in `u` or `q`. Its redraws are left out.
- Controller physics is over `real`, not IEEE `float`. The repulsion sample is taken as given after `%f` parsing.
- The Controller needs `m + kT != 0`, a non-zero radius and a non-zero sample distance. The C code would divide by zero otherwise.
- The Controller's pause wait for `u` is not modelled: `p` leaves the steering unchanged. Its exit when `select` fails (process_Drone.c:255-257), the usage exit and its health check are left out.
- The watchdog's `kill` calls and signal delivery are left out. Only their outcome (`Health`) is modelled. The `strncpy` of a 99-character name is modelled by the registry's name-length bound.
- The input relay's start-up exits (missing argument, FIFO open failure) and its raw-terminal set-up are not modelled. Its watchdog search is modelled by `Registry.FindWatchdog`.
- The network bridge's float formats (`%f`, `%.2f`) are a parameter, `FloatText`. The angle conversions are the identity because the virtual frame's rotation is 0. Write errors, the loop-count logs, the unused `has_position` flag and the 49-byte board-read bound are left out.
- The client's pipe read is a whole binary record. A short or empty read keeps the previous local position, and a failed read ends the turn. When `sscanf` of the size fails, the client keeps an uninitialised size, modelled as a stale value.
- Generators.Generator.Run: needs a window size other than 10 cells on each axis. With exactly 10 the C code takes `rand() % 0` (process_Ta.c:150-151, process_Ob.c:152-153), which is undefined.
- Generators.Startup: does not state which window size the ready generator carries. `Params.GeneratorParameterFile` states it.
- The two halves of the bridge do not agree on the protocol, and no composed protocol is modelled:
  - The server sends the size as `w,h` and expects `w_h`. The client expects `size %d %d` and replies `sok`.
  - The server ends with `quit`, while the client waits for `q`.
