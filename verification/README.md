# Pypilot protocols, schedulers and wire formats

This project models the parts of the C++ port of pypilot that keep state or speak a format, and
proves what they promise.  Each stateful component is a class with the fields and loops of the
original (`PypilotClient`, `PypilotServer`, `ValueRegistry`, `LineProtocolReader`, `Scheduler`,
`ServoPort`, `Parser`, `AutopilotLoop`).  Its methods are proved equal to functions on plain
values, and the theorems are about runs of those functions.

* **Client and server text protocol.**  `ClientText` builds request lines in character buffers,
  `Client` remembers watches (`LongNames` for names that are too long) and queues lines while
  there is no connection, and `Server` scans requests.  `Requests` joins the two line by line, with `NumberText` and `StringText` saying what
  becomes of numbers and strings on the way.  `Agreement` and `AgreementRuns` follow whole runs,
  with connections that come and go and requests that are refused: what the server watches, and
  when that is what the client wants.
* **Values and watches.**  `Fields` and `Values` are the registry with its 64-slot watch table and
  dirty bits.  `WatchTable` and `RegistryRuns` show that the table is a plain map from fields to
  (period, due time).  `Mirror`, `Replication` and `ReplicationRuns` follow the bytes of a whole
  run through the line reader into the copy that a subscriber keeps, `Subscription` starts from the
  client's own request, `OpenLines` shows what a value that cannot be read does, and `Replies`
  states the server's answers to each kind of line as literal text.
* **Event loop.**  A callback is a finite script of additions, cancellations and clock steps, and
  the script may depend on everything that happened before.  `TimerLedger` says what a log of
  calls may look like in terms of a map of live handles, `EventLoopRuns` shows that every run of
  the slot table produces such a log, `EventLoopPass` and `EventLoopOrder` are about a single
  pass, and `TimerHistories` says over every run exactly which timers a pass calls.
  `AddedTimers` says the same from the moment a timer is added.
* **Servo wire format.**  `Crc8Register` relates the byte-wise checksum of `Crc8` to a bit-serial
  shift register, `Crc8Frames` says exactly when an error goes unnoticed, and `Crc8Period` and
  `Crc8Errors` derive which errors do.  `ServoProtocol` and `ServoTelemetry` are the framing and
  the incremental parser; `ServoDriver` and `Autopilot` say which packets leave in each iteration.
  `Wire` gives the bytes as literal values and the steering that they carry.
* **NMEA 0183 and headings.**  `Nmea` is the sentence parser with its checksum, `NmeaLines` says
  what it makes of any line, and `Heading` is the angle arithmetic.

Time and counters are unbounded naturals, numbers are reals, text is a sequence of characters
without the terminator, and a connection takes a line as a whole or not at all.  `Decimal`
specifies fixed-point printing (`%.4f`, `%.6f`, round half to even) and the decimal part of
`strtof`.

## What the code does not promise

Seven promises that one might expect turn out to have exceptions.  For each there is an input, and a
condition that says exactly when the promise is kept.

* Client and server tables can stay different after a reconnection: an `unwatch` that finds the
  queue full is forgotten by the client and never reaches the server
  (`AgreementRuns.TablesCanDiffer`).  Over every run, connecting makes the tables equal exactly
  when no unwatch of a field that the server watches has been refused without a later watch or
  accepted unwatch of it (`AgreementRuns.ConnectEqualIff`).
* A client forgets a watch that is undone exactly if its name has at most 63 characters.  Of a
  longer name the table keeps the front, which no request finds again (`LongNames.UnwatchUndoesIff`,
  `LongNames.WatchedTwice`).
* A string survives a set command exactly when none of its characters is escaped and its quoted
  form has at most 127 characters (`StringText.StringExactIff`): neither side undoes escapes, and a
  longer form is cut together with its closing quote.  What is left of it arrives with the opening
  quote in front, unless the cut happens to end in a quote (`StringText.CutArrives`).
* A number survives, rounded to six decimals, exactly when its text without superfluous zeros has
  at most 31 characters and, if that leaves no room for a point, does not end in a zero
  (`NumberText.ArrivesExactIff`).  From 10^30 on every power of ten arrives as 1
  (`NumberText.LargePowersArriveAsOne`).
* A rudder angle that cannot be read produces a line without an end.  A value written behind it is
  lost: a step brings a copy up to date exactly when a note of the field can be read and does not
  directly follow such an open line, be it of the same step or of the one before
  (`ReplicationRuns.StepCopiesIff`).  It happens to a client that asks a new server for the angle
  and the mode in one request (`OpenLines.ModeSwallowed`).  The condition is for lines that, with
  what is open in front of them, fit the reader's buffer; a longer one can even set the copy of a
  field that was never written (`OpenLines.OverflowSetsAnother`).
* The NMEA checksum misses one kind of single-byte damage: a body byte that turns into a star
  (`Nmea.OneByteReplacedIff`, `Nmea.StarUnnoticed`).
* Two flipped bits pass the servo checksum exactly when their distance is a multiple of 127 bits
  (`Crc8Errors.TwoBitErrorsIff`).  From sixteen bytes on that happens
  (`Crc8Errors.LongFramesMissTwoBits`); frames of four bytes are too short.

## Model

| member | source | states |
|---|---|---|
| Crc8.ComputeUpdate | src/pypilot/syslib/servo_protocol.hpp:16 | the eight-round loop computes the register after one byte |
| Crc8.ComputeChecksum | src/pypilot/syslib/servo_protocol.hpp:17 | the loop over the data computes the checksum of a string of any length |
| Crc8Register.FoldIsRun | src/pypilot/syslib/servo_protocol.hpp:16-17 | the byte-wise checksum is the bit-serial division register fed with the bits of the data in transmission order |
| Crc8Frames.AcceptsIffResidueZero | src/pypilot/syslib/servo_protocol.hpp:16-19 | a frame ends in its checksum exactly when the checksum of the whole frame is zero |
| Crc8Frames.SealedAccepted | src/pypilot/syslib/servo_protocol.hpp:16-19 | data followed by its checksum is accepted |
| Crc8Frames.AcceptsCorruptIff | src/pypilot/syslib/servo_protocol.hpp:16-19 | an error goes unnoticed exactly when its own bits leave a register started at zero at zero, whatever the data |
| Crc8Errors.OddErrorsRejected | src/pypilot/syslib/servo_protocol.hpp:16-19 | every error with an odd number of flipped bits is rejected, for data of any length |
| Crc8Errors.BurstsRejected | src/pypilot/syslib/servo_protocol.hpp:16-19 | every nonzero error within eight consecutive bits is rejected, also across byte boundaries and in the checksum byte |
| Crc8Errors.TwoBitErrorsIff | src/pypilot/syslib/servo_protocol.hpp:16-19 | two flipped bits go unnoticed exactly when their distance is a multiple of 127 bits |
| Crc8Errors.SmallErrorsRejected | src/pypilot/syslib/servo_protocol.hpp:16-19 | in frames of at most fifteen bytes every error of one, two or three bits is rejected |
| Crc8Errors.LongFramesMissTwoBits | src/pypilot/syslib/servo_protocol.hpp:16-19 | from sixteen bytes on, whatever the data, some damage of two bits is accepted, so that the bound above is sharp |
| Crc8Period.TopPeriod | src/pypilot/syslib/servo_protocol.hpp:16 | the top bit of the register comes back exactly after the multiples of 127 shifts |
| ShiftRegister.TwoBits | src/pypilot/syslib/servo_protocol.hpp:16 | in any linear register two set bits cancel exactly when their distance is a period of the top bit |
| ShiftRegister.PeriodIff | src/pypilot/syslib/servo_protocol.hpp:16 | a value that returns after a prime number p of shifts and not after one returns exactly after the multiples of p |
| ShiftRegister.RunParity | src/pypilot/syslib/servo_protocol.hpp:16 | a register whose shift keeps parity tells the parity of the bits fed into it |
| Wire.CheckValue | src/pypilot/syslib/servo_protocol.hpp:16-17 | the digits 1 to 9 have the published check value 0xf7 of CRC-8/NRSC-5 |
| Wire.EmptySum | src/pypilot/syslib/servo_protocol.hpp:17 | the checksum of nothing is eight ones |
| ServoProtocol.EncodeFrame | src/pypilot/syslib/servo_protocol.hpp:18 | builds the frame of code, low byte, high byte and checksum |
| ServoProtocol.DecodeFrame | src/pypilot/syslib/servo_protocol.hpp:19 | yields a packet exactly for a frame that ends in its checksum |
| ServoProtocol.DecodeEncode | src/pypilot/syslib/servo_protocol.hpp:18-19 | decoding an encoded packet returns it |
| ServoProtocol.EncodeDecode | src/pypilot/syslib/servo_protocol.hpp:18-19 | every frame that decodes is the encoding of what it decodes to |
| ServoProtocol.DamagedFrameRejected | src/pypilot/syslib/servo_protocol.hpp:16-19 | an encoded frame with one to three flipped bits, or with any damage within eight consecutive bits, does not decode |
| Wire.FrameBytes | src/pypilot/syslib/servo_protocol.hpp:18 | the frame of a value low + 256 high is code, low, high and their checksum |
| Wire.FullSpeedFrame | src/pypilot/syslib/servo_protocol.hpp:18-20 | the command of level 2000 is c7 d0 07 dc on the wire |
| Wire.DisengageFrame | src/pypilot/syslib/servo_protocol.hpp:18-21 | a disengage packet is 68 00 00 92 on the wire |
| ServoProtocol.Parser.Feed | src/pypilot/syslib/servo_protocol.hpp:24 | the sample, the channels and the leftover are those of the valid aligned blocks of the buffered bytes |
| ServoProtocol.Parser.DrainBlocks | src/pypilot/syslib/servo_protocol.hpp:24 | the loop takes every complete block off the buffer and applies those that decode |
| ServoTelemetry.ChunkingIrrelevant | src/pypilot/syslib/servo_protocol.hpp:24 | however a stream is cut into feed calls, the sample, the union of channels and the leftover are those of one call with all of it |
| ServoTelemetry.RejectedFrameSkipped | src/pypilot/syslib/servo_protocol.hpp:24 | a frame that does not decode, anywhere on a block boundary, has no effect at all |
| ServoTelemetry.DamageIsIsolated | src/pypilot/syslib/servo_protocol.hpp:16-24 | damage that the checksum is sure to notice removes the contribution of that frame and nothing else |
| ServoTelemetry.PacketsOfOrders | src/pypilot/syslib/servo_protocol.hpp:18-21 | the receiver of a queue of orders decodes exactly one packet for each, in order |
| ServoDriver.ServoPort.SendRawCommand | src/pypilot/servo.cpp:6 | clamps the value to [-1, 1], records it and queues its command packet |
| Wire.RawCommandSends | src/pypilot/syslib/servo_protocol.hpp:20 | for every real value the level n fulfils n <= 1000 (c + 1) < n + 1, where c is the value or the nearer end of [-1, 1] |
| ServoDriver.ServoPort.SendDisengage | src/pypilot/servo.cpp:7 | queues a disengage packet and clears the engaged flag |
| ServoDriver.ServoPort.SetAutopilotEnabled | src/pypilot/servo.cpp:7 | sets the enable flag and the engaged flag |
| ServoDriver.ServoPort.Poll | src/pypilot/servo.cpp:9 | queues the current command if enabled and a disengage packet otherwise |
| ServoDriver.ServoPort.TakeDriverTx | src/pypilot/servo.cpp:5 | hands out exactly the encoding of the orders queued since the last call and empties the queue |
| ServoDriver.ServoPort.FeedDriverBytes | src/pypilot/servo.cpp:8 | feeds the parser and copies exactly the reported channels into the shared state |
| ServoDriver.ApplySampleTwice | src/pypilot/servo.cpp:8 | copying after each feed and copying once at the end leave the same state |
| ServoDriver.FeedingIrrelevant | src/pypilot/servo.cpp:8 | the shared state after a telemetry stream does not depend on how the stream was cut |
| Wire.TelemetryShown | src/pypilot/servo.cpp:8 | after any telemetry in any chunks the shared state shows the last valid frame of each code: voltage and current in hundredths, rudder in 65472ths from -1/2, the flag word, and engaged exactly if bit 3 is set |
| Autopilot.AutopilotLoop.Iteration | src/pypilot/autopilot.cpp:21-52 | servo poll if off, heading, error, pilot unless tacking, enable, servo poll if on, in this order |
| Autopilot.AutopilotLoop.ProcessPilot | src/pypilot/pilots/basic.cpp:9-15 | both commands become the heading error over 30, clamped to [-1, 1] |
| Autopilot.IterationGives | src/pypilot/autopilot.cpp:21-52 | an iteration queues exactly one order, and which one depends on this and the previous enable setting |
| Autopilot.VoyageReaches | src/pypilot/autopilot.cpp:21-52 | over every run of settings, iterations and queue drains the state that orders depend on is a function of the settings |
| Autopilot.VoyageSends | src/pypilot/autopilot.cpp:21-56 | the bytes of every run decode as one command of level 1000 and then one packet for each iteration: a command if enabled now or in the previous iteration, a disengage otherwise, and nothing else |
| Wire.EnabledSteers | src/pypilot/autopilot.cpp:21-56 | over every run, an enabled iteration sends the level n with n <= 1000 (c + 1) < n + 1, where c is the error e of the last iteration outside a tack divided by 30 and clamped to [-1, 1], and e in [-180, 180) differs from command - heading by whole turns |
| Autopilot.SwitchOffLags | src/pypilot/autopilot.cpp:36-55 | on the wire of every run: an iteration sends a disengage packet exactly if it is off and comes first or after one that was off; the first iteration after switching off repeats the last packet |
| Heading.Resolv | src/pypilot/resolv.hpp:8 | the two loops end, with the angle of [-180, 180) that is a whole number of turns away |
| Heading.ResolvedUnique | src/pypilot/resolv.hpp:8 | it is the only such angle |
| Heading.CompassNormalize | src/pypilot/resolv.hpp:10 | returns an angle of [0, 360) that is a whole number of turns away |
| Heading.HeadingErrorIgnoresTurns | src/pypilot/resolv.hpp:9-10 | the heading error does not change when either heading is normalized |
| Heading.HeadingErrorAntisymmetric | src/pypilot/resolv.hpp:9 | exchanging the headings negates the error exactly when it is not -180, and opposite headings give -180 both ways |
| Grid.ComputeAdvance | src/async_event_loop/event_loop.hpp:87 | the do-while loop moves a due time past now by whole periods |
| Grid.AdvanceToGrid | src/async_event_loop/event_loop.hpp:87 | from a grid point it lands on the first grid point after now |
| Grid.DueIffElapsed | src/async_event_loop/event_loop.hpp:81 | the due time has come exactly when the number of elapsed whole periods has grown |
| EventLoop.Scheduler.CancelHandle | src/async_event_loop/event_loop.hpp:63-73 | frees the first active slot with that handle and leaves the rest alone |
| EventLoop.Scheduler.Add | src/async_event_loop/event_loop.hpp:114-142 | fills the first free slot and uses up a handle, or does nothing and returns 0 |
| EventLoop.Scheduler.AddTimerEntry | src/async_event_loop/event_loop.hpp:114-128 | adds a timer due after the delay; returns 0 exactly when every slot is active |
| EventLoop.Scheduler.AddPollEntry | src/async_event_loop/event_loop.hpp:130-142 | adds a poll; returns 0 exactly when every slot is active |
| EventLoop.Scheduler.RunOnce | src/async_event_loop/event_loop.hpp:76-92 | one pass over the slots with one clock reading; each due slot is freed or re-armed before its callback runs |
| EventLoopRuns.EveryRunLawful | src/async_event_loop/event_loop.hpp:63-142 | every run of adds, cancels and passes, with callbacks that add and cancel at will, gives a log that the map of live handles allows, and the slot table stands for that map |
| TimerLedger.HandlesUnique | src/async_event_loop/event_loop.hpp:120 | no handle is issued twice |
| TimerLedger.CancelledNeverCalled | src/async_event_loop/event_loop.hpp:63-73 | a handle that was cancelled never runs again, even if its slot is used again |
| TimerLedger.DeadStaysDead | src/async_event_loop/event_loop.hpp:63-92 | an issued handle that is no longer live stays so and is not called |
| TimerLedger.TimerEntry | src/async_event_loop/event_loop.hpp:81-88 | as long as a timer is live, when it is due is a function of its first due time, its period and its last call |
| TimerLedger.OneShotOnce | src/async_event_loop/event_loop.hpp:81-85 | a one-shot is called at most once and never before it is due |
| TimerLedger.RepeatOnGrid | src/async_event_loop/event_loop.hpp:81-88 | in every log, a repeating timer is not called before it is first due, nor twice within a period of its own grid |
| TimerHistories.CalledIffRipe | src/async_event_loop/event_loop.hpp:76-92 | a pass calls an issued handle exactly when it is live, has a callback, is due, and no other callback cancels it before its turn |
| TimerHistories.RepeatCalledIff | src/async_event_loop/event_loop.hpp:81-88 | over every run: a pass calls a repeating timer exactly when it has not been cancelled, is past its first due time t0, and floor((t - t0) / period) has grown since its last call, or it has not been called; unless a callback cancels it in the same pass |
| TimerHistories.OneShotCalledIff | src/async_event_loop/event_loop.hpp:81-85 | over every run: a pass calls a one-shot exactly when it has been neither cancelled nor called and is due; unless a callback cancels it in the same pass |
| AddedTimers.AddTimerIssues | src/async_event_loop/event_loop.hpp:114-128 | adding at time t with delay d and period p records a timer first due at t + d, or a refusal exactly when every slot is active |
| AddedTimers.OneShotAdded | src/async_event_loop/event_loop.hpp:76-128 | over every run: a one-shot added at time t with delay d is called by a pass at time c exactly when c >= t + d and it has been neither called nor cancelled since; unless a callback cancels it in the same pass |
| AddedTimers.RepeatAdded | src/async_event_loop/event_loop.hpp:76-128 | over every run: a repeating timer added at time t with delay d and period p is called by a pass at time c exactly when it has not been cancelled, c >= t + d, and floor((c - t - d) / p) has grown since its last call, if there was one; unless a callback cancels it in the same pass |
| AddedTimers.AddPollIssues | src/async_event_loop/event_loop.hpp:130-142 | adding a poll records a poll, or a refusal exactly when every slot is active |
| AddedTimers.PollAddedCalled | src/async_event_loop/event_loop.hpp:76-142 | over every run: an added poll is called by every pass until it is cancelled |
| EventLoopPass.PassBounded | src/async_event_loop/event_loop.hpp:76-92 | a pass makes at most one call for each slot and calls no handle twice |
| EventLoopPass.PassCallsExactlyDue | src/async_event_loop/event_loop.hpp:76-92 | a handle active at the start of a pass is called in it exactly when it is due then and no callback cancels it before its turn, whatever other callbacks add |
| EventLoopOrder.PassInSlotOrder | src/async_event_loop/event_loop.hpp:76-92 | of two handles active at the start of a pass the one in the earlier slot is called first |
| LineReader.LineProtocolReader.Poll | src/async_event_loop/protocol_reader.hpp:51-60 | consumes every available byte in order |
| LineReader.LineProtocolReader.ConsumeByte | src/async_event_loop/protocol_reader.hpp:65-77 | ends a line, stores the byte, or counts an overflow, in the fixed buffer |
| LineReader.LineProtocolReader.EmitLine | src/async_event_loop/protocol_reader.hpp:79-86 | hands on the buffered text without one trailing CR and empties the buffer |
| LineReader.FeedConcat | src/async_event_loop/protocol_reader.hpp:51-86 | only the concatenation of the chunks matters |
| LineReader.PartialLine | src/async_event_loop/protocol_reader.hpp:65-77 | L bytes leave the last L mod (B + 1) with L div (B + 1) overflows, or the first B with max(0, L - B) overflows |
| LineReader.RestOfLine | src/async_event_loop/protocol_reader.hpp:65-86 | the same if part of the line is in the buffer already |
| LineReader.OverflowLaw | src/async_event_loop/protocol_reader.hpp:65-77 | the two overflow rules for an empty buffer, written out in bytes and counts |
| LineReader.DelimiterLaw | src/async_event_loop/protocol_reader.hpp:79-86 | a delimiter hands on one line: the buffer, without its last character exactly if that is a CR and stripping is on |
| LineReader.CrLine | src/async_event_loop/protocol_reader.hpp:65-86 | text followed by CR and delimiter is handed on as the text if stripping is on and with the CR if not, whatever the text ends in |
| LineReader.WholeLine | src/async_event_loop/protocol_reader.hpp:65-86 | a delimited line of any length hands on exactly one line, cut as above and without one trailing CR |
| LineReader.ReadBack | src/async_event_loop/protocol_reader.hpp:51-86 | joined lines that fit the buffer are read back as those lines, without overflow |
| LineReader.ReadBackCr | src/async_event_loop/protocol_reader.hpp:51-86 | lines joined with CR and delimiter are read back, also those that end in CR themselves |
| Text.TrimView | src/pypilot/server.cpp:7-12 | the two loops strip the blanks at both ends |
| Text.TrimSplit | src/pypilot/server.cpp:7-12 | trimming removes nothing but blanks and leaves none at either end |
| Replies.TrimsExactly | src/pypilot/server.cpp:7-12 | space, tab, CR and LF are blanks and nothing else is |
| Decimal.StrtofFixedText | src/pypilot/values.cpp:32-40 | reading fixed-point text returns the number rounded to its places |
| Decimal.FixedTextForm | src/pypilot/values.cpp:61-66 | fixed-point text is a sign if negative, digits without leading zeros, a point and the asked number of digits, which together are the nearest number of units, of two the even one |
| Decimal.ExponentScales | src/pypilot/values.cpp:32-40 | a number is scaled by the power of ten that its exponent says, in both directions |
| ClientText.AppendRaw | src/pypilot/client.cpp:31-40 | appends as much as fits and terminates, inside the buffer |
| ClientText.FitAppend | src/pypilot/client.cpp:31-40 | a chain of appends holds what one append of the whole text would |
| ClientText.TrimNumberInPlace | src/pypilot/client.cpp:42-53 | drops leading spaces, trailing zeros and a bare point in the buffer |
| NumberText.RealTextForm | src/pypilot/client.cpp:42-61 | whatever the number, what is sent is a sign, at least one digit, and a point only before a fraction that does not end in zero |
| NumberText.RealTextReads | src/pypilot/client.cpp:42-61 | every printed number can be read |
| NumberText.ArrivesExactIff | src/pypilot/client.cpp:42-61 | the number read is the number printed, rounded to six decimals, exactly when its canonical text fits 31 characters and, if there is no room for the point, its last digit is not a zero |
| NumberText.LargePowersArriveAsOne | src/pypilot/client.cpp:42-61 | from 10^30 on a power of ten loses its point, then its zeros, and arrives as 1 |
| ClientText.AppendReal | src/pypilot/client.cpp:55-61 | appends the printed number |
| ClientText.AppendJsonString | src/pypilot/client.cpp:63-74 | appends the quoted text with its escapes, as far as it fits |
| ClientText.MakeRecordRaw | src/pypilot/client.cpp:76-84 | succeeds exactly when the whole line leaves one byte beside the terminator, and then holds it intact |
| ClientText.MakeWatch | src/pypilot/client.cpp:86-95 | the same for watch lines |
| ClientText.MakeWatchPeriod | src/pypilot/client.cpp:97-103 | a period that is not positive is written as true, any other as a number |
| ClientText.EscapedPlain | src/pypilot/client.cpp:63-74 | escaping leaves exactly those texts unchanged that have no character that needs it |
| Fields.FindName | src/pypilot/values.cpp:85-89 | looking up a field's name finds that field |
| Fields.PutGet | src/pypilot/values.cpp:142-224 | storing succeeds exactly for the field's kind, reads back, and changes no other field |
| Fields.GetKind | src/pypilot/values.cpp:187-224 | what is read is of the field's kind |
| Values.ValueRegistry.SetReal | src/pypilot/values.cpp:142-161 | stores in the right place and marks the field dirty, or fails and changes nothing |
| Values.ValueRegistry.SetBool | src/pypilot/values.cpp:163-175 | the same for booleans |
| Values.ValueRegistry.SetString | src/pypilot/values.cpp:177-185 | the same for strings |
| Values.ValueRegistry.SetWire | src/pypilot/values.cpp:97-104 | refuses unknown names, read-only fields for outside writes and unreadable text; otherwise stores the value that the text stands for |
| Values.ValueRegistry.WriteValueLine | src/pypilot/values.cpp:226-248 | writes name, equals sign, value and line end; an unreadable value leaves the line open |
| Values.StringValueWriter.WriteJsonString | src/pypilot/values.cpp:75-83 | quotes the text with backslashes before quotes and backslashes |
| Values.ValueRegistry.AddWatch | src/pypilot/values.cpp:269-277 | writes the initial line and sets the field's own slot or the first free one |
| Values.ValueRegistry.RemoveWatch | src/pypilot/values.cpp:279-285 | drops every entry of the field |
| Values.ValueRegistry.EmitChangedWatches | src/pypilot/values.cpp:293-303 | writes the dirty fields that are watched for all changes, in field order, and clears every dirty bit |
| Values.ValueRegistry.EmitDueWatches | src/pypilot/values.cpp:305-313 | writes the due fields in slot order and moves their due times past now |
| WatchTable.RoomForAll | src/pypilot/values.cpp:269-277 | with 17 fields and 64 slots a watch always finds room |
| WatchTable.WatchRefines | src/pypilot/values.cpp:269-277 | a watch succeeds and sets one key of the map |
| WatchTable.UnwatchRefines | src/pypilot/values.cpp:279-285 | an unwatch removes one key of the map |
| WatchTable.PollRefines | src/pypilot/values.cpp:305-313 | a poll reschedules each plan of the map and keeps keys and periods |
| WatchTable.PollPrints | src/pypilot/values.cpp:305-313 | a poll writes exactly the lines of the due plans, each once |
| Server.PypilotServer.constructor | src/pypilot/server.cpp:26-34 | the server starts with no watches, marked running, and with two dirty fields |
| Replies.TableSizes | src/pypilot/pypilot.hpp:127-128 | the client remembers at most 32 watches and queues at most 16 lines; the server has 64 watch slots |
| Replies.NewServer | src/pypilot/server.cpp:26-34 | a new server runs, has two dirty fields, no watches, and nothing else changed |
| Server.PypilotServer.HandleRequest | src/pypilot/server.cpp:48-60 | dispatches on the name, with each error reply |
| Server.PypilotServer.HandleWatchRequest | src/pypilot/server.cpp:84-126 | the loop performs the scanned entries in order up to the first error |
| Server.PypilotServer.ScanEntry | src/pypilot/server.cpp:91-109 | one round of the scanner; each round shortens the expression |
| Server.PypilotServer.PerformEntry | src/pypilot/server.cpp:111-123 | metadata, unwatch or watch, with the error replies that end the request |
| Replies.BoolForms | src/pypilot/values.cpp:42-47 | true, True and 1 store true, false, False and 0 store false, and every other text is refused, for every writable boolean field |
| Replies.EnableStored | src/pypilot/values.cpp:97-104 | ap.enabled=1 switches the autopilot on, =0 switches it off, and nothing else changes but the dirty bit |
| Replies.HeadingStored | src/pypilot/values.cpp:97-104 | a commanded heading that a client sends is the one in the state |
| Replies.LongNumberCut | src/pypilot/values.cpp:32-40 | only the first 31 characters of a number are read |
| Replies.RefusedSets | src/pypilot/server.cpp:78-82 | a field that is not writable and a number that cannot be read are refused with the error line and no change |
| Replies.WritableNames | src/pypilot/values.cpp:12-30 | seven fields may be written |
| Replies.OtherNames | src/pypilot/server.cpp:48-60 | what the server answers to udp_port, values and names without a field |
| Replies.NoEquals | src/pypilot/server.cpp:48-54 | a line without an equals sign is passed over exactly when it is blank, and refused otherwise |
| Replies.OtherEntries | src/pypilot/server.cpp:111-123 | watch entries for names without a field: metadata, silence for false, and the two error lines |
| Replies.NoBraces | src/pypilot/server.cpp:84-89 | a watch request without braces is refused |
| Replies.ValueLines | src/pypilot/values.cpp:226-248 | a value line is name, equals sign, and true or false, four decimals, or quoted text |
| Replies.UnreadableIff | src/pypilot/values.cpp:226-248 | only the rudder angle can be unreadable, exactly while it is not valid |
| Replies.PortTruncates | src/pypilot/values.cpp:142-161 | the port takes the whole part of a number that fits 16 bits |
| Server.PypilotServer.Poll | src/pypilot/server.cpp:41-46 | all changed fields, then all due ones |
| WatchRequest.NextReads | src/pypilot/server.cpp:91-109 | the scanner takes the first printed entry, whatever its layout, and leaves the others |
| WatchRequest.PrintedIsPerformed | src/pypilot/server.cpp:84-126 | entries printed with any blanks and repeated commas are performed one by one, up to the first rejected one |
| WatchRequest.PrintedRequest | src/pypilot/server.cpp:84-126 | the same for a whole request in braces |
| WatchGrammar.ScansIffPrinted | src/pypilot/server.cpp:91-109 | the scanner takes a text without a syntax error exactly when it is such a print |
| Client.PypilotClient.Queue | src/pypilot/client.cpp:277-289 | fills the first free slot, or refuses |
| Client.PypilotClient.QueueOrWriteLine | src/pypilot/client.cpp:268-275 | writes if connected and accepted, and queues otherwise |
| Client.PypilotClient.Flush | src/pypilot/client.cpp:291-303 | offers every pending line in slot order and frees those accepted |
| Client.PypilotClient.Pop | src/pypilot/client.cpp:189-200 | takes the first pending line |
| Client.PypilotClient.RememberWatch | src/pypilot/client.cpp:312-328 | updates the entry of that name, or fills a free one with the name cut to 63 characters |
| Client.PypilotClient.Watch | src/pypilot/client.cpp:141-145 | remembers the watch and sends or queues its line |
| Client.PypilotClient.Unwatch | src/pypilot/client.cpp:147-154 | forgets the watch and sends or queues its line |
| Client.PypilotClient.Set | src/pypilot/client.cpp:156-160 | sends or queues the record if it fits |
| Client.PypilotClient.SetReal | src/pypilot/client.cpp:168-174 | sends the printed number |
| Client.PypilotClient.SetString | src/pypilot/client.cpp:176-182 | sends the quoted text, cut to 127 characters |
| Client.PypilotClient.OnConnect | src/pypilot/client.cpp:213-223 | flushes the queue, then replays every remembered watch |
| Client.PypilotClient.Replay | src/pypilot/client.cpp:305-310 | sends the remembered watches in slot order |
| Client.PypilotClient.OnClose | src/pypilot/client.cpp:231-242 | the connection is down; watches and queue stay |
| LongNames.WatchRemembers | src/pypilot/client.cpp:312-343 | a watch of a new name puts the first 63 characters of it into the table and forgets nothing |
| LongNames.UnwatchForgets | src/pypilot/client.cpp:147-154 | an unwatch forgets its name and no other |
| LongNames.UnwatchUndoesIff | src/pypilot/client.cpp:147-154 | an unwatch undoes the watch of a new name exactly when the name has at most 63 characters; otherwise the front of it stays |
| LongNames.WatchedTwice | src/pypilot/client.cpp:312-328 | each watch of a longer name takes another slot |
| PendingQueue.RefusedIff | src/pypilot/client.cpp:277-289 | a line is refused exactly when it has 192 or more characters or every slot is taken |
| PendingQueue.LostIff | src/pypilot/client.cpp:268-289 | a request is written if the connection takes it, and lost exactly when it is not taken and has no room in the queue |
| PendingQueue.PopTakesFirst | src/pypilot/client.cpp:189-200 | a pop takes the first pending line off the queue, and nothing exactly when none is pending |
| PendingQueue.FlushOffersAll | src/pypilot/client.cpp:291-303 | whichever writes fail, a flush offers every pending line once in slot order: those taken are sent in order, the others stay pending in order |
| PendingQueue.RunBalanced | src/pypilot/client.cpp:189-303 | over every run, accepted lines are as a multiset those written, popped and still pending, whichever writes fail |
| PendingQueue.QueueInOrder | src/pypilot/client.cpp:277-289 | as long as the used slots come first, a line is queued behind all others |
| PendingQueue.FlushInOrder | src/pypilot/client.cpp:291-303 | a flush that is not refused sends the pending lines in slot order and empties the queue |
| PendingQueue.RunInOrder | src/pypilot/client.cpp:268-303 | over every run of offers, connections and closings without refused writes and pops, the lines written, followed by those pending, are the accepted lines in order |
| Requests.WatchLineHandled | src/pypilot/client.cpp:86-95 | the server performs a watch line as one entry |
| Requests.WatchLineSets | src/pypilot/client.cpp:97-103 | for every period, a watch line sets the watch with the period that arrives |
| Requests.AskedExactIff | src/pypilot/client.cpp:97-103 | that is the client's period rounded to a microsecond, 0 if it is not positive, exactly when the number is printed intact |
| Requests.UnwatchLineDrops | src/pypilot/client.cpp:147-154 | an unwatch line drops the watch |
| Requests.SetBoolArrives | src/pypilot/client.cpp:162-166 | a boolean arrives as it was set |
| Requests.SetRealArrives | src/pypilot/client.cpp:168-174 | every number arrives as what its text reads, without an error reply |
| Requests.SetStringArrives | src/pypilot/client.cpp:176-182 | what a string field gets from a set command |
| StringText.CutArrives | src/pypilot/client.cpp:63-74 | what arrives of a string whose quoted form is cut |
| StringText.StringExactIff | src/pypilot/client.cpp:176-182 | every string arrives unchanged exactly when none of its characters is escaped and its quoted form has at most 127 characters |
| StringText.UnescapedClient | src/pypilot/client.cpp:63-74 | reading what the client quotes as JSON gives the string back, so that nothing is lost by escaping as such |
| StringText.UnescapedServer | src/pypilot/values.cpp:75-83 | the same for what the server quotes |
| Agreement.HandleLineSound | src/pypilot/server.cpp:48-126 | no line, well-formed or not, gives a field two entries |
| Agreement.ReplayRestores | src/pypilot/client.cpp:305-310 | after a successful replay every client watch is in force, even if requests were lost or reordered |
| Agreement.ConnectMerges | src/pypilot/client.cpp:213-223 | after a successful connection the queue is empty and the server has what the flushed lines leave, overridden by every watch of the client |
| AgreementRuns.RunFollows | src/pypilot/client.cpp:136-333 | over every run of watches, unwatches, assignments, connections and losses, refused requests included, the lines sent and pending, handled in order, give the server exactly the watches whose last accepted word was a watch or a replay, with its period |
| AgreementRuns.StandingKeys | src/pypilot/client.cpp:136-333 | the fields standing after a run are those whose last accepted watch, unwatch or replay was a watch or a replay |
| AgreementRuns.StaleIff | src/pypilot/client.cpp:147-154 | over every run, the server watches a field that the client does not want exactly when an unwatch of it was refused while the server watched it, with no later watch or accepted unwatch |
| AgreementRuns.ConnectedTablesEqual | src/pypilot/client.cpp:213-223 | whenever the connection is up, the two tables are equal exactly when there is no such field |
| AgreementRuns.ConnectEqualIff | src/pypilot/client.cpp:213-223 | connecting after any run makes the two tables equal exactly when there is no such field |
| AgreementRuns.RunAgrees | src/pypilot/client.cpp:136-333 | as long as no watch or unwatch is refused, the lines sent and pending give the server exactly the client's watches, connected or not |
| AgreementRuns.RefusedUnwatchStays | src/pypilot/client.cpp:147-154 | from any state, an unwatch followed by a connection leaves the server watching exactly when it was refused and the server was going to watch before |
| AgreementRuns.TablesCanDiffer | src/pypilot/client.cpp:147-154 | a concrete run of seventeen requests that ends so |
| Receiver.ClientReceiver.HandleLine | src/pypilot/client.cpp:202-211 | sets the named field from the line, and ignores malformed lines, unknown names and metadata |
| Receiver.EscapedQuotesIff | src/pypilot/values.cpp:75-83 | the server's escapes leave exactly those texts unchanged that have no quote and no backslash |
| Receiver.ParsedBack | src/pypilot/values.cpp:97-104 | a value's own text is read back as its mirror image |
| Mirror.ReadNotes | src/async_event_loop/protocol_reader.hpp:51-86 | behind any number of open lines, the reader turns what the server wrote into one line for each note that can be read, glued to what is open in front of it |
| Mirror.DeliverValue | src/pypilot/client.cpp:202-211 | a delivered value line sets that field's copy to the mirror image and changes no other copy |
| Mirror.MetadataTailHarmless | src/pypilot/values.cpp:257-267 | the metadata line overflows the client's buffer, and what is handed on has no equals sign |
| Mirror.DeliverNotes | src/pypilot/client.cpp:202-211 | delivering a step's lines sets the copies of the fields whose values get through and no others |
| Mirror.LandedIff | src/pypilot/values.cpp:244-248 | a value gets through exactly when some note of it can be read and does not directly follow an open line |
| Replication.HandleLineExplained | src/pypilot/server.cpp:48-126 | whatever a request line writes are the value, error and metadata lines of its notes, which name no field that it does not ask for, and among which is every field that it makes watched for all changes |
| ReplicationRuns.PollExplained | src/pypilot/server.cpp:41-46 | a poll writes every dirty field that is watched for all changes, and leaves none dirty |
| ReplicationRuns.ChunksDoNotMatter | src/async_event_loop/protocol_reader.hpp:51-86 | the copy depends on the bytes received and not on how they were cut |
| ReplicationRuns.StepCopiesIff | src/pypilot/values.cpp:244-248 | one step, fields that cannot be read included: a copy is brought up to date exactly when a note of the field can be read and does not directly follow an open line, of this step or left over from the one before; no other copy changes |
| ReplicationRuns.RunCopies | src/pypilot/values.cpp:244-248 | over every run, each copy is the last value that got through |
| ReplicationRuns.RunKeepsSync | src/pypilot/values.cpp:287-303 | over every run, each field watched for all changes is dirty, or its last value did not get through, or its copy is right |
| ReplicationRuns.CopiesAgreeUnlessMissing | src/pypilot/server.cpp:41-46 | after every run that ends with a poll, delivered in any chunks, the copy of every field watched for all changes whose last value got through is the mirror image of the server's value |
| ReplicationRuns.CopiesAgree | src/pypilot/server.cpp:41-46 | if no line that cannot be read is written in the run, that is every field watched for all changes |
| ReplicationRuns.MirrorExactIff | src/pypilot/values.cpp:61-83 | the mirror image is the value itself exactly for booleans, strings without quote and backslash, and numbers with at most four decimals |
| ReplicationRuns.RoundedClose | src/pypilot/values.cpp:61-66 | a copied number is off by at most half a unit of the fourth decimal |
| OpenLines.UnreadableSwallowsNext | src/pypilot/values.cpp:244-248 | a request for the rudder angle, while it cannot be read, and another field changes no copy, although the server counts the other field as sent |
| OpenLines.ModeSwallowed | src/pypilot/values.cpp:244-248 | a new server and the request `watch={"rudder.angle":true,"ap.mode":true}` are such a case |
| OpenLines.OverflowSetsAnother | src/async_event_loop/protocol_reader.hpp:65-77 | behind an open line, a mode of 181 characters outgrows the reader, and its end sets the copy of the pilot, which nobody wrote |
| Subscription.WatchLineAsks | src/pypilot/server.cpp:84-126 | a watch line of the client names its own field and no other |
| Subscription.SubscriberFollows | src/pypilot/client.cpp:141-145 | from the client's own watch line over any changes to a poll: its copy of the field becomes the mirror image of the last value, with the bytes in any chunks |
| RegistryRuns.RunRefines | src/pypilot/values.cpp:269-313 | over every run of request lines, changes and polls the watch table stands for the map that the same requests give |
| RegistryRuns.WatchDue | src/pypilot/values.cpp:55-58 | a watch of s > 0 seconds set at time t is due at a d with t + 1000000 s - 1 < d <= t + 1000000 s, and one with another period at once |
| RegistryRuns.PollWrites | src/pypilot/values.cpp:293-313 | a poll writes first the changed fields whose period is zero and then the due ones whose period is positive; a field with a negative period is never written |
| RegistryRuns.PeriodicLines | src/pypilot/values.cpp:305-313 | a watch of s seconds set at t0 is written by a poll exactly when floor((t - t0) / P) has grown since the last poll, where P <= 1000000 s < P + 1, over every run, and its due time stays on the grid |
| RegistryRuns.TinyPeriodLines | src/pypilot/values.cpp:55-58 | a period of more than zero and less than one microsecond is written by every poll |
| RegistryRuns.RequestWrites | src/pypilot/server.cpp:48-126 | a request line changes nothing in the state or stores one value in a writable field |
| RegistryRuns.ReadOnlyStays | src/pypilot/server.cpp:48-126 | no run of request lines and polls changes a field that is not writable |
| Nmea.ComputeChecksum | src/pypilot/syslib/nmea0183.hpp:16 | the loop computes the exclusive or of the body |
| Nmea.SplitFields | src/pypilot/syslib/nmea0183.hpp:28-39 | the loop cuts the body at its commas |
| Nmea.JoinSplit | src/pypilot/syslib/nmea0183.hpp:28-39 | joining the fields of any body with commas returns the body |
| Nmea.SplitJoin | src/pypilot/syslib/nmea0183.hpp:28-39 | fields without commas come back one by one |
| Nmea.HexByteReads | src/pypilot/syslib/nmea0183.hpp:17 | two printed digits, each in either case, read back as the byte |
| Nmea.Parse | src/pypilot/syslib/nmea0183.hpp:41-60 | line ends off, body up to the first star, checksum flag, talker, type and fields, with each failure |
| Nmea.ParsePrinted | src/pypilot/syslib/nmea0183.hpp:41-60 | a printed sentence with digits in either case parses to its parts, with a good checksum, whatever follows it |
| Nmea.ParsedIsPrinted | src/pypilot/syslib/nmea0183.hpp:41-60 | every line that parses with a good checksum is the print of what it parses to, followed by text that the parser ignores |
| Nmea.ParsesIffPrinted | src/pypilot/syslib/nmea0183.hpp:41-60 | a line parses to a sentence with a good checksum exactly when it is a print of that sentence, made of parts without commas and stars, followed by anything |
| Nmea.OneByteReplacedIff | src/pypilot/syslib/nmea0183.hpp:46-52 | one body byte replaced by another leaves the checksum good exactly when the new byte is a star followed by the checksum of what precedes it |
| Nmea.StarUnnoticed | src/pypilot/syslib/nmea0183.hpp:46-52 | such lines exist after every text |
| NmeaLines.ParsesAny | src/pypilot/syslib/nmea0183.hpp:41-60 | every line with a dollar sign parses exactly when at least three bytes precede the first comma of what lies before the first star or the end; type and talker split them, the fields join to the rest, and the flag is set exactly when two digits of the checksum follow the star |
| NmeaLines.NoDollar | src/pypilot/syslib/nmea0183.hpp:43-44 | every other line is refused with an empty sentence |
| NmeaLines.ChecksumIsParity | src/pypilot/syslib/nmea0183.hpp:16 | each bit of the checksum is the parity of that bit over the body |
| NmeaLines.DecimalDigits | src/pypilot/syslib/nmea0183.hpp:17 | the values of the digits 0 to 9 |
| NmeaLines.LetterDigits | src/pypilot/syslib/nmea0183.hpp:17 | the values of the digits A to F in either case |
| NmeaLines.HeadingSentence | src/pypilot/syslib/nmea0183.hpp:41-60 | $GPHDT,274.07,T*03 parses to talker GP, type HDT and two fields, with a good checksum |

## Left out

- ReplicationRuns.CopiesAgreeUnlessMissing: a value that is written has no line feed in its text and prints, if it is a number, in at most 31 characters, and a line fits 192 characters together with what is open in front of it (`OpenLines.OverflowSetsAnother` shows why); it speaks of writes through the registry only, since the autopilot and the rudder change the state without marking fields dirty.
- AgreementRuns.RunFollows: assumes a server table without watches at the start, writes that succeed while connected, no popped line, watches of field names, and no assignment to a name that the server takes for a watch request; `Agreement.ConnectMerges` and `Agreement.ReplayRestores` hold for any queue and server.
- Values.ValueRegistry.WriteValueLine: a number of more than 31 characters is written in full; the source would read past its buffer there, and the replication results do not cover such values.
- Values.ValueRegistry.SetReal: the conversion of an out-of-range number to the 16-bit port is undefined in the source and wraps here.
- Decimal.StrtofFixedText: hexadecimal numbers, infinities and NaN are not part of the parsing function, and reals stand for floats, so that float rounding is not modelled.
- Autopilot.AutopilotLoop.Iteration: the IMU read always succeeds, and whether a tack is in progress is an input; rudder, NMEA and tacking polls, sleeping and the unwritten offset and mode steps are not in it.
- Autopilot.VoyageSends: assumes that nothing else commands the servo between iterations.
- Heading.Resolv: termination and results are for reals; a float so large that adding 360 changes nothing would loop.
- EventLoop.Scheduler.RunOnce: no pass is started from inside a callback, and handles do not wrap around; an empty callback is a flag of the slot.
- Server.PypilotServer.HandleRequest: one clock reading serves a whole request line, the boolean result (always true with a writer that cannot fail) is not modelled, and neither are the event loop pass in `poll` and failing writers.
- Client.PypilotClient.OnConnect: the connection is one object with an up flag and a list of coming write results; the reader registration in the event loop, partial writes and the error code are not modelled.
- ServoProtocol.Parser.Feed: the mask of channels is a set; the two temperatures, which no packet sets, and the rudder's time stamp and device name are left out.
- Server.PypilotServer.constructor: the registry is created together with the server and attached to one state.
- Minimum and maximum of a field are metadata only: neither the source nor the model enforces them.
- Applying NMEA sentences to the data model: a fixed table.
- TCP interfaces, sleeping, the endless loop and the demonstration program: input and output.
- The older timer loop under syslib, other pilots and the stubs of IMU, tacking and sensors: duplicates or unwritten.
- Driver parameters packet and reset and stop commands of the servo: stubs or one-packet variants of the modelled commands.
