# e-Callisto NG: a verified model of the data path and its supervision

This project models the core of the e-Callisto NG station software in Dafny and proves what the station relies on: the
way of a sweep from the receiver's bytes to the files, the bounded self-healing around it, the frequency plans that
feed it, and the loops that supervise it over restarts and reboots. `dafny verify dfyconfig.toml` checks everything.

## What is modelled

The link to the Callisto receiver:

- `StreamParsing` is the byte-at-a-time parser object and the fold it follows; `BatchDecoding` is an independent decoder
  that works in passes over the whole byte string, and the theorem that the parser computes it; `InterferedEncoding` is
  the sending side with messages and noise mixed in, and the round trip.
- `CallistoProtocol` holds the command bytes, the firmware profiles and the synthesizer words; `TunerCommands` reads a
  channel command back, and `SetupCommands` all the bytes of a setup, a start and a reset. `SimulatedReceiver` is the simulated device as an object: command handling, sweep encoding,
  and every fault it can inject.
- `StreamLoop` is the loop of `stream` and `_recover` against an arbitrary receiver and any nondecreasing clock, with the
  reset budget over whole runs; `BoundedLiveness` bounds the time to giving up, and says when that bound exists.
- `CallistoSession` and `Handshake` are the conversations of the driver (reset, identification, channel programming,
  start) with what they do to the receiver. `ClosedLoop` puts driver, parser and receiver together: every frame of every
  run is one emitted sweep; `BarrenLines` is why that stays so when a reset fails and leaves bytes behind.
- `SelfHealing` goes from a fault through the recovery to the next frame delivered. `ErrorsInARow` says for any number of
  read errors in a row whether the stream heals, ends by itself or gives up.
- `CallistoDriving` is the driver object, method by method, proved to follow those specifications, and a whole session.

From frames to files, and the other drivers:

- `Acquisition` is the record loop with its flush on every ending, and the range watchdog. `RecordingSession` joins it to
  the driver: a whole recording, from the handshake to the last file.
- `RecordingFiles` is the standard FITS writer: file names that do not collide, and the layout of the image.
- `FpgaFraming` is the length-framed FPGA driver with its simulated device; `LiveHub` is the bounded live fan-out.

Frequency plans and legacy files:

- `FrequencyPlan` places channels around an excluded band; `ProgramFile` prints and reads the legacy frequency program;
  `ScheduleFile` prints and reads the legacy schedule. `Decimal` and `TextLines` hold the number and line formats.

Supervision:

- `AutoRecovery` is the per-instrument budget of power cycles and its alert. `Supervision` and `SupervisionRuns` are the
  job registry, the persisted intent, the scheduler's tick and start-up, and runs over all of them. `Uploading` and
  `UploadHistory` are uploads, retention and archive. `SourceWindow` extracts the daily window of a tracked source.

Objects of the source are classes here, with the same fields; each of their methods is tied to a function of the old
state, and the theorems are about runs of those functions.

## What is given from outside

- Clock readings, the values on the antenna, the faults and their moments, the outcomes of handshakes, uploads and
  overviews, elevation samples and calibration formulas are parameters; the theorems hold for all of them.
- Bytes on the wire are characters. Numbers are exact: `float` is modelled by `real`.
- The clock of one process runs forward. The deadline of a handshake read is a number of looks at the clock.

## Where the code does less than its comments say

- `driver.py:257` says that after a failed reset the next read re-enters recovery. When the drain of the reset fails, the
  receiver's answer to RESET is still unread, and a calm read that follows takes it for the operator's stop: the stream
  ends without an error. `ErrorsInARow.ReadErrorsInARow` says for every number of errors when that happens, and
  `ClosedLoop.RecoveryWorksExactlyWithoutDrainError` that nothing else keeps a recovery from working. The frames are
  faithful all the same (`ClosedLoop.EveryFrameIsAnEmittedSweep`).
- `driver.py:207` parses a chunk to its end before it uses any of it, so good sweeps that share a chunk with a corrupt one
  are lost; exactly when is `StreamLoop.CutMattersExactlyBeforeCorruption`.
- The bounded-liveness comment of `stream` (`driver.py:185-188`) needs more than 0.25 sweeps per second: at or below that
  rate a silent receiver is never given up, above it some silent run is
  (`BoundedLiveness.EscalationNeedsMoreThanAQuarterHertz`).
- The frequency program is printed with a fractional sweep rate that the import cannot read
  (`legacy_export.py:53`, `legacy_import.py:81`): `ProgramFile.ImportOfExport` says exactly when it can.
- The schedule is sorted by the times as written, so `12:00` overtakes an earlier `12:00:00`
  (`ScheduleFile.ShortTimesComeFirst`, and exactly when in `ScheduleFile.StableExactlyWithoutOvertaking`).
- `uploader_service.py:5-8` promises that un-uploaded files are never pruned. Done jobs remember names, not recordings, so
  the promise holds for a recording exactly when no target's done job remembers its name
  (`UploadHistory.SafeExactlyUnderAForgottenName`).
- A scheduled overview that fails ends the scheduler's tick, and the instruments behind it wait for the next one
  (`SupervisionRuns.TickIsCompleteExactlyWithoutFailingOverview`).
- `scheduler.py:99-101` calls the window the time a source is above the horizon. When the first rise comes before the
  last set, the window runs from the one to the other, so that what is up before that rise, or up again after that set,
  is lost (`SourceWindow.CoversExactlyOneSpan`).
- Snapping moves channels into the exclusion exactly when its edges are not safe
  (`FrequencyPlan.OutsideExactlyWhenSafe`), pinned channels pay no heed to it
  (`FrequencyPlan.PinnedChannelsFollowTheStart`), and all picks leave the band when the exclusion covers it.

## Model

| member | source | states |
|---|---|---|
| ClosedLoop.EveryFrameIsAnEmittedSweep | src/ecallisto_ng/drivers/callisto/driver.py:182-293 | Over every script of stalls, a dying receiver, junk, corrupt samples, stop requests and read errors in any number, resets that fail included: each frame yielded is one whole, sound sweep the receiver emitted, in emission order, none twice; channel by channel its byte `b` is the sample `v` itself at 8 bits and `4b <= v < 4b + 4` at 10 bits, and `v` is the antenna level cut at the bit depth; and when read errors come one at a time the stream ends only on a stop request or by giving up |
| CallistoDriving.Session | src/ecallisto_ng/drivers/callisto/driver.py:115-224 | End to end, for every script: with a receiver that answers, handshake and stream through the driver object yield the frames of the specified play, faithful in the sense above, with the sample format and channel count the receiver really uses |
| ClosedLoop.PlayKeepsFaith | src/ecallisto_ng/drivers/callisto/driver.py:196-258 | The run invariant behind it, for every script: line, parser and the sweeps still to come agree, or the receiver has been stopped by a failed reset and no sweep can be found in what it left on the line |
| ClosedLoop.PlayKeepsStep | src/ecallisto_ng/drivers/callisto/driver.py:196-224 | When read errors come one at a time, after every iteration the line, the parser and the list of sweeps still to come agree |
| ClosedLoop.IterationKeepsFaith | src/ecallisto_ng/drivers/callisto/driver.py:196-258 | One iteration, whatever read, fault, stall and recovery it meets, keeps that invariant and the faithfulness of all frames so far |
| ClosedLoop.IterationFromInStep | src/ecallisto_ng/drivers/callisto/driver.py:196-224 | One iteration of a stream in step ends the stream only on a stop request or by giving up, and leaves it in step unless two read errors meet in it |
| ClosedLoop.StrandedRead | src/ecallisto_ng/drivers/callisto/driver.py:196-258 | A read of what a failed reset left behind delivers no frame, and the stream is in step again after a recovery that meets no read error |
| BarrenLines.BarrenWithAnswer | src/ecallisto_ng/drivers/callisto/parser.py:56-115 | A line in which a parser that starts afresh anywhere finds no sweep stays such a line when the answer to RESET is appended |
| BarrenLines.FewDigitsYieldNoSweep | src/ecallisto_ng/drivers/callisto/parser.py:96-115 | Outside messages, fewer digits than the sweep under way still needs yield no sweep; nor do the digits of one sweep when no transmission is open, since the digit that starts one is lost |
| ClosedLoop.ResetRealigns | src/ecallisto_ng/drivers/callisto/driver.py:275-293 | A soft reset whose drain meets no read error puts a fresh parser and the line back in step |
| ClosedLoop.RecoveryWorksExactlyWithoutDrainError | src/ecallisto_ng/drivers/callisto/driver.py:275-293 | A live receiver streams in step after a soft reset if and only if no read error falls into the drain |
| ClosedLoop.PlayIsAStream | src/ecallisto_ng/drivers/callisto/driver.py:182-224 | The closed loop is an instance of the loop against an arbitrary receiver, so budget and liveness results hold for it |
| ClosedLoop.ReadOnTheLine | src/ecallisto_ng/drivers/callisto/parser.py:56-115 | Reading any part of the line, even a cut sample, delivers the images of the first pending sweeps and leaves the rest pending |
| ClosedLoop.SweepOnTheLine | src/ecallisto_ng/drivers/callisto/simulator.py:131-143 | A sweep that the receiver writes on an aligned line becomes exactly one more pending sweep |
| ClosedLoop.FaultShows | src/ecallisto_ng/drivers/callisto/simulator.py:47-89 | Each injected fault shows at the next read of a streaming receiver: it falls silent, stays silent whatever is written to it, fails that many reads, sends 3FFF as its first sample, or sends junk |
| SelfHealing.NextSweepComesThrough | src/ecallisto_ng/drivers/callisto/driver.py:230-293 | After a reset of a healthy receiver, one read takes the announcement and the reads that one sweep needs deliver exactly that sweep |
| SelfHealing.LineIsReadOut | src/ecallisto_ng/drivers/callisto/driver.py:196-224 | A calm line is read out completely and every sweep on it is delivered |
| SelfHealing.FaultToNextFrame | src/ecallisto_ng/drivers/callisto/driver.py:196-293 | From any fault to the next frame: when an iteration of a stream in step resets the port without a read error in the drain, and the receiver is alive and takes the configured length, the calm reads that one sweep needs deliver exactly the next sweep, its bytes the top eight bits of the antenna levels of that moment, in numbers |
| SelfHealing.RecoveryHeals | src/ecallisto_ng/drivers/callisto/driver.py:230-293 | Such a reset, soft or by reopening the port, leaves a fresh parser, nothing held back, and a receiver streaming in step unless it is dead |
| ErrorsInARow.ReadErrorsInARow | src/ecallisto_ng/drivers/callisto/driver.py:230-293 | Any number of read errors in a row, then calm reads, in every case: the stream heals, ends as if stopped, or gives up, decided by the parity of the errors, the recoveries left in the window, and whether a fresh parser finds a corrupt sample in what was on the line; no frame comes out meanwhile |
| ErrorsInARow.FailedRound | src/ecallisto_ng/drivers/callisto/driver.py:230-258 | One failed read: the stream gives up past the budget, heals when it was the last error, and otherwise has used up two errors and one recovery and left the receiver stopped with its answer unread |
| ErrorsInARow.AnswerIsRead | src/ecallisto_ng/drivers/callisto/driver.py:206-217 | A calm read of that answer ends the stream silently, unless the bytes in front of it are a fault for a fresh parser |
| ErrorsInARow.DrainErrorEndsTheStream | src/ecallisto_ng/drivers/callisto/driver.py:256-258 | The instance the comment speaks of: two read errors in a row on an idle line, with a recovery left, end the stream without an error |
| StreamLoop.ResetBudget | src/ecallisto_ng/drivers/callisto/driver.py:230-258 | Over every stream, for any receiver and any nondecreasing clock: no four recoveries lie in one closed 60 s interval, a recovery is a soft reset exactly when no other lies in the window before it and a port reopen otherwise, and giving up happens only on the fourth demand inside a window |
| StreamLoop.RunKeepsBudget | src/ecallisto_ng/drivers/callisto/driver.py:196-258 | The deque is at every moment a tail of all recoveries, sorted, at most three long, and what was dropped had left the window |
| StreamLoop.TimeoutIsFiveSweeps | src/ecallisto_ng/drivers/callisto/driver.py:226-228 | The stall timeout `t` in numbers: 3 s from 5/3 sweeps per second on, `t * rate == 5` below, and 50 s at 0.1 and less |
| StreamLoop.FedExactlyWithoutRecovery | src/ecallisto_ng/drivers/callisto/driver.py:196-228 | From any running state, for any receiver: no recovery happens if and only if, until the stream is stopped, every read is sound and no check comes later than the timeout after the latest frame |
| StreamLoop.CutMattersExactlyBeforeCorruption | src/ecallisto_ng/drivers/callisto/driver.py:206-212 | The driver, unlike the parser, depends on how the bytes are cut: the frames of two chunks differ from those of the joined chunk if and only if a corrupt sample comes in the second and the first completed a sweep |
| BoundedLiveness.EscalatesInTime | src/ecallisto_ng/drivers/callisto/driver.py:196-258 | From any point of a stream: if three times (stall timeout plus latency plus repair time) fit in the window, a stretch without frames leads to at most three recoveries and to giving up within that bound, unless someone stops the stream |
| BoundedLiveness.MuteReceiverIsFatal | src/ecallisto_ng/drivers/callisto/driver.py:196-258 | The same from the start, with explicit times: a receiver that never produces a frame, by silence, junk, corruption and read errors in any mix, is given up within a computable time, after at most three recoveries |
| BoundedLiveness.SilenceNeverFatal | src/ecallisto_ng/drivers/callisto/driver.py:226-258 | With a stall timeout of 20 s or more silence alone never leads to giving up |
| BoundedLiveness.SilenceIsFatalExactlyBelowTwentySeconds | src/ecallisto_ng/drivers/callisto/driver.py:226-258 | Some run of a silent receiver is given up if and only if the stall timeout is below 20 s |
| BoundedLiveness.EscalationNeedsMoreThanAQuarterHertz | src/ecallisto_ng/drivers/callisto/driver.py:226-258 | In terms of the recording: a silent receiver can be given up if and only if more than 0.25 sweeps per second were asked for |
| BatchDecoding.ParserIsTheBatchDecoder | src/ecallisto_ng/drivers/callisto/parser.py:56-115 | For every byte string the incremental parser yields the sweeps of a three-pass batch decoder (messages out, transmissions cut, groups of four), faults exactly where that does, and without a fault yields the same messages |
| BatchDecoding.FaultExactlyOnACorruptGroup | src/ecallisto_ng/drivers/callisto/parser.py:96-111 | A fault is raised if and only if some transmission holds a group other than 0x2323 of at least 1024 for 10-bit samples, of at least 256 for 8-bit ones |
| StreamParsing.DecodeConcat | src/ecallisto_ng/drivers/callisto/parser.py:56-58 | Cutting the bytes anywhere changes neither the items, nor the fault, nor the state left behind |
| StreamParsing.AnySplitDecodesAlike | src/ecallisto_ng/drivers/callisto/parser.py:56-58 | Any split into any number of chunks decodes as the whole string does |
| StreamParsing.SweepsAreWhole | src/ecallisto_ng/drivers/callisto/parser.py:96-115 | Every sweep that can ever be yielded has one value per channel, each in 0..255 |
| StreamParsing.SampleIsKept | src/ecallisto_ng/drivers/callisto/protocol.py:224-226 | What the fourth digit of a sample within the mask appends to the sweep: the sample itself at 8 bits, its quotient by four at 10 bits |
| StreamParsing.CorruptHasHighBits | src/ecallisto_ng/drivers/callisto/parser.py:104-111 | A sample is corrupt if and only if it is not 0x2323 and at least 256 for an 8-bit format, 1024 for a 10-bit one |
| StreamParsing.StreamParser.constructor | src/ecallisto_ng/drivers/callisto/parser.py:45-54 | A new parser stands outside any message and transmission with nothing collected |
| StreamParsing.StreamParser.Feed | src/ecallisto_ng/drivers/callisto/parser.py:56-58 | The object's items, fault and next state are those of the decoding fold over the bytes, from any valid state |
| StreamParsing.StreamParser.Consume | src/ecallisto_ng/drivers/callisto/parser.py:60-94 | One byte: the object follows the byte step of the fold |
| StreamParsing.StreamParser.ConsumeHex | src/ecallisto_ng/drivers/callisto/parser.py:96-115 | One hex digit: the object follows the digit step of the fold |
| InterferedEncoding.RoundTrip | src/ecallisto_ng/drivers/callisto/parser.py:60-115 | Samples written as four hex digits, with markers between them, complete messages inserted anywhere (even inside a sample) and noise that is neither hex nor framing: no fault, exactly the sweeps sent, transmission by transmission, and exactly those messages |
| InterferedEncoding.WholeSweepsComeBack | src/ecallisto_ng/drivers/callisto/parser.py:56-115 | When the samples sent make up whole sweeps, the parser yields exactly these sweeps, in order, over all transmissions, whatever messages, noise and end markers come between their digits: sample by sample `v == raw` for an 8-bit format and `4v <= raw < 4v + 4` for a 10-bit one |
| InterferedEncoding.MarkerIsNoSample | src/ecallisto_ng/drivers/callisto/parser.py:102-108 | No sample within the bit depth equals the end marker 0x2323 |
| InterferedEncoding.GroupsOfEncode | src/ecallisto_ng/drivers/callisto/parser.py:96-105 | Four upper-case hex digits per group are read back as the same groups |
| Acquisition.WatchdogIsSilentOnCallisto | src/ecallisto_ng/services/watchdog.py:44-49 | The record loop's range watchdog never fires on a sweep of this parser, whatever bytes it was fed |
| Acquisition.GoodUntilOutOfRange | src/ecallisto_ng/services/watchdog.py:44-49 | The good prefix that the record loop keeps ends at the first frame with a value below 0 or above the watchdog's limit, and is everything without a watchdog |
| SimulatedReceiver.SimulatedCallisto.Write | src/ecallisto_ng/drivers/callisto/simulator.py:70-76 | Bytes are buffered up to a carriage return and each complete command is obeyed once, however the writes are cut |
| SimulatedReceiver.SimulatedCallisto.Handle | src/ecallisto_ng/drivers/callisto/simulator.py:96-120 | A command changes the receiver and its output as its specification says; unknown commands change nothing |
| SimulatedReceiver.SimulatedCallisto.SetChannels | src/ecallisto_ng/drivers/callisto/simulator.py:122-129 | The sweep length is set unless the text is no integer or is the overview length |
| SimulatedReceiver.SimulatedCallisto.EmitSweep | src/ecallisto_ng/drivers/callisto/simulator.py:131-143 | One sweep of four-digit samples within the bit depth is appended, the first sample corrupted if that was injected, once |
| SimulatedReceiver.SampleIsTheLevel | src/ecallisto_ng/drivers/callisto/simulator.py:131-143 | The sample sent for an antenna level is the level itself, cut off at 255 or 1023 by the version's bit depth |
| SimulatedReceiver.SimulatedCallisto.Read | src/ecallisto_ng/drivers/callisto/simulator.py:78-89 | An injected read error is spent first; else output is made only when none waits, and at most the asked number of bytes leaves |
| SimulatedReceiver.SimulatedCallisto.Stall | src/ecallisto_ng/drivers/callisto/simulator.py:47-50 | A stalled receiver stops streaming; nothing that waits is lost |
| SimulatedReceiver.SimulatedCallisto.MakeDead | src/ecallisto_ng/drivers/callisto/simulator.py:52-55 | A dead receiver stops streaming and will not start again |
| SimulatedReceiver.SimulatedCallisto.InjectReadError | src/ecallisto_ng/drivers/callisto/simulator.py:57-58 | Exactly that many of the next reads will fail |
| SimulatedReceiver.SimulatedCallisto.InjectCorruption | src/ecallisto_ng/drivers/callisto/simulator.py:60-61 | The next sweep's first sample will be out of range |
| SimulatedReceiver.SimulatedCallisto.EmitNoise | src/ecallisto_ng/drivers/callisto/simulator.py:63-66 | The receiver sends junk until its next start |
| SimulatedReceiver.SimulatedCallisto.Close | src/ecallisto_ng/drivers/callisto/simulator.py:91-92 | Closing ends the stream and keeps everything else |
| SimulatedReceiver.WriteConcat | src/ecallisto_ng/drivers/callisto/simulator.py:70-76 | Writes may be joined or cut anywhere |
| SimulatedReceiver.WriteCommand | src/ecallisto_ng/drivers/callisto/simulator.py:70-76 | Whole commands in one write are obeyed one after the other |
| CallistoSession.ResetReceiver | src/ecallisto_ng/drivers/callisto/protocol.py:38-42 | RESET stops a receiver in any state and is answered with the stopped message, after the end of the transmission if one was open |
| CallistoSession.StopReceiver | src/ecallisto_ng/drivers/callisto/driver.py:175-180 | The stop command ends an open transmission and says so; otherwise it says nothing |
| CallistoSession.ArmedReceiver | src/ecallisto_ng/drivers/callisto/driver.py:167-173 | Init and start commands leave the receiver announced, streaming unless dead, with the configured length |
| CallistoSession.InitIsSilent | src/ecallisto_ng/drivers/callisto/protocol.py:155-171 | No init command has any visible effect on the receiver |
| SetupCommands.SetupCarriesItsFields | src/ecallisto_ng/drivers/callisto/driver.py:133-165 | The bytes that `configure` writes, read back: one channel command per channel in order, then the clock divider, then clock source, gain and charge pump. The divider `d` satisfies `(d + 1) p <= 86400 < (d + 2) p` for the internal clock, 500000 for the external one, and there is none for the software clock; `p` is the whole number nearest to rate times channels, ties to even, and at least 1 |
| SetupCommands.StartCarriesItsFields | src/ecallisto_ng/drivers/callisto/protocol.py:174-178 | The start command carries the focus code and the one below it, the sweep length, and then S1 and GE |
| SetupCommands.ResetCarriesItsFields | src/ecallisto_ng/drivers/callisto/driver.py:275-293 | The bytes of a soft reset, read back: D0, GD, S0, then the same clock divider, source, gain and charge pump as `configure`, then the start command |
| CallistoSession.SoftResetReceiver | src/ecallisto_ng/drivers/callisto/driver.py:275-293 | What a soft reset leaves, for both outcomes of its drain: freshly armed with an empty line, or stopped with the answers still unread |
| CallistoSession.FailedReset | src/ecallisto_ng/drivers/callisto/driver.py:275-293 | After a read error in the drain the receiver is quiet, its answer is appended to what it had not yet said, and nothing held back is lost |
| CallistoDriving.CallistoDriver.Stream | src/ecallisto_ng/drivers/callisto/driver.py:182-224 | The imperative loop yields exactly the frames, and gives up at exactly the moment, of the specified run over the same receiver, clock and faults, and leaves the port as that run does |
| CallistoDriving.CallistoDriver.IterateTracked | src/ecallisto_ng/drivers/callisto/driver.py:196-224 | After each iteration parser, deque, stall timer, flag and port are where the specified run has them |
| CallistoDriving.CallistoDriver.Iterate | src/ecallisto_ng/drivers/callisto/driver.py:196-224 | One iteration follows the specified step in frames, recovery, deque, stall timer and port |
| CallistoDriving.CallistoDriver.ReadAndParse | src/ecallisto_ng/drivers/callisto/driver.py:199-217 | A read error and a corrupt sample both count as a fault and lose the whole chunk; otherwise all its sweeps become frames and a message about a stop ends the stream |
| CallistoDriving.CallistoDriver.TakeItems | src/ecallisto_ng/drivers/callisto/driver.py:211-217 | Sweeps become frames in order; a message that mentions a stop ends the stream |
| CallistoDriving.CallistoDriver.Finish | src/ecallisto_ng/drivers/callisto/driver.py:218-224 | A fault, or a stall while running, starts a recovery; otherwise nothing happens |
| CallistoDriving.CallistoDriver.Recover | src/ecallisto_ng/drivers/callisto/driver.py:230-258 | The deque is pruned to the window, the fourth demand gives up, the first of a window resets softly and every other one reopens the port; a failing recovery is swallowed |
| CallistoDriving.PruneResets | src/ecallisto_ng/drivers/callisto/driver.py:238-239 | What is kept is exactly the tail of the deque inside the window |
| CallistoDriving.CallistoDriver.SoftReset | src/ecallisto_ng/drivers/callisto/driver.py:275-293 | Port and held-back bytes after the soft reset are the specified ones, and so are the bytes written, also when the drain fails |
| CallistoDriving.CallistoDriver.ReopenPort | src/ecallisto_ng/drivers/callisto/driver.py:260-273 | Closing and reopening the port is a soft reset of a receiver whose stream was closed, with the same bytes written |
| CallistoDriving.CallistoDriver.Drain | src/ecallisto_ng/drivers/callisto/driver.py:370-372 | Everything a silent receiver still had to say is thrown away |
| CallistoDriving.CallistoDriver.Fill | src/ecallisto_ng/drivers/callisto/driver.py:359-362 | One read of the port is appended to the held-back bytes; a read error leaves them as they are |
| CallistoDriving.CallistoDriver.ReadChunk | src/ecallisto_ng/drivers/callisto/driver.py:364-368 | Held-back bytes come first and are given out once |
| CallistoDriving.CallistoDriver.Await | src/ecallisto_ng/drivers/callisto/driver.py:374-404 | The bytes up to and including the marker are taken, and nothing behind it; without the marker in time nothing is taken |
| CallistoDriving.CallistoDriver.Connect | src/ecallisto_ng/drivers/callisto/driver.py:115-117 | Port, held-back bytes and outcome are those of RESET and a drain; it fails exactly when a read error is pending |
| CallistoDriving.CallistoDriver.Identify | src/ecallisto_ng/drivers/callisto/driver.py:119-131 | The profile is that of the status line, or the failure that the answer calls for |
| CallistoDriving.CallistoDriver.Configure | src/ecallisto_ng/drivers/callisto/driver.py:133-165 | Each channel is written and acknowledged in turn; the settings change as specified and the init commands follow; the bytes written are the specified setup commands |
| CallistoDriving.CallistoDriver.Start | src/ecallisto_ng/drivers/callisto/driver.py:167-173 | Refused without configured channels; otherwise the start command is written and the receiver is armed |
| CallistoDriving.CallistoDriver.Stop | src/ecallisto_ng/drivers/callisto/driver.py:175-180 | The receiver is told to stop and the loop flag falls |
| CallistoDriving.CallistoDriver.Close | src/ecallisto_ng/drivers/callisto/driver.py:315-321 | The receiver is halted and the port closed |
| Handshake.HandshakeSteps | src/ecallisto_ng/drivers/callisto/driver.py:115-173 | A handshake with a receiver that answers succeeds from any state of the receiver and ends with driver, parser and line in step |
| Handshake.DetectedFormat | src/ecallisto_ng/drivers/callisto/protocol.py:77-90 | For every status line a receiver version gives, the detected profile has the sample format that version uses |
| Handshake.ProfileOfLine | src/ecallisto_ng/drivers/callisto/protocol.py:61-90 | Every line has a profile: samples are 8-bit if and only if it contains ChargePump, the oscillator offset is 36.13 for V1.8 without ChargePump and 37.7 otherwise, also for a line that is not recognised |
| Handshake.UnansweredIdentity | src/ecallisto_ng/drivers/callisto/driver.py:119-131 | Without a line held back, no look at the clock in time is reported as no answer, and a read error at the first look as a read error |
| Handshake.IdentifiesReceiver | src/ecallisto_ng/drivers/callisto/driver.py:119-131 | The stopped message and then the status line are found, and nothing is left over |
| Handshake.ChannelsAreWritten | src/ecallisto_ng/drivers/callisto/driver.py:147-160 | Every channel command is acknowledged and nothing is left over |
| Handshake.ArmedInStep | src/ecallisto_ng/drivers/callisto/driver.py:167-173 | A receiver armed from idle is in step with a fresh parser |
| CallistoProtocol.TunedWithinOneStep | src/ecallisto_ng/drivers/callisto/protocol.py:106-138 | For every tuner frequency and oscillator: the two divider bytes decode to a synthesizer frequency at most the request and less than 0.0625 MHz below it if and only if the two together stay below 4096 MHz |
| TunerCommands.CommandCarriesItsFields | src/ecallisto_ng/drivers/callisto/protocol.py:112-138 | Read back field by field, a command carries the one-based channel number, the divider bytes, the control byte and the band, in this order, the last four in exactly three digits |
| TunerCommands.CommandTunesTheReceiver | src/ecallisto_ng/drivers/callisto/protocol.py:93-138 | For every profile the fields of the command tune the synthesizer less than 0.0625 MHz below the request and never above it, if and only if tuner frequency and oscillator together stay below 4096 MHz; the band is 1 up to 171 MHz, 2 up to 450 MHz and 4 above, and the control byte is 0x86 on an 8-bit tuner without charge pump and 0xC6 otherwise |
| Acquisition.RecordContinuous | src/ecallisto_ng/services/acquisition.py:89-170 | For every ending of the stream (exhausted, watchdog, exception in the middle of a batch): the written files put together are the good prefix of the stream, all but the last hold exactly the asked number, none is empty, their number is the quotient rounded up, each is reported, the driver is stopped and closed exactly once, and the exception goes on exactly when the stream raised it |
| RecordingSession.RecordCallisto | src/ecallisto_ng/services/acquisition.py:89-170 | A whole recording with a receiver that answers, for every script of faults: its files put together hold exactly the frames of the stream, each the image of one whole emitted sweep; the watchdog cuts nothing off; all files but the last are full; and the recording fails if and only if the stream gives up |
| Acquisition.RecordBatch | src/ecallisto_ng/services/acquisition.py:121-170 | One batch: what was collected is flushed however the batch ended, and the recording stands where the conservation law says |
| Acquisition.CollectBatch | src/ecallisto_ng/services/acquisition.py:121-160 | Up to the asked number of frames, ended by the first flagged frame, the end, or a fault, whichever comes first |
| Acquisition.SlicesConserve | src/ecallisto_ng/services/acquisition.py:121-170 | Cutting a stream into files loses and repeats nothing |
| Acquisition.Flush | src/ecallisto_ng/services/acquisition.py:161-170 | Nothing is written for an empty batch, one file for any other |
| Acquisition.Record | src/ecallisto_ng/services/acquisition.py:27-86 | The single-file variant: one product of at most the asked frames, and, unlike the continuous loop, none at all when the stream raises |
| Acquisition.Watchdog.Check | src/ecallisto_ng/services/watchdog.py:44-49 | Flags exactly the sweeps with a value outside the product range |
| FrequencyPlan.PlanIsWellPlaced | src/ecallisto_ng/services/freqgen.py:32-87 | When the exclusion leaves some of the band: exactly the asked number of channels, all on the 1/16 MHz grid, never decreasing, and none but a pinned one strictly inside an exclusion whose edges are on the grid |
| FrequencyPlan.EvenPlanSteps | src/ecallisto_ng/services/freqgen.py:56-87 | Channel by channel, each at the point of the 1/16 MHz grid nearest to its place: pinned channels at the start, the others at even steps, one step being the band without the gap over the number of unpinned channels. They begin at the start; the first that would begin inside the exclusion begins at its upper edge, and the steps go on from there |
| FrequencyPlan.EvenPlanIgnoresTheOverview | src/ecallisto_ng/services/freqgen.py:76-77 | An even plan is the same for every overview |
| FrequencyPlan.QuietPlanAgainstEven | src/ecallisto_ng/services/freqgen.py:70-87 | A quiet plan against the even plan of the same request: a bin without an allowed measured point takes its lower edge, which is the even pick; any other takes a measured point of the bin outside the exclusion that no other such point is quieter than |
| FrequencyPlan.OutsideExactlyWhenSafe | src/ecallisto_ng/services/freqgen.py:20-87 | An exclusion keeps every unpinned channel of every accepted plan whose band it does not cover out of its inside if and only if no frequency outside it is snapped into it: not up over the lower edge, not down over the upper one |
| FrequencyPlan.PinnedChannelsFollowTheStart | src/ecallisto_ng/services/freqgen.py:58-65 | A pinned channel lies strictly inside the exclusion if and only if some channel is pinned and the snapped start lies there |
| FrequencyPlan.InBandExactlyWithoutFullCover | src/ecallisto_ng/services/freqgen.py:58-87 | The unsnapped picks lie in [start, stop) if and only if the exclusion does not cover the whole band |
| FrequencyPlan.AllPicksAreWellPlaced | src/ecallisto_ng/services/freqgen.py:58-87 | They also avoid the half-open exclusion and never decrease |
| FrequencyPlan.QuietBinTakesTheQuietest | src/ecallisto_ng/services/freqgen.py:70-82 | In quiet mode no measured point of the bin outside the exclusion is quieter than the one taken, and none as quiet is lower |
| FrequencyPlan.EdgeOffTheGridIsCrossed | src/ecallisto_ng/services/freqgen.py:20-29 | An unsafe edge in a concrete request: the pick lies below the exclusion and its channel inside |
| FrequencyPlan.GenerateFrequencies | src/ecallisto_ng/services/freqgen.py:32-87 | The loop computes the specified plan, or refuses exactly the requests the source refuses |
| ProgramFile.ImportOfExport | src/ecallisto_ng/services/legacy_import.py:72-88 | Importing an exported program succeeds if and only if the channel count is zero or divides 800, and then returns every frequency in order, rounded to three decimals; light-curve flags leave no trace |
| ProgramFile.FileSays | src/ecallisto_ng/services/legacy_import.py:72-88 | Any program file: refused if and only if some line has a number that cannot be read; otherwise the last sweep rate and the last oscillator count, 4 and 0 when there is none or it is empty, and the frequencies are exactly those of the channel lines, by number and then by frequency |
| ProgramFile.CommentIsCut | src/ecallisto_ng/services/legacy_import.py:79 | A value ends at the first two slashes in a row |
| ProgramFile.LowerCase | src/ecallisto_ng/services/legacy_import.py:79 | Keys are read in any case |
| ProgramFile.PrintedLines | src/ecallisto_ng/services/legacy_export.py:51-65 | The lines of a printed program, read back one by one: the testpoint is half the channel count rounded down, the measurements are the count, and line `6 + k` holds number `k + 1` with at least four digits, frequency `k` to three decimals in at least eight characters, and 1 if and only if `k` is in the light curve, else 0 |
| ProgramFile.PlanSurvivesTheFile | src/ecallisto_ng/services/legacy_export.py:37-65 | With a count that divides 800 and tuner frequencies on the grid: same channels in number and order, none moved by more than 0.0005 MHz, and byte-identical channel commands on every profile |
| ProgramFile.GeneratedPlanSurvivesTheFile | src/ecallisto_ng/services/legacy_export.py:37-65 | Every generated plan without local oscillator survives the file, given such a count |
| ProgramFile.SweepRateReads | src/ecallisto_ng/services/legacy_export.py:51-53 | The rate printed with six significant digits reads as an integer if and only if the quotient is one |
| ProgramFile.SweepRateSays | src/ecallisto_ng/services/legacy_export.py:53 | For every channel count the printed rate is a decimal number, perhaps with a negative exponent, within half a unit of the sixth digit of 800 / n, and no zero ends its decimals |
| ProgramFile.QuotientIsNearest | src/ecallisto_ng/services/legacy_export.py:53 | The six digits of the rate are those of the nearest number, and of two as near the even one |
| ProgramFile.BuildFrequencyProgramCfg | src/ecallisto_ng/services/legacy_export.py:37-65 | The printer loop writes the specified text |
| ProgramFile.ParseFrequencyProgram | src/ecallisto_ng/services/legacy_import.py:72-88 | The reader loop computes the specified program, and fails on the first number it cannot read |
| ProgramFile.SameCommand | src/ecallisto_ng/drivers/callisto/protocol.py:112-138 | Rounding channel and local oscillator to three decimals changes no byte of the command when the tuner frequency is on the grid |
| Decimal.ParseOfShowFixed | src/ecallisto_ng/services/legacy_export.py:57-64 | A number printed with three decimals reads back as that number rounded, whatever its sign and padding |
| Decimal.RoundedIsNearest | src/ecallisto_ng/services/legacy_export.py:60-64 | Rounding to three decimals finds the nearest thousandth, and of two equally near ones the even one |
| Decimal.NumeralReads | src/ecallisto_ng/services/legacy_import.py:82-85 | A sign or none, digits, and perhaps a point and digits, read as the number they write |
| Decimal.OnlyNumeralsRead | src/ecallisto_ng/services/legacy_import.py:82-85 | Nothing else is read as a number |
| Decimal.ParseOfShowInt | src/ecallisto_ng/services/legacy_export.py:30-30 | A zero-padded integer reads back unchanged |
| ScheduleFile.ScheduleRoundTrip | src/ecallisto_ng/services/legacy_import.py:121-152 | Parsing the printed schedule returns exactly the entries, stably sorted by their times, with seconds filled in; letters, mode 8 and the optional fourth column included |
| ScheduleFile.LineSays | src/ecallisto_ng/services/legacy_import.py:130-151 | Any schedule line of columns: it counts if and only if it starts with a digit, has three columns or more, an integer in the second and something in the third; time, focus code, mode in upper case and program are those of the columns |
| TextLines.LineEndsAtBreak | src/ecallisto_ng/services/legacy_import.py:75 | A text is cut at each of Python's line breaks, and a line feed right behind a carriage return goes with it |
| TextLines.BlanksGo | src/ecallisto_ng/services/legacy_import.py:76 | Trimming takes the white space at both ends and nothing else |
| ScheduleFile.SortIsStable | src/ecallisto_ng/services/legacy_export.py:28-28 | The sort loses and adds nothing, orders by time, and keeps the order of equal times |
| ScheduleFile.ScheduleIsInTimeOrder | src/ecallisto_ng/services/legacy_export.py:25-34 | The file stays in time order after the seconds are filled in |
| ScheduleFile.ShortTimesComeFirst | src/ecallisto_ng/services/legacy_export.py:28-29 | The sort compares the times as written, so of one minute the entries written HH:MM come before those written HH:MM:00 however they were mixed |
| ScheduleFile.StableExactlyWithoutOvertaking | src/ecallisto_ng/services/legacy_export.py:28-29 | The file has the entries in the stable order by time with seconds if and only if no entry written HH:MM:00 precedes one of the same minute written HH:MM |
| ScheduleFile.FileIsStableWithoutOvertaking | src/ecallisto_ng/services/legacy_export.py:28-34 | Then what the file holds is the stable sort of its own entries |
| ScheduleFile.BuildSchedulerCfg | src/ecallisto_ng/services/legacy_export.py:25-34 | The printer loop writes the specified text |
| ScheduleFile.ParseSchedulerCfg | src/ecallisto_ng/services/legacy_import.py:121-152 | The reader loop returns the entries of the readable lines, in order |
| AutoRecovery.RecoveryBudget | src/ecallisto_ng/services/auto_recover.py:40-69 | Over any run of looks at any instruments in time order, per instrument: no closed window holds more hook calls than the budget, and flowing frames lie between any two alerts |
| AutoRecovery.EveryLookActsRightly | src/ecallisto_ng/services/auto_recover.py:40-105 | Each look, in numbers: with the age of the last frame, or of the row's update when there is none, it does nothing while `age <= grace`, `age <= 0`, or `age * rate <= 8` at a positive rate; otherwise it calls the hook exactly while the budget is not spent in the window that ends there, and else alerts exactly once until frames flow again |
| AutoRecovery.InstrumentsAreIndependent | src/ecallisto_ng/services/auto_recover.py:36-69 | The log of an instrument among others is its log alone |
| AutoRecovery.AutoRecover.Consider | src/ecallisto_ng/services/auto_recover.py:40-69 | The object's dictionary and set follow the log: one instrument changes as specified, all others stay |
| AutoRecovery.AutoRecover.LookAt | src/ecallisto_ng/services/auto_recover.py:40-69 | The fields of one look: pruned history, alert flag and what was done |
| AutoRecovery.DropOld | src/ecallisto_ng/services/auto_recover.py:62-64 | What is kept is the history from the first entry inside the window on |
| SupervisionRuns.IntentOverRestarts | src/ecallisto_ng/services/scheduler_service.py:255-289 | Over any run of commands, ticks, ending jobs, restarts and reboots, the flag of an instrument without a window is its last command since the last reboot, or its boot flag if there was none |
| SupervisionRuns.TickStopsExactlyOnLossOfIntent | src/ecallisto_ng/services/scheduler_service.py:118-134 | A tick leaves a wanted recording alone whatever the clock says, and a complete one stops every unwanted recording |
| SupervisionRuns.TickConverges | src/ecallisto_ng/services/scheduler_service.py:115-134 | After a complete tick every wanted instrument records if the clock allows, every unwanted one is idle or stopping, and nothing else was started |
| SupervisionRuns.TickAttends | src/ecallisto_ng/services/scheduler_service.py:98-139 | A complete tick in numbers: an instrument is wanted by its window in seconds or by its flag, the clock is bad when it is known to be out of step or beyond a positive limit; a live wanted job is untouched, a live unwanted one is asked to stop, a dead one becomes an error, a wanted one starts exactly on a good clock, and the overview of day `d` runs exactly from second `60 m` of the day on, when it has not run that day and nothing records or starts |
| SupervisionRuns.VisitAttends | src/ecallisto_ng/services/scheduler_service.py:115-139 | The same for a single visit, also one whose overview fails: then no date is remembered |
| SupervisionRuns.TickIsCompleteExactlyWithoutFailingOverview | src/ecallisto_ng/services/scheduler_service.py:115-139 | A tick reaches every enabled instrument if and only if none of them has an overview due that fails while it is not being started |
| SupervisionRuns.TourVisitsOnce | src/ecallisto_ng/services/scheduler_service.py:115-139 | What a tick does to an instrument is its own visit from the state before the tick, whatever happens to the others |
| SupervisionRuns.OneOverviewPerDay | src/ecallisto_ng/services/scheduler_service.py:216-241 | Over any run whose ticks come in time order, restarts included, the scheduled overviews of an instrument have strictly increasing dates, and the date remembered is that of an overview that completed |
| SupervisionRuns.RecordingsAreShown | src/ecallisto_ng/services/recorder.py:254-260 | Over every run the persisted row of a recording instrument says so |
| SupervisionRuns.EndStaysOnShow | src/ecallisto_ng/services/recorder.py:275-286 | How a recording ended stays on show, an error as an error, through every sequence of commands, process starts and further reports of the ended job; only a tick can change it |
| SupervisionRuns.EventsReachOneJob | src/ecallisto_ng/services/recorder.py:262-266 | A stop asks the recording it names to end and withdraws its intent, and a dying thread takes only its own job with it; nothing else changes for any other instrument |
| SupervisionRuns.NothingRecordsAfterStart | src/ecallisto_ng/services/scheduler_service.py:271-275 | After a process start no job runs, a row that claimed one is idle, and rows in error stay so |
| Supervision.RecorderService.Start | src/ecallisto_ng/services/recorder.py:115-260 | Refused while the instrument records, else a new job replaces the old |
| Supervision.RecorderService.Status | src/ecallisto_ng/services/recorder.py:99-113 | A job that claims to record with a dead thread is turned into an error |
| Supervision.RecorderService.Stop | src/ecallisto_ng/services/recorder.py:262-266 | Only a recording job is asked to stop |
| Supervision.RecorderService.Finish | src/ecallisto_ng/services/recorder.py:275-286 | The job ends idle or in error; an unknown instrument is ignored |
| Supervision.Database.Write | src/ecallisto_ng/services/recorder_state.py:46-54 | The row's state changes and its intent stays; a missing row is created |
| Supervision.Database.SetDesired | src/ecallisto_ng/services/recorder_state.py:75-85 | The row's intent changes and its state stays |
| Supervision.SchedulerService.Visit | src/ecallisto_ng/services/scheduler_service.py:115-139 | One instrument's part of the tick follows its specification |
| Supervision.SchedulerService.MaybeOverview | src/ecallisto_ng/services/scheduler_service.py:216-241 | The overview runs exactly when due and its date is remembered exactly when it succeeds |
| Supervision.SchedulerService.RunTick | src/ecallisto_ng/services/scheduler_service.py:98-139 | The loop over the instruments follows the specified tour, cut short by a failing overview |
| Supervision.SchedulerService.SeedDesiredFromBoot | src/ecallisto_ng/services/scheduler_service.py:255-289 | Stale rows are settled always, intents are seeded only when the boot id changed |
| UploadHistory.NothingUnsentIsRemoved | src/ecallisto_ng/services/uploader_service.py:36-68 | Over any run of recordings under fresh names, ticks, manual uploads, target changes, requeues and deletions: each file taken away was sent and verified to every target enabled at that moment and some was enabled, each done job of a file follows a verified put of that recording, there is at most one per target and file, and every recording is accounted for |
| UploadHistory.NothingYoungIsRemoved | src/ecallisto_ng/services/uploader_service.py:41-68 | Over any run: every file pruned, as against archived, was at least 86400 seconds old per day of a retention that was not negative, by the clock and settings of its tick |
| UploadHistory.TickTakesExactly | src/ecallisto_ng/services/uploader_service.py:36-123 | What a tick takes away, in both directions: a file goes if and only if some target is enabled, every enabled one has a done job for its name after the uploads of the tick, and the archive is on, or the retention is not negative and the file readable and that old |
| UploadHistory.TickServes | src/ecallisto_ng/services/uploader_service.py:26-33 | After a tick every readable file has, at every target that is enabled and immediate or scheduled with the second of the day inside its window, a done job if the put was verified now or before, else a failed attempt; no other target is tried |
| UploadHistory.RequeuedIsSentAgain | src/ecallisto_ng/api/routes/data.py:75-90 | After a requeue the next tick sends the recording again to every target it serves: it is marked as sent if and only if that put was verified, whatever was done before |
| UploadHistory.DeletedIsForgotten | src/ecallisto_ng/api/routes/data.py:54-72 | Deleting takes the named recordings and exactly their jobs; a name without a recording keeps its jobs |
| UploadHistory.StepKeepsSound | src/ecallisto_ng/services/uploader_service.py:101-143 | Each single event keeps all of that |
| UploadHistory.NoTargetNoRemoval | src/ecallisto_ng/services/uploader_service.py:44-46 | Without an enabled target a tick takes nothing away |
| UploadHistory.SafeExactlyUnderAForgottenName | src/ecallisto_ng/services/uploader_service.py:36-123 | In any sound state, and for any new recording: no sequence of ticks, uploads, target changes, requeues and deletions takes a file away unsent if and only if no done job of any target remembers the name of the recording |
| UploadHistory.RememberedNameLosesTheRecording | src/ecallisto_ng/services/uploader_service.py:54-61 | The worst instance: when every enabled target remembers the name, the next tick archives the new recording unsent |
| UploadHistory.OffersKeepSound | src/ecallisto_ng/services/uploader.py:103-142 | An upload pass keeps all of that for any outcome of the transport |
| UploadHistory.CleaningKeepsSound | src/ecallisto_ng/services/uploader_service.py:49-68 | Pruning and archiving keep it |
| Uploading.UploaderService.UploadPending | src/ecallisto_ng/services/uploader.py:103-142 | Every readable file without a done job is offered once; the counters equal the jobs added |
| Uploading.UploaderService.UploadFile | src/ecallisto_ng/services/uploader.py:34-53 | A put counts only when it was verified |
| Uploading.UploaderService.Prune | src/ecallisto_ng/services/uploader_service.py:36-68 | Exactly the old enough, readable files that were sent to every enabled target go |
| Uploading.UploaderService.ArchiveDone | src/ecallisto_ng/services/uploader_service.py:101-123 | Exactly the files that were sent to every enabled target go, whatever their age |
| Uploading.UploaderService.Tick | src/ecallisto_ng/services/uploader_service.py:134-142 | Due targets are served first, then the archive or else the retention, never both |
| FpgaFraming.RoundTrip | src/ecallisto_ng/drivers/sdr/fpga.py:104-121 | Any payloads behind their STX bytes are read back in order, also payloads that contain STX bytes |
| FpgaFraming.FramesOfEncoded | src/ecallisto_ng/drivers/sdr/fpga.py:104-121 | Of any part of an encoding that has arrived exactly the payloads that are whole in it are read |
| FpgaFraming.FpgaSdrDriver.ReadFrame | src/ecallisto_ng/drivers/sdr/fpga.py:104-121 | The frame returned is the next of all that lies ahead, whatever the chunks; an empty read returns nothing and loses nothing |
| FpgaFraming.FpgaSdrDriver.Stream | src/ecallisto_ng/drivers/sdr/fpga.py:86-90 | What is yielded plus what lies ahead never changes, and enough rounds yield everything |
| FpgaFraming.StreamIsTheSweeps | src/ecallisto_ng/drivers/sdr/fpga.py:153-162 | Against the simulated device: the stream is the sweeps that were sent whole, in order, each once |
| FpgaFraming.SimulatedFpga.Read | src/ecallisto_ng/drivers/sdr/fpga.py:143-148 | What was sent and what waits is at every moment the encoding of the sweeps made so far |
| FpgaFraming.SimulatedFpga.Write | src/ecallisto_ng/drivers/sdr/fpga.py:137-141 | START lets the device stream, STOP wins over it |
| FpgaFraming.NoiseIsSkipped | src/ecallisto_ng/drivers/sdr/fpga.py:107-110 | Bytes in front of the first STX change nothing |
| LiveHub.ClientsSeeTheRun | src/ecallisto_ng/services/hub.py:44-70 | Over every interleaving of snapshot, put, drain, subscribe and unsubscribe steps: what a client has drained and what waits for it is an in-order selection of its instrument's frames since it subscribed, never more than 256 wait, and it is all of them while it is subscribed, nothing is under way and its queue was never full |
| LiveHub.RunKeeps | src/ecallisto_ng/services/hub.py:44-70 | The step invariant behind it |
| LiveHub.DrainsEmptyTheQueue | src/ecallisto_ng/api/routes/live.py:58-63 | As many drains as frames wait take all of them, in order |
| LiveHub.WhoLeavesHearsNoMore | src/ecallisto_ng/services/hub.py:50-56 | A client that unsubscribes with no put to it under way is put no frame any more, over every later interleaving |
| LiveHub.FrameHub.PublishLocal | src/ecallisto_ng/services/hub.py:63-70 | Every queue of the snapshot is offered the frame exactly once, full or not |
| LiveHub.FrameHub.Subscribe | src/ecallisto_ng/services/hub.py:44-48 | A new empty queue joins behind the others |
| LiveHub.FrameHub.Unsubscribe | src/ecallisto_ng/services/hub.py:50-56 | Only the first occurrence of the queue leaves, and only that instrument's list changes |
| LiveHub.Queue.PutNowait | src/ecallisto_ng/services/hub.py:67-70 | A full queue drops the frame and keeps what it has |
| LiveHub.Queue.GetNowait | src/ecallisto_ng/api/routes/live.py:58-63 | The oldest waiting frame leaves, or nothing when none waits |
| SourceWindow.EverySampleAboveIsCovered | src/ecallisto_ng/services/scheduler.py:110-130 | With at most one rise and one set and no margin the window holds every sample of the UT day strictly above the horizon |
| SourceWindow.ExactlyTheRisenSamples | src/ecallisto_ng/services/scheduler.py:115-123 | When the rise precedes the set it holds exactly the samples at or above the horizon |
| SourceWindow.CoversExactlyOneSpan | src/ecallisto_ng/services/scheduler.py:110-130 | Without margin the window holds every sample of the day above the horizon if and only if not both the first rise precedes the last set and something is up before that rise or after that set |
| SourceWindow.PassBeforeTheRiseIsLost | src/ecallisto_ng/services/scheduler.py:115-123 | A source that sets, rises and sets: its first pass is lost |
| SourceWindow.PassAfterTheSetIsLost | src/ecallisto_ng/services/scheduler.py:115-123 | A source that rises, sets and rises: its last pass is lost |
| SourceWindow.MarginTrims | src/ecallisto_ng/services/scheduler.py:121-130 | A margin takes the same time away at both ends |
| SourceWindow.WindowIsNeverEmpty | src/ecallisto_ng/services/scheduler.py:121-130 | With a margin there is a window if and only if the one without is longer than twice the margin; a window that is given holds some moment |
| SourceWindow.NoWindowExactlyBelow | src/ecallisto_ng/services/scheduler.py:115-130 | Without margin there is no window if and only if no sample is above the horizon and no rise comes before a set |
| SourceWindow.AboveAllDay | src/ecallisto_ng/services/scheduler.py:124-130 | A source above the horizon at every sample has the 1440 minutes from the first one |
| SourceWindow.GetSourceWindow | src/ecallisto_ng/services/scheduler.py:113-130 | The scanning loop finds the first rise and the last set |
| RecordingFiles.WritesOnlyAdd | src/ecallisto_ng/writers/fits/standard.py:50-64 | Any sequence of writes, each with a free candidate name, leaves every earlier product as it was |
| RecordingFiles.WriteOnlyAdds | src/ecallisto_ng/writers/fits/standard.py:95-110 | A write adds its file under a name that was free |
| RecordingFiles.NameIsTakenExactlyWithoutRoom | src/ecallisto_ng/writers/fits/standard.py:58-64 | The chosen name is taken if and only if all 1000 candidates are |
| RecordingFiles.SmallestFreeNumber | src/ecallisto_ng/writers/fits/standard.py:50-64 | The plain name if it is free, else the one with the smallest free number below 1000, else the plain name |
| RecordingFiles.CandidateCarriesItsNumber | src/ecallisto_ng/writers/fits/standard.py:60-61 | A numbered name is the stem, an underscore, at least two digits that read as the number, exactly two below 100, and .fit |
| RecordingFiles.FullNamesAreOverwritten | src/ecallisto_ng/writers/fits/standard.py:64-64 | Then the plain name is overwritten |
| RecordingFiles.RowsFollowTheAxis | src/ecallisto_ng/writers/fits/standard.py:88-102 | Row r of the image holds, for every time column, the sample of the channel whose frequency is entry r of the frequency axis: as a flux or a temperature by that channel's coefficient when the unit asks for it and there are coefficients, else unchanged; column k stands at the time k / rate, or at 0 without a rate |
| RecordingFiles.NoFileExactlyForUnwritable | src/ecallisto_ng/writers/fits/standard.py:34-95 | No file is written if and only if there are no frames or no channels, the frames are empty or of different widths, or a unit that needs coefficients has too few |
| RecordingFiles.UniquePath | src/ecallisto_ng/writers/fits/standard.py:50-64 | The search loop finds the first free candidate |
| RecordingFiles.OutputDirectory.Write | src/ecallisto_ng/writers/fits/standard.py:78-110 | Nothing changes when the recording cannot be rendered; otherwise the rendering is stored under the free name and no temporary file stays |

## Left out

- CallistoDriving.CallistoDriver.Drain: requires a receiver that is not streaming, which RESET ensures; the source has no deadline there, and against a receiver that keeps talking it would not end.
- CallistoDriving.CallistoDriver.Await: the deadline is a number of looks at the clock, each with one read; the seconds between them are not modelled.
- CallistoDriving.Session: excludes, as does the recording on top of it, a plan of exactly 13200 channels, a length the simulated receiver reserves for the overview and does not take for a sweep.
- ClosedLoop.EveryFrameIsAnEmittedSweep: a write to the port never fails.
- ErrorsInARow.ReadErrorsInARow: the bytes in front of the answers, with the answers, fit in one read; all recoveries come within one window.
- SimulatedReceiver.SimulatedCallisto.Handle: the overview command, which is answered with rows of an overview, is taken for an unknown one.
- RecordingSession.RecordCallisto: the record loop runs over the finished stream, not while it is under way; after the script the operator stops the stream.
- StreamLoop.ResetBudget: an operator's stop takes effect once per iteration, not between two frames of one chunk.
- BoundedLiveness.EscalatesInTime: latency and repair time are bounds on the clock readings, not on the code that runs between them.
- Acquisition.RecordContinuous: the writer and the callbacks do not fail; headers and metadata of a product are not modelled.
- AutoRecovery.EveryLookActsRightly: the age of a stall is measured from the last frame of any recording, so a hook call does not imply a stall in the present one; the hook's outcome has no effect in the source either.
- SupervisionRuns.IntentOverRestarts: the configuration is fixed, web and acquiring process are one, starting a job is one step, and the database never fails.
- SupervisionRuns.TickConverges: building a driver and resolving channels and calibration never fail; the handshake of a started job shows up later as its end.
- Supervision.SchedulerService.Visit: the look of the automated recovery at the end of a visit is modelled on its own, in `AutoRecovery`.
- UploadHistory.NothingUnsentIsRemoved: a target is its row number, so editing its address, or reusing the number of a deleted row, keeps its done jobs; moving and deleting files never fails.
- LiveHub.ClientsSeeTheRun: one publisher per instrument; the UDP bridge between processes is not modelled.
- ProgramFile.ParseFrequencyProgram: keys are ASCII words; numbers are an optional sign, ASCII digits and an optional point; exponents, infinities, underscores and other digits, which Python also reads, count as unreadable.
- ScheduleFile.ParseSchedulerCfg: digits and upper-casing are ASCII; underscores in an integer count as unreadable.
- ProgramFile.PlanSurvivesTheFile: rounding is that of the exact decimal value, not of its binary approximation.
- RecordingFiles.RowsFollowTheAxis: for frames with one value per channel; with another width the source writes an image whose rows do not match the axis.
- RecordingFiles.WritesOnlyAdd: products are the names that end in `.fit`; a left-over temporary file may be replaced.
- SourceWindow.EverySampleAboveIsCovered: the Sun has its own window function, with sunrise and sunset, which is not modelled; no coverage is claimed for it.
- The overview sweep, tuning, gain, relay and detector commands of the driver: one request and one answer each.
- Port locks between processes, thread races inside one service, sockets, serial ports and databases.
- FITS header cards, light-curve files, quicklooks, ephemerides, signal processing, routes, authentication and user interface.
- Where an archived file goes: only that it leaves the data directory is modelled.
