# Verified model of a hardware test station

The repository drives physical test jigs: it powers a board, watches its serial console, talks to it over SSH or a
framed binary protocol, burns fuses and installs images. This project models the parts of it that are algorithms or
protocols and proves what they guarantee for every input, every cut of the byte stream and every run.

| module | what it models |
|---|---|
| `Sequences`, `Text` | substring search, chunk concatenation, line splitting and stripping, shared by the others |
| `Cobs`, `McuRpc` | byte stuffing and the RPC packet with its receive loop |
| `EventStream`, `Announcements`, `UartParser`, `Watchdog`, `Multiplexer`, `CommandFraming`, `SafeRun`, `CommandOutput` | the UART pipeline, from the receiver thread to the command result |
| `BootWatch` | the two waits for the boot loader and for a shell, as loops over the events of the console, with what they write |
| `BoardFsm`, `BootEnv` | the board state machine: alignment, boot strategies, fallback chain, triggers and runs; what the trap and its removal do to the boot loader's environment |
| `Failover` | the two-transport router as interleaved steps |
| `Tezi`, `AppFsm`, `Efuse`, `PsuSweep`, `LogVacuum` | the installer handshake, application state times, fuse burning, supply sweeps, the log vacuum |

Objects that the source updates in place are classes whose methods are proved against a function of their history;
loops are loops; everything that is a value is a datatype. What the outside world does is a parameter and otherwise
arbitrary: `BoardFsm` reads every answer of supply, console, SSH, probe and operator from a function `world`,
`Failover` quantifies over all interleavings, `Tezi` over all events and clock readings, `PsuSweep` over all reactions.

## Findings

Where a promise does not hold for all inputs, the exact condition is proved instead.

* A prompt or panic token is found for every chunking if and only if no character but its last is a line break
  (`Text.LineBoundIsExact`).
* The chunk that brings a panic yields no line, not even one it finishes, so the boot lines of a text with a panic depend
  on how it was cut (`EventStream.PanicSwallowsLine`). All cuts agree if and only if no panic is in the text or no visible
  line ends in front of it (`EventStream.CutsAgreeIff`); all yield the lines of the whole text if and only if no panic or
  no visible line is in it (`EventStream.WholeLinesIff`).
* The line parser and the event stream disagree on text with bare carriage returns; `UartParser.AgreesWithEventStream`
  says exactly when they agree.
* The watchdog cuts its window before it searches, so one chunk of 1026 - m bytes can hide a token of length m; with
  smaller chunks nothing is hidden, chunk by chunk (`Watchdog.ChunkBoundIsExact`) and over whole runs with mute
  switches (`Watchdog.RunBoundIsExact`).
* The router's documentation promises a permanent shift to the fallback; the code fails back
  (`Failover.ShiftFailsBack`). The shift lasts as long as nothing takes the flag back
  (`Failover.PermanentWhileUncleared`), and every run with a failover can go on to use the primary again
  (`Failover.ShiftIsNeverPermanent`). On the other hand a reconnect that does not outwait a ping leaves the recovery
  thread dead (`Failover.ReconnectStrands`), and then nothing fails back by itself (`Failover.StrandedStays`).
* A recovery ping that began before `connect` cleared the flag can later clear a newer failover, and then a command
  reaches a primary that nothing has vouched for. `Failover.UndisciplinedClearIsUnsafe` shows that every run with such
  an overlap can go wrong, `Failover.PrimaryOnlyWhenTrusted` that no other run does.
* A trigger that raises after power came on leaves POWER_OFF recorded for a powered board, and a later `boot_to_os`
  then moves straps live (`BoardFsm.RaisedEnergizeIsUnsafe`). For every trigger, from every state and medium,
  `BoardFsm.StateMachine.Fire` says exactly when this happens in terms of the outside answers (`LeavesLive`): the board
  was found off, cut, straps and power went through, and a later stage failed. Over every run POWER_OFF is right after
  every trigger if and only if no trigger does this where it finds the board (`BoardFsm.StateMachine.Run`); calling
  `mark_dirty` after each raise mends it (`BoardFsm.StateMachine.RunTidily`).
* The recovery pin is cleared while the board is powered, as the recovery mode demands; no boot strap moves on a powered
  board. A `boot_to_recovery` that raises after the pin was set leaves it set, and nothing else clears it:
  `release_recovery` does nothing where there is a pin. A later `energize` then returns with the pin still set
  (`BoardFsm.RecoveryStrapStaysHeld`); when the pin stays set is exact on `Fire` and over runs (`HeldAfter`).
* On a station without autoboot the way into the boot loader puts the boot command aside and sets a trap; the way out
  restores it. The round trip works exactly if the loader heeds the commands that restore and save
  (`BootEnv.TrapRoundTrip`), but their results are never looked at: one without effect goes unnoticed
  (`BootEnv.RestoreUnheeded`). A `boot_to_os` from a loader that was not reached through the trap
  (`BootEnv.RestoreErases`), or one that is tried again after a time-out (`BootEnv.RetryErases`), has nothing to restore
  and erases the boot command; a second `boot_to_bootloader` after one that missed the loader puts the trap itself aside
  (`BootEnv.SecondTrapLoses`). Over every run, `BootEnv.RunFromStart` says exactly when a boot finds the command restored
  and when a trap keeps it.
* With GPIO but no strap map for a medium, `energize` records the medium without moving a strap
  (`BoardFsm.UnmappedMediumMismatches`). After a normal return the straps match the recorded medium if and only if the
  station can strap it or it is the one they already stood at (`StrapsFollow`, on `Fire` and over runs).
* The fuse writer's documentation speaks of strict alignment checks; the code only warns. A payload with tabs or line
  breaks between bytes is burnt and then reported as failed, because the comparison is made on text; on good silicon a
  burn passes if and only if there is no white space but blanks (`Efuse.FuseBank.BurnEfuse`, `Efuse.TabbedPayloadFails`).
  A payload that passed is never written again, whatever was burnt in between (`Efuse.FuseBank.BurnAgain`).
* The documented "since the FSM was created" of the application state times is really "since the first accepted
  transition": the time in the initial state is not counted (`AppFsm.InitialTimeIsMissing`). The times add up to the
  age of the object if and only if that transition came at once (`AppFsm.McuAppStateMachine.StateDurations`).
* The installer trusts the caller's success prompt only while tailing the log, so that a stray prompt is not taken for
  success. The guard never holds anything back if and only if that prompt contains one of the tokens that are always
  trusted (`Tezi.GuardIsIdleIff`). The default does: a bare login prompt is success with nothing written
  (`Tezi.DefaultNeedsNoTail`); a prompt that does not is held back and ends in failure (`Tezi.GuardHoldsBack`). A failed
  write of the tail command, unlike that of the probe or the script, leaves the generic prompt untrusted for good
  (`Tezi.FailedTailIsFinal`, with the run `Tezi.FailedTailFails`).
* A second exit marker behind the real one turns the first into a line of output (`CommandFraming.LateMarkerLeaks`);
  `CommandFraming.LateMarkerIff` says when this does not show.
* `expect` takes the text at the first chunk with which the prompt is in it, so a prompt inside echo or output can cut it
  short and lose the exit code (`SafeRun.PromptInOutputCuts`). The code comes back exactly if and only if the prompt is
  shown and no beginning that ends with a chunk in front of the finished exit line holds it (`SafeRun.CodeIsExactIff`);
  all cuts of a text return it if and only if the text in front of the last digit does not hold the prompt
  (`SafeRun.EveryCutIff`).
* A blank line in a remote log is not counted, so the next poll repeats a line (`LogVacuum.BlankLineRepeats`), and the
  ends of each poll are trimmed. On an append-only log the buffer is the beginning of the log after every poll if and
  only if every good poll finds its blank lines last and untrimmable ends in front of them (`LogVacuum.ExactIffClean`).
* `UartEventStream.open` is defined twice in its class; the second definition is the effective one and the one modelled.
* The reply's length field is unpacked and never compared, so nothing is claimed about it.

## Model

| member | source | states |
|---|---|---|
| `Cobs.RoundTrip` | src/pytest_mes_core/protocols/rpc/mcu.py:35-73 | for every byte sequence, decoding the frame without its delimiter gives the sequence back, and with the delimiter left on gives it followed by one zero |
| `Cobs.DecodeBody` | src/pytest_mes_core/protocols/rpc/mcu.py:35-73 | the generalisation behind it: decoding inverts encoding from any half-filled block, with nothing or the delimiter behind it |
| `Cobs.OnlyZeroIsLast` | src/pytest_mes_core/protocols/rpc/mcu.py:40-56 | the delimiter is the only zero of a frame |
| `Cobs.FrameLength` | src/pytest_mes_core/protocols/rpc/mcu.py:35-56 | a frame has between n + 2 and n + n/254 + 2 bytes, and exactly the upper bound when the data has no zero |
| `Cobs.CanonicalFrames` | src/pytest_mes_core/protocols/rpc/mcu.py:35-73 | a delimiter-free text is one the encoder can produce if and only if re-encoding what it decodes to gives it back; `WellFormed` describes these texts block by block without mentioning the encoder |
| `Cobs.EncodeFrame` | src/pytest_mes_core/protocols/rpc/mcu.py:35-56 | the loop with the back-patched code byte computes the recursive encoding |
| `Cobs.CopyRun` | src/pytest_mes_core/protocols/rpc/mcu.py:67-70 | the inner loop copies what is left of a block, and stops at the end of a truncated frame |
| `Cobs.DecodeFrame` | src/pytest_mes_core/protocols/rpc/mcu.py:59-73 | the index loop computes the recursive decoding on every input, malformed or not |
| `McuRpc.ReadFrameFinds` | src/pytest_mes_core/protocols/rpc/mcu.py:97-107 | the receive loop stops at the first delimiter wherever the line falls silent, and leaves the rest unread |
| `McuRpc.StreamRoundTrip` | src/pytest_mes_core/protocols/rpc/mcu.py:35-73 | any list of messages sent back to back is received as the same list, with any empty reads in between |
| `McuRpc.AcceptsOwnLayout` | src/pytest_mes_core/protocols/rpc/mcu.py:88-92 | a reply with the client's own packet layout is accepted and its payload returned exactly, for every method id and payload in range |
| `McuRpc.PacketLayout` | src/pytest_mes_core/protocols/rpc/mcu.py:86-92 | the packet on the wire: method, length, payload and checksum, each field with its low byte first |
| `McuRpc.OtherMethodRefused` | src/pytest_mes_core/protocols/rpc/mcu.py:126-128 | the valid answer to another method is refused |
| `McuRpc.AcceptedIffPacket` | src/pytest_mes_core/protocols/rpc/mcu.py:88-129 | what is accepted with a true length field is exactly the packet of that method and payload |
| `McuRpc.SingleByteErrorRejected` | src/pytest_mes_core/protocols/rpc/mcu.py:115-129 | a packet that differs from a valid one in exactly one byte, anywhere, is rejected for every expected method |
| `McuRpc.TranspositionAccepted` | src/pytest_mes_core/protocols/rpc/mcu.py:122-125 | the limit of the additive checksum: exchanging two bytes in front of it always passes the checksum |
| `McuRpc.Receive` | src/pytest_mes_core/protocols/rpc/mcu.py:97-107 | the receive loop computes `ReadFrame`, and keeps all bytes if no delimiter comes |
| `McuRpc.CallRaw` | src/pytest_mes_core/protocols/rpc/mcu.py:86-132 | the frame sent, and the reply accepted or refused in every case: field out of range, deadline, no delimiter, malformed, checksum, method |
| `McuRpc.CallAnswered` | src/pytest_mes_core/protocols/rpc/mcu.py:86-132 | end to end: a faithful peer's answer is returned exactly, whatever silences it arrives with and whatever follows it |
| `Text.TokenStep` | src/pytest_mes_core/state_machine.py:229-255 | keeping only the unfinished line loses no token that holds a line break at most as its last character |
| `Text.LineBoundIsExact` | src/pytest_mes_core/state_machine.py:229-255 | the exact condition: a token is found for all texts and cuts if and only if no character but its last is a line break |
| `Text.NormaliseIsReplace` | src/pytest_mes_core/state_machine.py:253-253 | reading left to right agrees with replacing CRLF and then CR |
| `Text.NormalisedLines` | src/pytest_mes_core/state_machine.py:253-258 | the lines cut out after normalising are the stripped non-blank pieces between CR and LF of the raw text |
| `Text.FirstLf` | src/pytest_mes_core/state_machine.py:254-255 | the search for the next line feed |
| `EventStream.HitIsSeen` | src/pytest_mes_core/state_machine.py:229-255 | some chunk up to now brought the token into the window if and only if it occurs in the concatenation of all chunks |
| `EventStream.LinesIndependentOfChunking` | src/pytest_mes_core/state_machine.py:253-269 | as long as no panic was seen, boot lines and milestones are those of the concatenated text, however it was cut, even through a CRLF |
| `EventStream.ChunkPromptCount` | src/pytest_mes_core/state_machine.py:245-252 | a chunk announces a prompt once if its token is in the window for the first time, and not at all otherwise |
| `EventStream.PromptAtFirstSight` | src/pytest_mes_core/state_machine.py:245-252 | a prompt is announced with exactly the chunk that completes its first occurrence in the whole text |
| `EventStream.PromptAtMostOnce` | src/pytest_mes_core/state_machine.py:245-252 | over a whole stream each prompt type is announced at most once, and once if its token was seen before any panic |
| `EventStream.PanicEndsStream` | src/pytest_mes_core/state_machine.py:233-238 | a panic event is in the stream if and only if a panic token was seen, and it is the last event |
| `EventStream.NothingAfterPanic` | src/pytest_mes_core/state_machine.py:233-238 | chunks after a panic change nothing |
| `EventStream.LinesBeforePanic` | src/pytest_mes_core/state_machine.py:233-269 | with a panic, boot lines and milestones are those of the text in front of the chunk that brings it; a line finished by that very chunk is lost |
| `EventStream.WholeLinesIff` | src/pytest_mes_core/state_machine.py:233-269 | every cut of a text yields the lines of the whole text if and only if no panic token or no visible line is in it |
| `EventStream.CutsAgreeIff` | src/pytest_mes_core/state_machine.py:233-269 | all cuts of a text yield the same lines if and only if no panic token is in it or no visible line ends in front of it |
| `EventStream.PanicSwallowsLine` | src/pytest_mes_core/state_machine.py:233-255 | a concrete text whose line comes out in one cut and is lost in another |
| `EventStream.PromptInStream` | src/pytest_mes_core/state_machine.py:233-252 | a prompt is in the stream if and only if some beginning of it shows the token and no panic |
| `EventStream.ShownIsInText` | src/pytest_mes_core/state_machine.py:229-252 | the same in terms of the concatenated text, for tokens that hold a line break at most as their last character |
| `EventStream.UartEventStream.OnChunk` | src/pytest_mes_core/state_machine.py:230-269 | one turn yields the events the whole-text specification gives for this chunk, and keeps the buffer, the prompt set and the pending milestones in step with it |
| `EventStream.UartEventStream.Digest` | src/pytest_mes_core/state_machine.py:239-269 | the part of a turn behind the panic check |
| `EventStream.UartEventStream.CheckAutoboot` | src/pytest_mes_core/state_machine.py:239-244 | the autoboot event comes once, with the first sight of its trigger; what this means for the text is said by `Announcements` |
| `EventStream.UartEventStream.CheckPrompts` | src/pytest_mes_core/state_machine.py:245-252 | the loop over the prompt table announces exactly the prompts not seen before |
| `EventStream.UartEventStream.EmitLine` | src/pytest_mes_core/state_machine.py:259-269 | a line is followed by exactly the milestones that no earlier line reached |
| `EventStream.UartEventStream.PopAll` | src/pytest_mes_core/state_machine.py:254-269 | the pop loop emits every complete line and leaves the unfinished one |
| `EventStream.UartEventStream.PopLines` | src/pytest_mes_core/state_machine.py:253-269 | the buffer afterwards is the unfinished line of the whole text |
| `EventStream.Consume` | src/pytest_mes_core/state_machine.py:202-271 | the whole loop yields the specified event sequence for every chunking |
| `Announcements.WindowComesFirst` | src/pytest_mes_core/state_machine.py:239-244 | the chunk that first shows the autoboot trigger announces it once, in front of all else it brings; no other chunk does |
| `Announcements.WindowAtFirstSight` | src/pytest_mes_core/state_machine.py:239-244 | that is the chunk that completes its first occurrence in the whole text |
| `Announcements.WindowInStream` | src/pytest_mes_core/state_machine.py:233-244 | over a whole stream it is announced once at most, and exactly if some beginning shows it and no panic |
| `Announcements.BootLinesAreLines` | src/pytest_mes_core/state_machine.py:253-263 | without a panic the boot lines are the visible finished lines of the text, in order |
| `Announcements.MilestoneInStream` | src/pytest_mes_core/state_machine.py:259-269 | over a whole stream a milestone is reached once at most, and exactly if a reported line mentions it |
| `Announcements.UnknownPrompt` | src/pytest_mes_core/state_machine.py:245-252 | a prompt that is not in the table is never announced |
| `UartParser.CrLfInvisible` | src/pytest_mes_core/utils/uart_parser.py:60-72 | replacing CRLF by LF before splitting does not change the cleaned lines or the rest |
| `UartParser.UartStreamParser.Ingest` | src/pytest_mes_core/utils/uart_parser.py:22-34 | appending keeps the invariant between buffer, lines handed out and all text since the last clear |
| `UartParser.UartStreamParser.ClearBuffer` | src/pytest_mes_core/utils/uart_parser.py:46-49 | starts a new history |
| `UartParser.UartStreamParser.ExtractLines` | src/pytest_mes_core/utils/uart_parser.py:51-72 | under every interleaving with `ingest`, the lines handed out so far are the cleaned complete lines of all text, and the unfinished line stays |
| `UartParser.SplitOff` | src/pytest_mes_core/utils/uart_parser.py:62-67 | the right-hand split gives the complete lines and the unfinished one |
| `UartParser.CleanAll` | src/pytest_mes_core/utils/uart_parser.py:69-72 | the loop strips lines and drops blank ones |
| `UartParser.TwoLevelSplit` | src/pytest_mes_core/utils/uart_parser.py:60-72 | splitting at CR or LF is splitting at LF and then each piece at CR |
| `UartParser.AgreesWithEventStream` | src/pytest_mes_core/utils/uart_parser.py:51-72 | parser and event stream yield the same lines if and only if no line has two visible parts between bare CRs and the unfinished line has none closed by one |
| `UartParser.CrLfTextIsTame` | src/pytest_mes_core/utils/uart_parser.py:51-72 | they agree on every text whose CRs all precede an LF |
| `UartParser.BareCrDisagrees` | src/pytest_mes_core/utils/uart_parser.py:60-72 | a concrete text with a bare CR on which they differ |
| `Watchdog.UartKernelWatchdog.OnChunk` | src/pytest_mes_core/transports/watchdog.py:98-128 | a panic is reported if and only if unmuted and a token is in the newest 1024 bytes received since the last mute switch |
| `Watchdog.UartKernelWatchdog.SetMute` | src/pytest_mes_core/transports/watchdog.py:67-71 | muting forgets the window and keeps the verdict |
| `Watchdog.UartKernelWatchdog.SetUnmute` | src/pytest_mes_core/transports/watchdog.py:73-77 | so does unmuting |
| `Watchdog.OnlyUnmutedBytes` | src/pytest_mes_core/transports/watchdog.py:67-77 | what an unmuted watchdog knows are exactly the chunks since the last switch, all received unmuted |
| `Watchdog.RunIsSound` | src/pytest_mes_core/transports/watchdog.py:67-128 | over every run of chunks and mute switches, a report names a token that was completed in bytes received unmuted since the last switch, whatever the chunk sizes |
| `Watchdog.SmallChunkCaught` | src/pytest_mes_core/transports/watchdog.py:102-105 | a chunk of at most 1025 - m bytes cannot hide a token of length m |
| `Watchdog.BigChunkMissed` | src/pytest_mes_core/transports/watchdog.py:102-105 | one byte more can: a chunk of 1026 - m bytes, or of one byte for a token longer than the window, hides it |
| `Watchdog.ChunkBoundIsExact` | src/pytest_mes_core/transports/watchdog.py:102-105 | so chunks of up to b bytes, if any come, never hide a token of length m if and only if b + m <= 1025, for every token |
| `Watchdog.RunIsExact` | src/pytest_mes_core/transports/watchdog.py:67-128 | under that bound, over every run and so at every step of it, the window reports a panic if and only if an unbounded search since the last mute switch finds one |
| `Watchdog.RunBoundIsExact` | src/pytest_mes_core/transports/watchdog.py:67-128 | the bound is exact over whole runs: with chunks of up to b bytes window and unbounded search agree in every run if and only if b suffices, with the failing run built in the proof |
| `Watchdog.UartKernelWatchdog.IsPanicked` | src/pytest_mes_core/transports/watchdog.py:79-80 | the panic flag of the object tells whether a token arrived in the whole history: always when it is set, and under the bound exactly |
| `Multiplexer.UnboundedExactlyOnce` | src/pytest_mes_core/transports/serial_client.py:57-94 | for one unbounded queue, under every order of puts, gets and drains: what was got plus what waits is what was offered since the last drain, in order and once each |
| `Multiplexer.EveryChunkAccounted` | src/pytest_mes_core/transports/serial_client.py:57-94 | every chunk offered to an unbounded queue was got, was thrown away by a flush while it waited, or waits, in order and once each |
| `Multiplexer.SubscriberExactlyOnce` | src/pytest_mes_core/transports/serial_client.py:57-94 | over every interleaving of subscribe, unsubscribe, receive, get and flush: what an unbounded subscriber got, lost to flushes and has waiting is exactly what the receiver published between its subscription and its removal; got plus waiting is what was published since the last flush |
| `Multiplexer.DefaultSubscriberIsNewest` | src/pytest_mes_core/transports/serial_client.py:79-94 | the default queue is the newest of what the receiver published since the last flush, 2048 chunks at most |
| `Multiplexer.DefaultQueueIsNewest` | src/pytest_mes_core/transports/serial_client.py:79-94 | a drop-oldest queue is always the newest suffix of what it was offered, never over capacity |
| `Multiplexer.DefaultQueueUnread` | src/pytest_mes_core/transports/serial_client.py:79-94 | unread, it is exactly the newest `maxsize` chunks, so nothing is dropped early |
| `Multiplexer.BoundedKeepsOldest` | src/pytest_mes_core/transports/serial_client.py:79-94 | any other bounded queue keeps the oldest chunks instead |
| `Multiplexer.ChunkQueue.Put` | src/pytest_mes_core/transports/serial_client.py:80-94 | an offered chunk, with drop-oldest on the default queue only |
| `Multiplexer.ChunkQueue.Get` | src/pytest_mes_core/transports/serial_client.py:381-385 | takes the oldest chunk, or reports an empty queue |
| `Multiplexer.ChunkQueue.Drain` | src/pytest_mes_core/transports/serial_client.py:365-369 | the drain loop empties the queue |
| `Multiplexer.SerialMultiplexer.constructor` | src/pytest_mes_core/transports/serial_client.py:39-40 | the default queue of capacity 2048 is the first subscriber |
| `Multiplexer.SerialMultiplexer.Subscribe` | src/pytest_mes_core/transports/serial_client.py:57-61 | a fresh empty queue is added behind the others and will see the history from here on; every queue stays in step with its stretch of the history |
| `Multiplexer.SerialMultiplexer.Unsubscribe` | src/pytest_mes_core/transports/serial_client.py:63-66 | exactly the given queue leaves and its stretch ends here; an unknown one changes nothing |
| `Multiplexer.SerialMultiplexer.Broadcast` | src/pytest_mes_core/transports/serial_client.py:79-94 | every subscriber is offered the chunk once, nobody else, and every queue stays in step with the history |
| `Multiplexer.SerialMultiplexer.FlushBuffers` | src/pytest_mes_core/transports/serial_client.py:364-369 | every subscriber is drained, nobody else, and every queue stays in step with the history |
| `Multiplexer.SerialMultiplexer.Read` | src/pytest_mes_core/transports/serial_client.py:381-385 | a reader gets the oldest waiting chunk of its queue, subscribed or not any more, and disturbs nobody |
| `CommandFraming.DecimalRoundTrip` | src/pytest_mes_core/transports/serial_client.py:292-314 | the exit code printed in decimal is read back |
| `CommandFraming.LastExit` | src/pytest_mes_core/transports/serial_client.py:317-317 | the last marker is the real one, whatever stands in front of it, unless another follows |
| `CommandFraming.NoEarlierExit` | src/pytest_mes_core/transports/serial_client.py:312-314 | no marker with a number comes before the real one |
| `CommandFraming.ExitCodeOfConsole` | src/pytest_mes_core/transports/serial_client.py:310-316 | the exit code is extracted exactly |
| `CommandFraming.LastStart` | src/pytest_mes_core/transports/serial_client.py:322-324 | the last start marker is the real one |
| `CommandFraming.BodyOfConsole` | src/pytest_mes_core/transports/serial_client.py:317-324 | without a later exit marker, what is left between the markers is exactly the output |
| `CommandFraming.NewlinesInvisible` | src/pytest_mes_core/transports/serial_client.py:326-333 | the framing newlines add no line, be they LF or CRLF |
| `CommandFraming.LinesAcross` | src/pytest_mes_core/transports/serial_client.py:326-333 | a newline, LF or CRLF, separates the cleaned lines in front of it from those behind it |
| `CommandFraming.BodyWithLateMarker` | src/pytest_mes_core/transports/serial_client.py:317-324 | with an exit marker in the trailing text, everything up to the last one counts as output, or what follows a start marker in front of it |
| `CommandFraming.ExtractionIsExact` | src/pytest_mes_core/transports/serial_client.py:286-334 | for every token, echo, output, exit code and trailing text: if the output holds neither marker and the echo no exit marker with a number, extraction returns exactly the code; it returns exactly the cleaned lines of the output unless the trailing text holds an exit marker, and then those of `Returned` |
| `CommandFraming.LateMarkerIff` | src/pytest_mes_core/transports/serial_client.py:317-333 | with a later exit marker and no start marker in front of it, the output comes back exactly if and only if the prompt is in the marker line and nothing visible lies between the markers |
| `CommandFraming.LateMarkerLeaks` | src/pytest_mes_core/transports/serial_client.py:317-333 | a trailing text for which the marker line itself comes back as output |
| `CommandFraming.CleanLines` | src/pytest_mes_core/transports/serial_client.py:325-333 | the loop computes `OutputLines`, whose lines `CommandOutput.OutputIsKept` characterises |
| `CommandFraming.Extract` | src/pytest_mes_core/transports/serial_client.py:309-339 | the step-by-step reassignment computes exit code and output, on a shell and on a boot loader console |
| `SafeRun.Expect` | src/pytest_mes_core/transports/serial_client.py:206-213 | the receive loop returns the text at the first chunk with which the prompt is in it, or times out |
| `SafeRun.ExpectedIsFirst` | src/pytest_mes_core/transports/serial_client.py:206-213 | a text comes back if and only if some beginning that ends with a chunk holds the prompt, and it is the first such beginning |
| `SafeRun.CutExitCode` | src/pytest_mes_core/transports/serial_client.py:309-316 | on every beginning of a framed console text the exit code is read exactly if and only if all its digits are there: in front of them it is -2, between them too small |
| `SafeRun.CodeIsExactIff` | src/pytest_mes_core/transports/serial_client.py:206-316 | over every cut of the console text into chunks, complete or not, the exit code comes back exactly if and only if the prompt is shown and no beginning that ends with a chunk in front of the finished exit line holds it |
| `SafeRun.LinesAreExact` | src/pytest_mes_core/transports/serial_client.py:317-334 | and then the lines are those of the output, or those of `Returned` for the part of the trailing text that was seen |
| `SafeRun.EveryCutIff` | src/pytest_mes_core/transports/serial_client.py:206-316 | for a console text that shows the prompt: every cut returns the exit code if and only if the text in front of its last digit does not hold the prompt |
| `SafeRun.PromptInOutputCuts` | src/pytest_mes_core/transports/serial_client.py:206-316 | for every output that holds the prompt, a cut with which the exit code is lost |
| `SafeRun.Run` | src/pytest_mes_core/transports/serial_client.py:270-349 | the whole call: blank command, timeout, shell and boot loader, and when `check_exit_code` raises |
| `CommandOutput.KernelLogIff` | src/pytest_mes_core/transports/serial_client.py:26-26 | a line is taken for a kernel log exactly if it is a bracket, white space, digits, a point, digits, a bracket and anything |
| `CommandOutput.LineComesBackIff` | src/pytest_mes_core/transports/serial_client.py:325-333 | a line comes back, stripped, exactly if something in it is visible, the prompt is not in it and it is no kernel log |
| `CommandOutput.JoinSplits` | src/pytest_mes_core/transports/serial_client.py:326-334 | splitting what was joined gives the lines back |
| `CommandOutput.SplitJoins` | src/pytest_mes_core/transports/serial_client.py:326-334 | and every text is its lines joined |
| `CommandOutput.OutputIsKept` | src/pytest_mes_core/transports/serial_client.py:325-334 | of any output exactly those lines come back, in order |
| `CommandOutput.RunReturnsKept` | src/pytest_mes_core/transports/serial_client.py:309-334 | and so they do of every console text, cut anywhere, that holds all of the exit code |
| `CommandOutput.RunFramed` | src/pytest_mes_core/transports/serial_client.py:270-341 | end to end, over every cut: a shell command whose prompt does not show early returns its exit code and those lines; output made of such lines comes back unchanged |
| `BootWatch.AwaitLoader` | src/pytest_mes_core/state_machine.py:845-878 | the loop ends with the verdict of the first decisive event: panic, the first write that fails, prompt of the loader or of the trap, or the end of the stream; it writes what its events call for up to there |
| `BootWatch.AwaitShell` | src/pytest_mes_core/state_machine.py:888-927 | the same for the shell prompt, answering login, password and boot loader prompts on the way; any of these writes may be the one that fails |
| `BootWatch.ReachedIff` | src/pytest_mes_core/state_machine.py:845-927 | a wait reaches its prompt if and only if the prompt is the first decisive event and the writes on the way there all worked |
| `BootWatch.LoaderTypes` | src/pytest_mes_core/state_machine.py:856-866 | with working writes the wait for the loader writes three interrupts if the countdown is announced before its end, a line feed if the prompt is reached, and nothing else |
| `BootWatch.InterruptsIff` | src/pytest_mes_core/state_machine.py:848-862 | the countdown is interrupted exactly if some beginning of the text shows it before any panic and no earlier chunk completed a prompt |
| `BootWatch.ShellTypes` | src/pytest_mes_core/state_machine.py:905-920 | which events the wait for a shell answers: login, password and loader prompts that come before the shell |
| `BootWatch.ShellAnswersInText` | src/pytest_mes_core/state_machine.py:888-920 | user, password and `boot` are written exactly if a beginning of the text shows their prompts and neither the shell nor a panic |
| `BootWatch.LoaderReachedInText` | src/pytest_mes_core/state_machine.py:845-878 | with working writes the loader's prompt is reached if and only if some beginning of the console text holds it, or the trap's, and no panic |
| `BootWatch.ShellReachedInText` | src/pytest_mes_core/state_machine.py:888-927 | with working writes the shell is reached if and only if some beginning of the console text holds its prompt and no panic |
| `BoardFsm.StateMachine.Align` | src/pytest_mes_core/state_machine.py:660-688 | alignment never returns with DIRTY, probes exactly when it must, and never invents POWER_OFF for a powered board if the probe is faithful |
| `BoardFsm.StateMachine.ApplyBootstrap` | src/pytest_mes_core/state_machine.py:690-721 | when straps are moved, when they are silently left, when it raises; on a normal return they match the medium if and only if the station can strap it or they stood there before |
| `BoardFsm.StateMachine.DoHardwareReset` | src/pytest_mes_core/state_machine.py:723-741 | a pin pulse, or a power cycle without a pin |
| `BoardFsm.StateMachine.DoPowerOff` | src/pytest_mes_core/state_machine.py:743-767 | exactly when it returns; a normal return leaves the board unpowered and SSH down; power never comes on |
| `BoardFsm.StateMachine.DoEnergize` | src/pytest_mes_core/state_machine.py:769-824 | exactly when it returns, and exactly when power is on afterwards, raised or not |
| `BoardFsm.StateMachine.WaitForBootloader` | src/pytest_mes_core/state_machine.py:845-878 | returns if and only if the prompt is reached on the console and the command sent to it echoes MES_SYNC |
| `BoardFsm.StateMachine.WaitForShell` | src/pytest_mes_core/state_machine.py:888-927 | returns if and only if the shell prompt is reached on the console; raises a timeout if and only if nothing decisive came |
| `BoardFsm.StateMachine.FinalizeOsBoot` | src/pytest_mes_core/state_machine.py:934-957 | returns if and only if SSH is connected afterwards |
| `BoardFsm.StateMachine.TryResumeExistingOs` | src/pytest_mes_core/state_machine.py:1110-1141 | true exactly with a heartbeat heard in this call, over SSH or else over the console; which console faults are swallowed and which propagate |
| `BoardFsm.StateMachine.TryHotLogin` | src/pytest_mes_core/state_machine.py:1143-1152 | true exactly with a shell prompt seen in this call and SSH connected; only timeouts count as a mere failure |
| `BoardFsm.StateMachine.RebootDut` | src/pytest_mes_core/state_machine.py:1100-1108 | a dying transport is tolerated, and SSH is down afterwards |
| `BoardFsm.StateMachine.SetTrapAndReboot` | src/pytest_mes_core/state_machine.py:827-836 | puts the boot command aside, sets the trap and reboots, in this order; returns if and only if both environment writes succeed and the reboot at most loses its transport |
| `BoardFsm.StateMachine.ColdBootToBootloader` | src/pytest_mes_core/state_machine.py:324-358 | both strategies end with the boot loader's echo, through the stages of their kind in order; returns if and only if every stage does, and power is on if and only if it was or the first stage took |
| `BoardFsm.StateMachine.TrapFromShell` | src/pytest_mes_core/state_machine.py:352-358 | the middle of the trap strategy: shell, SSH and trap in order, returning if and only if each does |
| `BoardFsm.StateMachine.ColdBootToOs` | src/pytest_mes_core/state_machine.py:336-362 | both strategies end with a shell prompt, through their stages in order; returns if and only if every stage does |
| `BoardFsm.StateMachine.ResumeBootloaderToOs` | src/pytest_mes_core/state_machine.py:341-366 | on a trap station the three commands that undo the trap, then the boot command, then the shell; exactly when it returns, and what was typed even if the shell does not come up |
| `BoardFsm.StateMachine.RestoreTrap` | src/pytest_mes_core/state_machine.py:838-843 | the three commands in order; none of their results is looked at |
| `BoardFsm.StateMachine.BootFromLoader` | src/pytest_mes_core/state_machine.py:880-886 | the boot command and then the wait for a shell |
| `BoardFsm.StateMachine.SoftReboot` | src/pytest_mes_core/state_machine.py:648-658 | user, password if there is one, and `reboot` are typed, returning if and only if each write does |
| `BoardFsm.StateMachine.HwPowerOff` | src/pytest_mes_core/state_machine.py:1005-1009 | the board is unpowered on a normal return; one found off is not touched |
| `BoardFsm.StateMachine.HwEnergize` | src/pytest_mes_core/state_machine.py:1011-1025 | ends with the requested medium; straps move only on an unpowered board and match the medium if and only if they can follow; the whole intervention is one of three sequences; from an unpowered board exactly when it returns and exactly when it raises with the power on, with and without a change of medium |
| `BoardFsm.StateMachine.HwBootToBootloader` | src/pytest_mes_core/state_machine.py:1027-1056 | ends with the requested medium and fresh evidence of the boot loader, unless it already stood there; from an unpowered board exactly when it returns and exactly when it raises with the power on |
| `BoardFsm.StateMachine.HwBootToOs` | src/pytest_mes_core/state_machine.py:1058-1087 | never falls through: every normal return has SSH connected and a heartbeat or shell prompt as the last thing that happened; power is cut only after resuming and logging in have failed; from an unpowered board exactly when it returns and exactly when it raises with the power on |
| `BoardFsm.StateMachine.RouteToOs` | src/pytest_mes_core/state_machine.py:1065-1087 | the chain behind the alignment, from every state, as one of the routes of `OsRoute` |
| `BoardFsm.StateMachine.ResumeRouteToOs` | src/pytest_mes_core/state_machine.py:1065-1070 | from OS_USERLAND: a heartbeat, or a reset and the route from ENERGIZED |
| `BoardFsm.StateMachine.LoginRouteToOs` | src/pytest_mes_core/state_machine.py:1071-1082 | from ENERGIZED: a shell prompt, or a reset and then a full cold start |
| `BoardFsm.StateMachine.ColdStartOs` | src/pytest_mes_core/state_machine.py:1076-1083 | power is cut unless POWER_OFF is recorded, then straps, power and shell in this order; ends on the target medium with power on |
| `BoardFsm.StateMachine.Restrap` | src/pytest_mes_core/state_machine.py:1016-1019 | the medium is recorded only once the straps were taken, and the straps match it if and only if they can follow |
| `BoardFsm.StateMachine.RouteToBootloader` | src/pytest_mes_core/state_machine.py:1039-1056 | from each running or unpowered state exactly when it returns; a reboot from Linux, on a trap station behind the trap, a typed reboot without a supply, or a cold start, and then the loader's echo |
| `BoardFsm.StateMachine.LoaderRouteToOs` | src/pytest_mes_core/state_machine.py:1084-1087 | from BOOTLOADER exactly when it returns, with the trap undone and the boot command given before the prompt |
| `BoardFsm.StateMachine.LoaderFromHere` | src/pytest_mes_core/state_machine.py:1029-1056 | the transition to BOOTLOADER from every aligned state |
| `BoardFsm.StateMachine.EnergizeFromHere` | src/pytest_mes_core/state_machine.py:1013-1025 | the transition to ENERGIZED from every aligned state |
| `BoardFsm.StateMachine.RecoveryFromHere` | src/pytest_mes_core/state_machine.py:1156-1162 | the transition to RECOVERY from every aligned state |
| `BoardFsm.StateMachine.Send` | src/pytest_mes_core/state_machine.py:827-886 | every command typed is in the history, taken or not; a checked one raises unless answered as hoped, an unchecked one only with its transport |
| `BoardFsm.StateMachine.HwToRecovery` | src/pytest_mes_core/state_machine.py:1154-1162 | the recovery strap is held before power comes on; the recorded medium is kept; exactly whether the pin is set afterwards, raised or not, and cleared on a normal return; from an unpowered board exactly when it returns and exactly when it raises with the power on |
| `BoardFsm.StateMachine.TriggerRecovery` | src/pytest_mes_core/state_machine.py:396-412 | strap first, then power, and a pin is cleared with the power on; exactly when it returns, when power comes on and when the pin stays set |
| `BoardFsm.StateMachine.Fire` | src/pytest_mes_core/state_machine.py:505-513 | only a normal return reaches the destination; POWER_OFF is recorded for a powered board afterwards if and only if this trigger leaves the board live, for every trigger, state and medium; the boot straps match the recorded medium if and only if they can follow, and none moves live if POWER_OFF was right; the recovery pin changes with `boot_to_recovery` alone and exactly as `HeldAfter` says; every command typed stands in its place; from BOOTLOADER to Linux, and to BOOTLOADER on the medium at hand, exactly whether it returns and what was typed; the trace is the specified one, the power field agrees with its replay and is on after every trigger to a running state; nothing fails if nothing outside does |
| `BoardFsm.StateMachine.Run` | src/pytest_mes_core/state_machine.py:505-513 | over every run, whatever raises, in terms of what each trigger left behind: POWER_OFF is right after every trigger if and only if no trigger leaves the board live where it finds it, and then no boot strap moved on a powered board; without a raise the straps match after every trigger if and only if they can follow every change of medium; the recovery pin is as `HeldAfter` says after every trigger; a trap is set only right after the boot command was put aside, and on a trap station Linux is booted from the loader only right after the trap was undone; if nothing outside fails, nothing raises |
| `BoardFsm.StateMachine.RunTidily` | src/pytest_mes_core/state_machine.py:505-513 | with `mark_dirty` after each raise POWER_OFF is right and no boot strap moves live in every run |
| `BoardFsm.TraceIsPhysical` | src/pytest_mes_core/state_machine.py:1005-1162 | replaying the power facts of every trigger's specified trace shows every strap moved live exactly where the trace says so, and no boot strap; power is off after `power_off` and on after the others; `Fire` ties the trace to the log and its replay to the power field |
| `BoardFsm.RaisedEnergizeMisleads` | src/pytest_mes_core/state_machine.py:1011-1025 | a concrete run after which a powered board is recorded as POWER_OFF |
| `BoardFsm.RaisedEnergizeIsUnsafe` | src/pytest_mes_core/state_machine.py:1011-1087 | a concrete run in which a raised `energize` is followed by `boot_to_os` and a strap moves on a powered board |
| `BoardFsm.UnmappedMediumMismatches` | src/pytest_mes_core/state_machine.py:690-721 | a concrete run without a strap map after which the straps do not match the recorded medium |
| `BoardFsm.RecoveryStrapStaysHeld` | src/pytest_mes_core/state_machine.py:396-420 | a concrete run in which a raised `boot_to_recovery` is followed by a normal `energize` and the board is powered with the recovery pin set |
| `BootEnv.TrapRoundTrip` | src/pytest_mes_core/state_machine.py:827-843 | from any environment with the product's own boot command, the trap and its removal bring it back if and only if the loader heeded restoring and saving |
| `BootEnv.UndoneIff` | src/pytest_mes_core/state_machine.py:838-843 | from any environment, what the three commands leave on disk, heeded or not |
| `BootEnv.BootsRestoredIff` | src/pytest_mes_core/state_machine.py:341-366 | over every history: whenever Linux is booted from the loader of a trap station the three commands stand right before it, and the boot command is back if and only if they brought it back |
| `BootEnv.TrapKeepsOriginalIff` | src/pytest_mes_core/state_machine.py:827-836 | over every history: a trap keeps the product's own command if and only if it was in place when the trap was set |
| `BootEnv.RunFromStart` | src/pytest_mes_core/state_machine.py:505-513 | both for every run of a fresh machine, whatever raises; a station with autoboot never touches the environment |
| `BootEnv.RestoreErases` | src/pytest_mes_core/state_machine.py:838-843 | a concrete run from a loader without a trap after which the boot command is erased |
| `BootEnv.RestoreUnheeded` | src/pytest_mes_core/state_machine.py:838-843 | a concrete run that returns with the trap still set |
| `BootEnv.RetryErases` | src/pytest_mes_core/state_machine.py:838-886 | a concrete run in which a timed-out `boot_to_os` is tried again and the boot command is erased |
| `BootEnv.SecondTrapLoses` | src/pytest_mes_core/state_machine.py:827-836 | a concrete run in which a second trap replaces the saved boot command by the first |
| `Failover.CommandsNotDuplicated` | src/pytest_mes_core/transports/failover.py:124-158 | in every interleaving a command is issued at most once per transport, and on both only if marked for retry |
| `Failover.CallsStep` | src/pytest_mes_core/transports/failover.py:30-158 | every step of caller, probe, panic callback and links keeps that invariant |
| `Failover.RetryArrives` | src/pytest_mes_core/transports/failover.py:145-155 | whatever the other threads do, a retryable command that lost the primary stays on its way until it is issued on the fallback, unless the wake-up call fails |
| `Failover.RetryOnFallback` | src/pytest_mes_core/transports/failover.py:145-158 | after a severed primary and a good wake-up the flag is up, and the command is issued on the fallback if and only if it was marked for retry |
| `Failover.CallOnFallback` | src/pytest_mes_core/transports/failover.py:140-142 | a call that finds the flag up is issued on the fallback alone |
| `Failover.FailoverNeedsLoss` | src/pytest_mes_core/transports/failover.py:96-150 | in every interleaving a failover was preceded by the loss of the primary during a command or a connect |
| `Failover.PanicSevers` | src/pytest_mes_core/transports/failover.py:49-57 | a panic severs the primary, so that the next connect re-arms both links |
| `Failover.PrimaryOnlyWhenTrusted` | src/pytest_mes_core/transports/failover.py:30-158 | if `connect` clears the flag only while the recovery probe is not in the middle of a cycle, no command reaches the primary after a failover before a later ping or connect has succeeded |
| `Failover.GuardStep` | src/pytest_mes_core/transports/failover.py:30-158 | every such step keeps the invariant that proves it |
| `Failover.UndisciplinedClearIsUnsafe` | src/pytest_mes_core/transports/failover.py:37-44 | any run that clears the flag while a probe is under way can be continued into a command on an untrusted primary |
| `Failover.UndisciplinedClearIsReachable` | src/pytest_mes_core/transports/failover.py:96-98 | and such a run exists |
| `Failover.PermanentWhileUncleared` | src/pytest_mes_core/transports/failover.py:8-16 | the documented permanent shift: in every interleaving in which nothing takes the flag back, no command reaches the primary after a failover |
| `Failover.ShiftIsNeverPermanent` | src/pytest_mes_core/transports/failover.py:8-46 | but every interleaving with a failover can be continued into a command on the primary, by the recovery thread if it runs and by a reconnect if not |
| `Failover.ShiftFailsBack` | src/pytest_mes_core/transports/failover.py:30-47 | a concrete run that does so without a second connect |
| `Failover.ReconnectStrands` | src/pytest_mes_core/transports/failover.py:63-117 | a disconnect that does not outwait a ping, and a connect behind it, leave no recovery thread |
| `Failover.StrandedStays` | src/pytest_mes_core/transports/failover.py:63-104 | from there every step but a disconnect or the loss of the console keeps the flag up and the thread dead |
| `Tezi.CheckDeadlines` | src/pytest_mes_core/provisioning/tezi_uuu.py:338-357 | the three deadline checks: the media timeout is raised exactly when due, and the flags keep their meaning in terms of the writes and the clock |
| `Tezi.OnShell` | src/pytest_mes_core/provisioning/tezi_uuu.py:359-374 | the probe is written exactly when none was attempted and RX-only mode has not begun |
| `Tezi.OnData` | src/pytest_mes_core/provisioning/tezi_uuu.py:387-443 | the script follows the echo of a probe that is still awaited, the tail follows the media verdict, and absence is raised exactly when reported |
| `Tezi.AttemptsFollowPlan` | src/pytest_mes_core/provisioning/tezi_uuu.py:359-443 | over every event sequence and clock the writes are a prefix of probe, script, tail, each only after the one before it worked and each answering its own event |
| `Tezi.EventsAnswered` | src/pytest_mes_core/provisioning/tezi_uuu.py:359-443 | no event that calls for the next write is passed over while patience lasts |
| `Tezi.OneTurn` | src/pytest_mes_core/provisioning/tezi_uuu.py:334-443 | a turn of the flag machine ends or goes on exactly as the flag-free `VerdictAt` says, and writes exactly what `After` says |
| `Tezi.Provision` | src/pytest_mes_core/provisioning/tezi_uuu.py:304-449 | over every event sequence and clock outcome, writes and the turn that decides are determined. Success comes only with a trusted token, or with the generic prompt while tailing or after the loop gave up writing; a panic is always failure; the media timeout comes only behind a script older than fifteen seconds, and absence only with its token; no earlier turn had any of these reasons; each write answers its own event; the FSM is advanced exactly on success |
| `Tezi.GuardIsIdleIff` | src/pytest_mes_core/provisioning/tezi_uuu.py:288-302 | whatever the stream, a trusted token is seen no later than the generic one if and only if it is inside it; by default it is |
| `Tezi.Install` | src/pytest_mes_core/provisioning/tezi_uuu.py:288-449 | the event stream with idle ticks anywhere between its events feeding the loop: if the generic token contains a trusted one, a console that shows it never ends in plain failure; if no shell shows up, nothing is written and nothing raised; success only if a success token is shown before any panic |
| `Tezi.PanicNeverSucceeds` | src/pytest_mes_core/provisioning/tezi_uuu.py:334-336 | a console on which a panic comes before any success token never ends in success, whatever follows |
| `Tezi.DefaultNeedsNoTail` | src/pytest_mes_core/provisioning/tezi_uuu.py:288-386 | at the default a bare login prompt is success with nothing written |
| `Tezi.GuardHoldsBack` | src/pytest_mes_core/provisioning/tezi_uuu.py:380-386 | a generic token without a trusted one inside, alone on the console in good time, ends in failure |
| `Tezi.FailedTailIsFinal` | src/pytest_mes_core/provisioning/tezi_uuu.py:380-440 | once the write of the tail failed nothing more is written, and no generic prompt is taken for success, for the rest of any run |
| `Tezi.FailedTailFails` | src/pytest_mes_core/provisioning/tezi_uuu.py:380-449 | a concrete run of that kind that ends in failure |
| `AppFsm.SumWithout` | src/pytest_mes_core/mcu_app_state.py:203-206 | the sum of a table does not depend on the order of its entries |
| `AppFsm.SumAdd` | src/pytest_mes_core/mcu_app_state.py:203-206 | adding to one entry, present or not, adds to the sum |
| `AppFsm.CloseVisit` | src/pytest_mes_core/mcu_app_state.py:203-206 | adding the visit that is going on turns closed times into times up to now, entry by entry and in the sum |
| `AppFsm.TimeGoesOn` | src/pytest_mes_core/mcu_app_state.py:195-206 | time goes on in the state being visited and in no other, and a state never visited has none |
| `AppFsm.BaseTransitions` | src/pytest_mes_core/mcu_app_state.py:105-119 | without extensions a transition fires exactly along a step of the boot, or a reset, on the event that asks for it |
| `AppFsm.ResetAlwaysFits` | src/pytest_mes_core/mcu_app_state.py:111-112 | whatever an extension adds, a reset is accepted in every state and leads to OFFLINE |
| `AppFsm.ReadyNeedsBoot` | src/pytest_mes_core/mcu_app_state.py:105-116 | over every history in boot order, nothing beyond OFFLINE is reached without a boot since the last OFFLINE |
| `AppFsm.FeedAll` | src/pytest_mes_core/mcu_app_state.py:105-158 | every series of events leaves a history in boot order, and every reset in it is accepted |
| `AppFsm.McuAppStateMachine.FeedEvent` | src/pytest_mes_core/mcu_app_state.py:145-158 | the first fitting transition fires; an event that fits none changes nothing |
| `AppFsm.McuAppStateMachine.RecordTimestamp` | src/pytest_mes_core/mcu_app_state.py:208-217 | the old visit is closed and the new one opened, also for a reset to the same state |
| `AppFsm.McuAppStateMachine.StateDurations` | src/pytest_mes_core/mcu_app_state.py:195-206 | each duration is the time spent in that state; they are non-negative and sum to now minus the first accepted transition, which is the age of the object if and only if that transition came at once |
| `AppFsm.InitialTimeIsMissing` | src/pytest_mes_core/mcu_app_state.py:195-206 | a concrete run whose times add up to less than the age of the object |
| `Efuse.HexRoundTrip` | src/pytest_mes_core/protocols/efuse.py:36-48 | a dump is read back as the same bytes |
| `Efuse.CanonicalIffNoGap` | src/pytest_mes_core/protocols/efuse.py:69-71 | normalised payload text equals the dump of its bytes if and only if no white space but blanks was in it |
| `Efuse.PayloadMeansBytes` | src/pytest_mes_core/protocols/efuse.py:69-71 | two digits of either case per byte, `0x` in front of any of them and blanks anywhere: the payload text means its bytes |
| `Efuse.FuseBank.ReadEfuse` | src/pytest_mes_core/protocols/efuse.py:20-48 | the dump of the region, or an error if the region is not all there |
| `Efuse.FuseBank.Inspect` | src/pytest_mes_core/protocols/efuse.py:82-93 | already burnt, dirty, blank or unreadable, each exactly when it is so |
| `Efuse.FuseBank.WriteAndVerify` | src/pytest_mes_core/protocols/efuse.py:94-128 | the write touches only blank bytes, and passes exactly when the readback equals the payload text |
| `Efuse.FuseBank.BurnBytes` | src/pytest_mes_core/protocols/efuse.py:82-128 | every verdict and the decision to write, each exactly when: unreadable, dirty, passed; no non-zero byte ever changes; passed means gap-free text and a region that holds the payload |
| `Efuse.FuseBank.BurnEfuse` | src/pytest_mes_core/protocols/efuse.py:51-128 | the same from payload text, with the malformed text and the alignment warning; on good silicon a blank region passes if and only if the text has no white space but blanks |
| `Efuse.FuseBank.BurnWritten` | src/pytest_mes_core/protocols/efuse.py:51-128 | a burn of bytes however written: if it passes, the region holds them, and on good blank silicon it does |
| `Efuse.FuseBank.BurnAll` | src/pytest_mes_core/protocols/efuse.py:51-128 | over every series of requests, overlapping or not, a burnt byte keeps its value, and every passed payload still has its non-zero bytes in place at the end |
| `Efuse.FuseBank.BurnAgain` | src/pytest_mes_core/protocols/efuse.py:51-128 | after a passed burn and any series of other burns, the same burn never writes again; it passes again if and only if the region can be read and still equals the payload, and right afterwards it always does |
| `Efuse.TabbedPayloadFails` | src/pytest_mes_core/protocols/efuse.py:69-128 | two bytes with a tab between them are burnt into good silicon and reported as failed |
| `PsuSweep.GuardCounts` | src/pytest_mes_core/instruments/fnirsi_dps150.py:637-638 | the loop guard lets through exactly the first floor(abs(stop - start)/step + 1/100) + 1 points |
| `PsuSweep.ClampIsSlight` | src/pytest_mes_core/instruments/fnirsi_dps150.py:639-639 | clamping moves a point by at most a hundredth of a step |
| `PsuSweep.Dps150.Set` | src/pytest_mes_core/instruments/fnirsi_dps150.py:416-430 | out of range is refused and nothing is written |
| `PsuSweep.Dps150.Sweep` | src/pytest_mes_core/instruments/fnirsi_dps150.py:590-748 | every valid sweep ends, with the output off; it commands exactly the clamped points, all in range, up to the first reaction that ends it; nothing is commanded behind a reading whose callback said abort, and the ending is then Aborted; a completed one commands them all; the readings are exactly those taken |
| `PsuSweep.SamplesAre` | src/pytest_mes_core/instruments/fnirsi_dps150.py:643-651 | a reading is reported exactly for each step that was read, with what was read, in the order of the steps |
| `LogVacuum.PollIsExact` | src/pytest_mes_core/transports/chunking.py:95-101 | a poll is taken over line for line if and only if none of its lines is blank and its two ends are not trimmable |
| `LogVacuum.NewLinesUntrimmed` | src/pytest_mes_core/transports/chunking.py:97-97 | whatever is printed, what is kept is never blank and its two ends are not trimmable |
| `LogVacuum.PollTakes` | src/pytest_mes_core/transports/chunking.py:95-101 | what a poll takes of any log: its visible lines, the first without its indentation and the last without its trailing white space |
| `LogVacuum.TurnIff` | src/pytest_mes_core/transports/chunking.py:95-101 | a good poll goes on from the first n lines of the log to the first n' if and only if it finds its blank lines last and untrimmable ends in front of them |
| `LogVacuum.ExactIffClean` | src/pytest_mes_core/transports/chunking.py:70-115 | over every run of good, failed and severing polls against an append-only log: the buffer is the beginning of the log after every turn if and only if every good poll finds such a tail |
| `LogVacuum.PollableRun` | src/pytest_mes_core/transports/chunking.py:70-115 | on a log of lines that neither begin nor end with white space every run is such, and ends with the whole log as of the last good poll |
| `LogVacuum.BlankLineRepeats` | src/pytest_mes_core/transports/chunking.py:96-101 | two polls of a log with a blank line collect its last line twice |
| `LogVacuum.HostSideBuffer.Start` | src/pytest_mes_core/transports/chunking.py:28-48 | a running vacuum is left alone, a stopped one starts empty |
| `LogVacuum.HostSideBuffer.PollOnce` | src/pytest_mes_core/transports/chunking.py:70-115 | on any log, after good, failed and severing polls alike: what was collected stays, and exactly the new lines of a good poll are added and counted |
| `LogVacuum.HostSideBuffer.PollLoop` | src/pytest_mes_core/transports/chunking.py:70-115 | the loop over any turns computes `Collect`, to the end or to the first turn that raises |
| `LogVacuum.HostSideBuffer.Stop` | src/pytest_mes_core/transports/chunking.py:50-66 | returns the lines read so far |

## Left out

- ANSI escape stripping, regular-expression engines and UTF-8 decoding: texts are modelled after stripping, panic alternatives and prompts as literal tokens; the negative lookahead of the mmc pattern is not covered.
- Timing: sleeps, retry intervals, active pings and time-outs appear only as outcomes or, where they decide control flow, as arbitrary clock readings.
- `raw_read`, the line writer, the redraw pings and the errors of a closed or failing port of the serial client; what a console shows is arbitrary text.
- CommandFraming.ExtractionIsExact: takes `\d` as the ASCII digits; the exit code is printed by the shell, which is modelled as decimal.
- Watchdog: after a report the loop subscribes anew and may lose chunks in between; each `OnChunk` is one chunk it did get. Mute and unmute are atomic steps.
- EventStream: the timing fields of events and the bus that also receives them.
- BootEnv: replays the environment from the commands in the history, each of which takes effect or not as the outside answers; redundant environments and variables other than the two are left out.
- BoardFsm: what the probe looks at to reach its verdict is not modelled; it may answer anything, and the power results assume that it never takes a powered board for an unpowered one and that the operator does what the prompts ask. Custom states, boot metrics, the device context other than the boot medium, and the prompts of `release_recovery` (which moves no pin) are left out. SSH changes only through the calls made.
- BoardFsm.StateMachine.Fire: says nothing about where the boot straps stand after a trigger that raised.
- BoardFsm.StateMachine.HwBootToOs: makes no claim that a requested medium was applied, because a living or hot-booting board is left on the medium it has.
- Failover: more than one caller thread; the text of commands and results.
- AppFsm: `wait_for` and the callbacks of subclasses.
- Efuse: the shell commands themselves, the parsing of the offset and the kernel trace collected after a rejected write; reads are truthful.
- PsuSweep: floating-point rounding (sweeps are over real numbers); serial faults before the loop and in the final switch-off; `build_packet`, `parse_responses` and the step sweeper of the shmoo tool.
- LogVacuum: a last line that is still being written when it is polled, and the passive branch that reads the console after a failover.
- Tezi: what precedes the event loop (image checks, payload delivery) and the contents of the scripts written.
- Packet messages with struct layouts, MQTT, UDP and debugger transports, device cryptography, GUI, server, plugins, configuration, exporters and the command-string validators: glue or easy bookkeeping.
