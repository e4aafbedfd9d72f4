# Dante/ASIO failover: a verified model of both iterations

The program sits between two playback computers and a Dante Virtual Soundcard.
It exposes 64 inputs through ASIO:
- inputs 0..30 carry the primary computer's channels and input 31 its pilot tone;
- inputs 32..62 carry the secondary computer's channels and input 63 its pilot;
- outputs start at channel 64.

On every audio block the ASIO callback does three things:
- it inspects the two pilots;
- it decides whether the primary computer has gone silent (failover);
- it copies 31 channels of the selected bank to outputs 64..94.

The selection is `failOver XOR manualSwitch`.

A MIDI trigger message, which the operator can learn from the network, flips the manual switch. A console accepts three commands:
- `M` learns the trigger;
- `R` restarts;
- `S` stops.

There are two iterations of the program:

- **main.cpp** (module `MainFailover`):
  - The detector fires when any one position of the 64-byte pilot window is zero on the primary pilot and non-zero on the secondary.
  - The callback clears `failOver` before it returns, so each block is judged on its own.
  - The trigger only toggles the manual switch.
- **driver.cpp** (module `DriverFailover`):
  - The detector counts non-zero bytes. It fires only when the primary window is wholly silent and the secondary is not.
  - The detector runs only while `failOver` is clear, and the callback never clears the flag: failover latches.
  - A trigger received while failed over reverts to the primary computer. Otherwise the trigger toggles the manual switch.

Shared modules:

- **`Layout`**: the byte type and the channel-layout constants.
- **`CString`**: `memcpy`, and `strncmp` as section 7.24.4.4 of ISO C11 defines it.
- **`Midi`**: poll sequences, which stand in for libremidi's `get_message`, plus the captured message and the match count.
- **`Asio`**: what the two files contain word for word:
  - the selector symbols;
  - the buffer table;
  - the routing expression;
  - the 31-channel copy loop;
  - the `asioMessages` callback.

  Each of these is defined once. Its row below cites main.cpp and names the matching lines of driver.cpp.
- **`Detectors`**: compares the two detectors.

The shared state of each program becomes a class `DriverInfo`:
- the flags are fields;
- the buffer table is a `BufferTable` of channel double buffers (`array<byte>`);
- the callback, readMidi, learnMidi, the console command switch and the end of the outer loop are methods on that class.

Each method is proved against a pure transition function on a `Flags` value, and the lemmas are stated about those functions.

Trigger comparison follows the code. Although a trigger is described as matching byte for byte, both files compare with `strncmp(…, 3)`, which stops after the first NUL byte the two messages share. `CString.NulEndsComparison` exhibits two different messages that compare equal.

Each pass of the outer loop reads the trigger back from prog.dat into a zeroed three-byte record. A learn session that times out leaves prog.dat empty. The trigger stays in force until the next restart, after which it is 0,0,0 and no MIDI message with a non-zero status byte matches it (`Midi.EmptiedStoreNeverMatches`).

## Model

| member | source | states |
|---|---|---|
| Asio.StartChan | main.cpp:119-121 | the routed bank starts at input 32 iff exactly one of failOver and manualSwitch is set, and at 0 iff they are equal (driver.cpp:120 is the same expression) |
| Asio.EitherFlagFlipsBank | main.cpp:121 | flipping either flag alone routes the other bank |
| Asio.PilotRoles | main.cpp:105-108 | the pilots called primary and secondary are {31, 63} in some order; primary is 31 iff the manual switch is off (the same choice as driver.cpp:101-102) |
| Asio.AsioMessages | main.cpp:171-232 | a supported-selector query answers 1 iff the value is one of the seven listed selectors; EngineVersion answers 2; ResetRequest, ResyncRequest, LatenciesChanged and SupportsTimeInfo answer 1; SupportsTimeCode and unknown selectors answer 0; a pure function, so no state changes (the reset branch's flag read is discarded); driver.cpp:166-227 is the same table |
| Asio.CopyChannels | main.cpp:124-126 | the memcpy loop: each destination's first n bytes become its source's, its remaining bytes are kept, and only the destinations are written |
| Asio.BufferTable.CopyBank | main.cpp:124-126 | half `index` of output 64+i holds the first buffSize*3 bytes of input startChan+i, half (index+1)%2, followed by its own old bytes past buffSize*3; only half `index` of outputs 64..94 may change; driver.cpp:122-124 is the same loop |
| Asio.BufferTable.CopyLists | main.cpp:125 | the 31 destination and source buffers of the copy loop, in channel order; the destinations are pairwise distinct, never a source, and all among the output halves the callback may write |
| CString.Memcpy | main.cpp:125 | the first n bytes of the destination become the source's, the rest are kept |
| CString.StrnEqual | main.cpp:240 | strncmp over n bytes: a difference in the first byte makes the strings unequal, and a NUL shared in the first byte makes them equal whatever follows (the same call is driver.cpp:235) |
| CString.StrnEqualIffAgreeToNul | main.cpp:240 | strncmp over n bytes reports equality iff the messages agree at every position up to and including the first NUL of the first one |
| CString.EqualPrefixesMatch | driver.cpp:235 | messages whose first n bytes are identical always compare equal |
| CString.NulEndsComparison | main.cpp:240 | two different messages whose difference lies past a shared NUL byte compare equal |
| Midi.FirstReceived | main.cpp:260-263 | the index of the first poll that delivered a message; no earlier poll delivered one; none iff no poll did |
| Midi.Matches | main.cpp:240 | a message matches the trigger iff its first byte agrees and, unless that byte is NUL, its second agrees and, unless that is NUL too, its third (driver.cpp:235 is the same test) |
| Midi.MatchCount | main.cpp:239-241 | the number of polls that delivered the trigger is at most the number of polls, and zero iff no poll delivered it |
| Midi.Captured | main.cpp:263-264 | a learn session captures the first three bytes of the first message delivered, and nothing iff no message arrived before the deadline |
| Midi.LearnAfter | main.cpp:295-310 | the trigger after any run of console commands, each 'M' running a learn session, is still three bytes long |
| Midi.LearnAfterRecords | main.cpp:253-285 | without an 'M' command the trigger and prog.dat are untouched; after one, prog.dat is either empty (the last learn timed out) or holds exactly the trigger (driver.cpp:252-281 learns the same way) |
| Midi.Reloaded | main.cpp:367-371 | the trigger each pass reads back is three bytes: the stored bytes where prog.dat has them, zero where it is short or missing (driver.cpp:358-362 reads the same way) |
| Midi.ReloadKeepsLearnedTrigger | main.cpp:367-371 | a three-byte trigger written to prog.dat comes back unchanged on the next pass |
| Midi.EmptiedStoreNeverMatches | main.cpp:367-371 | after a learn timed out (prog.dat emptied at main.cpp:256) the next pass's trigger is 0,0,0, which no message with a non-zero status byte matches |
| Midi.RestartAfterLearn | main.cpp:367-371 | after any run of commands containing an 'M', the next pass reloads either the trigger in force or 0,0,0 |
| MainFailover.ScanPilots | main.cpp:110-116 | the detector loop reports a loss iff some position k < 64 holds a zero byte on the primary pilot and a non-zero byte on the secondary |
| MainFailover.PrimaryLost | main.cpp:110-116 | the per-position rule never fires while the secondary window is silent, nor while every primary byte is non-zero |
| MainFailover.OnMessage | main.cpp:240-241 | a message flips the manual switch iff it matches the trigger, and changes no other flag |
| MainFailover.TwoMatchesRestore | main.cpp:240-241 | two matches restore the flags |
| MainFailover.OnPolls | main.cpp:238-247 | the listening loop over a run of polls moves no flag but the manual switch |
| MainFailover.OnPollsFlipsPerMatch | main.cpp:238-247 | after any run of polls the manual switch has flipped once per matching message and no other flag has moved |
| MainFailover.SilenceKeepsFlags | main.cpp:238-247 | a run of polls in which no message matches the trigger changes no flag |
| MainFailover.OnKey | main.cpp:304-323 | 'S' sets stopped and exit; 'R' sets exit and restart; 'M' leaves midiLearn clear; any other key changes nothing; failOver and manualSwitch are never touched |
| MainFailover.OnCommands | main.cpp:295-324 | a run of console commands never touches failOver or the manual switch |
| MainFailover.OnCommandsRecords | main.cpp:295-324 | after a run of commands stopped is set iff it was or some command was 'S', exit iff it was or some was 'R' or 'S', restart iff it was or some was 'R', and midiLearn stays set iff it was and no command was 'M' |
| MainFailover.LastCommandDecides | main.cpp:295-324 | a session ended by its first 'R' or 'S' leaves exit set, restart set iff that command was 'R', and after the end of the pass stopped set iff it was 'S' |
| MainFailover.CycleEnd | main.cpp:431-451 | once stopped or restart is set, the outer loop ends a pass with stopped equal to not-restart and exit and restart cleared |
| MainFailover.RestartRunsAgain | main.cpp:311-314 | 'R' in a running session leads to another running pass with the manual switch kept |
| MainFailover.StopEndsProgram | main.cpp:315-319 | 'S' sets exit and ends the outer loop |
| MainFailover.OtherKeysKeepRunning | main.cpp:305-322 | every key but 'R' and 'S' leaves the session running, and every key but 'M', 'R' and 'S' changes nothing |
| MainFailover.DriverInfo.constructor | main.cpp:91 | the zero-initialised record holds every flag false, an empty trigger message, the buffer table, and the contents prog.dat has at startup |
| MainFailover.DriverInfo.BufferSwitchTimeInfo | main.cpp:93-136 | outputs 64..94, half index, receive one block of the bank StartChan(failOver or the detector's verdict on half (index+1)%2, manualSwitch); bytes past the block and every other buffer are kept; failOver is false on return |
| MainFailover.DriverInfo.Detect | main.cpp:105-116 | the callback's verdict is the per-position rule applied to the pilots in their current roles |
| MainFailover.DriverInfo.StartCycle | main.cpp:367-425 | each pass of the outer loop reloads the trigger from prog.dat as Reloaded (opened at main.cpp:331), then clears failOver and keeps every other flag |
| MainFailover.DriverInfo.HandleMessage | main.cpp:239-245 | one delivered message acts on the flags as OnMessage |
| MainFailover.DriverInfo.ReadMidi | main.cpp:238-247 | while no learn session runs and the program is not stopping, the listening loop applies every poll in order; otherwise nothing changes |
| MainFailover.DriverInfo.LearnMidi | main.cpp:253-285 | prog.dat is emptied; the first message before the deadline sets the trigger to its first three bytes, writes those bytes to prog.dat, clears midiLearn and ends the session with no further poll; on a timeout the trigger is unchanged, prog.dat stays empty and midiLearn is cleared |
| MainFailover.DriverInfo.RunCommand | main.cpp:304-323 | a command changes the flags as OnKey; 'M' replaces the trigger with the captured message if one arrived and otherwise keeps it; other keys keep the trigger and prog.dat |
| MainFailover.DriverInfo.GetUserMessages | main.cpp:295-324 | commands are read until one sets exit; the flags become OnCommands of the commands read, and the trigger and prog.dat become LearnAfter of them (the last 'M' decides both); exit is set iff the last command read was 'R' or 'S', no earlier one was, and failOver and manualSwitch are kept |
| MainFailover.DriverInfo.EndCycle | main.cpp:431-451 | the wait for stopped, the restart reset and the loop test act as CycleEnd, and the loop repeats iff stopped is clear |
| DriverFailover.NonZeroCount | driver.cpp:105-112 | the count of non-zero bytes is at most the length, and zero iff every byte is zero |
| DriverFailover.PrimaryLost | driver.cpp:105-114 | the counting rule fires only when every primary byte of the window is zero, and never while the secondary window is silent |
| DriverFailover.PrimaryLostMeansSilence | driver.cpp:114 | the counting rule fires iff every primary byte of the 64-byte window is zero and some secondary byte is not |
| DriverFailover.CountPilots | driver.cpp:105-112 | priCount and secCount are the non-zero byte counts of the two pilot windows, each within 0..64 |
| DriverFailover.DetectStep | driver.cpp:104-118 | a raised failOver skips the detector and stays raised; a clear one takes the detector's verdict |
| DriverFailover.FailOverAfter | driver.cpp:104-118 | over a run of blocks, a failOver raised at the start stays raised, and so does one whose last block's detector fires |
| DriverFailover.LatchedAcrossBlocks | driver.cpp:104-118 | over any run of blocks, failOver is raised at the end iff it was raised at the start or the detector fired in some block |
| DriverFailover.OnMessage | driver.cpp:235-244 | a non-matching message changes nothing; a match while failed over clears both flags and routes the primary bank; a match otherwise toggles the manual switch, leaves failOver clear and routes the other bank; no other flag moves |
| DriverFailover.OnPolls | driver.cpp:233-247 | the listening loop over a run of polls never raises failOver and moves no flag but failOver and the manual switch |
| DriverFailover.OnPollsEffect | driver.cpp:233-247 | after a run of polls with m matches: nothing changes if m is 0; from a failed-over state the flags become failOver false and manualSwitch odd(m-1); otherwise the manual switch flips once per match |
| DriverFailover.SilenceKeepsFlags | driver.cpp:233-247 | a run of polls in which no message matches the trigger changes no flag |
| DriverFailover.OnKey | driver.cpp:296-315 | 'S' sets stop and halt; 'R' sets halt only; 'M' leaves midiLearn clear; any other key changes nothing; failOver and manualSwitch are never touched |
| DriverFailover.OnCommands | driver.cpp:288-316 | a run of console commands never touches failOver or the manual switch |
| DriverFailover.OnCommandsRecords | driver.cpp:288-316 | after a run of commands stop is set iff it was or some command was 'S', halt iff it was or some was 'R' or 'S', and midiLearn stays set iff it was and no command was 'M' |
| DriverFailover.LastCommandDecides | driver.cpp:288-316 | a session ended by its first 'R' or 'S' leaves halt set and stop set iff that command was 'S', before and after the end of the pass |
| DriverFailover.CycleEnd | driver.cpp:434-436 | once stop or halt is set, the pass ends with halt cleared and stop kept |
| DriverFailover.CycleStart | driver.cpp:416 | each pass starts with failOver cleared and every other flag kept |
| DriverFailover.RestartRunsAgain | driver.cpp:303-306 | 'R' in a running session leads to another running pass with failOver cleared and the manual switch kept |
| DriverFailover.StopEndsProgram | driver.cpp:307-311 | 'S' sets halt and ends the outer loop |
| DriverFailover.OtherKeysKeepRunning | driver.cpp:297-314 | every key but 'R' and 'S' leaves the session running, and every key but 'M', 'R' and 'S' changes nothing |
| DriverFailover.DriverInfo.constructor | driver.cpp:89 | the zero-initialised record holds every flag false, an empty trigger message, the buffer table, and the contents prog.dat has at startup |
| DriverFailover.DriverInfo.BufferSwitchTimeInfo | driver.cpp:91-131 | failOver becomes DetectStep(old failOver, the detector's verdict on half (index+1)%2), so the callback never clears it; outputs 64..94, half index, receive one block of the bank StartChan(failOver, manualSwitch); bytes past the block and every other buffer are kept |
| DriverFailover.DriverInfo.Detect | driver.cpp:99-114 | priCount is 0 and secCount positive iff the counting rule fires on the pilots in their current roles |
| DriverFailover.DriverInfo.StartCycle | driver.cpp:358-416 | each pass of the outer loop reloads the trigger from prog.dat as Reloaded (opened at driver.cpp:322), then clears failOver and keeps every other flag |
| DriverFailover.DriverInfo.HandleMessage | driver.cpp:234-245 | one delivered message acts on the flags as OnMessage |
| DriverFailover.DriverInfo.ReadMidi | driver.cpp:233-247 | while no learn session runs and the program is not halting, the listening loop applies every poll in order; otherwise nothing changes |
| DriverFailover.DriverInfo.LearnMidi | driver.cpp:252-281 | prog.dat is emptied; the first message before the deadline sets the trigger to its first three bytes, writes them to prog.dat, clears midiLearn and ends the session; on a timeout the trigger is unchanged, prog.dat stays empty and midiLearn stays set |
| DriverFailover.DriverInfo.RunCommand | driver.cpp:296-315 | a command changes the flags as OnKey, so the caller clears midiLearn after a timed-out learn; 'M' replaces the trigger with the captured message if one arrived; other keys keep the trigger and prog.dat |
| DriverFailover.DriverInfo.GetUserMessages | driver.cpp:288-316 | commands are read until one sets halt; the flags become OnCommands of the commands read, and the trigger and prog.dat become LearnAfter of them (the last 'M' decides both); halt is set iff the last command read was 'R' or 'S', no earlier one was, and failOver and manualSwitch are kept |
| DriverFailover.DriverInfo.EndCycle | driver.cpp:434-436 | once stop or halt is set, halt is cleared and the loop repeats iff stop is clear |
| Detectors.CountingImpliesPerPosition | driver.cpp:104-118 | whenever the second iteration's counting detector fires, the first iteration's per-position detector fires too |
| Detectors.PerPositionIsMoreSensitive | main.cpp:110-116 | a primary pilot with signal at position 0 and zeros elsewhere, beside a live secondary, trips the per-position detector but not the counting one |

## Left out

- Foreign ASIO driver code is not modelled. This covers the driver lifecycle (`loadAsioDriver`, `ASIOInit`, `ASIOGetChannels`, `ASIOGetBufferSize`, `ASIOCreateBuffers`, `ASIOGetChannelInfo`, `ASIOStart`, `ASIOStop`, `ASIODisposeBuffers`, `ASIOExit`) and the sample-rate calls.
- The buffer table is a constant built by `Asio.BufferTable`'s constructor, standing for what `ASIOCreateBuffers` filled in. Its disposal and re-creation on every pass of the outer loop are not modelled.
- `ASIOOutputReady` and the `postOutput` flag are not modelled. The call happens after the copy and only notifies the driver.
- These are also not modelled:
  - the `bufferSwitch` wrapper and its timestamps;
  - the `tInfo` store;
  - the unused `processedSamples` counter;
  - the empty `sampleRateChanged` callback.
- libremidi is not modelled. Port discovery, `open_port` and `close_port` are omitted, and each `get_message` call is one element of a finite sequence of poll results.
- Wall-clock time is not modelled. This covers `time`, every `Sleep`, and the 1500 ms pause after learning. The 20-second learn deadline is the end of the poll sequence.
- Threads, joins and races between the callback, readMidi and the console thread are not modelled. Each thread's step is a sequential method on the shared record. In main.cpp, `failOver` and `stopped` are plain `bool` shared across threads; that race is not captured.
- Console output (`cout`, `system("CLS")`, `system("Color 07")`) is not modelled. Commands are characters given as input rather than read from `cin`.
- prog.dat is modelled as a byte sequence field of `DriverInfo`, not as a file. Opening it for writing empties it, a captured trigger is written to it, and every pass of the outer loop reads up to three bytes back into a zeroed trigger (`StartCycle`). Stream errors other than a short or missing file are not modelled.
- MIDI messages shorter than three bytes are excluded by precondition. The source reads past their end.
- The floating-point fields (sample rate, nanoseconds, samples) are not modelled.
- Pilot bytes are read through `char *` in the source; the model uses unsigned bytes. A comparison with zero gives the same result for a signed or an unsigned char.
- MainFailover.DriverInfo.ReadMidi: models one pass of the inner listening loop over a finite run of polls. The outer `while (!stopped)` retry loop and its sleep are not modelled.
- DriverFailover.DriverInfo.ReadMidi: models one pass of the inner listening loop over a finite run of polls. The outer `while (!halt)` retry loop and its sleep are not modelled.
- MainFailover.DriverInfo.GetUserMessages: reads a finite sequence of commands and may stop when the sequence is exhausted. The source waits on the console indefinitely.
- DriverFailover.DriverInfo.GetUserMessages: reads a finite sequence of commands and may stop when the sequence is exhausted. The source waits on the console indefinitely.
- MainFailover.DriverInfo.EndCycle: requires that stopped or restart is already set. It models the wait loop from that point on, which turns a restart into a stop; the wait for the console thread to set one of them is not modelled.
- DriverFailover.DriverInfo.EndCycle: starts after the busy-wait on stop or halt, which it takes as already satisfied (its precondition). The wait itself is not modelled.
