# Verification of the ADR record / replay / verify pipeline

ADR records a program's run into a trace directory (`events.jsonl`, `payload.bin`, `metadata.json`), runs the
program again while feeding it the recorded results of its reads, random numbers and clock queries, compares the
two traces, and proposes causes when they differ. A preloaded pthread hook adds synchronization lines to the same
`events.jsonl`. This project models those parts in Dafny and proves what they promise one another.

`dafny verify dfyconfig.toml` checks everything.

## The shape of the model

Code that changes things in place is a class or a method with loops, proved against a function of values; the
theorems are about those functions.

| files | what they hold |
|---|---|
| `Sha256`, `Sha256Constants`, `Sha256Known`, `Hash` | FIPS 180-4, its functions bit by bit and its published digest, and the streaming context of `hash.c` that refines it |
| `CText`, `EventText`, `TraceEvent`, `Formats`, `SyscallNames` | `snprintf`, `strstr`, `strtol`; event lines as printed and as parsed, their format strings spelled out, names against numbers |
| `HashChain`, `TraceLog`, `TraceBounds`, `TraceFile` | the chained log, hook lines in between, buffer limits, line numbers |
| `ReplayQueue`, `LoaderKnown`, `Harmful` | `load_replay_events` and its growing array; `strtol` and `getline` from outside; which names disturb it |
| `ChildMemory`, `Ptrace` | a child's memory, word by word; the stream of stops both tracers see |
| `Recorder`, `Replayer`, `Chronicle`, `ReplayTrace`, `ReplayStore` | the two state machines, what every run of them leaves behind, and a replay from a damaged payload file |
| `KernelCalls` | the four replayed calls by their C parameters: what is kept of them, and that it comes back |
| `Json`, `JsonKnown`, `LineJson`, `EventJson` | `json.loads` as a reader of text (RFC 8259), against a writer; the printed lines as JSON objects |
| `TraceReader`, `ReaderKnown`, `EventDecode`, `TraceText` | the two `load_events` on the text of a file, its UTF-8 and its lines; every line that needs no escaping reads as what it says |
| `TraceShape` | the lines of every recording and every replay, and what the loader, the verifier and the analyzer read back |
| `Illegible`, `Unread` | when a line does not decode, where reading stops, and what the verifier then says |
| `Verifier`, `DriftDetection`, `Pipeline` | the comparison, and what its answer says about any live run |
| `Alignment`, `Theft` | when the cursor stays aligned, and a run where it does not |
| `Programs`, `Reproduction`, `Arguments` | deterministic programs and their stops; that replay reproduces a run, and what it does not give back |
| `SyncHook`, `HookCalls`, `MutexCounter`, `RaceCounter` | the hook as a concurrent protocol, and two programs as interleavings |
| `JsonText`, `Metadata`, `MetadataJson` | JSON escaping, the target's way through `metadata.json`, and the file as JSON |
| `Analyzer`, `Causes`, `Blame` | the rule-based ranking, its answer as a list, alone and behind the verifier |

A char stands for one byte. Stops, clocks, pids, tids, results of system calls, and what a bulk copy or an
allocation manages to do are parameters, so the theorems hold for all of them.

### Main results

- **Replay reproduces the run** (`Reproduction.ReplayReproducesRun`): for every deterministic program and every
  recording of it, on every replaying kernel that answers the calls outside the queue as before, the program goes
  through the same states if and only if it starts in the same one, though the replayer hands it no arguments and
  another environment. Then it ends by the same exit code or signal, in the call it ends in, and the verifier,
  reading the text of both files, finds nothing.
- **What the kernel stored comes back** (`KernelCalls.KernelStoresAreKept`, `KernelCalls.KernelStoresComeBack`): for
  `read(fd, buf, n)`, `getrandom(buf, n, flags)`, `clock_gettime(clock, tp)` and `gettimeofday(tv, tz)`, in any stream
  the recording holds the bytes stored at `buf`, `tp` or `tv`, and the replayed program goes on with them and the
  recorded result. The reproduction theorem admits every kernel that differs only in what it stores there
  (`KernelCalls.KernelsAreAgain`).
- **Drift detection is exact** (`Pipeline.DriftDetectionIsExact`): for every live run, related or not,
  `first_sequence_mismatch` on the text of the two files is `None` exactly when the whole queue was used and every
  live clock or random call was served from it; otherwise the reported index is determined by the run.
- **What is written is read back** by three readers of one file: the loader's string searches
  (`TraceShape.LoadOfRecording`), the verifier's and the analyzer's JSON (`TraceShape.RecordingLoads`,
  `TraceShape.ReplayLoads`), and the first two keep the same events (`DriftDetection.FiltersAgree`).
- **Which names those readers need**: the loader exactly the run_ids that none of its searches stops in
  (`Harmful.RunIdsReadBack`); the verifier, of quote-free names, exactly those that can stand between quotes and
  leave the process bodies whole (`Unread.TraceReadsExactly`), the room being stated to the char
  (`TraceBounds.ProcessRoom`, `TraceBounds.RoomExactly`). Otherwise it compares nothing
  (`Unread.UnreadRecordingComparesNothing`, `Unread.UnreadReplayComparesNothing`).
- **Cursor alignment** (`Alignment.CursorAlignment`): an if-and-only-if, and a run where it fails
  (`Theft.TheftHappens`).
- **The hash code is SHA-256** (`Hash.FinishAbsorbed` with `Hash.Context`), constants included, and the digest of "abc"
  is the published one (`Sha256Known.DigestOfAbc`).
- **The chain binds the log** (`HashChain.ChainBinds`): equal bodies, or an explicit collision.
- **The hook's log is sound in every interleaving** (`SyncHook.LogIsSound`), skips no number
  (`SyncHook.NoNumberSkipped`), and shows each thread's calls in turn with their results (`HookCalls.CallsInTurn`).
- **The racy counter prints exactly 2 to 2 * loops** (`RaceCounter.RacyOutcomes`); the mutex counter always ends
  at 2 * loops and cannot deadlock (`MutexCounter.MutexOutcome`).
- **A damaged payload file costs results, never the place in the queue** (`ReplayStore.DamageKeepsOrder`).
- **The target survives `metadata.json` exactly when** a stated condition holds (`Metadata.TargetRecovered`).

### Where the code and its documentation, or the obvious reading, differ

- README.md:9 promises that replay detects drift. The replayer never emits a DRIFT event: `drifted` is never set
  (replayer/ptrace_replayer.c:425) and `emit_drift` is never called. Drift shows only in the verifier, and the
  model has it so.
- The queue leaves out reads of length 0 or over 256 (replayer/ptrace_replayer.c:68-72), while serving tests only
  the number. A read that was left out can take the next read's event: in `Theft.TheftHappens` a read that returned
  0 comes back with 5 bytes of the next one.
- The recorder runs the target with its arguments (recorder/ptrace_recorder.c:250), the replayer runs it with none
  (replayer/ptrace_replayer.c:405): a recording of `head -c 5 f` is replayed as `head`. `ADR_RUN_MODE`, `ADR_RUN_ID`
  and `ADR_TRACE_DIR` differ too. `Reproduction.ReplayReproducesRun` therefore asks for equal start states, and
  `Arguments.ArgumentsLost` and `Arguments.ModeShown` are programs that have others. A hook preloaded for the
  recording (src/adr_cli/adr.py:77-82) is part of the environment as well; `adr replay` does not preload it.
- Both tracers resume the program with no signal (recorder/ptrace_recorder.c:274, replayer/ptrace_replayer.c:432), so
  every signal it is stopped for is discarded: no handler runs, and a program that would die of one goes on. Only
  what needs no delivery still ends it, such as a SIGKILL.
- A replay's own `payload_ref.offset` is the end of the payload, not its start, because the replayer writes before
  it asks for the position (replayer/ptrace_replayer.c:140, 473). `ReplayTrace.ReplayReferencesEnd` states the
  form these references have, `ReplayTrace.ReplayReferencesMisread` that the last one can never be read back.
- `run_id` and `target` are printed into event lines without escaping, and `load_events` stops at the first line that
  is no JSON (verifier/verifier.py:15-37). A run directory called `a\q` or `a"b` makes line 1 unreadable
  (`Unread.BrokenNames`): the replayer still serves the whole queue, and the verifier reports a mismatch at 0 against a
  perfect replay. A target too long for the 4096-char body does the same. The theorems that speak of the verifier
  ask for legible names on both sides; those about the loader only for names its searches pass over.
- `parse_target_from_metadata` does not undo escapes: `Metadata.QuotedTargetMisread` gives what comes back instead.
  The condition in `Metadata.TargetRecovered` has a corner: a target of exactly 4095 chars that ends in backslashes
  comes back too, since the buffer cuts off just the doubled ones.
- `events.jsonl` is opened for appending and `payload.bin` for writing (recorder/ptrace_recorder.c:222-223), in a
  directory that may exist. A second run into it counts from 1 again: `TraceFile.AppendedNumbersDistinct`.

## Model

| member | source | states |
|---|---|---|
| `Sha256Constants.RoundConstants` | src/common/hash.c:14-23 | each of the 64 words of k is the first 32 bits of the fraction of the cube root of the t-th prime (section 4.2.2 of FIPS 180-4), by integer bounds on cubes |
| `Sha256Constants.InitialState` | src/common/hash.c:47-54 | each initial word is the first 32 bits of the fraction of the square root of the t-th prime (section 5.3.3 of FIPS 180-4) |
| `Hash.Ep0` | src/common/hash.c:9 | the macro's shifts and ors are the rotations of section 4.1.2 of FIPS 180-4 |
| `Hash.Ep1` | src/common/hash.c:10 | the same for the second big sigma |
| `Hash.Sig0` | src/common/hash.c:11 | the same for the first small sigma |
| `Hash.Sig1` | src/common/hash.c:12 | the same for the second small sigma |
| `Hash.MessageSchedule` | src/common/hash.c:28-31 | the in-place array m holds the recursive message schedule of section 6.2.2 of FIPS 180-4 at every index |
| `Hash.RunRounds` | src/common/hash.c:36-41 | the loop that rotates eight variables computes 64 rounds of the specification |
| `Hash.Context.Transform` | src/common/hash.c:25-45 | the state becomes the specification's compression of the buffered block |
| `Hash.Context.constructor` | src/common/hash.c:47-54 | a fresh context is empty, with bit length 0 and the initial state |
| `Hash.Context.Update` | src/common/hash.c:56-65 | feeding bytes one by one through the 64-byte buffer is absorbing them, with every index in range and the length counter modulo 2^64 |
| `Hash.Context.Terminate` | src/common/hash.c:70-78 | both padding branches leave the same thing: the bit 1 and zeros, in this block or in one more that is compressed |
| `Hash.PutLength` | src/common/hash.c:81-88 | the eight stores write the bit count big-endian into the last 8 bytes and leave the first 56 |
| `Hash.FinalBlocks` | src/common/hash.c:67-89 | what the two branches compress is the buffered tail with the padding of section 5.1.1 of FIPS 180-4 |
| `Hash.SerializeState` | src/common/hash.c:91-100 | the column-wise loop writes the eight words big-endian, in order |
| `Hash.Context.Final` | src/common/hash.c:67-101 | the digest is the specification's answer for the abstract context |
| `Hash.FinishAbsorbed` | src/common/hash.c:47-101 | init, update and final compute SHA-256 (padding, then the block fold) of every byte string, the length field modulo 2^64 |
| `Hash.LengthField` | src/common/hash.c:80-88 | the padded message ends in the bit count, exact below 2^61 bytes |
| `Hash.PadInjective` | src/common/hash.c:67-89 | two messages under 2^61 bytes with the same padded form are equal |
| `Hash.AbsorbConcat` | src/common/hash.c:56-65 | update(x) then update(y) leaves the same context as update(x + y) |
| `Hash.HexInto` | src/common/hash.c:103-110 | 64 lower-case hex digits and a NUL, two for each byte in order |
| `Hash.HexRoundTrip` | src/common/hash.c:103-110 | the hex form has a left inverse |
| `Hash.BytesHex` | src/common/hash.c:112-119 | the hex SHA-256 of the bytes |
| `Hash.FileHex` | src/common/hash.c:121-140 | for every split into reads of at most 8192 bytes, the hex SHA-256 of the whole contents, or failure on a read error |
| `Hash.StateBytesInjective` | src/common/hash.c:91-100 | no two states serialize to the same 32 bytes |
| `Hash.DigestTellsState` | src/common/hash.c:67-101 | two messages have the same digest exactly when their padded blocks end in the same state |
| `Sha256Known.ChooseBits` | src/common/hash.c:7 | CH takes each bit from its second word where the first has a 1, and from the third elsewhere |
| `Sha256Known.MajorityBits` | src/common/hash.c:8 | MAJ has each bit that at least two of its words have |
| `Sha256Known.CompressAdds` | src/common/hash.c:43-44 | after the rounds each word of the state grows by its working variable |
| `Sha256Known.DigestOfAbc` | src/common/hash.c:25-119 | the hex digest of the bytes of "abc" is the one FIPS 180-4 publishes |
| `CText.ParsePrinted` | replayer/ptrace_replayer.c:179-188 | strtol inverts the decimal printing of every long, whatever non-digit follows |
| `CText.PrintedWidth` | recorder/ptrace_recorder.c:137-148 | every 64-bit number prints in at most 20 chars, every 32-bit one in at most 11 |
| `LoaderKnown.NumberReads` | replayer/ptrace_replayer.c:179-188 | spaces, one sign, decimal digits and anything behind them give the number of the digits if a long holds it; more, or no digits, give none |
| `LoaderKnown.DigitsWeigh` | replayer/ptrace_replayer.c:183 | each digit counts with the weight of its place |
| `EventText.FindInFields` | replayer/ptrace_replayer.c:174-177 | in any rendered list of fields whose values do not hold the search text, its first occurrence is that key's field, or there is none |
| `TraceEvent.EventLineRoundTrip` | recorder/ptrace_recorder.c:106-150 | parsing the line printed for any event whose names none of the searches stops in (quotes and newlines allowed) gives back its number, name, result, offset, length and hash, filtered as the loader filters; a process event, cut or whole, gives nothing |
| `TraceEvent.SyscallLineRoundTrip` | replayer/ptrace_replayer.c:234-249 | each of the loader's searches lands on the intended field of a syscall line |
| `Formats.ProcessSpelled` | recorder/ptrace_recorder.c:116-124 | a process body is the format string, member by member, in order |
| `Formats.SyscallSpelled` | recorder/ptrace_recorder.c:137-148 | a syscall body is, registers in order, with the reference of payload_json behind it |
| `Formats.HookSpelled` | hooks/sync_hook.c:58-69 | and so is a hook body |
| `Formats.ArgumentSpelled` | hooks/sync_hook.c:95-156 | what the argument of each hook line is called |
| `Formats.LineSpelled` | recorder/ptrace_recorder.c:111 | the two hashes of the chain close every line |
| `Formats.ErrnoIs` | recorder/ptrace_recorder.c:146 | errno is 0 for a result that is no error, the negated result when an int holds it, and always congruent to it modulo 2^32 |
| `SyscallNames.NameTellsNumber` | recorder/ptrace_recorder.c:35-48 | read by a table of the x86-64 numbers, the printed name says the number, for every long; a generated one for exactly the calls without a name of their own |
| `SyscallNames.LoadedNamesAgree` | recorder/ptrace_recorder.c:127-150 | in what the verifier reads of any recording under legible names, each syscall event's name and syscall_no are of the same call |
| `HashChain.ChainSpelled` | recorder/ptrace_recorder.c:106-114 | the chain starts from "00", and each hash is that of the previous one, a bar and the body, cut at 8191 chars |
| `HashChain.LastHashPlain` | recorder/ptrace_recorder.c:111-113 | no prev_hash holds a bar, a quote or a newline, the initial "00" included |
| `HashChain.ChainBinds` | recorder/ptrace_recorder.c:106-114 | two lists of event bodies with the same last hash are equal, whatever their lengths, or an explicit pair of different inputs has the same SHA-256 |
| `TraceLog.TraceWriter.EmitLine` | recorder/ptrace_recorder.c:106-114 | one line is appended under the chained hash, which becomes prev_hash; nothing else changes |
| `TraceLog.TraceWriter.EmitSyscallEvent` | recorder/ptrace_recorder.c:127-150 | seq rises by one and the event with the call's registers, result and reference is chained |
| `TraceLog.TraceWriter.EmitProcessEvent` | recorder/ptrace_recorder.c:116-125 | seq rises by one and the process event is chained |
| `TraceLog.TraceWriter.AppendPayload` | recorder/ptrace_recorder.c:97-104 | the bytes go to the end of the payload file; the offset is where they start; the hash is theirs |
| `TraceLog.EmitKeepsChained` | recorder/ptrace_recorder.c:106-114 | emitting keeps seq at 1..n and the chain recomputable |
| `TraceLog.HooksKeepChained` | hooks/sync_hook.c:70-76 | hook lines appended in between do not break the tracer's numbering or chain |
| `TraceLog.HookLine` | hooks/sync_hook.c:58-76 | a hook line is written with all of its body under the body's hash, or not at all |
| `Formats.HookRoom` | hooks/sync_hook.c:57-76 | it is written, with these chain members, exactly when its body has at most 2047 chars: the second buffer is never the one too small |
| `ReplayQueue.EventVector.Push` | replayer/ptrace_replayer.c:214-224 | the event is added at the end and the others stay; it fails, changing nothing, exactly when the next capacity is not granted |
| `ReplayQueue.EventVector.Grow` | replayer/ptrace_replayer.c:215-221 | realloc keeps the contents and copies each item once |
| `ReplayQueue.EventVector.AmortizedCost` | replayer/ptrace_replayer.c:214-224 | after any pushes the items ever copied are fewer than twice the length, and the capacity is 64 * 2^k |
| `LoaderKnown.CapacityIs` | replayer/ptrace_replayer.c:216 | the capacities are 64, 128, 256 and so on |
| `LoaderKnown.LinesEndAtNewlines` | replayer/ptrace_replayer.c:234 | getline takes a line up to and with its first newline, or all there is |
| `ReplayQueue.LoadReplayEvents` | replayer/ptrace_replayer.c:226-259 | the vector holds the parsed, filtered lines of the text in order; it fails only when an allocation is refused, holding a proper prefix |
| `ReplayQueue.LineQueues` | replayer/ptrace_replayer.c:232-255 | whatever follows it, a written line queues its own event or nothing, even when newlines in its names split it into several getline lines |
| `ReplayQueue.SyscallLineQueues` | replayer/ptrace_replayer.c:232-255 | of the pieces a newline in the run_id makes of a syscall line, the last one parses to the event and the others to nothing |
| `ReplayQueue.HookUnmarked` | replayer/ptrace_replayer.c:235 | no hook line, and no piece of one, is taken for a syscall event |
| `TraceEvent.ProcessUnmarked` | replayer/ptrace_replayer.c:235 | nor is a process line, wherever its buffer cuts it |
| `Harmful.RunIdsReadBack` | replayer/ptrace_replayer.c:236-249 | the newline-free run_ids under which every syscall event is read back as written are exactly those that none of the six field searches stops in |
| `ReplayQueue.LoadOfFile` | replayer/ptrace_replayer.c:226-259 | loading the text of a whole file of lines is loading the lines one by one |
| `ReplayQueue.QueueIsOfOwnEvents` | replayer/ptrace_replayer.c:226-259 | interleaved hook lines do not matter to the queue |
| `TraceBounds.ProcessRoom` | recorder/ptrace_recorder.c:116-124 | a process body is printed whole if and only if 141 chars, run_id, name, target, the digits of its numbers and the closing quote and brace stay below 4096 |
| `TraceBounds.RoomExactly` | recorder/ptrace_recorder.c:116-124 | all process events of a run fit, whatever clock, pid and numbers, if and only if run_id and target have at most 3876 chars together |
| `TraceBounds.PayloadJsonWhole` | recorder/ptrace_recorder.c:305-318 | the 512-char payload_json holds every reference whole |
| `TraceBounds.NothingTruncated` | recorder/ptrace_recorder.c:106-150 | for every event with numbers of their C types and run_id a file name: no reference and no syscall body is cut, process bodies exactly as above, and the printed body is hashed whole behind any prev_hash |
| `TraceBounds.HookAlwaysWritten` | hooks/sync_hook.c:58-76 | with run_id up to 255 chars every hook line is written |
| `TraceShape.RecordingShaped` | recorder/ptrace_recorder.c:273-324 | every line of every recording is a hook line or an event of this run_id and target with numbers of their C types, a tracer's process name and hex hashes |
| `TraceShape.ReplayShaped` | replayer/ptrace_replayer.c:431-490 | the same of every replay of any queue whose payloads fit a file |
| `TraceShape.RecordingQueueTyped` | replayer/ptrace_replayer.c:226-259 | and what a recording queues is such a queue |
| `TraceShape.LoadOfRecording` | replayer/ptrace_replayer.c:226-259 | loading the text of any recording under names none of the searches stops in, of any target length, queues exactly the recorder's own wanted events, in order |
| `TraceShape.RecordingLoads` | verifier/verifier.py:15-37 | both load_events read the text of every recording under legible names as exactly what its lines say |
| `TraceShape.ReplayLoads` | verifier/verifier.py:15-37 | the same of every replay |
| `TraceShape.LegibleIsWithin` | verifier/verifier.py:15-37 | names the verifier can read are names the loader can read |
| `TraceShape.RecordingsBound` | recorder/ptrace_recorder.c:106-114 | two recordings, under any names of bytes, that end in the same hash have the same event bodies, or exhibit a collision |
| `TraceShape.LimitsMet` | recorder/ptrace_recorder.c:116-125 | the limits the theorems ask for can be met, by any ordinary names |
| `TraceFile.DistinctExactly` | hooks/sync_hook.c:18-57 | numbers in the shared file are all different exactly when the tracer has not counted up to a number the hook used |
| `TraceFile.SecondRunRepeats` | recorder/ptrace_recorder.c:222-223 | a tracer's line in the file before a new run means a repeated number, whatever the hooks did |
| `TraceFile.AppendedNumbersDistinct` | recorder/ptrace_recorder.c:222-223 | behind the lines of an earlier run and its hook, each hook with its own counter, all numbers differ exactly when no tracer wrote before, no hook number is counted up to, and the two hooks used different numbers |
| `TraceFile.RecordedNumbersDistinct` | hooks/sync_hook.c:18-57 | for any recording of at most 10^9 lines, appended to what any earlier run left, with any interleavings of the two hooks, which both count from 10^9: all numbers differ exactly when the earlier run left no tracer's line and no hook number came up again |
| `ChildMemory.Child.Write` | replayer/ptrace_replayer.c:84-107 | at any address and length the returned count of bytes, and no other byte, becomes the buffer's, the partial last word included; the fallback stops at the first word ptrace refuses |
| `ChildMemory.Child.WriteWord` | replayer/ptrace_replayer.c:91-105 | one turn of the fallback stores its chunk and restores the rest of a partial word, or changes nothing |
| `ChildMemory.Child.Read` | recorder/ptrace_recorder.c:78-95 | the returned bytes are the child's, as many as the count; the fallback stops at the first word ptrace refuses |
| `ChildMemory.TailRestored` | replayer/ptrace_replayer.c:94-101 | storing a word whose tail was just read stores only its front |
| `ChildMemory.OneWordFurther` | replayer/ptrace_replayer.c:91-105 | chunk by chunk, the stores add up to the buffer laid over memory |
| `ChildMemory.WriteThenRead` | replayer/ptrace_replayer.c:84-107 | laying a buffer over mapped memory makes it read back as the buffer and leaves every other byte |
| `Recorder.Recorder.constructor` | recorder/ptrace_recorder.c:255-271 | a recording starts with an empty chained log and a program_start event |
| `Recorder.Recorder.OnExit` | recorder/ptrace_recorder.c:303-323 | the buffer is stored only when all of it was read, before the event that refers to it |
| `Recorder.Recorder.OnStop` | recorder/ptrace_recorder.c:273-324 | one turn of the loop is one step of the machine, for each kind of stop |
| `Recorder.Recorder.Record` | recorder/ptrace_recorder.c:273-324 | the loop runs the machine until the child is gone or the stops end |
| `Recorder.RecordingIsFaithful` | recorder/ptrace_recorder.c:269-324 | for every stream of stops and hook lines: seq is 1..n, the chain recomputes, there is one SYSCALL event per completed call with that call's registers, and references tile the payload file and lead to the call's bytes under their hash |
| `Chronicle.RecordingTold` | recorder/ptrace_recorder.c:267-324 | told from the stops alone, line by line: program_start; at each stop what the hook had written by then; an event for each completed call with its registers and the time of its exit stop; program_exit or program_signal last; all under this run_id, pid and target; and the exit code and signal result.json gets |
| `KernelCalls.KernelStoresAreKept` | recorder/ptrace_recorder.c:50-76 | at any place of any stream: a read(fd, buf, n) or getrandom(buf, n, flags) that returns n > 0, or a clock_gettime(clock, tp) or gettimeofday(tv, tz) that returns 0, has an event whose reference reads back as the n or 16 bytes stored at buf, tp or tv, if and only if they were mapped and copied |
| `Recorder.TellsLater` | recorder/ptrace_recorder.c:97-104 | whatever is appended later, earlier references lead to the same bytes |
| `Recorder.RecordingSize` | recorder/ptrace_recorder.c:304-320 | payload.bin is as long as the kept buffers of the completed calls together |
| `Recorder.ReferencesDisjoint` | recorder/ptrace_recorder.c:304-320 | references are in file order, pairwise disjoint and inside payload.bin |
| `Replayer.Replayer.constructor` | replayer/ptrace_replayer.c:411-429 | a replay starts with an empty chained log, a program_start event and the cursor at 0 |
| `Replayer.Replayer.AtEntry` | replayer/ptrace_replayer.c:450-465 | the event under the cursor is chosen exactly when the call is replayable and the numbers match; otherwise the cursor stays and the call passes through |
| `Replayer.Replayer.AtExit` | replayer/ptrace_replayer.c:466-483 | the recorded result and bytes are injected if the payload can be read; the cursor moves on in either case; the emitted reference is taken after the write |
| `Replayer.Replayer.OnStop` | replayer/ptrace_replayer.c:431-490 | one turn of the loop is one step of the machine, for each kind of stop |
| `Replayer.Replayer.Replay` | replayer/ptrace_replayer.c:431-490 | the loop runs the machine until the child is gone or the stops end |
| `Replayer.ReplayChained` | replayer/ptrace_replayer.c:109-160 | every replay, of any queue, is numbered 1..n and its chain recomputes, hook lines set aside |
| `Chronicle.ReplayTold` | replayer/ptrace_replayer.c:427-490 | the same of every replay: the queue decides results and references, never which lines there are |
| `ReplayStore.PayloadMissing` | replayer/ptrace_replayer.c:261-281 | read_payload fails exactly when something is wanted and not all of it is in the file |
| `ReplayStore.DamageKeepsOrder` | replayer/ptrace_replayer.c:458-483 | after any stops, cursor and active event do not depend on what payload.bin holds |
| `ReplayStore.MissingRunsLive` | replayer/ptrace_replayer.c:466-483 | a served call whose bytes are missing keeps its own result and memory, uses up its queued event all the same, and prints that event's length and hash |
| `ReplayStore.FoundIsInjected` | replayer/ptrace_replayer.c:466-483 | with its bytes there it gets the queued result, and its buffer as many of them as could be written, nothing else changed |
| `ReplayStore.EmptyGivesResult` | replayer/ptrace_replayer.c:466-483 | a queued event without bytes gives its result alone, and its event has no reference |
| `ReplayTrace.ReplayReferencesEnd` | replayer/ptrace_replayer.c:139-145 | in every replay of a recording each reference gives the end of its bytes, which hash to the recorded SHA-256 |
| `ReplayTrace.ReplayReferencesMisread` | replayer/ptrace_replayer.c:261-281 | read_payload finds enough bytes for a replay's reference exactly when that many were written after it, so never for the last one |
| `Verifier.CheckedEvents` | verifier/verifier.py:53-66 | the compared events are the DRIFT events, the clock and random calls, and the reads with a payload of at most 256 bytes, in order |
| `Verifier.ComparedExactly` | verifier/verifier.py:53-66 | of foreign events too: DRIFT always, the clock and random calls always, a read with a payload of at most 256 bytes or of no stated length, and nothing else |
| `Verifier.FirstMismatch` | verifier/verifier.py:69-90 | None means the compared sequences are equal; otherwise the index is the first place where they differ, running out included, and original and original_seq tell of the original trace's event there, replay and replay_seq of the replay's |
| `Verifier.FirstMismatchUnique` | verifier/verifier.py:69-90 | that description fits one answer only |
| `Verifier.FirstSequenceMismatch` | verifier/verifier.py:69-90 | the scan over both lists finds that answer, each of the four fields on its own side, None where a trace ran out |
| `Verifier.Verify` | verifier/verifier.py:93-134 | pass exactly when the results agree, no DRIFT event exists and the compared sequences are equal; a pass carries no mismatch; each check says what its name says; a mismatch shows each trace's own event and seq; a DRIFT event is reported only when there is no sequence mismatch |
| `Verifier.FirstDrift` | verifier/verifier.py:107-116 | the drift it points to is the first event of type DRIFT |
| `JsonText.InsideReads` | verifier/verifier.py:26 | a text that can stand between quotes as it is reads up to its closing quote, escapes undone |
| `JsonText.BrokenReads` | verifier/verifier.py:26 | any other quote-free text does not: the string swallows its quote, or there is none |
| `TraceReader.ReadLines` | verifier/verifier.py:20-36 | the loop over universal-newline lines, stripped, gives the decoded lines up to the first that is no JSON, and that line's number |
| `TraceReader.WholeFileDecoded` | verifier/verifier.py:20-36 | without a broken line all of the file is decoded, and reading raises exactly when it is not UTF-8 |
| `ReaderKnown.EncodingIsWellFormed` | verifier/verifier.py:20 | the encoding of every Unicode scalar value is one well-formed sequence |
| `ReaderKnown.WellFormedIsEncoding` | verifier/verifier.py:20 | and there are no others: no overlong forms, no surrogates |
| `ReaderKnown.Utf8IsEncoded` | verifier/verifier.py:20 | a file decodes only if it is the encodings of some scalar values in a row |
| `ReaderKnown.EncodedIsUtf8` | verifier/verifier.py:20 | and then it does |
| `ReaderKnown.LineEndings` | verifier/verifier.py:21 | text mode ends a line at a newline, a carriage return, or the two together as one |
| `ReaderKnown.Stripped` | verifier/verifier.py:22 | strip takes the spaces on both sides and nothing else |
| `ReaderKnown.SpaceChars` | verifier/verifier.py:22 | the ten ASCII chars Python calls space |
| `JsonKnown.LoadsShown` | verifier/verifier.py:26 | every JSON value without floats comes back from its text, with any spacing at every place where space may stand |
| `JsonKnown.NothingBehind` | verifier/verifier.py:26 | and with anything but space behind it, it is an error |
| `JsonKnown.PythonNumbers` | verifier/verifier.py:26 | NaN and the two infinities are floats, as Python has it |
| `JsonKnown.EscapeLetters` | verifier/verifier.py:26 | the eight escape letters of section 7 of RFC 8259 |
| `JsonKnown.NoOtherEscape` | verifier/verifier.py:26 | and no other char but u may follow a backslash |
| `JsonKnown.UnitReads` | verifier/verifier.py:26 | \u and four hex digits, in either case, are the character they number |
| `JsonKnown.PairReads` | verifier/verifier.py:26 | a surrogate pair is the character above 0xffff that it encodes |
| `JsonKnown.FloatReads` | verifier/verifier.py:26 | a number with a fraction, an exponent or both is a float, read in full |
| `TraceReader.Load` | verifier/verifier.py:15-37 | the verifier's events: those, and one TRACE_ERROR in the place of the rest; or none, when decoding has met a byte that is not UTF-8, up to the line it stopped at or as far ahead of it as it had read |
| `TraceReader.LoadForAnalysis` | analyzer/rule_analyzer.py:10-23 | the analyzer's events: those alone, under the same condition |
| `ReaderKnown.StandsIn` | verifier/verifier.py:25-37 | behind any blank lines and events, the first line that is no JSON becomes a TRACE_ERROR with its number, and nothing behind it is read; the analyzer reads the same without it |
| `ReaderKnown.NoObjectRaises` | verifier/verifier.py:53-66 | a line that is JSON but no object is no broken line: asking it for members raises |
| `EventDecode.SyscallDecodes` | recorder/ptrace_recorder.c:127-150 | the object a syscall line prints holds, member by member, the values the verifier looks at |
| `EventDecode.ProcessDecodes` | recorder/ptrace_recorder.c:116-125 | the same for process lines |
| `EventDecode.HookDecodes` | hooks/sync_hook.c:58-70 | and for hook lines |
| `TraceText.LoadOfReadable` | verifier/verifier.py:15-37 | a file of lines printed whole with texts that need no escaping, in UTF-8, reads as what its lines say, in both load_events |
| `Illegible.OwnLineDecodes` | verifier/verifier.py:26-36 | a tracer's line with quote-free names decodes to its event if and only if run_id and target can stand between quotes and the body is whole; else it is no JSON, newlines in the names included |
| `Illegible.QuotedRunIdSpoilsLine` | verifier/verifier.py:26-36 | nor is a line whose run_id holds a bare quote with neither comma, brace nor space behind it |
| `Illegible.QuotedTargetSpoilsLine` | verifier/verifier.py:26-36 | nor a process line whose target does, if the body has room for the quote and the char behind it |
| `Unread.TraceReadsExactly` | verifier/verifier.py:15-37 | for quote-free UTF-8 names, a whole trace is read if and only if each of its own lines decodes; otherwise the events before the first that does not, and its line number |
| `Unread.UnreadRecordingComparesNothing` | verifier/verifier.py:69-90 | if the first line of a recording is unreadable, its queue is still complete, but the verifier, unless decoding raises, finds a mismatch at 0 exactly when the replay did anything that is compared |
| `Unread.UnreadReplayComparesNothing` | verifier/verifier.py:69-90 | if the first line of a replay is unreadable, then, unless decoding raises, a mismatch at 0 exactly when the recording queued anything, even if all of it was served |
| `Unread.BrokenNames` | recorder/ptrace_recorder.c:116-125 | a backslash that starts no escape, or a quote with a letter behind it, in run_id or target, makes a run's first line unreadable |
| `DriftDetection.FiltersAgree` | verifier/verifier.py:53-66 | two readers of one text: of the file of every run under legible names, hook lines included, load_events and the verifier's filter keep in order exactly the events load_replay_events queues, with the same compared values |
| `DriftDetection.StepFollows` | replayer/ptrace_replayer.c:431-490 | every step of the replayer keeps the chain, the cursor's range and the choice of the active event |
| `DriftDetection.RunOnTrack` | replayer/ptrace_replayer.c:458-483 | over a whole run the replay's compared events are the queue up to the cursor until the first unserved clock or random call, and differ there forever after |
| `Pipeline.SoundIntact` | recorder/ptrace_recorder.c:304-320 | every event a recording queues can be read back from its payload file |
| `Pipeline.DriftDetectionIsExact` | verifier/verifier.py:69-90 | on the text of the files of any recording and any live run under legible names: no mismatch exactly when the cursor reached the end and every live clock or random call was served; otherwise the index is the cursor at the first unserved one, or else the final cursor |
| `Alignment.ServesOwnPositions` | replayer/ptrace_replayer.c:458-481 | on numbers alone: each call gets its own recorded event exactly when no unqueued call has the number of the next queued one |
| `Alignment.CursorAlignment` | replayer/ptrace_replayer.c:458-481 | the same for any recording and any live run with the recorded numbers, both directions |
| `Alignment.OnlyReadsUnqueued` | replayer/ptrace_replayer.c:68-72 | the only replayable calls left out of the queue are reads |
| `Theft.TheftHappens` | replayer/ptrace_replayer.c:68-72 | a stream of stops with a read that returns 0 and then one that returns 5: in every replay the first resumes with the second's result and bytes, and the second gets nothing |
| `Theft.TwoReadsWithin` | replayer/ptrace_replayer.c:68-72 | that run is within the limits of the theorems |
| `Programs.CallsOfRecordTicks` | recorder/ptrace_recorder.c:273-324 | the stops of a program's run contain exactly the calls it makes, with the results it got; other stops, and the entry stop of the call it ends in, complete none |
| `Programs.RecordOutcome` | recorder/ptrace_recorder.c:277-299 | a recording ends with the program's exit code or signal, and within a call exactly when the program ended in one, as by exit_group |
| `Reproduction.QueuedCallReproduced` | replayer/ptrace_replayer.c:468-480 | serving a call its own event resumes the program with the recorded result and memory, whatever the live kernel answered |
| `Reproduction.OverlayRestores` | replayer/ptrace_replayer.c:471-473 | the recorded bytes laid over live memory that agrees elsewhere give back the recorded memory |
| `Reproduction.SameKernelAgain` | replayer/ptrace_replayer.c:431-490 | the recording kernel itself is one the reproduction theorem admits |
| `KernelCalls.KernelAgainIsAgain` | replayer/ptrace_replayer.c:74-82 | so is every kernel whose memory differs from the recorded one only in the bytes stored at buf, tp or tv |
| `KernelCalls.KernelsAreAgain` | replayer/ptrace_replayer.c:74-82 | over a whole run |
| `KernelCalls.KernelStoresComeBack` | replayer/ptrace_replayer.c:466-481 | one such call recorded and replayed from the text of the trace: the program goes on with the recorded result and the recorded bytes at buf, tp or tv |
| `Reproduction.Lockstep` | replayer/ptrace_replayer.c:431-490 | by induction over the run: same calls, same results, cursor always at the next own event, nothing unserved, and the call the run ends in moves no cursor |
| `Reproduction.ReplayReproducesRun` | replayer/ptrace_replayer.c:400-490 | recorded with its arguments and replayed without: the program goes through the same states if and only if it starts in the same one; then it ends by the same exit code or signal, whatever other stops there are in either run, and the verifier finds no mismatch and no drift in the text of the two files |
| `Arguments.LaunchesAre` | recorder/ptrace_recorder.c:245-250 | the arguments and the three variables each tracer hands over; every other variable is passed on |
| `Arguments.ObserverEnds` | replayer/ptrace_replayer.c:400-406 | a program that exits with what it makes of its start ends, recorded and replayed, each by its own start |
| `Arguments.ArgumentsLost` | replayer/ptrace_replayer.c:405-406 | one that exits with its number of arguments is replayed as having one |
| `Arguments.ModeShown` | replayer/ptrace_replayer.c:400-402 | one that looks at ADR_RUN_MODE can tell the replay |
| `SyncHook.NextKeepsInv` | hooks/sync_hook.c:39-79 | every step of every thread, between counter, write and real call, keeps the invariant that ties log, counter and real owners together |
| `SyncHook.LogIsSound` | hooks/sync_hook.c:113-138 | in every interleaving of any threads over any mutexes: acquisitions and releases of one mutex alternate in the log, pair by thread and rise in seq; a logged owner is the real owner; all numbers differ and exceed 10^9 |
| `SyncHook.NoNumberSkipped` | hooks/sync_hook.c:57 | every number from 1000000001 to the counter is on a line, or taken by a thread that is about to write it |
| `HookCalls.CallsInTurn` | hooks/sync_hook.c:95-156 | the lines of one thread are its calls in turn, each an enter line with result 0 and then its leave line, numbers rising; the leave lines show what the real calls returned, in order |
| `HookCalls.WhatMayHappen` | hooks/sync_hook.c:95-156 | outside a wrapper a thread may begin any call (an unlock or a cond_wait with a mutex it owns); inside one it can always go on, except to wake from cond_wait while the mutex is taken; a real call succeeds when its mutex is free and may fail with any result, an unlock excepted |
| `SyncHook.UnloggedOwner` | hooks/sync_hook.c:113-138 | the log names the real owner exactly when that owner is not just arriving or just giving up |
| `RaceCounter.RunKeepsInv` | tests/programs/race_counter/race_counter.c:6-14 | bounds on the counter and on every value read, kept by every interleaving of reads and writes |
| `RaceCounter.RacyOutcomes` | tests/programs/race_counter/race_counter.c:6-25 | a value can be printed if and only if it lies between 2 (or loops, if less) and 2 * loops, by an explicit schedule for each value |
| `MutexCounter.AfterKeepsInv` | tests/programs/mutex_counter/mutex_counter.c:7-15 | a worker between its read and its write holds the lock and its copy is current; the counter is the increments made |
| `MutexCounter.CallsAllowed` | tests/programs/mutex_counter/mutex_counter.c:10-12 | the program unlocks only what it holds, so it is a client the hook protocol admits |
| `MutexCounter.RunReached` | tests/programs/mutex_counter/mutex_counter.c:17-26 | every run of the program is a run of the hook protocol |
| `MutexCounter.NeverStuck` | tests/programs/mutex_counter/mutex_counter.c:7-15 | until both workers are done, one of them can move |
| `MutexCounter.MutexOutcome` | tests/programs/mutex_counter/mutex_counter.c:17-26 | in every interleaving the counter ends at 2 * loops, and the log shows one acquisition and one release for each increment |
| `JsonText.JsonEscape` | src/common/util.c:52-68 | the loop writes the quoted escaped form of the C string, or of the empty one for a null pointer |
| `JsonText.EscapeReads` | src/common/util.c:52-68 | a reader of JSON strings (section 7 of RFC 8259) gives back every string and stops at its closing quote |
| `JsonText.EscapedWord` | src/common/util.c:52-68 | a plain word with its quote begins an escaped text with its closing quote only if they are the same |
| `JsonText.FindSkipsEscaped` | src/common/util.c:52-68 | a search for a quoted plain word passes over any escaped text |
| `Metadata.Basename` | src/common/util.c:47-50 | a part without slashes, just after a slash unless it is everything |
| `Metadata.BasenameIsPart` | src/common/util.c:47-50 | it is the end of the path |
| `Metadata.WriteMetadata` | recorder/ptrace_recorder.c:152-168 | the text written for any run directory, target and argument list is the one the next row decodes |
| `MetadataJson.MetadataDecodes` | recorder/ptrace_recorder.c:157-166 | a JSON reader gets exactly the seven members, in order: run_id, target and the arguments are the strings they were, whatever their bytes |
| `Metadata.TargetFound` | replayer/ptrace_replayer.c:283-301 | for any run_id, the first occurrence of the searched key is the real target field |
| `Metadata.UnescapingWouldRecover` | replayer/ptrace_replayer.c:283-301 | a parser that undid the escapes there would recover every target |
| `Metadata.TargetRecovered` | replayer/ptrace_replayer.c:283-301 | the target comes back if and only if its closing quote is among the first 8191 bytes and it is plain text of at most 4095 chars, or exactly 4095 chars ending in backslashes |
| `Metadata.QuotedTargetMisread` | replayer/ptrace_replayer.c:283-301 | a target with a quote comes back cut at it, with a backslash it does not have |
| `Analyzer.RankingUnique` | analyzer/rule_analyzer.py:26-146 | the rules that apply, in strictly falling order of score, form one list |
| `Causes.HighLevelList` | analyzer/rule_analyzer.py:44-79 | the list for a failure without a mismatch, from the checks and any SYNC event of either trace |
| `Causes.MismatchList` | analyzer/rule_analyzer.py:80-146 | the list for a mismatch, from the checks and the events near it: those numbered within ten of the named one, or the last twenty |
| `Analyzer.WindowExactly` | analyzer/rule_analyzer.py:83-86 | the window holds the events numbered within ten, and none else; an event without a number counts as number 0 |
| `Analyzer.WindowAtEnd` | analyzer/rule_analyzer.py:84-85 | for a trace that ran out, the last twenty, or all there are |
| `Analyzer.WindowsShowMismatch` | analyzer/rule_analyzer.py:80-88 | each trace's window holds the event that trace differs at |
| `Analyzer.InputFirst` | analyzer/rule_analyzer.py:91-98 | so a mismatch at a numbered system call has R-IO first |
| `Analyzer.SortStable` | analyzer/rule_analyzer.py:146 | the final sort of any candidates puts higher scores first and keeps those of one score, all of them, in their order |
| `Analyzer.SortIdle` | analyzer/rule_analyzer.py:146 | candidates are collected in falling order, so the final sort changes nothing |
| `Analyzer.RankHighLevel` | analyzer/rule_analyzer.py:44-79 | a failure without a mismatch: exactly the rules whose condition holds, best first, never none |
| `Analyzer.RankMismatch` | analyzer/rule_analyzer.py:80-146 | a mismatch: exactly the rules whose condition holds, best first, never none |
| `Analyzer.ScoreCandidates` | analyzer/rule_analyzer.py:26-146 | the answer is the ranking cut as Python cuts it; for top_k of at least 1 it is non-empty, at most top_k long and sorted |
| `Analyzer.VerifyAndAnalyze` | verifier/verifier.py:93-134 | a passing report with a mismatch never reaches the analyzer; PASS is proposed only, and then alone, when the traces and results agree |
| `Blame.WindowQuiet` | analyzer/rule_analyzer.py:83-88 | around a tracer's number below 999999991 the window holds no hook line |
| `Blame.WindowLoud` | analyzer/rule_analyzer.py:83-88 | at 999999991 it can |
| `Blame.InputIsReplayable` | analyzer/rule_analyzer.py:91 | what the analyzer calls input, by name, is what the replayer serves, by number |
| `Blame.NoSyncBlame` | analyzer/rule_analyzer.py:80-126 | with tracer numbers below 999999991, a mismatch that names an event of each trace never yields R-SYNC or R-DEADLOCK |
| `Blame.LogAbove` | hooks/sync_hook.c:18-57 | whatever the interleaving, every hook line of a file is numbered above 10^9 |
| `Blame.RunsNoSyncBlame` | analyzer/rule_analyzer.py:80-126 | the same for every recording and every replay of any queue under legible names, on the text of their files as verifier and analyzer read them, with the hook lines of any interleavings in between |

## Left out

- The environment the tracers themselves run in, and the addresses and ids a kernel gives: a program that uses them is reproduced when the replaying kernel answers with the same ones.
- ptrace, fork, exec, waitpid and process_vm_*: a stream of stops, and a byte memory whose calls may be refused.
- Opening, flushing and closing files, `adr_mkdir_p`, argument parsing, usage texts and exit codes of the mains: files are byte sequences and a line append is atomic.
- `emit_drift` and exit code 3: dead code in the replayer; DRIFT is kept only as something the verifier may read.
- Failing mallocs in the tracers and failing payload writes: only the queue's realloc can be refused.
- 64-bit wrap-around of the tracers' seq and of addresses: numbers are unbounded there; the length counter of the hash does wrap.
- json.loads beyond its grammar: Python's limits on recursion and on the digits of an integer. A float is kept as its text.
- LoadsShown: says that values are read, not that nothing else is; which lines are no JSON is stated for the tracers' own lines (`Illegible.OwnLineDecodes`).
- Lines that decode to something no tracer writes: Python compares some such values as they are (a number for a name) and raises on others (a list for a line); the reader here answers None.
- How far Python decodes ahead of the line it hands out is a parameter of the readers. Spaces and line ends outside ASCII are not stripped; no tracer writes any at the ends of a line.
- LoadOfRecording: of names that one of the loader's searches does stop in, only those of syscall events are settled (`Harmful.RunIdsReadBack`, newline-free); a process or hook line whose names look like a whole syscall event is outside.
- RunIdsReadBack: run_ids with newlines have the sufficient direction only, in `ReplayQueue.SyscallLineQueues`.
- TraceReadsExactly: for quote-free names; a run_id or target with a bare quote may still give JSON, with other members in it, when a comma, a brace or a space follows the quote, and what the verifier then reads is not stated.
- QuotedRunIdSpoilsLine: one direction, for the same reason.
- QuotedTargetSpoilsLine: likewise.
- A trace directory that is used again: the machines start on an empty file; what an earlier run leaves behind matters in `TraceFile` only, and its references into the truncated payload.bin are stale.
- `copy_metadata` and `write_result` as texts: their parts (escaping, file hashes) are modelled, their layout is not.
- The hook's `in_hook` guard, unset trace directory and failing open: each log call writes its line; `TraceBounds.HookAlwaysWritten` covers the buffers.
- Recursive mutexes, `pthread_mutex_trylock`, failing unlocks, unlocking by a thread that is not the owner: outside the discipline the hook's log is sound for.
- Weak memory in the two counter programs: accesses are interleaved, sequentially consistent reads and writes, and `counter++` under the lock is one of each.
- Reasons and Markdown of the analyzer, adr.py, scripts, CMake and the other demo programs: presentation and plumbing.
- Any claim that SHA-256 is hard to collide: chain binding exhibits the collision instead.
- Pokes that are refused half way: ptrace stores all eight bytes of a word or none.
