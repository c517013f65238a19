# Verified model of the SIP PBX daemon

The daemon answers, queues, dials and records calls. Most of it is input and output; this project
models the closed components whose behaviour is hard to get right, and proves what they keep over
every input and every run.

- **JSON reader and encoder** (`JsText`, `JsonGrammar`, `JsonSpelling`, `JsonParser`, `JsonReader`,
  `JsonWriter`, `JsonMeaning`): the concrete syntax of RFC 8259 as trees, the recursive-descent reader with its one
  cursor, and the encoder with its string escapes.
- **Seekable media output** (`ByteQueue`, `StreamQueues`, `SeekableOutput`): ring buffer, bounded
  queue pair, patch list and output endpoint, against a plain random-access file.
- **Locks and migrations** (`AsyncLock`, `LockProtocol`, `Migration`, `MigrationProtocol`, `MigrationMeaning`): FIFO
  hand-off locks, sections that lock several keys, and the marking of legs that move between media
  workers, interleaved at every await.
- **Recognisers** (`LegWait`, `LegWaitMeaning`, `LineFraming`, `InbandDtmf`): digit rules with interdigit timeouts,
  newline frames, and the debouncing of digits heard in the audio.
- **Retention** (`Retention`): tickets, the free-TTL timer and combined tickets.
- **Queue dispatcher** (`MapRegistry`, `QueueSpec`, `QueueSafety`, `QueueHistory`, `QueueRuns`,
  `QueueMeaning`, `QueueService`): entries with timers, retries, callback mode, rejoining and reserved extensions.
- **Dials** (`DialSpec`, `DialSafety`, `DialRuns`, `DialEndings`,
  `DialMeaning`, `DialService`): parallel and sequential attempts,
  ownership tickets, legs whose end calls back while the call that ended them is still running, and
  calls that throw.

Each component has its behaviour as functions on values, a class or method in the shape of the source
proved against those functions, theorems about the functions over all runs, and laws that tell what each
operation does without naming those functions (the files ending in `Meaning`). A protocol is a set of
steps taken in any order. Time is a number that steps move forward. Random identifiers are counters.
What lies outside a component, such as whether an extension is free, whether a leg is still registered
or which digit a frame of audio shows, is a parameter of its steps.

`dafny verify dfyconfig.toml` checks everything.

## Where the code does not do what one would expect

Each comes with a concrete run, unless nothing can be run because a branch is dead, and each condition
given is exact.

- A property called `__proto__` is lost when encoded JSON is read back (`JsonWriter.RoundTrip`,
  `JsonWriter.ProtoExample`).
- A frame of 2^32 bytes or more is not recovered from its length prefix
  (`StreamQueueSpec.FirstFrame`, `StreamQueueSpec.HugeFrameIsLost`).
- A consumer that pops a fixed number of bytes is told that the stream has ended while fewer are still
  queued (`StreamQueueSpec.PopEndsExactly`, `StreamQueueSpec.TailIsLeft`).
- The output endpoint keeps its byte counter when it forgets its chunks, so a second use is padded
  with zeros (`SeekableOutputSpec.MaterializedExactly`, `SeekableOutputSpec.StaleCounterPads`).
- Digits that come to nothing leave the interdigit deadline in place and can end a long wait early
  (`LegWaitSpec.DeadlineMeans`, `LegWaitSpec.AbandonedDigitsShortenTheWait`).
- Three branches are never taken: refusing to begin a migration under the leg's lock
  (`MigrationProtocol.BeginNeverRefused`), stripping a terminator when silence finalises digits
  (`LegWaitSpec.TerminatorNeverWaits`), and failing a dial when its gap is over
  (`DialMeaning.GapMeans`).
- A caller who joins the queue again while a callback entry is being dispatched leaves the dial
  ringing with nobody to take its answer (`QueueRuns.OrphanedExactlyByRejoin`,
  `QueueRuns.RejoinOrphansTheDial`).
- An answer does not finalise its dial when any earlier attempt has left the leg registry
  (`DialRuns.AnswerFinalisesExactly`, `DialRuns.AnswerCanBeLost`).
- A dial can be finalised and never cleared away: it stays registered, and legs it owns ring on. That
  takes a leg whose end was not reported to the dial, since an earlier listener failed
  (src/daemon/legs/leg-service.ts:146-152), and which has left the leg registry. Destroying a dial
  clears it away if and only if every leg it owns, and would hang up, can be found
  (`DialSafety.DestroyKeeps`, `DialEndings.EndsCleanExactly`, `DialEndings.FinalisedCleanExactly`,
  `DialEndings.BrokenDialRings`). When every leg's end is reported this cannot happen
  (`DialEndings.FinalisedIsClean`).
- A dial can be left unfinalised with nothing under way and nothing scheduled, by the late answer of a
  leg it has given up (`DialEndings.StrandsExactly`, `DialEndings.NeverStrandedExactly`,
  `DialEndings.LateAnswerStrands`).

## Model

| member | source | states |
|---|---|---|
| JsonParser.AcceptsExactlyTheGrammar | src/n8n/actions/ai-actions.ts:135-352 | a text is read if and only if it is a JSON text of RFC 8259, sections 2 to 7, whose numbers are finite; the whole text is consumed, and the tree found is the one that spells it |
| JsonParser.Unambiguous | src/n8n/actions/ai-actions.ts:135-352 | no text has two readings |
| JsonGrammar.LastDuplicateWins | src/n8n/actions/ai-actions.ts:293 | of members with the same name the last one gives the value, and other names are untouched |
| JsonReader.ParseJsonText | src/n8n/actions/ai-actions.ts:135-352 | for every text the reader ends, and returns the value the grammar assigns, or fails exactly when no tree with finite numbers spells the text |
| JsonReader.Reader.constructor | src/n8n/actions/ai-actions.ts:135-137 | the cursor starts at the beginning of the text |
| JsonReader.Reader.SkipWhitespace | src/n8n/actions/ai-actions.ts:139-147 | the cursor moves past the longest run of the four blanks |
| JsonReader.Reader.SkipDigitRun | src/n8n/actions/ai-actions.ts:230-232 | the cursor moves past the longest run of digits |
| JsonReader.Reader.ParseLiteral | src/n8n/actions/ai-actions.ts:149-155 | succeeds exactly on the literal, and moves just past it |
| JsonReader.Reader.ParseEscape | src/n8n/actions/ai-actions.ts:169-207 | the unit an escape stands for, for the eight short escapes and four hexadecimal digits, and failure for every other |
| JsonReader.Reader.ParseChar | src/n8n/actions/ai-actions.ts:163-213 | one character of a string, plain or escaped; control characters fail |
| JsonReader.Reader.ParseString | src/n8n/actions/ai-actions.ts:157-216 | the units between two quotes as the grammar reads them, cursor just past the closing quote |
| JsonReader.Reader.ParseNumber | src/n8n/actions/ai-actions.ts:220-260 | a number as the grammar reads it: no leading zeros, digits after the point and the exponent, finite |
| JsonReader.Reader.ParseFraction | src/n8n/actions/ai-actions.ts:236-244 | a fraction has at least one digit, and all of them are taken |
| JsonReader.Reader.ParseExponent | src/n8n/actions/ai-actions.ts:245-257 | an exponent has an optional sign and at least one digit |
| JsonReader.Reader.ParseValue | src/n8n/actions/ai-actions.ts:262-344 | one value and the cursor after it, as the grammar reads it from that position |
| JsonReader.Reader.ParseRecord | src/n8n/actions/ai-actions.ts:271-306 | an object's members take effect in the order of the text |
| JsonReader.Reader.ParseMember | src/n8n/actions/ai-actions.ts:280-293 | a name, a colon and a value |
| JsonReader.Reader.ParseArray | src/n8n/actions/ai-actions.ts:307-333 | an array's elements in the order of the text |
| JsonWriter.QuoteSpells | src/n8n/actions/ai-actions.ts:393-395 | a quoted string is a JSON string that denotes exactly that string, lone surrogates included |
| JsonWriter.EncodeSpells | src/n8n/actions/ai-actions.ts:389-432 | what the encoder prints is the text of a JSON tree |
| JsonWriter.ReadsWhatWasPrinted | src/n8n/actions/ai-actions.ts:389-432 | whatever the encoder prints is accepted by the reader |
| JsonWriter.RoundTrip | src/n8n/actions/ai-actions.ts:389-432 | reading what was printed gives back exactly the value, if and only if no printed property anywhere in it is called `__proto__` |
| JsonWriter.ProtoExample | src/n8n/actions/ai-actions.ts:293 | an object whose only property is called `__proto__` is read back as an empty object |
| JsonWriter.NumbersSurvive | src/n8n/actions/ai-actions.ts:396-398 | every finite number comes back, in whatever decimal form it is printed, exponents included |
| JsonWriter.IntegersSurvive | src/n8n/actions/ai-actions.ts:396-398 | so does every integer below the overflow bound when printed as plain decimal digits |
| JsonWriter.QuotedUnit | src/n8n/actions/ai-actions.ts:393-395 | how each single unit is quoted: five control characters, quote and backslash by a letter, other control characters and lone surrogates by four lower-case hexadecimal digits, anything else as it is |
| JsonWriter.QuotedPlainly | src/n8n/actions/ai-actions.ts:393-395 | text without such units, surrogate pairs included, is quoted unchanged |
| JsonMeaning.NumberMeans | src/n8n/actions/ai-actions.ts:258-259 | the reader's value of a numeral is its sign, whole part and fraction over a power of ten, multiplied or divided by the power of ten of the exponent, and it fails if that is no finite double |
| JsonMeaning.WholeNumbersMean | src/n8n/actions/ai-actions.ts:220-260 | a digit is its distance from 0x30, and one digit more multiplies what was read by ten and adds it |
| JsonMeaning.FractionsMean | src/n8n/actions/ai-actions.ts:236-244 | the k-th digit after the point adds that many times ten to the minus k |
| JsonMeaning.ExponentsMean | src/n8n/actions/ai-actions.ts:245-257 | an exponent of zero changes nothing, and one more multiplies by ten, or divides if negative |
| JsonMeaning.MinusMeans | src/n8n/actions/ai-actions.ts:222-224 | a minus in front negates |
| JsonMeaning.NumberExamples | src/n8n/actions/ai-actions.ts:258-258 | 1.5, -2.50e+3 and 7E-2 are read as these numbers |
| JsonMeaning.OverflowMeans | src/n8n/actions/ai-actions.ts:259-259 | numbers are finite below 2^1024 - 2^970 in size |
| JsonMeaning.NumeralsMean | src/n8n/actions/ai-actions.ts:220-257 | the form of a numeral, unit by unit |
| JsonMeaning.NumeralOf | src/n8n/actions/ai-actions.ts:220-257 | every text of that form is a numeral |
| JsonMeaning.CharactersMean | src/n8n/actions/ai-actions.ts:163-213 | the three ways to write a unit of a string |
| JsonMeaning.TerminalsMean | src/n8n/actions/ai-actions.ts:139-232 | which units are blanks, digits, hexadecimal digits and escape letters, no more and no less |
| JsonMeaning.EscapesMean | src/n8n/actions/ai-actions.ts:169-195 | what each short escape stands for |
| JsonMeaning.HexMeans | src/n8n/actions/ai-actions.ts:196-204 | four hexadecimal digits stand for one unit, the first counting most |
| JsonMeaning.PlainMeans | src/n8n/actions/ai-actions.ts:210-213 | other units from 0x20 on stand for themselves |
| JsonMeaning.LiteralsMean | src/n8n/actions/ai-actions.ts:334-342 | null, true and false, unit by unit |
| JsonMeaning.BlanksMean | src/n8n/actions/ai-actions.ts:139-147 | blanks around a text change nothing |
| JsonMeaning.ArraysMean | src/n8n/actions/ai-actions.ts:307-333 | texts that are read, between brackets and commas, are read as the array of their values |
| JsonMeaning.ObjectsMean | src/n8n/actions/ai-actions.ts:271-306 | names and values that are read, between braces, colons and commas, are read as an object with them set in order |
| JsonMeaning.EmptyMeans | src/n8n/actions/ai-actions.ts:271-314 | nothing but blanks between brackets or braces is an empty array or object |
| JsonMeaning.ProtoMeans | src/n8n/actions/ai-actions.ts:293 | a second value for `__proto__` is dropped after true and after an object, and stored after null |
| ByteQueues.ByteQueue.constructor | native/shared/byte-queue.h:11-13 | a new queue is empty |
| ByteQueues.ByteQueue.Clear | native/shared/byte-queue.h:31-34 | empties the queue |
| ByteQueues.ByteQueue.Append | native/shared/byte-queue.h:40-57 | the contents grow by exactly the bytes given, across the end of the ring and across reallocation |
| ByteQueues.ByteQueue.CopyIn | native/shared/byte-queue.h:49-55 | bytes that fit are put behind the tail in one or two pieces |
| ByteQueues.ByteQueue.Drain | native/shared/byte-queue.h:59-78 | the first bytes move to the target and the rest stay, in order |
| ByteQueues.ByteQueue.Discard | native/shared/byte-queue.h:80-96 | the first bytes are dropped and the rest stay, in order |
| ByteQueues.ByteQueue.CopyPrefix | native/shared/byte-queue.h:98-112 | the first bytes are copied and nothing is removed |
| ByteQueues.ByteQueue.PeekU32LE | native/shared/byte-queue.h:114-124 | the little-endian number of the first four bytes, or of fewer |
| ByteQueues.ByteQueue.EnsureCapacity | native/shared/byte-queue.h:142-155 | growing keeps the contents |
| StreamQueueSpec.InputIsConserved | native/shared/native-stream.h:189-330 | over every run the input queue stays within its limit, bytes leave in the order they were accepted, and until Close accepted input is removed input followed by queued input |
| StreamQueueSpec.PushIsAllOrNothing | native/shared/native-stream.h:333-386 | a push adds all of its bytes or none, and adds them exactly when the queue is open and they fit |
| StreamQueueSpec.RefusalsMean | native/shared/native-stream.h:333-386 | each refusal of a push comes exactly in its own case: too long, no room, closed, input closed |
| StreamQueueSpec.FreshTakes | native/shared/native-stream.h:76-79 | a new queue takes up to 4096 bytes, or what was requested if more, in one push |
| StreamQueueSpec.DrainEndsExactly | native/shared/native-stream.h:189-218 | draining takes what there is up to the capacity, and reports the end if and only if it found a closed input empty; which is the same as closed with nothing left, unless this call took the last bytes |
| StreamQueueSpec.PopEndsExactly | native/shared/native-stream.h:220-259 | popping reports the end if and only if input is closed and less than asked for is left or all is taken; which is the same as closed with nothing left, unless some is left but less than asked for |
| StreamQueueSpec.NothingPopped | native/shared/native-stream.h:189-244 | draining and popping are refused exactly when closed, and popping also when the target holds less than asked for |
| StreamQueueSpec.TailIsLeft | native/shared/native-stream.h:246-251 | three bytes, then the end of input: popping at least four reports the end and leaves the three |
| StreamQueueSpec.OutputIsConserved | native/shared/native-stream.h:303-315 | until Close output collected and output queued are the output produced, in order |
| StreamQueueSpec.FirstFrame | native/shared/native-stream.h:138-143 | the length prefix delimits its frame if and only if the frame is shorter than 2^32 bytes |
| StreamQueueSpec.HugeFrameIsLost | native/shared/native-stream.h:138-143 | a pushed frame of 2^32 zero bytes is accepted, and what is found first is an empty frame |
| StreamQueueSpec.FramesComeBack | native/shared/native-stream.h:129-157 | frames shorter than 2^32 bytes are recovered one by one, in order, whatever follows |
| StreamQueueSpec.FramesArriveInOrder | native/shared/native-stream.h:129-259 | however frames are pushed and bytes taken, the frames in what was taken and is still queued are the accepted ones in push order |
| StreamQueueSpec.ConsumerKeepsUp | native/shared/native-stream.h:129-301 | however pushes, closing and a consumer's peek, discard and pop calls are interleaved, the frames recovered are the first of those accepted, and all of them once the queue is empty between frames |
| StreamQueueSpec.NextFrameIsRead | native/shared/native-stream.h:220-301 | while a frame is missing, the consumer's next peek, discard and pop recover it without waiting |
| StreamQueues.NativeByteQueues.constructor | native/shared/native-stream.h:76-79 | both queues start empty and open, with a limit of at least 4096 |
| StreamQueues.NativeByteQueues.PushInputSegments | native/shared/native-stream.h:333-386 | one turn of a push: its outcome and the new queues, for every combination of limit, room and closing |
| StreamQueues.NativeByteQueues.PushInput | native/shared/native-stream.h:81-127 | a push of one segment |
| StreamQueues.NativeByteQueues.PushInputWithLengthPrefix | native/shared/native-stream.h:129-187 | a push of a frame with its little-endian length in front |
| StreamQueues.NativeByteQueues.TryDrainInput | native/shared/native-stream.h:189-218 | up to the capacity is taken from the front; end of stream is reported only on an empty closed input |
| StreamQueues.NativeByteQueues.TryPopInputAtLeast | native/shared/native-stream.h:220-259 | nothing is taken below the minimum; the last chunk reports end of stream |
| StreamQueues.NativeByteQueues.PeekInputU32LE | native/shared/native-stream.h:291-294 | the little-endian number at the front of the input, which stays |
| StreamQueues.NativeByteQueues.DiscardInput | native/shared/native-stream.h:296-301 | input is dropped from the front |
| StreamQueues.NativeByteQueues.AppendOutput | native/shared/native-stream.h:303-308 | output grows at the back |
| StreamQueues.NativeByteQueues.DrainOutput | native/shared/native-stream.h:310-315 | output is taken from the front |
| StreamQueues.NativeByteQueues.CloseInput | native/shared/native-stream.h:317-321 | only the input closes; what is queued stays |
| StreamQueues.NativeByteQueues.Close | native/shared/native-stream.h:323-330 | everything closes and both queues empty |
| SeekableOutputSpec.RecordApplies | native/streams/ffmpeg.cc:910-923 | coalescing changes nothing: a recorded overwrite takes effect after all earlier patches |
| SeekableOutputSpec.RunRepresents | native/streams/ffmpeg.cc:831-875 | over any run of writes, seeks, drains and patch collections, the appended bytes with all patches applied in order are the contents of a plain random-access file |
| SeekableOutputSpec.RebuildsTheFile | native/streams/ffmpeg.cc:831-923 | once all is drained and collected, the endpoint's bytes with the patches are that file |
| SeekableOutputSpec.AnswersAreTheFiles | native/streams/ffmpeg.cc:831-875 | every write and seek answers what the plain file would answer, errors included |
| SeekableOutputSpec.SeekMeans | native/streams/ffmpeg.cc:858-875 | after any run, what each whence number, forced or not, does to the position and answers, in plain numbers: offset itself, from the position, from the end, the size alone, and -22 for anything else or a negative target |
| SeekableOutputSpec.WriteMeans | native/streams/ffmpeg.cc:831-856 | after any run, a write past the end answers -5 and changes nothing, and any other is taken whole and found in the file byte by byte |
| SeekableOutputSpec.OverwriteIsRebuilt | native/streams/ffmpeg.cc:831-875 | after any run, going to k and writing there leaves, once all is collected, those bytes from k on and the old ones elsewhere |
| SeekableOutputSpec.MaterializedExactly | src/daemon/media/io/binary-endpoint.ts:119-127 | the endpoint's bytes are its chunks end to end if and only if there are fewer than two or the byte counter counts just those |
| SeekableOutputSpec.StaleCounterPads | src/daemon/media/io/binary-endpoint.ts:104-117 | a new endpoint that takes a chunk, is aborted or finalised, and takes two more, is padded with as many zeros as the first chunk was long |
| SeekableOutput.MediaStreamEncoder.constructor | native/streams/ffmpeg.cc:831-875 | the encoder starts with an empty stream, at position zero, without patches |
| SeekableOutput.MediaStreamEncoder.WritePacket | native/streams/ffmpeg.cc:831-855 | overwritten bytes become a patch, the rest is appended, and a write past the end is refused without effect |
| SeekableOutput.MediaStreamEncoder.RecordPatch | native/streams/ffmpeg.cc:910-923 | an overwrite that continues the last patch extends it, any other starts a new one |
| SeekableOutput.MediaStreamEncoder.Seek | native/streams/ffmpeg.cc:857-875 | the four kinds of seek, the size query and the refusals |
| SeekableOutput.MediaStreamEncoder.DrainInto | native/streams/ffmpeg.cc:675-677 | up to the capacity is taken from the stream, in order |
| SeekableOutput.MediaStreamEncoder.TakeOutputPatches | native/streams/ffmpeg.cc:691-696 | all patches are handed over once |
| SeekableOutput.ApplyPatches | src/daemon/media/io/binary-endpoint.ts:12-20 | patches are pasted in order, clipped to the buffer; unusable ones are skipped and negative offsets count as zero |
| SeekableOutput.LastPatchWins | src/daemon/media/io/binary-endpoint.ts:12-20 | each byte of the patched output is that of the last patch that reaches it, or what was there |
| SeekableOutput.BinaryOutputEndpoint.constructor | src/daemon/media/io/binary-endpoint.ts:74-79 | an endpoint starts without chunks |
| SeekableOutput.BinaryOutputEndpoint.WriteChunk | src/daemon/media/io/binary-endpoint.ts:81-94 | the given range, clipped to the chunk, is added as one chunk |
| SeekableOutput.BinaryOutputEndpoint.Materialize | src/daemon/media/io/binary-endpoint.ts:119-127 | no chunk, the single chunk itself, or all of them fitted to the byte counter in a new buffer |
| SeekableOutput.BinaryOutputEndpoint.FinalizeSeekable | src/daemon/media/io/binary-endpoint.ts:100-113 | the patched bytes; the chunks are forgotten and the byte counter is not |
| SeekableOutput.BinaryOutputEndpoint.Abort | src/daemon/media/io/binary-endpoint.ts:115-117 | the chunks are forgotten and the byte counter is not |
| SeekableOutput.Concat | src/daemon/media/io/binary-endpoint.ts:126 | the chunks end to end, cut or zero-filled to the total given |
| SeekableOutput.EndToEnd | src/daemon/media/io/binary-endpoint.ts:81-127 | muxer, stream, patch list and endpoint together return the plain file |
| LockSpec.SectionKeysSorted | src/daemon/core/async-lock.ts:57 | a section locks exactly its trimmed, non-blank keys, each once and in ascending order |
| LockSpec.SectionKeysUnordered | src/daemon/core/async-lock.ts:57 | the order and repetition of the keys asked for do not matter |
| AsyncLocks.AsyncLock.constructor | src/daemon/core/async-lock.ts:4-5 | a new lock is free and nobody waits |
| AsyncLocks.AsyncLock.Acquire | src/daemon/core/async-lock.ts:7-15 | a free lock is granted at once, and otherwise the caller is last in line |
| AsyncLocks.AsyncLock.Release | src/daemon/core/async-lock.ts:26-33 | the first in line becomes the owner, and with nobody in line the lock is free |
| LockProtocol.ExclusiveAndFair | src/daemon/core/async-lock.ts:3-34 | in every reachable state a key has at most one owner, is locked exactly while owned, is waited for by exactly those in its line, and is granted in the order of requests |
| LockProtocol.BodyOwnsItsKeys | src/daemon/core/async-lock.ts:56-70 | a running section owns every non-blank key it asked for, trimmed, and no section with a common key runs meanwhile |
| LockProtocol.NeverStuck | src/daemon/core/async-lock.ts:56-70 | unless all sections are done some section can move: sorted acquisition leaves no cycle of waits |
| LockProtocol.StepFalls | src/daemon/core/async-lock.ts:56-70 | every move lowers the measure of work left |
| LockProtocol.AllFinish | src/daemon/core/async-lock.ts:56-70 | every run of any set of sections is bounded in advance, and one that cannot go on has finished them all |
| Migrations.MigrationBoard.constructor | src/daemon/media/media-service.ts:217-218 | no leg is migrating and nobody waits |
| Migrations.MigrationBoard.BeginLegMigration | src/daemon/media/media-service.ts:824-830 | marks a leg, and says no to a marked one |
| Migrations.MigrationBoard.EndLegMigration | src/daemon/media/media-service.ts:832-842 | unmarks the leg and wakes exactly its waiters in order; an unmarked leg is left alone |
| Migrations.MigrationBoard.Check | src/daemon/media/media-service.ts:814-820 | a caller that finds the leg marked registers behind the others, and otherwise goes on |
| Migrations.MigrationBoard.Shutdown | src/daemon/media/media-service.ts:637-648 | all marks and waiters are forgotten and exactly the registered callers are woken |
| MigrationProtocol.MarkedUnderLock | src/daemon/media/media-service.ts:1086-1159 | in every reachable state a marked leg's lock is owned by the caller that is migrating it |
| MigrationProtocol.OwnLockNeverBlocks | src/daemon/media/media-service.ts:811-822 | a caller waiting for a leg under that leg's own lock never blocks |
| MigrationProtocol.BeginNeverRefused | src/daemon/media/media-service.ts:1099-1101 | a migration that reaches the mark always gets it |
| MigrationProtocol.BlockedMeansRegistered | src/daemon/media/media-service.ts:811-842 | a caller is blocked on a leg exactly while it is registered for it, and then the leg is marked |
| MigrationProtocol.NeverStuck | src/daemon/media/media-service.ts:811-842 | unless all jobs are done some caller can move |
| MigrationProtocol.StepFalls | src/daemon/media/media-service.ts:811-842 | every move of a caller lowers the measure, and a shutdown raises it by at most the number of callers |
| MigrationProtocol.AllFinish | src/daemon/media/media-service.ts:811-842 | every run is bounded in advance but for shutdowns, and one in which no caller can go on has finished every job |
| MigrationMeaning.WorkIsUndisturbed | src/daemon/media/media-service.ts:811-841 | while a caller has locked a leg to wait for it and work on it, the leg is not being moved |
| MigrationMeaning.LockingMeans | src/daemon/media/media-service.ts:811-823 | locks are taken in order while free, and then come the legs to find at rest: each non-empty one once, ascending |
| MigrationMeaning.CheckingMeans | src/daemon/media/media-service.ts:811-823 | a leg being moved makes its caller wait, last in line; one at rest is struck off; with none left work begins |
| MigrationMeaning.MigrationMeans | src/daemon/media/media-service.ts:1086-1101 | a migration marks just its leg if the other checks allow, and otherwise gives up unmarked |
| MigrationMeaning.WorkMeans | src/daemon/media/media-service.ts:811-823 | work of another kind ends without touching a mark |
| MigrationMeaning.StopMeans | src/daemon/media/media-service.ts:637-648 | shutting down takes away every mark and wakes everyone who waits |
| MigrationMeaning.EndingMeans | src/daemon/media/media-service.ts:832-841 | the end of a migration takes away just its mark and wakes exactly those who waited for that leg |
| MigrationMeaning.ReleasingMeans | src/daemon/media/media-service.ts:1086-1159 | locks are released one by one, and then comes the next section |
| LegWaitSpec.FirstRuleMeans | src/daemon/legs/leg-wait-service.ts:413 | a rule is chosen exactly when it is the first with that pattern |
| LegWaitSpec.SinceMeans | src/daemon/legs/leg-wait-service.ts:486-505 | the digits since a reset have begun some rule throughout, and those that were reset began none |
| LegWaitSpec.DigitsBeginARule | src/daemon/legs/leg-wait-service.ts:223-325 | with multi-digit fallback off a leg's digits are those since its last reset, and empty or the beginning of a rule |
| LegWaitSpec.RunEnds | src/daemon/legs/leg-wait-service.ts:223-325 | a wait ends with the first arrival that has an outcome, and goes on while there is none |
| LegWaitSpec.MatchIsJustified | src/daemon/legs/leg-wait-service.ts:361-507 | with multi-digit fallback off a match is always the first rule equal to the digits since the last reset, and comes with a digit only if no rule goes on from them or the interdigit timeout is zero, and otherwise once the deadline has passed |
| LegWaitSpec.FinalizeMeans | src/daemon/legs/leg-wait-service.ts:250-262 | silence asks the legs in order, and the first that has something to report ends the wait |
| LegWaitSpec.RuleIsReported | src/daemon/legs/leg-wait-service.ts:361-507 | a rule typed in any pieces is reported if and only if no part typed on the way is reported at once and no other rule goes on from it, or the interdigit timeout is zero |
| LegWaitSpec.EveryRuleCanBeTyped | src/daemon/legs/leg-wait-service.ts:361-573 | with a positive interdigit timeout every rule can be typed on any live leg: reported with its last digit if no rule goes on from it, and otherwise by silence if and only if no leg asked before has anything to report |
| LegWaitSpec.TerminatorNeverWaits | src/daemon/legs/leg-wait-service.ts:528-563 | with multi-digit fallback on, no run leaves a terminator in a leg's digits, so silence never strips one |
| LegWaitMeaning.PieceMeans | src/daemon/legs/leg-wait-service.ts:361-506 | what a piece of digits comes to, with multi-digit fallback on or off: a rule, the terminator's answer, the fallback, held or dropped, and whether more is awaited |
| LegWaitMeaning.TerminatorReports | src/daemon/legs/leg-wait-service.ts:435-472 | typing p and the terminator in any pieces reports the first rule that is p, else the fallback p ended by it if on, else leaves no digits held |
| LegWaitMeaning.TypingMeans | src/daemon/legs/leg-wait-service.ts:411-506 | with multi-digit fallback on, text without terminator is reported as a rule when nothing is left to wait for, as fallback when no rule begins so and nothing is waited for, and otherwise held whole |
| LegWaitMeaning.StrayDigits | src/daemon/legs/leg-wait-service.ts:474-494 | with it off, digits that begin no rule are the fallback at once if on, and otherwise make the leg start over |
| LegWaitMeaning.SilenceMeans | src/daemon/legs/leg-wait-service.ts:508-573 | silence reports the first rule the digits are, else the fallback if on |
| LegWaitMeaning.EventsMean | src/daemon/legs/leg-wait-service.ts:375-410 | a leg's end is always reported, an interruption exactly when its reason was asked for |
| LegWaitMeaning.IdleWait | src/daemon/legs/leg-wait-service.ts:223-325 | a wait in which nothing arrives times out with its timeout and not before, on the leg asked for first |
| LegWaitMeaning.TerminatorExample | src/daemon/legs/leg-wait-service.ts:437-465 | with rules 12 and 123: 1, 2, # reports rule 12; 1, 4, # reports 14 as fallback |
| LegWaitSpec.DeadlineMeans | src/daemon/legs/leg-wait-service.ts:194-196 | the deadline is the timeout until a digit leaves its leg waiting for more, and from then on the interdigit timeout after the last such digit |
| LegWaitSpec.AbandonedDigitsShortenTheWait | src/daemon/legs/leg-wait-service.ts:244-250 | a wait of half a minute whose only rule is 12 is over one second after 1 and 9 were typed |
| LegWaiting.FinalizeAll | src/daemon/legs/leg-wait-service.ts:250-262 | the outcome of silence over all legs |
| LegWaiting.WaitForEvent | src/daemon/legs/leg-wait-service.ts:113-325 | the waiting loop returns the outcome of the run of its arrivals |
| LineFramingSpec.LinesHaveNone | src/control/controller-framing.ts:13-17 | neither a line nor the text held back contains a newline |
| LineFramingSpec.LinesRebuild | src/control/controller-framing.ts:13-17 | the lines, each with its newline, and the text held back are the stream |
| LineFramingSpec.ChunksDoNotMatter | src/control/controller-framing.ts:11-33 | the frames delivered are the trimmed non-blank lines of the whole stream, however it was cut into chunks |
| LineFramingSpec.WrittenComesBack | src/control/controller-framing.ts:35-37 | texts written one a line are delivered as the same frames, however the stream was cut, if and only if none holds a newline, is empty or has white space at an end |
| LineFramingSpec.FramingExample | src/control/controller-framing.ts:8-37 | two chunks with a line, an empty line and an unfinished one deliver one frame, in plain numbers |
| JsText.TrimMeans | src/control/controller-framing.ts:14-16 | trimming leaves the middle of a string, cutting off white space only, and leaves none at its ends |
| JsText.SpacesMean | src/control/controller-framing.ts:14 | white space is twenty-five code units, listed |
| LineFraming.LineFramedSocket.constructor | src/control/controller-framing.ts:5 | nothing is held back at first |
| LineFraming.LineFramedSocket.Receive | src/control/controller-framing.ts:11-33 | one chunk delivers the frames of the lines it completes and holds the rest back |
| InbandDtmfSpec.RunKeeps | src/daemon/media/dtmf/inband-dtmf-detector.ts:160-221 | over any history the fields describe it: the open candidate, the held digit and its gap, and when suppression ends |
| InbandDtmfSpec.ReportedWasPressed | src/daemon/media/dtmf/inband-dtmf-detector.ts:160-221 | every digit reported was an unbroken tone of at least 40 ms, followed, without an out-of-band digit, by an unbroken gap that reaches 40 ms with this frame |
| InbandDtmfSpec.LongPressIsReported | src/daemon/media/dtmf/inband-dtmf-detector.ts:160-221 | a tone of at least 80 ms in frames of at most 40 ms is reported whatever came before, at the frame with which its gap reaches 40 ms and not earlier |
| InbandDtmfSpec.OrdinaryPress | src/daemon/media/dtmf/inband-dtmf-detector.ts:137-221 | in frames of 20 ms two with a digit and two without report it with the fourth, and one with a digit reports nothing |
| InbandDtmfSpec.OutOfBandSilences | src/daemon/media/dtmf/inband-dtmf-detector.ts:150-156 | a digit signalled out of band at t silences what is heard before t + 500 |
| InbandDtmfSpec.ShortFrames | src/daemon/media/dtmf/inband-dtmf-detector.ts:91-93 | a frame shorter than 10 ms shows nothing |
| InbandDtmfSpec.ReportsNeedAudio | src/daemon/media/dtmf/inband-dtmf-detector.ts:160-221 | forty milliseconds for each digit reported and the open press and gap never exceed the audio fed |
| InbandDtmf.InbandDtmfDetector.constructor | src/daemon/media/dtmf/inband-dtmf-detector.ts:138-142 | a detector starts with nothing heard |
| InbandDtmf.InbandDtmfDetector.Reset | src/daemon/media/dtmf/inband-dtmf-detector.ts:144-150 | everything is forgotten, suppression included |
| InbandDtmf.InbandDtmfDetector.Clear | src/daemon/media/dtmf/inband-dtmf-detector.ts:153-156 | everything but suppression is forgotten |
| InbandDtmf.InbandDtmfDetector.NotifyExternalDtmf | src/daemon/media/dtmf/inband-dtmf-detector.ts:152-158 | what was heard is forgotten and the next half second is suppressed, never less than before |
| InbandDtmf.InbandDtmfDetector.Feed | src/daemon/media/dtmf/inband-dtmf-detector.ts:160-221 | one frame's effect and the digit it completes; a call without audio does nothing |
| RetentionSpec.CountAndTimer | src/daemon/core/operation-retainer.ts:36-115 | until destruction the count is the number of tickets out, whatever the order and repetition of releases, and the timer is pending exactly while it is zero and has not expired since a ticket was last taken |
| RetentionSpec.FreedAfterIdleTtl | src/daemon/core/operation-retainer.ts:95-102 | an expiring timer always reaches the entity, and only after a whole TTL in which no ticket was out |
| RetentionSpec.LastTicketStartsTheTimer | src/daemon/core/operation-retainer.ts:36-124 | giving back the last ticket sets the timer for exactly one TTL from then, giving back another leaves it unset, and taking one stops it |
| RetentionSpec.ReleaseAllCounted | src/daemon/core/operation-retainer.ts:15-29 | giving several tickets back gives back exactly those |
| RetentionSpec.ReleaseAllUnordered | src/daemon/core/operation-retainer.ts:15-29 | neither order nor repetition of the tickets matters |
| RetentionSpec.ReleaseTwice | src/daemon/core/operation-retainer.ts:55-62 | giving a ticket back again does nothing |
| Retention.RetainedEntity.constructor | src/daemon/core/operation-retainer.ts:44-48 | a new entity has no ticket out and its timer runs |
| Retention.RetainedEntity.Retain | src/daemon/core/operation-retainer.ts:50-66 | one more ticket, and no timer |
| Retention.RetainedEntity.ReleaseTicket | src/daemon/core/operation-retainer.ts:55-62 | the ticket is given back once, and the last one starts the timer |
| Retention.RetainedEntity.OpBegin | src/daemon/core/operation-retainer.ts:72-82 | the count rises and the timer stops, unless cleared |
| Retention.RetainedEntity.OpEnd | src/daemon/core/operation-retainer.ts:84-105 | the count falls, not below zero, and at zero the timer starts afresh |
| Retention.RetainedEntity.TimerFires | src/daemon/core/operation-retainer.ts:96-102 | the timer is gone, and the handler runs when its generation is current |
| Retention.RetainedEntity.ClearRetention | src/daemon/core/operation-retainer.ts:107-115 | destruction stops counting and timing |
| Retention.CombinedTicket.constructor | src/daemon/core/operation-retainer.ts:15-18 | a combined ticket is not released at first |
| Retention.CombinedTicket.Release | src/daemon/core/operation-retainer.ts:19-27 | every entity gets its tickets back, once |
| QueueSafety.NextKeeps | src/daemon/queue/queue-service.ts:54-442 | every operation keeps entries, index, tickets, timers and reservations consistent |
| QueueHistory.NextTold | src/daemon/queue/queue-service.ts:54-442 | every operation keeps retry counts, placements and pauses in step with what the queue published |
| QueueRuns.ReservationsAreDisjoint | src/daemon/queue/queue-service.ts:306-357 | in every reachable state extensions reserved in one scope do not overlap, and an entry is dispatching exactly while it names a dial, its own and unfinalised |
| QueueRuns.IndexIsBijection | src/daemon/queue/queue-entry-registry.ts:7-56 | the index of legs and the entries match one to one |
| QueueRuns.TicketsAreExact | src/daemon/queue/types.ts:109-140 | the queue has exactly one ticket out for each live entry, on that entry's leg, and no other |
| QueueRuns.DispatchesAreBounded | src/daemon/queue/queue-service.ts:171-203 | since it last joined an entry is dispatched at most retryAttempts + 1 times, or once more if going into callback mode dropped a dial, and published as placed at most once |
| QueueRuns.NoEarlyDispatch | src/daemon/queue/queue-service.ts:197-203 | no dispatch follows a failed or dropped dial of its entry sooner than the pause, unless the entry joined again |
| QueueRuns.OrphanedExactlyByRejoin | src/daemon/queue/queue-service.ts:84-95 | a dial goes on ringing with no entry left to take its answer if and only if the caller of an entry being dispatched joins again |
| QueueRuns.RejoinOrphansTheDial | src/daemon/queue/queue-service.ts:84-95 | from an empty queue: a caller wants a callback, hangs up, and joins again while the callback rings; the dial rings on, and answering it leaves the caller waiting |
| QueueRuns.ParkedOnlyForWantOfExtensions | src/daemon/queue/queue-service.ts:289-323 | a waiting entry has a timer, except after its timer fired and found every extension taken |
| QueueRuns.RejoiningKeepsThePlace | src/daemon/queue/queue-service.ts:84-129 | joining again keeps the place in the queue, and a new entry goes to the chosen end |
| QueueRuns.BestMeans | src/daemon/queue/queue-service.ts:370-392 | the entry joined again is the oldest that fits, the first of equals |
| QueueMeaning.AnsweredIsTaken | src/daemon/queue/queue-service.ts:171-179 | in a reachable queue an answered dial removes its entry with all that was kept for it, and puts its wait on record and no failure |
| QueueMeaning.UnansweredIsRetried | src/daemon/queue/queue-service.ts:181-195 | an unanswered dial within the budget leaves the entry in its place, idle, counted, with timer and pause at now plus the pause, placed once, and nothing completed |
| QueueMeaning.UnansweredIsGivenUp | src/daemon/queue/queue-service.ts:181-192 | with the budget spent the entry is removed and published as offline |
| QueueMeaning.UnnamedIsIgnored | src/daemon/queue/queue-service.ts:171-175 | a dial no entry names does nothing |
| QueueMeaning.TakingMeans | src/daemon/queue/queue-service.ts:161-169 | taking an entry removes it and records its wait |
| QueueMeaning.RefreshingMeans | src/daemon/queue/queue-service.ts:252-263 | refreshing gives each waiting entry of the scope a timer at the later of now and the end of its pause, and touches nothing else |
| QueueMeaning.LeavingMeans | src/daemon/queue/queue-service.ts:131-149 | a live entry that wants a callback stays in place in callback mode without dial and ticket, and any other is removed, its leg told unless silent |
| QueueMeaning.WishingMeans | src/daemon/queue/queue-service.ts:151-159 | only the callback wish of that leg's entry changes |
| QueueMeaning.RefusalMeans | src/daemon/queue/queue-service.ts:54-76 | a leg that has an entry, is unknown, or is no inbound SIP call from a trunk is refused without effect |
| QueueMeaning.RejoiningMeans | src/daemon/queue/queue-service.ts:84-95 | the oldest fitting entry is taken over in its place: new leg, ticket, index, budget and counts, looked at at once |
| QueueMeaning.JoiningMeans | src/daemon/queue/queue-service.ts:97-129 | otherwise a new entry stands at the chosen end, with a fresh number, a ticket and a timer |
| QueueMeaning.TurnMeans | src/daemon/queue/queue-service.ts:289-357 | a timer that fires waits out the pause, gives up offline, publishes placed once, or dispatches to exactly the available extensions that no entry of the scope has reserved, on a new dial |
| Queues.QueueEntry.constructor | src/daemon/queue/types.ts:61-84 | a new entry is live, idle and holds its ticket |
| Queues.QueueEntry.ToDispatching | src/daemon/queue/types.ts:94-100 | the entry names the dial and reserves the extensions |
| Queues.QueueEntry.ToIdle | src/daemon/queue/types.ts:102-107 | dial and reservations are let go |
| Queues.QueueEntry.ToCallback | src/daemon/queue/types.ts:109-117 | the entry is idle in callback mode and its ticket is given back |
| Queues.QueueEntry.ToRejoined | src/daemon/queue/types.ts:119-131 | the entry is live on the new leg with a new ticket, its counts start over and the old ticket is given back |
| Queues.QueueEntry.ToEnded | src/daemon/queue/types.ts:133-140 | the entry has ended and its ticket is given back |
| Queues.QueueEntryRegistry.Get | src/shared/map-registry.ts:19-21 | the entry with that number, if there is one |
| Queues.QueueEntryRegistry.GetByLegId | src/daemon/queue/queue-entry-registry.ts:17-21 | the entry the index names for the leg |
| Queues.QueueEntryRegistry.GetByDialId | src/daemon/queue/queue-entry-registry.ts:23-33 | the first entry that names the dial |
| Queues.QueueEntryRegistry.Create | src/daemon/queue/queue-entry-registry.ts:7-15 | the entry goes to the chosen end and its leg into the index |
| Queues.QueueEntryRegistry.ReplaceLegBinding | src/daemon/queue/queue-entry-registry.ts:39-46 | the entry is bound to the new leg and no other |
| Queues.QueueEntryRegistry.RemoveEntry | src/daemon/queue/queue-entry-registry.ts:48-56 | just that entry goes, the others keep their order, and its leg leaves the index |
| Queues.QueueService.EnqueueLeg | src/daemon/queue/queue-service.ts:54-129 | a leg that owns an entry, is unknown, or is not an inbound SIP call from a trunk is refused; otherwise a fitting entry is joined again, and without one a new entry is created |
| Queues.QueueService.FindRejoinCandidate | src/daemon/queue/queue-service.ts:370-392 | the loop finds the oldest fitting entry |
| Queues.QueueService.JoinAgain | src/daemon/queue/queue-service.ts:86-95 | ticket, leg, counts and index change hands, and the entry is scheduled at once |
| Queues.QueueService.JoinAnew | src/daemon/queue/queue-service.ts:97-129 | the new entry, its ticket, its place in the index and its timer |
| Queues.QueueService.RemoveEntryForLeg | src/daemon/queue/queue-service.ts:133-149 | a live entry that wants a callback stays without its dial and pauses, and any other ends |
| Queues.QueueService.SetQueueCallback | src/daemon/queue/queue-service.ts:151-159 | only the callback wish changes |
| Queues.QueueService.TakeQueueEntry | src/daemon/queue/queue-service.ts:161-169 | the wait is recorded and the entry ends |
| Queues.QueueService.HandleDialFinalized | src/daemon/queue/queue-service.ts:171-195 | an answered dial takes its entry, a failed one is counted, and a dial no entry names does nothing |
| Queues.QueueService.HandleFailedDial | src/daemon/queue/queue-service.ts:181-194 | within the budget the entry is published once and retried after the pause, and beyond it the entry ends offline |
| Queues.QueueService.RetryEntry | src/daemon/queue/queue-service.ts:197-203 | the dial is dropped, the pause set and the timer started |
| Queues.QueueService.MaybePublishPlaced | src/daemon/queue/queue-service.ts:205-217 | a live entry is published as placed once |
| Queues.QueueService.RefreshWorkflowScope | src/daemon/queue/queue-service.ts:252-263 | every waiting entry of the scope is scheduled, no earlier than its pause ends |
| Queues.QueueService.EndEntry | src/daemon/queue/queue-service.ts:265-280 | dial, timer, index, record and ticket all go, and a live leg is told unless silent |
| Queues.QueueService.BranchTimerFires | src/daemon/queue/queue-service.ts:289-304 | an entry still waiting takes its turn, or waits out its pause |
| Queues.QueueService.PublishEntryBranch | src/daemon/queue/queue-service.ts:306-357 | offline, placed, or dispatched to every available extension that is not reserved |
| Queues.QueueService.AbortActiveDial | src/daemon/queue/queue-service.ts:394-404 | the entry is idle before its dial is broken |
| Queues.QueueService.ReservedExtensionNumbers | src/daemon/queue/queue-service.ts:428-442 | exactly the extensions reserved by dispatching entries of the scope |
| QueueStats.QueueStatsTracker.RecordCompletion | src/daemon/queue/queue-stats-tracker.ts:5-11 | count and total are those of all recorded waits, a negative wait counting as none |
| QueueStats.QueueStatsTracker.GetCompletedCount | src/daemon/queue/queue-stats-tracker.ts:13-15 | how many waits of the queue were recorded |
| QueueStats.QueueStatsTracker.GetAverageWaitMs | src/daemon/queue/queue-stats-tracker.ts:17-24 | the floor of the mean of the recorded waits, and zero without any |
| QueueStats.QueueStatsTracker.GetEstimatedAnswerMs | src/daemon/queue/queue-stats-tracker.ts:26-32 | the average times the position, and zero for no position or no history |
| MapRegistrySpec.OthersKept | src/shared/map-registry.ts:4-38 | storing, storing in front and removing leave all other records and their order alone |
| MapRegistrySpec.StoredIsFound | src/shared/map-registry.ts:4-7 | a stored key answers with the new value, and a known one keeps its place |
| MapRegistrySpec.FrontedIsFirst | src/shared/map-registry.ts:9-17 | a key stored in front is first |
| MapRegistrySpec.RemovedIsUnknown | src/shared/map-registry.ts:31-38 | a removed key is unknown |
| MapRegistries.MapRegistry.Store | src/shared/map-registry.ts:4-7 | a known key keeps its place, a new one goes last |
| MapRegistries.MapRegistry.StoreFront | src/shared/map-registry.ts:9-17 | rebuilding the map puts the key first |
| MapRegistries.MapRegistry.Get | src/shared/map-registry.ts:19-21 | the value of the key, if there is one |
| MapRegistries.MapRegistry.Remove | src/shared/map-registry.ts:31-38 | the value removed, and the map without it |
| DialSafety.NextKeeps | src/daemon/dials/dial-service.ts:58-330 | every event, calls that come back and exceptions included, keeps ownership, tickets, targets and handler runs consistent |
| DialSafety.DestroyKeeps | src/daemon/dials/dial-service.ts:295-330 | destroying a dial clears it away if and only if every leg it owns and would hang up can be found; otherwise it throws |
| DialRuns.OneAttemptAtATime | src/daemon/dials/dial-service.ts:238-293 | a sequential dial has at most one active attempt, and none while its gap timer is pending |
| DialRuns.TargetsAreConserved | src/daemon/dials/dial-service.ts:238-279 | attempts go to the targets in order, and until finalisation attempts made and targets pending are the target list |
| DialRuns.TicketsAreOwned | src/daemon/dials/types.ts:146-184 | the dial holds a ticket on exactly its active attempts, even when hanging up throws |
| DialRuns.HandlersRunOnce | src/daemon/core/eventful-destroyable.ts:59-66 | the destroy handler of the dial runs exactly once if it is finalised, and that of a leg at most once, despite calls that come back |
| DialRuns.GivenUpMeansEnded | src/daemon/dials/dial-service.ts:133-236 | whatever was thrown, every attempt the dial has given up has had its leg destroyed, unless it won an answered dial |
| DialRuns.AnswerFinalisesExactly | src/daemon/dials/dial-service.ts:133-168 | an answer finalises the dial as answered if and only if every other attempt ever made can still be found; otherwise the dial stays unfinalised |
| DialRuns.AnswerCanBeLost | src/daemon/dials/dial-service.ts:155-165 | with two legs rung at once, the first declining and gone and the second answering, the dial is never finalised by the answer |
| DialEndings.FinalisedIsClean | src/daemon/dials/dial-service.ts:295-330 | when every leg's end is reported, a finalised dial has no attempt ticket, active attempt, pending target or timer left, and every attempt's leg has been destroyed but for an answered winner's |
| DialEndings.FinalisedCleanExactly | src/daemon/dials/dial-service.ts:295-330 | over every run, legs with unreported ends included, a finalised dial is clean if and only if every leg it owned could be found when it was finalised |
| DialEndings.EndsCleanExactly | src/daemon/dials/dial-service.ts:120-330 | the call that finalises a dial clears it away if and only if every leg the dial owns can be found before it |
| DialEndings.FinalisedStays | src/daemon/core/eventful-destroyable.ts:59-66 | a finalised dial keeps its verdict, and one whose destruction threw is never cleared away later |
| DialEndings.BrokenDialRings | src/daemon/dials/dial-service.ts:319-327 | two legs ring, the first ends unreported and is gone, the dial is broken: it is finalised, still registered, and the second leg rings on with its ticket held |
| DialEndings.StrandsExactly | src/daemon/dials/dial-service.ts:133-293 | a step leaves an unfinalised dial with nothing under way or scheduled if and only if it is the late answer of a leg given up, whose losers give up all that is owned before one cannot be found, or it ends the last attempt and that leg cannot be found |
| DialEndings.NeverStrandedExactly | src/daemon/dials/dial-service.ts:58-293 | all through a run an unfinalised dial has an attempt under way or the next one scheduled, if and only if no step of the run is of that kind |
| DialEndings.OnlyLateAnswersStrand | src/daemon/dials/dial-service.ts:133-236 | when every leg's end is reported only the late answer of a leg given up does it |
| DialEndings.LateAnswerStrands | src/daemon/signaling/base-signaling-service.ts:71-83 | three legs ring, the first and last decline, the last is gone, and the first answers after all: the second is hung up, and the dial is neither finalised nor has anything left to ring |
| DialMeaning.BegunMeans | src/daemon/dials/dial-service.ts:58-83 | a parallel dial begins with all targets on legs of their own, a sequential one with the first |
| DialMeaning.AttemptEndMeans | src/daemon/dials/dial-service.ts:170-224 | an attempt declined, out of time or ended is given up; the last one leaves a sequential dial with targets left waiting for its gap, all of them pending, and makes any other fail |
| DialMeaning.GapMeans | src/daemon/dials/dial-service.ts:281-293 | after the gap the next target in line is tried on a new leg, and nothing else is under way |
| DialMeaning.FailsExactly | src/daemon/dials/dial-service.ts:98-330 | a step fails a dial if and only if it breaks it or lets it lapse, reports failure of a findable leg it owns, or ends its last attempt, on a findable leg, with no target left to try |
| DialMeaning.AnsweredExactly | src/daemon/dials/dial-service.ts:111-168 | a step answers a dial if and only if one of its legs answers, or an owned leg is bridged before any won, and all attempts can be found; the winner is left alone and ticketed, every other leg destroyed |
| DialMeaning.FailsOnlyWhenExhausted | src/daemon/dials/dial-service.ts:170-293 | a dial that fails without being broken, lapsing or told of an outright failure has tried every target, in order |
| DialMeaning.SecondIsTried | src/daemon/dials/dial-service.ts:208-293 | of two targets in turn the first is declined, and after the gap the second rings |
| DialMeaning.WinnerIsReleased | src/daemon/dials/dial-service.ts:170-176 | the ticket on a winner's leg is given back when its end is reported |
| Dials.DialRecord.constructor | src/daemon/dials/types.ts:103-126 | a new dial has all targets pending and no attempt |
| Dials.DialRecord.AddAttemptLeg | src/daemon/dials/types.ts:146-154 | the leg becomes the last attempt, active and ticketed |
| Dials.DialRecord.ReleaseAttemptRetention | src/daemon/dials/types.ts:165-173 | the ticket is given back, once |
| Dials.DialRecord.ReleaseAttemptOwnership | src/daemon/dials/types.ts:175-184 | an attempt is no longer active |
| Dials.DialRecord.ClearTimers | src/daemon/dials/types.ts:203-209 | gap and attempt timers are gone |
| Dials.DialService.constructor | src/daemon/dials/dial-service.ts:58-83 | a parallel dial starts all attempts and a sequential one the first |
| Dials.DialService.StartNextAttempt | src/daemon/dials/dial-service.ts:238-279 | the first pending target becomes an attempt on a new leg, with a time limit if sequential and limited |
| Dials.DialService.HangupLeg | src/daemon/legs/leg-service.ts:115-132 | a leg that cannot be found throws, an ended one is left alone, and any other is destroyed |
| Dials.DialService.DestroyLeg | src/daemon/legs/types.ts:104-128 | the status changes before the handler runs, and the handler has run before that is on record |
| Dials.DialService.HandleAttemptLegEnded | src/daemon/dials/dial-service.ts:170-197 | an active attempt is given up, and the last one leads to the gap or to failure |
| Dials.DialService.FinalizeDial | src/daemon/dials/dial-service.ts:120-131 | a dial is destroyed unless finalised or gone |
| Dials.DialService.MarkFinalized | src/daemon/dials/types.ts:211-216 | timers go and the verdict is set before the handler runs |
| Dials.DialService.DestroyDial | src/daemon/dials/types.ts:211-230 | the dial leaves the registry only if its handler returned |
| Dials.DialService.HandleDialDestroy | src/daemon/dials/dial-service.ts:319-327 | every attempt owned is given up and all but the winner are hung up, until one throws |
| Dials.DialService.MarkAttemptAnswered | src/daemon/dials/dial-service.ts:133-168 | the winner is set and retained, the losers are hung up, and the dial is finalised unless one throws |
| Dials.DialService.HangupAllLosers | src/daemon/dials/dial-service.ts:156-164 | every attempt ever made but the winner is given up and hung up, until one throws |
| Dials.DialService.AnswerLeg | src/daemon/signaling/base-signaling-service.ts:71-83 | a leg that can be found is marked answered, and its dial told |
| Dials.DialService.MarkAttemptBridged | src/daemon/dials/dial-service.ts:111-118 | an active attempt of a dial without a winner counts as answered |
| Dials.DialService.MarkAttemptRejected | src/daemon/dials/dial-service.ts:208-224 | the attempt is given up and hung up, and the last one leads to the gap or to failure |
| Dials.DialService.MarkAttemptFailed | src/daemon/dials/dial-service.ts:226-236 | throws for a dial that is gone, and otherwise gives the leg up, hangs it up and fails the dial, unless finalised |
| Dials.DialService.ReportAttemptFailed | src/daemon/signaling/base-signaling-service.ts:122-137 | a failure is passed on only to a dial that is there and owns the leg |
| Dials.DialService.GapTimerFires | src/daemon/dials/dial-service.ts:281-293 | the next attempt starts, unless the dial is finalised |

## Left out

- JsonGrammar.NumberValue: gives the exact decimal value; rounding to the nearest double, and with it
  the sign of a negative zero, is not modelled. Overflow to infinity is.
- JsonWriter.Encode: dates, typed arrays and cyclic objects have no counterpart among the values
  encoded, and property order and numerals are taken as the runtime yields them.
- JsText.Trim: strings are sequences of 16-bit units; decoding of bytes to text is not modelled.
- ByteQueues.ByteQueue.Append: sizes are unbounded; wrap-around of `size_t` is not modelled.
- StreamQueues.NativeByteQueues.PushInputSegments: waiting for space is an outcome after which the
  same turn is taken again; fairness among waiting threads is not modelled.
- SeekableOutput.MediaStreamEncoder.DrainInto: encoding itself, which decides when bytes are written,
  is not part of this model, nor is the caller that forwards bytes and patches, assumed to keep their
  order.
- LockProtocol.AllFinish: section bodies take no further lock and do end, as in all calls of
  `runExclusiveMany` modelled.
- MigrationProtocol.AllFinish: lock hand-off is granted to any caller that asks, which allows more runs
  than the FIFO order proved in `LockProtocol`; waiting for a recording to start is left out.
- LegWaiting.WaitForEvent: the order in which events are taken from legs and the clock is looked at is
  given by the arrivals; cancellation, races of two events in one tick, emptying the digit queue first
  and refusing legs that have all ended are left out. Finalising inside an event is never asked for by
  a caller and left out.
- LineFraming.LineFramedSocket.Receive: delivers the text of a frame; reading it as JSON and calling
  the handlers is left out.
- InbandDtmf.InbandDtmfDetector.Feed: the digit a frame shows is an input; the spectral analysis is not
  part of this model.
- Retention.RetainedEntity.TimerFires: a stopped timer never fires, as in the runtime.
- QueueSpec.Fire: whether extensions are online and which are available are inputs of each step; a timer
  may fire early, which allows more runs than the runtime. Making a dial returns a new one that has not
  been finalised.
- QueueSpec.EndEntry: breaking a dial ends its legs; that these belong to no entry is used, so the call
  that comes back finds none. The payloads published are left out.
- Queues.QueueService.EnqueueLeg: looking up the queue's settings and setting the leg's status to queued
  are left out; the terms of joining come ready made.
- DialSpec.StartNext: an attempt's outcome is a later step; transports that fail while an attempt is
  being started are left out, as are progress events, the snapshot store and the event queues.
- Dials.DialService.DestroyLeg: legs are values in a table of the service rather than objects, and one
  dial is modelled at a time, since a leg is an attempt of one dial only.
- Queues.QueueService.PublishEntryBranch: tickets, ringing dials and notices that other services hold
  are fields of the service.
- Bridges, recording, media mixing, codecs, transports, SIP parsing, authentication, triggers and the
  n8n nodes: input and output, tables, or libraries that are not shown.
- `sweep` and `clear` of the map registry, and queue statistics as payloads: they would add only easy
  members.
