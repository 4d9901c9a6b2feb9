# Verified models of ecasound's state-heavy cores

Ecasound moves audio between files, devices and effects. Most of it is plumbing; a few
small pieces carry state over unbounded streams or between threads, and their correctness
is a statement about whole runs. This project models those pieces in Dafny and proves
what they are for.

| Modules | What they model |
|---|---|
| `DbBuffer`, `DbLink`, `DbProtocol`, `DbProgress`, `DbServer` | Double-buffered disk I/O: the ring of blocks between the disk server and a client, all interleavings of the two threads with stop, seek and reset, what each thread gets done, and the final flush |
| `ValueQueue` | The command queue whose consumer never blocks and postpones pops it could not carry out |
| `Sequencer`, `Resampler`, `Reverser` | The stream proxies: each `read_buffer` against one description of the whole output stream |
| `OptionStrings`, `ChildParams`, `PortNames`, `ShellTokens` | Option strings: splitting, escaping, quoting, search-and-replace, and the printers whose output is read back |
| `Multitap`, `CombFilters`, `NoiseGate`, `VolumeBuckets` | Effects as functions of their whole input stream |
| `NetEci` | Framing of the NetECI byte stream in a growing buffer |
| `ExitProtocol` | How main and the signal watchdog leave the process |
| `Samples`, `Arithmetic`, `Sequences` | Sample buffers, and what the proofs share |

`dafny verify dfyconfig.toml` checks everything.

## How the source is represented

* Threads are interleaved step machines. One step is one access to shared data. Each
  `ATOMIC_INTEGER` access is taken to be sequentially consistent, which the source does not
  promise (kvutils/kvu_locks.h:12-16). A timed wait may return at any time; only the flag
  read afterwards counts.
* Samples are `real` numbers. Rounding is not modelled. The multitap delay and the proxies
  are modelled for one channel, the comb filters, the noise gate and the volume buckets for
  any number of channels.
* Objects the source changes in place are classes; their methods are proved against a
  specification function or predicate. Ghost fields (`history`, `fed`, `stream`, `lost`)
  record what an object has been given so far, so that contracts speak about whole streams.
* Strings are sequences of characters, iterators are positions, and the end iterator is
  the length. Bytes of the NetECI stream are a type of their own.
* Preconditions of the form `Valid()` state the invariant the object itself maintains.
  `Sequencer.ReadBuffer` asks that the object was last positioned by a seek or by itself.
* Dividing by a release length of zero gives infinity in the source. In the noise gate it
  is a number left open (`byZero`), and all statements hold whatever that number is.

## What was found out about the code

* A DB client may report the end of a stream before it has delivered everything: the
  server sets `finished` before it advances the write pointer
  (libecasound/audioio-db-server.cpp:528-529). `DbProtocol.FinishedReportExact` gives the
  exact condition, `DbProtocol.FinishedTooEarly` a run.
* A seek does not check that its wait for a stop succeeded
  (libecasound/audioio-db-client.cpp:216-218). `DbProtocol.StopObservationExact` says
  when the server really stays out, `DbProtocol.TimedOutSeekOverlaps` is a run in which
  the reset meets a server that is filling a slot.
* The sequencer's comment calls `child_length` the amount of data after the start
  position; while looping, the code takes it for the position of the end
  (libecasound/audioio-seqbase.cpp:68-70). The model follows the code: a loop is
  `length - start` samples. The two agree exactly if the section starts at the beginning
  of the child (`Sequencer.Sequencer.LoopLengthAgrees`).
* The block that reaches the child offset is not silenced in front of it
  (libecasound/audioio-seqbase.cpp:256-261): what was in the buffer handed in stays there.
  The front is silent exactly if it was silent in that buffer, as far as the buffer goes
  (`Sequencer.Sequencer.ReadBeforeChild`, `Sequencer.Sequencer.ReadBuffer`);
  `Sequencer.FrontNotSilenced` is a buffer for which it is not.
* The block that reaches the offset knows nothing of the section's end: an object played
  once whose first block reaches beyond its section also plays what the child has behind
  the section there, and behind the child's end what the buffer handed in held
  (libecasound/audioio-seqbase.cpp:237-261; `Sequencer.Sequencer.PlayToEnd`).
* The child of a looping object stays in step at the block read at the offset exactly if
  blocks are shorter than the loop, and an object played once stops where it should in its
  first block exactly if that block does not reach beyond what the child has of the section
  (`Sequencer.Sequencer.ReadBuffer`).
* The last block of a reversed object has the wrong length unless what is left is half a
  buffer (libecasound/audioio-reverse.cpp:190-193; `Reverser.Reverser.PlayAll`).
* A noise gate whose level is not negative and whose release length is positive but not a
  whole number of samples makes some sample of some stream louder than it was
  (`NoiseGate.LouderAfterFractionalRelease`); `NoiseGate.ReleaseBoundedExactly` says for
  which parameters all factors of all streams stay within [0,1].
* NetECI: of a line with more than 65534 bytes the beginning is thrown away
  (ecasound/eca-neteci-server.cpp:411-413; `NetEci.Client.QueueMeaning`), and a line feed
  that meets a full buffer ends no line even behind a carriage return
  (`NetEci.FullBufferSplitsEnd`, `NetEci.LongLineLosesEnd`).
* `kvu_priv_find_next_instance` passes over one quoted section per round, not all of
  them, and returns an escaped last character (kvutils/kvu_utils.cpp:454-484;
  `OptionStrings.SearchAsDocumented`, `OptionStrings.SearchExactly`,
  `OptionStrings.SecondQuotesIgnored`). Therefore a list of port names that ends in a comma
  or colon does not survive (`PortNames.NamesRoundTrip`), and neither does a list of child
  parameters with a colon outside the first that holds a comma
  (`ChildParams.ParamsRoundTrip`).
* `kvu_string_search_and_replace` misses occurrences when the replacement is shorter than
  the pattern (kvutils/kvu_utils.cpp:325; `PortNames.ReplacesAllExactly`). Its loop never
  ends exactly if the pattern is empty (`PortNames.EndlessExactly`), and
  `PortNames.SearchAndReplace` leaves out that case.
* A backslash in an argument is not escaped for the shell. It takes the escape of the shell
  character behind it, so that a double quote there opens or closes a quote, and is lost in
  front of anything else. `ShellTokens.ShellRoundTrip` says for every list of arguments
  whether it is read back.
* A start that follows a stop nobody waited for can be lost: if the server is about to
  acknowledge the stop, it does so after the start and does not run
  (libecasound/audioio-db-server.cpp:179-180, 566-568; `DbProtocol.RestartExact`,
  `DbProtocol.RestartMeetsStop`). After an observed stop it cannot
  (`DbProtocol.RestartAfterStop`).
* What NetECI's parser promises of every read, that its buffer or its queue grows
  (ecasound/eca-neteci-server.cpp:461), fails for an empty read and, at up to 65536 bytes a
  read (the server reads 128), for one that flushes the buffer without completing a command
  (`NetEci.Client.Parse`, `NetEci.ReadAdvances`).
* Main, once both threads have had a turn, is past its wait for the watchdog exactly if that
  could be created; if not, it waits for ever (ecasound/ecasound.cpp:839-848;
  `ExitProtocol.CreationExactly`, `ExitProtocol.CreationFailureBlocks`).

## Model

| member | source | states |
|---|---|---|
| `DbBuffer.Remainders` | libecasound/audioio-db-buffer.cpp:68-121 | the remainders computed by the two space functions and the two pointer advances are the case distinctions used everywhere else |
| `DbBuffer.SpacesCountContents` | libecasound/audioio-db-buffer.cpp:68-99 | read space is the number of queued blocks, write space what is left of a capacity of one block less than the ring |
| `DbBuffer.FillKeepsContents` | libecasound/audioio-db-server.cpp:527 | storing into the slot at the write pointer disturbs no queued block |
| `DbBuffer.AdvanceWriteAppends` | libecasound/audioio-db-buffer.cpp:118-121 | advancing the write pointer of a ring with room queues exactly the block in the slot just filled |
| `DbBuffer.AdvanceReadDrops` | libecasound/audioio-db-buffer.cpp:107-110 | advancing the read pointer takes exactly the oldest block |
| `DbBuffer.Buffer.constructor` | libecasound/audioio-db-buffer.cpp:26-40 | a new ring is empty |
| `DbBuffer.Buffer.Reset` | libecasound/audioio-db-buffer.cpp:52-57 | a reset leaves an empty ring at slot 0 and clears the flag |
| `DbBuffer.Buffer.ReadSpace` | libecasound/audioio-db-buffer.cpp:68-77 | the answer is the number of queued blocks |
| `DbBuffer.Buffer.WriteSpace` | libecasound/audioio-db-buffer.cpp:88-99 | the answer is the number of blocks that can still be queued |
| `DbBuffer.Buffer.Put` | libecasound/audioio-db-client.cpp:170-174 | storing and advancing appends one block to the queue |
| `DbBuffer.Buffer.AdvanceReadPointer` | libecasound/audioio-db-buffer.cpp:107-110 | the oldest block leaves the queue, the others stay in order |
| `DbLink.ProducerBeginsKeeps` | libecasound/audioio-db-server.cpp:522-527 | a producer that saw room, however long ago, may write the slot: the queue is unharmed and every promise about the link still holds |
| `DbLink.ProducerPublishesKeeps` | libecasound/audioio-db-buffer.cpp:118-121 | publishing a filled slot keeps the link's promises and makes the queue one longer |
| `DbLink.ConsumerLoadsKeeps` | libecasound/audioio-db-buffer.cpp:70-76 | what the consumer counts is the queue length at its load of the write pointer |
| `DbLink.ConsumerReleasesKeeps` | libecasound/audioio-db-client.cpp:136-137 | giving up the copied slot keeps the promises, so the copy was the oldest block |
| `DbLink.SlotsNeverShared` | libecasound/audioio-db-buffer.cpp:68-121 | the slot being filled is never the slot being copied |
| `DbProtocol.ServerStepKeeps` | libecasound/audioio-db-server.cpp:494-572 | every step of the I/O loop keeps the invariant of the two threads |
| `DbProtocol.ClientStepKeeps` | libecasound/audioio-db-client.cpp:130-264 | every step of a read, write, seek, start or stop keeps it too |
| `DbProtocol.RunKeeps` | libecasound/audioio-db-server.cpp:494-572 | the invariant holds at every point of every interleaving |
| `DbProtocol.BlocksConserved` | libecasound/audioio-db-client.cpp:130-178 | in every interleaving the blocks taken are a prefix of the blocks put in, the rest is exactly what the ring holds, and a block held is the next one |
| `DbProtocol.FinishedReportExact` | libecasound/audioio-db-server.cpp:526-530 | an end-of-stream report comes after every fetched block exactly if the client loaded the write pointer after the server's final advance |
| `DbProtocol.FinishedTooEarly` | libecasound/audioio-db-client.cpp:143-146 | a reachable state in which the end was reported and a fetched block never arrived |
| `DbProtocol.ObservedStopHolds` | libecasound/audioio-db-server.cpp:159-200 | once a client has seen the server stopped, no server step does anything until a start |
| `DbProtocol.ResetRestartsEmpty` | libecasound/audioio-db-client.cpp:247-259 | a reset that followed an observed stop leaves an empty ring with both pointers 0 and clear flags |
| `DbProtocol.StopObservationExact` | libecasound/audioio-db-client.cpp:211-222 | right after the wait of a seek the server is, and by its next step stays, out of its processing section exactly if the running flag read as stopped |
| `DbProtocol.SeekStaysClear` | libecasound/audioio-db-client.cpp:247-259 | from an observed stop on, at every point of the run until the next start, the server is out of its processing section |
| `DbProtocol.TimedOutSeekOverlaps` | libecasound/audioio-db-client.cpp:216-254 | a reachable state in which the reset of a seek meets a server that is filling a slot |
| `DbProtocol.RestartExact` | libecasound/audioio-db-server.cpp:159-182 | a start has taken effect the next time the server is at the head of its loop, with no stop request and no start in between, exactly if the server was not about to acknowledge a stop |
| `DbProtocol.RestartAfterStop` | libecasound/audioio-db-client.cpp:224-231 | a start after an observed stop keeps the server running until the next stop request |
| `DbProtocol.RestartMeetsStop` | libecasound/audioio-db-client.cpp:211-231 | a reachable state in which a start meets a server about to acknowledge a stop |
| `DbProgress.ClientDecision` | libecasound/audioio-db-client.cpp:134-182 | in every run, whatever the server does between the client's load and its next step, the client goes on to the transfer exactly if, reading, the ring held a block when it loaded, or, writing, the ring has room when it decides; else it looks at the finished flag |
| `DbProgress.ClientTransfer` | libecasound/audioio-db-client.cpp:134-177 | in every run, from there the client's next two steps end its call and make what was put longer by exactly the block it stored, or what was taken by exactly the oldest block of the ring |
| `DbProgress.ServerDecision` | libecasound/audioio-db-server.cpp:521-551 | in every run whose seeks saw the server stopped, the server goes on from its load to the transfer exactly if its child has not ended and, reading it, the ring has room or, writing it, the ring held a block; else its round is over |
| `DbProgress.ServerTransfer` | libecasound/audioio-db-server.cpp:526-551 | in such a run its next three steps make what was put longer by exactly the block its child gave, or what was taken by exactly the oldest block, and the finished flag is set exactly if it was or the child has ended |
| `DbProgress.ServerFetches` | libecasound/audioio-db-server.cpp:494-574 | a round of a running server left alone queues the next block of an input child behind the others and changes nothing else |
| `DbProgress.ServerWrites` | libecasound/audioio-db-server.cpp:494-574 | and one for an output child writes the oldest block and leaves the others |
| `DbProgress.ServerStops` | libecasound/audioio-db-server.cpp:566-572 | a pending stop is acknowledged within three steps, and the server then waits to be started |
| `DbProgress.ClientReads` | libecasound/audioio-db-client.cpp:130-140 | a read of a ring with blocks takes the oldest and leaves the others |
| `DbProgress.ClientWrites` | libecasound/audioio-db-client.cpp:166-178 | a write to a ring with room queues its block behind the others |
| `DbProgress.ClientRefused` | libecasound/audioio-db-client.cpp:141-202 | a client that cannot transfer is finished if the flag is set; else a read gives up, and a write tries once more if there is room by then and otherwise seeks |
| `DbProgress.SeekAsks` | libecasound/audioio-db-client.cpp:211-219 | with the server running, a seek leaves a stop request behind and looks again |
| `DbProgress.SeekRestarts` | libecasound/audioio-db-client.cpp:247-258 | a seek that has asked for a stop places the child, empties the ring, clears the flags and has the server running with no stop pending |
| `DbProgress.ClientSeeks` | libecasound/audioio-db-client.cpp:239-259 | with the server not running a seek does the same and does not start it |
| `DbProgress.StartStarts` | libecasound/audioio-db-server.cpp:159-182 | a start has the server running and no stop pending |
| `DbServer.AcceptedMeaning` | libecasound/audioio-db-server.cpp:651-652 | how many blocks a child gets: all of them, or up to the write after which it reports finished |
| `DbServer.FlushOneShrinks` | libecasound/audioio-db-server.cpp:639-654 | each block written brings the total of unwritten blocks down and disturbs no other client |
| `DbServer.Server.FlushRound` | libecasound/audioio-db-server.cpp:635-656 | a pass over the clients lowers that total by at least the number of clients it counted; if it counted none, nothing is left |
| `DbServer.Server.Flush` | libecasound/audioio-db-server.cpp:630-664 | the flush terminates; each unfinished output client's child gets its queued blocks once and in order, nobody else gets anything, and every ring ends up empty |
| `DbServer.FlushedLosesNothing` | libecasound/audioio-db-server.cpp:630-664 | a child that never reports finished gets every accepted block |
| `ValueQueue.AnswerMeaning` | kvutils/kvu_value_queue.cpp:282 | the unsigned subtraction answers whether the size equals the pending pops |
| `ValueQueue.StepKeeps` | kvutils/kvu_value_queue.cpp:153-283 | every step of producer and consumer keeps the invariant linking pending pops, lock holder and size |
| `ValueQueue.NothingLost` | kvutils/kvu_value_queue.cpp:153-225 | in every interleaving what was consumed, followed by what is stored and not done with, is what was pushed |
| `ValueQueue.AtMostOnePending` | kvutils/kvu_value_queue.cpp:169-183 | at most one pop is ever pending, and with the lock free at least two items are stored then |
| `ValueQueue.NeverTouchesEmpty` | kvutils/kvu_value_queue.cpp:194-225 | neither front nor pop_front ever touches an empty deque, whatever is_empty answered |
| `ValueQueue.AnswersMean` | kvutils/kvu_value_queue.cpp:261-283 | under the lock "empty" means everything was handed out; without it the answer is "not empty" exactly with a pop pending, and from the size limit on it waits for the lock; `front` is asked only when an item is there that was not handed out, or is being pushed |
| `ValueQueue.FrontDelivers` | kvutils/kvu_value_queue.cpp:209-224 | in every run, `front` with the lock carries out the pending pops, hands out exactly the oldest item not yet handed out, and a pop comes next |
| `ValueQueue.PopTakes` | kvutils/kvu_value_queue.cpp:169-183 | a pop with the lock takes off the item handed out; without it, it leaves the deque alone and is counted |
| `ValueQueue.PushCompletes` | kvutils/kvu_value_queue.cpp:153-160 | three steps of the producer add its item to what was pushed and release the lock |
| `ValueQueue.ConsumerCatchesUp` | kvutils/kvu_value_queue.cpp:169-283 | in every run in which the producer comes to rest, seven steps of the consumer for each item outstanding, and six more, hand out everything that was pushed |
| `Sequencer.Sequencer.Seek` | libecasound/audioio-seqbase.cpp:408-423 | after a seek the child stands where the public position says |
| `Sequencer.Sequencer.LoopAdvance` | libecasound/audioio-seqbase.cpp:61-82 | inside a loop the child position stays in the section, moves on by the samples played and wraps at most once per loop length |
| `Sequencer.Sequencer.LoopLengthAgrees` | libecasound/audioio-seqbase.cpp:61-77 | the child positions of a loop are those of a section as long as the documented length exactly if the start position is 0 |
| `Sequencer.FrontNotSilenced` | libecasound/audioio-seqbase.cpp:249-261 | a buffer handed in with sound is still heard in front of the child |
| `Sequencer.OpensMeaning` | libecasound/audioio-seqbase.cpp:249-261 | the opening block holds the buffer handed in in front of the offset, then the child's samples, then, behind the child's end, again what the buffer held |
| `Sequencer.Sequencer.ReadBeforeChild` | libecasound/audioio-seqbase.cpp:213-265 | silence in a block that ends before the child; in the block that reaches it every sample behind the offset is the child's from the start position on as far as the child has it, the child stands behind them, and in front is what the buffer handed in held, which is silence exactly if that was |
| `Sequencer.Sequencer.ReadLast` | libecasound/audioio-seqbase.cpp:276-307 | the block that reaches the end of the section is cut there |
| `Sequencer.Sequencer.ReadAcrossLoopEnd` | libecasound/audioio-seqbase.cpp:308-348 | the block that reaches the loop end is the rest of the loop followed by its beginning, and the child ends up in step |
| `Sequencer.Sequencer.WrapPlays` | libecasound/audioio-seqbase.cpp:308-348 | such a block is the looped section at its public position |
| `Sequencer.Sequencer.ReadBuffer` | libecasound/audioio-seqbase.cpp:189-378 | a looping object with blocks shorter than its loop plays the looped section and keeps the child in step, and with other blocks the one read at the offset leaves the child out of step; the block that reaches the offset holds the child's samples from the start position on, whatever the section, and places the child behind them; an object played once plays exactly its section, as far as the child has it, unless the block reaching the offset also reaches beyond that; the time before the child is silent exactly if the buffer handed in was silent there |
| `Sequencer.Sequencer.PlayLooped` | libecasound/audioio-seqbase.cpp:189-512 | after a seek, any number of reads yields at each public position from the offset on the child sample at start plus the distance modulo the loop, and silence before it if the buffer handed in is silent; the object never reports finished |
| `Sequencer.Sequencer.PlayToEnd` | libecasound/audioio-seqbase.cpp:189-512 | without looping, reading until finished yields exactly the section, or its rest from the position sought, as far as the child has it; if the block that reaches the offset also reaches beyond the section, the stream ends with that block, the child's samples there and what the buffer handed in held |
| `Resampler.Resampler.CopyBlock` | libecasound/audioio-resample.cpp:349-413 | a resampled block is split, in order, between the output and the leftover |
| `Resampler.Resampler.FillRest` | libecasound/audioio-resample.cpp:349-413 | the loop terminates; the blocks read are the output behind the old leftover followed by the new one; a short output means the stream has ended |
| `Resampler.Resampler.ReadBuffer` | libecasound/audioio-resample.cpp:304-423 | one call neither loses nor repeats a sample exactly if the leftover it found fits the buffer, and a longer one is cut and the rest dropped with nothing read; no block is read beyond the one that fills the buffer or carries the end tag; with blocks no longer than the buffer the leftover always fits |
| `Resampler.Resampler.ReadMany` | libecasound/audioio-resample.cpp:304-423 | any number of outputs in a row are the resampled blocks in a row minus the current leftover, all of them full unless a block read so far carried the end tag or none is left |
| `Reverser.ReverseSlices` | libecasound/audioio-reverse.cpp:218-232 | neighbouring stretches turned round one by one are the whole turned round, in the other order |
| `Reverser.Reverser.CopyReversed` | libecasound/audioio-reverse.cpp:218-230 | the copy loop puts one child read backwards in its place and changes nothing else |
| `Reverser.Reverser.Assemble` | libecasound/audioio-reverse.cpp:212-236 | up to three short reads give the turned block, as much of it as together they supply and the child has |
| `Reverser.Reverser.ReadBuffer` | libecasound/audioio-reverse.cpp:180-245 | a block inside the child is its next stretch from the end, turned round, and the position moves on by a block, exactly if three reads supply it; if not, what they supply stands at the end of the block and the buffer handed in shows in front; the block that reaches the beginning is the child's beginning turned round in the same way, as many samples as are missing from a full block, which is right exactly if half a buffer is left |
| `Reverser.Reverser.PlayAll` | libecasound/audioio-reverse.cpp:180-245 | the blocks read before the last one are the child's end turned round, and the whole is the child turned round exactly if the rest is half a buffer |
| `OptionStrings.FindNextInstance` | kvutils/kvu_utils.cpp:454-484 | the loop computes the recursive search whose properties follow |
| `OptionStrings.NextUnquoted` | kvutils/kvu_utils.cpp:454-484 | without quotes the search finds the first unescaped instance, or an escaped one that ends the string |
| `OptionStrings.NextQuoted` | kvutils/kvu_utils.cpp:462-470 | a quoted section at the start is passed over as a whole |
| `OptionStrings.SearchAsDocumented` | kvutils/kvu_utils.cpp:441-484 | with at most one pair of quotes ahead the search finds what its comment promises, but for an escaped last character |
| `OptionStrings.DocumentedFirst` | kvutils/kvu_utils.cpp:441-452 | the search as its comment describes it finds the first place that is neither escaped nor in a pair of quotes |
| `OptionStrings.SearchFirst` | kvutils/kvu_utils.cpp:441-484 | for every string, the search finds what its comment promises exactly if the place it stops at is neither escaped nor in a pair of quotes and no such place lies before it |
| `OptionStrings.SearchExactly` | kvutils/kvu_utils.cpp:441-484 | with any number of quotes and no escaped instance inside them, it passes over no such place, so that only where it stops matters |
| `OptionStrings.SearchUnescaped` | kvutils/kvu_utils.cpp:456-480 | with no escaped instance at all, exactly if the first instance behind the first quoted section is in no further pair of quotes |
| `OptionStrings.SecondQuotesIgnored` | kvutils/kvu_utils.cpp:446-447 | a string with two quoted sections on which it does not |
| `OptionStrings.StripEscapes` | kvutils/kvu_utils.cpp:511-517 | searching and replacing until nothing is found amounts to one pass from the right, and leaves no escape behind |
| `OptionStrings.GetArguments` | kvutils/kvu_utils.cpp:550-599 | the loop computes the argument list whose properties follow |
| `OptionStrings.SplitJoined` | kvutils/kvu_utils.cpp:570-590 | splitting undoes joining quoted or escaped items, except a lone empty one and one that ends in an escaped comma at the very end, which yields one item too many |
| `OptionStrings.PrefixedArguments` | kvutils/kvu_utils.cpp:550-599 | behind a name and a colon, arguments without quotes and backslashes, written in quotes or, without commas, as they are, come out as they were, colons and all; only a lone empty one vanishes |
| `ChildParams.ChildParamsAsString` | libecasound/audioio-proxy.cpp:163-180 | the printing loop joins the parameters from the given number on, those with commas in quotes |
| `ChildParams.ColonsFound` | kvutils/kvu_utils.cpp:454-484 | in printed parameters the search for a prefix finds none exactly if every colon is in the first parameter that holds a comma |
| `ChildParams.CutLosesColon` | kvutils/kvu_utils.cpp:554-562 | arguments read from behind a colon hold fewer colons than the string |
| `ChildParams.ParamsRoundTrip` | libecasound/audioio-proxy.cpp:163-180 | for parameters without quote and backslash, parsing what was printed gives them back exactly if the list is not a single empty item and every colon is in the first parameter that holds a comma |
| `ChildParams.ColonCutsParam` | kvutils/kvu_utils.cpp:554-562 | an example: of the one parameter `a:b` only `b` comes back |
| `PortNames.SearchAndReplace` | kvutils/kvu_utils.cpp:317-328 | the loop computes the replacement whose properties follow, for every non-empty pattern |
| `PortNames.EndlessExactly` | kvutils/kvu_utils.cpp:321-326 | the loop goes on for ever exactly if the pattern is empty, whatever the string and the replacement |
| `PortNames.ReplacesAllExactly` | kvutils/kvu_utils.cpp:313-328 | it replaces every occurrence in every string exactly if the replacement is not shorter than the pattern |
| `PortNames.ReplacedGuards` | libecasound/audiofx_ladspa.cpp:109-110 | replacing a character by its escape puts a backslash before each instance |
| `PortNames.CollectNames` | libecasound/audiofx_ladspa.cpp:101-111 | the list is the escaped names joined with commas |
| `PortNames.NamesRoundTrip` | libecasound/audiofx_ladspa.cpp:108-110 | for names without quotes and backslashes, parsing the list gives them back exactly if it is not a single empty name and does not end in a comma or colon |
| `ShellTokens.ShellMetaEscape` | kvutils/kvu_utils.cpp:93-116 | the loop puts a backslash before each shell character |
| `ShellTokens.ToTokensQuoted` | kvutils/kvu_utils.cpp:168-200 | the loop computes the tokens whose properties follow |
| `ShellTokens.TokensOfLine` | kvutils/kvu_utils.cpp:168-200 | from escaped arguments joined with spaces exactly the empty ones get lost, if all of each is kept and no quote is open at a separator |
| `ShellTokens.ReadingBounded` | kvutils/kvu_utils.cpp:168-200 | for every list, the characters of the tokens read, one separator counted behind each, are no more than those of the arguments |
| `ShellTokens.ReadingExact` | kvutils/kvu_utils.cpp:168-200 | with any token begun and a quote open or not, the rest of an argument and those behind it are read back exactly if nothing of them is empty or lost and no quote is open at a separator |
| `ShellTokens.ShellRoundTrip` | kvutils/kvu_utils.cpp:93-200 | for every list of arguments, escaping, joining and tokenizing gives them back exactly if none is empty, every backslash has a shell character behind it, whitespace other than a space (and a space behind a backslash) stands in a quote opened by a double quote behind a backslash, and no such quote is open at the end of an argument but the last |
| `ShellTokens.KeptWithoutQuotes` | kvutils/kvu_utils.cpp:97-113 | in an argument without a double quote behind a backslash, that means: a shell character other than the space behind every backslash, and no whitespace but the space |
| `ShellTokens.BackslashLost` | kvutils/kvu_utils.cpp:97-113 | an example: of the argument `a\b` only `ab` comes back |
| `Multitap.FlagsStep` | libecasound/audiofx_timebased.cpp:445-448 | a tap is off only while it would read from before the stream began |
| `Multitap.Multitap.constructor` | libecasound/audiofx_timebased.cpp:405-425 | after init nothing has been remembered |
| `Multitap.Multitap.TapAt` | libecasound/audiofx_timebased.cpp:435-441 | the index of every tap lies in the ring, and the slot there holds the sample of the tap's age |
| `Multitap.Multitap.SumTaps` | libecasound/audiofx_timebased.cpp:434-441 | the sum over the taps is the sum over the delayed samples |
| `Multitap.Multitap.Store` | libecasound/audiofx_timebased.cpp:442-449 | writing and moving the index down makes every remembered sample one sample older |
| `Multitap.Multitap.Process` | libecasound/audiofx_timebased.cpp:427-453 | whatever came before, each output sample is (1-mix)*x[n] plus mix/dnum times the sum of x[n-k*dtime] for k from 1 to dnum, silent before the start |
| `Multitap.ImpulseResponse` | libecasound/audiofx_timebased.cpp:427-453 | a single sample comes out at once with the share 1-mix, and at dtime, 2*dtime, ... dnum*dtime later with the share mix/dnum |
| `Multitap.ImpulseSilence` | libecasound/audiofx_timebased.cpp:427-453 | and at no other time |
| `Multitap.Superposition` | libecasound/audiofx_timebased.cpp:427-453 | streams that are added up come out added up |
| `CombFilters.InverseUndoesComb` | libecasound/audiofx_filter.cpp:353-432 | the inverse comb filter undoes the comb filter on every stream |
| `CombFilters.CombUndoesInverse` | libecasound/audiofx_filter.cpp:353-432 | and the other way round |
| `CombFilters.CombAt` | libecasound/audiofx_filter.cpp:353-368 | each output is the input plus pow(D, C) times the output C samples before, if there is one |
| `CombFilters.InverseAt` | libecasound/audiofx_filter.cpp:416-432 | each output is the input minus that gain times the input C samples before, if there is one |
| `CombFilters.CombImpulse` | libecasound/audiofx_filter.cpp:353-368 | a single sample comes out with an echo every C samples, falling by the radius per sample, and with nothing in between |
| `CombFilters.InverseImpulse` | libecasound/audiofx_filter.cpp:416-432 | a single sample comes out once more, C samples later, with the gain and turned over |
| `CombFilters.CombFilter.Process` | libecasound/audiofx_filter.cpp:353-368 | each channel's block continues that channel's filtered stream, independently of the others |
| `CombFilters.InverseCombFilter.Process` | libecasound/audiofx_filter.cpp:416-432 | likewise for the inverse filter, with its separate fill counter |
| `CombFilters.CombFilter.Init` | libecasound/audiofx_filter.cpp:341-351 | init on a filter in use starts every channel over |
| `CombFilters.InverseCombFilter.Init` | libecasound/audiofx_filter.cpp:403-414 | likewise, the fill counters included |
| `CombFilters.CombThenInverse` | libecasound/audiofx_filter.cpp:341-432 | the two filters in a chain give back every block, block after block, and stay matched |
| `CombFilters.InverseThenComb` | libecasound/audiofx_filter.cpp:341-432 | and in the other order |
| `NoiseGate.CountersExclusive` | libecasound/audiofx_amplitude.cpp:635-725 | after every stream only the counter of the current state runs, short of its limit |
| `NoiseGate.WaitingCountsQuiet` | libecasound/audiofx_amplitude.cpp:637-654 | the waiting counter never exceeds the number of quiet samples just seen |
| `NoiseGate.AttackNeedsQuiet` | libecasound/audiofx_amplitude.cpp:642-648 | an attack begins only after at least th_time quiet samples in a row |
| `NoiseGate.CalmUnchanged` | libecasound/audiofx_amplitude.cpp:637-654 | a stream without th_time quiet samples in a row comes out unchanged |
| `NoiseGate.AttackBegins` | libecasound/audiofx_amplitude.cpp:642-653 | the sample that breaks the calm passes unchanged and begins the attack |
| `NoiseGate.AttackFactor` | libecasound/audiofx_amplitude.cpp:661-671 | the k-th quiet sample of an attack that is not over has the factor 1-k/atime |
| `NoiseGate.AttackEnds` | libecasound/audiofx_amplitude.cpp:661-671 | the one that completes it is silenced |
| `NoiseGate.AttackBroken` | libecasound/audiofx_amplitude.cpp:672-676 | a loud sample during an attack passes unchanged, and the gate waits as at the start |
| `NoiseGate.MutedPhase` | libecasound/audiofx_amplitude.cpp:680-708 | from the end of the attack until enough loud samples have come, every sample is silenced |
| `NoiseGate.HoldEnds` | libecasound/audiofx_amplitude.cpp:698-706 | the loud sample that ends the hold is silenced and begins the release |
| `NoiseGate.ReleaseFactor` | libecasound/audiofx_amplitude.cpp:710-722 | the k-th sample of a release that is not over has the factor k/rtime, loud or quiet |
| `NoiseGate.ReleaseEnds` | libecasound/audiofx_amplitude.cpp:715-722 | the one that completes it has its share, and the gate waits as at the start |
| `NoiseGate.WholeRound` | libecasound/audiofx_amplitude.cpp:633-725 | all of this from the samples alone: calm, attack, silence and release one after the other, for stretches of any length |
| `NoiseGate.FactorsBounded` | libecasound/audiofx_amplitude.cpp:629-729 | with a whole, positive release length, or a negative level, every factor lies in [0,1] and no output is louder than its input |
| `NoiseGate.DriveToRelease` | libecasound/audiofx_amplitude.cpp:635-725 | with a level that is not negative every stream, also one in the middle of a release, can be continued until the gate is at the beginning of a release |
| `NoiseGate.ReleaseBoundedExactly` | libecasound/audiofx_amplitude.cpp:629-729 | the factors of all streams lie in [0,1] exactly if the level is negative or the release length is whole and positive (or zero, should the division by it give a number in [0,1]) |
| `NoiseGate.LouderAfterFractionalRelease` | libecasound/audiofx_amplitude.cpp:714-722 | for every level that is not negative and every positive release length that is not whole, a stream with a sample that comes out louder |
| `NoiseGate.ProcessSample` | libecasound/audiofx_amplitude.cpp:633-725 | the switch computes the state machine's step and applies its factor |
| `NoiseGate.Gates.Process` | libecasound/audiofx_amplitude.cpp:629-729 | every channel's block continues that channel's gated stream |
| `VolumeBuckets.FindBucket` | libecasound/audiofx_analysis.cpp:272-287 | the loop finds the first threshold a sample exceeds |
| `VolumeBuckets.AddSample` | libecasound/audiofx_analysis.cpp:264-289 | one more sample keeps all bucket counts exact and their sum equal to the sample count |
| `VolumeBuckets.MultiplierFits` | libecasound/audiofx_analysis.cpp:219-232 | scaled by the multiplier, no processed sample exceeds full scale |
| `VolumeBuckets.MultiplierReaches` | libecasound/audiofx_analysis.cpp:219-232 | unless all was silent, some processed sample reaches full scale |
| `VolumeBuckets.Buckets.constructor` | libecasound/audiofx_analysis.cpp:234-255 | after init nothing has been counted |
| `VolumeBuckets.Buckets.Process` | libecasound/audiofx_analysis.cpp:257-296 | counts and peaks stay those of everything processed, and a buffer met with the lock taken counts for nothing |
| `VolumeBuckets.Buckets.GetMaxMultiplier` | libecasound/audiofx_analysis.cpp:219-232 | the multiplier takes all processed samples to full scale at most, and the loudest there; it is zero exactly if all were silent |
| `NetEci.FrameKeepsBytes` | ecasound/eca-neteci-server.cpp:405-459 | the framing loses no byte |
| `NetEci.FrameCutsEverywhere` | ecasound/eca-neteci-server.cpp:429-454 | no CRLF is left inside a command or the tail |
| `NetEci.FrameOfJoin` | ecasound/eca-neteci-server.cpp:405-459 | framing undoes joining with CRLF |
| `NetEci.FitsMeaning` | ecasound/eca-neteci-server.cpp:407-425 | nothing is flushed exactly if no line has more than 65534 bytes and the tail no more than 65536 |
| `NetEci.FullBufferSplitsEnd` | ecasound/eca-neteci-server.cpp:407-454 | a line feed that comes when 65536 bytes are buffered ends no line |
| `NetEci.LongLineLosesEnd` | ecasound/eca-neteci-server.cpp:407-454 | an example: 65535 bytes and CRLF leave no command |
| `NetEci.Client.constructor` | ecasound/eca-neteci-server.cpp:347-353 | a new client has an empty buffer of 128 bytes |
| `NetEci.Client.MakeRoom` | ecasound/eca-neteci-server.cpp:407-425 | a full buffer is doubled with its contents kept, or at 65536 bytes thrown away |
| `NetEci.Client.Store` | ecasound/eca-neteci-server.cpp:428-458 | a byte joins the tail, or completes a CRLF and queues what is before it |
| `NetEci.Client.Parse` | ecasound/eca-neteci-server.cpp:391-463 | after a read of any size, queue and buffer are one function of all bytes received, flushes included, so that how the stream is cut makes no difference; the source's own postcondition holds exactly if a command was completed or the bytes buffered without one, which are stated, are more than before |
| `NetEci.ReadAdvances` | ecasound/eca-neteci-server.cpp:461-462 | a read of up to 65536 bytes that completes no command adds to the buffer exactly if it is not empty and does not overflow it |
| `NetEci.Client.QueueMeaning` | ecasound/eca-neteci-server.cpp:391-463 | queue and buffer are the framing of everything received exactly if no line is too long; the buffer length is always 128*2^k up to 65536 |
| `NetEci.Client.ReceiveCommands` | ecasound/eca-neteci-server.cpp:391-463 | commands joined with CRLF are queued as they were |
| `ExitProtocol.StepKeeps` | ecasound/ecasound.cpp:834-980 | every step of main, of the watchdog and of signal delivery keeps the invariant |
| `ExitProtocol.PhaseOnlyAdvances` | ecasound/ecasound.cpp:316-342 | in every run the exit phase only moves NONE, WAIT_FOR_WD, ONE_THREAD, DONE, one at a time and by main alone |
| `ExitProtocol.StateOutlivesWatchdog` | ecasound/ecasound.cpp:170-189 | ONE_THREAD means the watchdog has exited, it never uses a freed run state, it exits only after its exit request and the end of the main loop, and both checks of the phase hold |
| `ExitProtocol.JoinCompletes` | ecasound/ecasound.cpp:322-338 | while main is in join, whatever signals were consumed before or arrive meanwhile, seven turns of the watchdog bring it to its exit |
| `ExitProtocol.MainReachesJoin` | ecasound/ecasound.cpp:316-338 | in every run, once its main loop is over, three turns take a living main to the join with the phase at WAIT_FOR_WD |
| `ExitProtocol.MainFinishes` | ecasound/ecasound.cpp:337-342 | behind the join every turn of main takes it one place further, and nobody else moves it |
| `ExitProtocol.ExitCompletes` | ecasound/ecasound.cpp:170-342 | main is never stuck in join: after those seven turns of the watchdog main's first turn puts it past the join, its second sets ONE_THREAD, its third frees the run state and its fourth ends with DONE |
| `ExitProtocol.SignalTaken` | ecasound/ecasound.cpp:918-919 | a waiting watchdog takes the signal it is offered and no other; without one it wakes up exactly if main's SIGHUP is there |
| `ExitProtocol.RequestFollows` | ecasound/ecasound.cpp:923-933 | main is asked to exit exactly from the second turn of the watchdog behind a signal taken on |
| `ExitProtocol.HandlerReached` | ecasound/ecasound.cpp:722-773 | a delivered signal other than SIGHUP reaches the handler exactly while the watchdog has unblocked it and not left, or main is past its own unblocking |
| `ExitProtocol.TurnProgress` | ecasound/ecasound.cpp:918-972 | while main is in join, every turn of the watchdog brings it nearer its exit |
| `ExitProtocol.NothingSetsBack` | ecasound/ecasound.cpp:918-972 | and no action of anyone sets it back or ends the process |
| `ExitProtocol.CutShortExactly` | ecasound/ecasound.cpp:744-772 | up to any point of any run the process has been cut short exactly if the handler was entered outside WAIT_FOR_WD for a second SIGINT or for any other signal |
| `ExitProtocol.FirstSignalIsOrderly` | ecasound/ecasound.cpp:740-772 | no run is cut short before the watchdog has taken a first signal, nor while main goes to the join or is in it |
| `ExitProtocol.CreationFailureBlocks` | ecasound/ecasound.cpp:834-849 | without a watchdog thread main never gets past waiting for it |
| `ExitProtocol.CreationExactly` | ecasound/ecasound.cpp:834-849 | after a turn of the watchdog and then one of main, in a process still alive, main has got past its wait exactly if the watchdog could be created |

## Left out

- Memory ordering of `ATOMIC_INTEGER`: every access is one sequentially consistent step.
- Condition variables, timed waits and their timeouts: a wait may return at any time, and the server's full flag and passive rounds only wake waiters.
- Several clients in one `DbProtocol` state: one client and the server, where starts and stops also stand for what seeks of other clients do; the loop over clients is in `DbServer`.
- DbServer.Server.Flush: clients and rings are values in a sequence, so that two clients sharing one ring object are not captured.
- Overrun and underrun counters, messages, and the recursion of `write_buffer` beyond its retry flag.
- `VALUE_QUEUE_RT_C::poll`, which only waits, and consumers that do not follow is_empty, front, pop_front.
- Children of a sequencer of infinite length, write mode, and children that deliver short reads before their end.
- Sequencer.Sequencer.ReadBuffer: for looping with blocks as long as the loop or longer, or with a loop that ends behind the child's data, each block is stated as the reads of the child it is made of; what these add up to over a whole stream is not.
- The resampling arithmetic: child and resampler together are a given list of blocks; event tags other than the end of stream, and seeks, are not modelled.
- Floating-point rounding, and the flushing of tiny numbers to zero.
- Live parameter changes of the multitap delay and `EFFECT_DELAY`: resizing the ring does not preserve the stream description.
- The decibel thresholds of the volume buckets: the table is a parameter that ends in -1, and a second init with another channel count is not modelled.
- ChildParams.ParamsRoundTrip: parameters with quotes or backslashes.
- Locale changes around the argument parser, and `kvu_string_to_tokens`, regular-expression escaping and the other string helpers.
- Sockets, polling, the NetECI reply loop, command execution and the shared command queue of several clients, which is emptied after each read.
- The engine, its shutdown, and when main leaves its main loop: `ExitProtocol` lets main do so at any time.
- The `glovar_wd_signals_blocked` flag, which only guards a trace message.
- Butterworth filters, resonators, compressors and everything else built on transcendental functions; LADSPA, LV2 and VST plugins; devices, command-line tools and user interfaces.
