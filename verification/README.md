# A media filter graph, verified

This project models the parts of a C media server worker that carry state, concurrency or arithmetic, and
proves what they promise. The worker reads frames from a port, pushes them through a graph of filters (decode,
rescale, detect, encode) and writes the results back to the port as Erlang terms.

`dafny verify dfyconfig.toml` checks everything.

## What is modelled

**Two fan-out schedulers.** A filter with several downstream branches may hand them to threads.
`ParallelFilter` is the trigger/complete handshake of `parallel_filter.c`; `AsyncFilter` is the queue per branch
of `async_parallel_filter.c`, with its exit entries, `pthread_join`, and the completion handshake of sync mode.
Each is a transition system: lock, unlock, release-and-wait, signal, wake-and-reacquire, join, every access to
the shared slot and every access to the port is one step of one thread, and a run takes these steps in any
order. `MainStep` and `WorkerStep` follow the C statement by statement (`parallel_filter.c` 32-79,
`async_parallel_filter.c` 27-76 and 126-203). `ParallelInvariant` and `AsyncInvariant` hold the inductive
invariants, stated branch by branch; `ParallelTheorems` and `AsyncTheorems` hold what follows for whole runs.
`Runs` is the theory of runs, ranks and schedules they share, and `Graph` the calls, the output mutex and the
port log. A main thread's work is a list of operations: calls on the fan-out filter and `write_done` messages.
`Graph.Script` is the list that `main.c` produces for a sequence of `process_frame` commands and one `flush`,
`PortOrder` says what the port then carries, in
sync mode and outside it, and `AsyncPort` what the queued filter leaves there outside sync mode.

Neither scheduler always ends, and the model says exactly when it does. `parallel_filter.c`'s `init` does not
wait for its workers, so a trigger sent before a worker has taken its `trigger_mutex` is lost. `WAIT_FOR_QUEUE`
waits without looking at the queue, so a signal sent just before it is lost. For both, every stuck state is
characterised (`ParallelTheorems.StuckExactly`, `AsyncTheorems.StuckExactly`), a reachable state can still be
completed if and only if no branch is doomed (`LostTrigger`, `LostWakeup`), and it is proved which systems can
reach a doomed state at all. What is safe (histories, slot, port order, nothing lost or reordered in a queue) is
proved for every run from the state that `init` leaves, whether its threads have run yet or not, without any
such condition. Only the results that say a handshake run ends name `AllStarted`: every worker has taken its
`trigger_mutex` when `init` is done.

Assumptions: condition variables have no spurious wake-ups; downstream calls end; `process` is called by the
thread that ran `init`, which owns the complete mutexes, so there is one layer of fan-out; a downstream call
writes a sequence of payloads that depends on its branch's call history only; nothing is sent after a flush.

**Frame information past a codec.** `FrameInfoQueue` is the singly linked list of `frame_info_queue.c` on heap
nodes, with its append, its unlinking in the middle and its purging search, refined to a recursive lookup on
sequences. `Matching` proves what a lookup does to the entries of each timestamp. `VideoEncodedOutput` and
`VideoEncodedInput` put the list beside any encoder that gives every timestamp back once, in any order and with
any delay, and any decoder that keeps timestamps in order but may drop some. The codec objects, here and for audio,
choose their answers non-deterministically, so the proofs hold for every such codec. `EntryQueue` is the other linked
queue, the one inside `async_parallel_filter.c`.

**Audio blocks.** `AudioEncodedOutput` cuts frames of any size into the blocks an encoder wants, through a
growing and compacted buffer, with integer timestamps.

**Port messages.** `TermFormat` is the External Term Format of the ERTS User's Guide (SMALL_TUPLE_EXT, ATOM_EXT,
BINARY_EXT, SMALL_INTEGER_EXT, INTEGER_EXT, SMALL_BIG_EXT) as an encoder and an independent decoder.
`FrameMessage` is the sequence of `ei_encode` calls `common.c` makes and the term they spell. `PortWriter` does
the two passes, measuring and writing, with the reused buffer. Where the encoding library switches from
INTEGER_EXT to SMALL_BIG_EXT is a parameter.

**Detectors and planes.** `Planes` are image planes with a stride. `Hysteresis` is the state machine that `audio_silence_detect.c` and
`video_black_detect.c` share, analysed into epochs; `SilenceDetect` and `BlackDetect` are the two filters.
`RawVideoOutput` packs the strided planes of a YUV420P frame.

## Model

| member | source | states |
|---|---|---|
| Graph.SendToGraph | c_src/common.c:68-82 | the sequential fan-out appends the call to every branch's history, once, and to nothing else |
| Graph.SequentialHistory | c_src/common.c:68-82 | under sequential fan-out every branch has received exactly the calls made so far, in order |
| Graph.ScriptFlushesLast | c_src/main.c:34-59 | process_frame commands and a flush never send anything after the flush, and write_done writes only completion messages |
| Graph.EmitStepOutputs | c_src/common.c:307-399 | one step of a locked write moves at most the next payload of its own branch to the port, and leaves every other branch's stream alone |
| Graph.OneMessagePerLock | c_src/common.c:307-399 | each message is written under its own hold of the output mutex: take it, write one message, give it back |
| Graph.SegmentComplete | c_src/common.c:307-399 | when all branches have finished a call, what was written since the previous operation is exactly the outputs of that call |
| ParallelInvariant.InitInv | c_src/parallel_filter.c:81-110 | the state init leaves, with each thread created but not run, or on its way into its first wait, satisfies the invariant |
| ParallelInvariant.InvKept | c_src/parallel_filter.c:32-79 | every step of every thread keeps the invariant on who holds which mutex, slot, histories, output mutex and port |
| ParallelTheorems.RunKeepsInv | c_src/parallel_filter.c:32-110 | every state of every interleaving satisfies that invariant |
| ParallelTheorems.FanOutRefinesSequential | c_src/parallel_filter.c:32-79 | for any number of branches and any interleaving, whenever process or flush has returned, every branch has received exactly the calls of the sequential fan-out |
| ParallelTheorems.SlotIsRaceFree | c_src/parallel_filter.c:41-52 | while a worker is between its wake-up and the end of its downstream call, the main thread is not storing into the slot, no step changes it, and it holds the current frame and timebase |
| ParallelTheorems.WritersAreInside | c_src/parallel_filter.c:68-74 | a worker that holds the output mutex has been triggered in this round and not yet been waited for |
| ParallelTheorems.PortIsOrdered | c_src/common.c:293-305 | each operation leaves exactly its own complete messages on the port, in operation order; the unlocked write_done never meets a writing worker |
| ParallelTheorems.Progress | c_src/parallel_filter.c:44-76 | unless a worker missed its trigger, some thread can move until everything is done; no completion is ever lost |
| ParallelTheorems.StuckExactly | c_src/parallel_filter.c:44-76 | a reachable unfinished state is stuck if and only if the main thread waits for a branch whose worker waits although it was triggered, and the other workers rest |
| ParallelTheorems.StepLowersRank | c_src/parallel_filter.c:32-79 | every step of every thread lowers a well-founded rank |
| ParallelTheorems.EveryScheduleFinishesOrLoses | c_src/parallel_filter.c:32-79 | every schedule that does not idle ends, with everything done or with a lost trigger |
| LostTrigger.DoomedNeverReturns | c_src/parallel_filter.c:44-68 | once a worker was signalled before it waited, or is about to be, process never returns, whatever happens |
| LostTrigger.DoomsExactly | c_src/parallel_filter.c:44-65 | a step dooms a worker if and only if it is the main thread taking trigger_mutex before that worker has taken it for the first time |
| LostTrigger.LoseTrigger | c_src/parallel_filter.c:44-68 | a schedule in which a worker that has not started misses its trigger |
| LostTrigger.TimelyStuckIsFinished | c_src/parallel_filter.c:44-68 | schedules that never trigger a worker before it has taken its trigger_mutex get stuck only when everything is done |
| LostTrigger.CompletableIffNotDoomed | c_src/parallel_filter.c:32-110 | a reachable state can be completed if and only if no worker is doomed |
| LostTrigger.StuckInTimeIsFinished | c_src/parallel_filter.c:44-76 | when every worker was in time, nothing is stuck before everything is done |
| LostTrigger.EveryScheduleFinishes | c_src/parallel_filter.c:32-79 | when every worker has taken its trigger_mutex by the time init is done, every schedule that does not idle carries out all operations |
| LostTrigger.AlwaysCompletableIff | c_src/parallel_filter.c:81-110 | every run can be completed if and only if every worker has taken its trigger_mutex by the time init is done, or there are fewer than two branches, or no frame is ever sent |
| EntryQueue.Queue.constructor | c_src/async_parallel_filter.c:7-13 | the queue starts empty |
| EntryQueue.Queue.Add | c_src/async_parallel_filter.c:27-41 | appends the entry, keeping head, tail, len and the links consistent |
| EntryQueue.Queue.Remove | c_src/async_parallel_filter.c:53-76 | returns nothing exactly when the queue is empty, and otherwise takes the first entry and keeps the rest |
| AsyncInvariant.InvKept | c_src/async_parallel_filter.c:126-203 | every step of every thread keeps the invariant, in sync and async mode |
| AsyncInvariant.TerminatedIsLast | c_src/async_parallel_filter.c:147-184 | once a worker has ended no further call is made on the graph |
| AsyncTheorems.RunKeepsInv | c_src/async_parallel_filter.c:126-225 | every state of every interleaving satisfies that invariant |
| AsyncTheorems.NothingIsLost | c_src/async_parallel_filter.c:126-203 | at every moment and for every branch, what was executed, then the entry in hand, then the queue, is the sequence entered; one signal was sent for each entry |
| AsyncTheorems.FlushDeliversEverything | c_src/async_parallel_filter.c:147-184 | when flush has returned, every branch has executed every frame once and in order, then exactly one flush, and all its outputs are on the port in that order |
| AsyncTheorems.SyncModeIsABarrier | c_src/async_parallel_filter.c:140-144 | in sync mode, whenever process has returned, every branch has executed every call, its queue is empty and no completion is owed; no worker needs complete_mutex while flush joins |
| AsyncTheorems.WaitsOnlyWhenEmpty | c_src/async_parallel_filter.c:168-200 | a worker begins to wait only from the moment it has found its queue empty under the queue's mutex, with nothing in hand |
| AsyncTheorems.WaitingIsOvertaken | c_src/async_parallel_filter.c:168-200 | over a whole run, a worker that waits has executed nothing since it last found its queue empty (or since it was created), so what its queue holds came after it had looked |
| AsyncTheorems.PortIsOrdered | c_src/common.c:293-305 | in sync mode each operation leaves exactly its own complete messages on the port, and write_done never meets a writing worker |
| AsyncTheorems.StuckExactly | c_src/async_parallel_filter.c:45-48 | a reachable unfinished state is stuck if and only if the branch the main thread waits for is parked on a non-empty queue whose signals all came before it waited, and the other workers rest |
| AsyncTheorems.DrainedIsTerminated | c_src/async_parallel_filter.c:159-184 | while flush joins, a worker with nothing left to deal with has ended |
| AsyncTheorems.EveryScheduleFinishesOrLoses | c_src/async_parallel_filter.c:126-203 | every schedule that does not idle ends, with everything done or with a lost wake-up whose worker was overtaken: its entries came after it had found the queue empty |
| LostWakeup.DoomedNeverReturns | c_src/async_parallel_filter.c:45-48 | from a state with a doomed branch the current call never returns |
| LostWakeup.DoomsExactly | c_src/async_parallel_filter.c:27-48 | a step dooms a worker if and only if it is the main thread locking its queue, for a call it will wait for, just before the worker would have locked it to wait |
| LostWakeup.CompletedIsNotOvertaken | c_src/async_parallel_filter.c:175-198 | a worker that has signalled completion looks at its queue again: the other threads cannot doom it with the next call, however far they get before it moves on |
| LostWakeup.FoundEmptyCanBeDoomed | c_src/async_parallel_filter.c:45-76 | a worker that found its queue empty gives the mutex up before it waits, and the main thread can get in between and doom it |
| LostWakeup.TimelyStuckIsFinished | c_src/async_parallel_filter.c:45-48 | schedules that never add to a queue whose worker is about to lock it for a wait get stuck only when everything is done |
| LostWakeup.CompletableIffNotDoomed | c_src/async_parallel_filter.c:126-203 | a reachable state can be completed if and only if no branch is doomed; a doomed worker has executed nothing since it found its queue empty or was created |
| LostWakeup.ReachDoom | c_src/async_parallel_filter.c:126-172 | a schedule that dooms a branch, for any system with a branch and a blocking call |
| LostWakeup.AlwaysCompletableIff | c_src/async_parallel_filter.c:126-225 | every run can be completed if and only if there is no branch, or no call that waits for one |
| PortOrder.SegmentsAreTranscript | c_src/main.c:34-59 | segments in operation order spell the transcript of the commands |
| PortOrder.QuietScript | c_src/main.c:44-58 | outside sync mode the operations are all calls in a row, the flush, and one flush_done |
| AsyncPort.ReportComesLast | c_src/main.c:54-59 | with one completion message: only outputs come before it on the port, it is written when every worker has ended and none is writing, and nothing comes after it |
| PortOrder.ParallelTranscript | c_src/main.c:34-59 | a finished run of the handshake leaves, in sync mode: outputs of command 1, frame_done, outputs of command 2, frame_done, ..., drained and flush outputs, flush_done; otherwise: all outputs, flush_done; each branch's outputs complete and in order |
| PortOrder.AsyncTranscript | c_src/main.c:34-59 | the same for the queued filter, in both modes |
| FrameInfoQueue.LookupTakesFirst | c_src/frame_info_queue.c:94-123 | a lookup takes out the first entry with the timestamp, leaves what is behind it, and of what is before it drops exactly the older entries when it purges; it fails exactly when there is none |
| FrameInfoQueue.FirstAtIsFirst | c_src/frame_info_queue.c:105-108 | the entry found is the first with its timestamp |
| FrameInfoQueue.ScanIsLookup | c_src/frame_info_queue.c:99-119 | the search that unlinks on its way gives that result from any position |
| FrameInfoQueue.Queue.constructor | c_src/frame_info_queue.c:33-38 | the list starts empty |
| FrameInfoQueue.Queue.Add | c_src/frame_info_queue.c:16-31 | appends one entry, keeping head, tail and the links consistent |
| FrameInfoQueue.Queue.Remove | c_src/frame_info_queue.c:73-92 | unlinks the entry at any position, also the first, the last and the only one, and returns its information |
| FrameInfoQueue.Queue.GetFrameInfo | c_src/frame_info_queue.c:94-123 | the list code refines the lookup on sequences, with and without purging |
| Matching.LookupTakesOldest | c_src/frame_info_queue.c:105-108 | among entries with one timestamp the earliest queued is found, whenever there is one |
| Matching.LookupSpares | c_src/frame_info_queue.c:101-118 | entries of other timestamps are untouched, except older ones when the lookup purges |
| Matching.PurgeLosesExactly | c_src/frame_info_queue.c:101-109 | after a purging lookup an older timestamp can be found if and only if an entry for it was queued behind the match |
| Matching.SendKeepsMatch | c_src/video_encoded_output.c:47-59 | looking up a timestamp the encoder had succeeds and keeps queue and encoder in step |
| Matching.DrainedIsComplete | c_src/video_encoded_output.c:85-104 | when the encoder is empty the queue is empty and what was sent is what was received |
| Matching.PurgingSendKeepsOrder | c_src/frame_info_queue.c:62-71 | the purging lookup of a timestamp the decoder emits succeeds and removes nothing the decoder can still emit |
| Matching.LookupPurges | c_src/frame_info_queue.c:94-123 | the purging lookup removes the entry it finds and, on the way to it, the older ones, and nothing else |
| Matching.PurgedMeans | c_src/frame_info_queue.c:99-119 | after it, what was queued before the entry is there exactly if it is newer, and what was queued behind it is untouched |
| Matching.EmitInOrder | c_src/frame_info_queue.c:62-71 | taking out a frame's entry keeps queue and decoder in order and leaves nothing older than the frame that was received before its packet |
| VideoEncodedOutput.VideoEncodedOutput.Encode | c_src/video_encoded_output.c:32-62 | feeds the encoder once; a packet is sent with the information of a frame with its timestamp, the earliest such |
| VideoEncodedOutput.VideoEncodedOutput.Deliver | c_src/video_encoded_output.c:47-59 | the lookup for a packet never fails |
| VideoEncodedOutput.VideoEncodedOutput.Process | c_src/video_encoded_output.c:64-83 | queues the frame's information, encodes the frame, and keeps the multiset of queued timestamps equal to what is pending in the encoder |
| VideoEncodedOutput.VideoEncodedOutput.Flush | c_src/video_encoded_output.c:85-104 | an encoder that was never fed is not called; any other is drained with exactly one answer without a packet, the last; then queue and encoder are empty and every frame has come out once with its own information |
| VideoEncodedInput.VideoEncodedInput.Decode | c_src/video_encoded_input.c:21-47 | feeds the decoder once; a frame is sent with the information of its packet |
| VideoEncodedInput.VideoEncodedInput.AddFrameInfoToFrame | c_src/frame_info_queue.c:62-71 | the purging lookup for a frame never fails, and it purges: no older entry from before the frame's packet stays queued |
| VideoEncodedInput.VideoEncodedInput.QueueFrameInfo | c_src/frame_info_queue.c:52-60 | queues the packet's information with no flags set, and nothing else |
| VideoEncodedInput.VideoEncodedInput.Process | c_src/video_encoded_input.c:49-66 | queues the packet's information, decodes the packet, keeps queue and decoder in order; afterwards the queue is unchanged if no frame came, purged for the frame if one did |
| VideoEncodedInput.VideoEncodedInput.Flush | c_src/video_encoded_input.c:68-89 | drains a delaying decoder until its one answer without a frame and leaves any other alone; every frame sent carries its packet's information, and entries of dropped frames do not pile up |
| AudioEncodedOutput.CutIsUnique | c_src/audio_encoded_output.c:84-124 | blocks of the right size with a short enough rest can be cut from a stream in one way only |
| AudioEncodedOutput.StampError | c_src/audio_encoded_output.c:65-118 | a block's timestamp differs from the exact time by less than one tick upwards and by less than k ticks downwards (k the block's index in its call); neither product leaves 32 bits exactly when frame_size is at most 23860 |
| AudioEncodedOutput.CopySamples | c_src/audio_encoded_output.c:51-52 | copies between ranges that lie inside the buffers and do not overlap |
| AudioEncodedOutput.AudioEncodedOutput.constructor | c_src/audio_encoded_output.c:132-170 | starts with nothing buffered in a buffer of one block, no packet counted, and the capacity bound at its smallest |
| AudioEncodedOutput.AudioEncodedOutput.ResizeBuffer | c_src/audio_encoded_output.c:36-56 | grows by the frame's length when that does not fit, and keeps the buffered samples |
| AudioEncodedOutput.AudioEncodedOutput.CopyFrame | c_src/audio_encoded_output.c:58-68 | appends the frame to the buffered samples and restarts the timestamp from the frame's, less what was buffered |
| AudioEncodedOutput.AudioEncodedOutput.EncodeBlock | c_src/audio_encoded_output.c:88-118 | the encoder gets the next frame_size samples with the running timestamp; what has been written is the packets it returned, in order, less libfdk's first two |
| AudioEncodedOutput.AudioEncodedOutput.EncodeAndWrite | c_src/audio_encoded_output.c:98-112 | a packet is written exactly when the encoder returned one that is not withheld, with the information of the input frame |
| AudioEncodedOutput.AudioEncodedOutput.EncodeBlocks | c_src/audio_encoded_output.c:86-119 | encodes whole blocks until less than one is left, losing nothing |
| AudioEncodedOutput.AudioEncodedOutput.Compact | c_src/audio_encoded_output.c:121-124 | moves the rest to the front, between disjoint ranges or not at all |
| AudioEncodedOutput.AudioEncodedOutput.ShouldSend | c_src/audio_encoded_output.c:172-184 | called once for each packet, it withholds the first and the second of libfdk and no other packet |
| AudioEncodedOutput.AudioEncodedOutput.Process | c_src/audio_encoded_output.c:70-125 | blocks followed by the buffered rest are the samples received, the rest is shorter than a block, the buffer never exceeds frame_size + 2 * maxInput - 2 (maxInput is the longest frame so far, at least 1), timestamps start afresh from the frame, and the packets written are those the encoder returned, in order, less libfdk's first two, the new ones with this frame's information |
| AudioEncodedOutput.AudioEncodedOutput.BlocksOfStream | c_src/audio_encoded_output.c:84-124 | the blocks encoded are the blocks of the sample stream |
| AudioEncodedOutput.SplitDoesNotMatter | c_src/audio_encoded_output.c:84-124 | two filters that have received the same samples, split into frames in any way, have encoded the same blocks and buffer the same rest |
| TermFormat.RoundTrip | c_src/common.c:421-496 | every encoded term is decoded as it was, whatever follows it, and nothing more is consumed |
| TermFormat.LongForm | c_src/common.c:434-437 | an integer is sent as one byte from 0 to 255, as 32 bits below the library's limit, and otherwise in as few bytes as it needs |
| FrameMessage.FrameTokensMatch | c_src/common.c:421-491 | the calls of encode_frame fill every tuple they announce (arities 3, 8, 7 or 12, and 2) exactly |
| FrameMessage.MessageRoundTrip | c_src/common.c:421-491 | the message is the version byte and exactly one term, which decodes to the frame's term |
| FrameMessage.MessageDeterminesFrame | c_src/common.c:421-491 | every field of the frame can be recovered: equal messages come from equal frames |
| FrameMessage.FrameIsReadBack | c_src/common.c:421-491 | a reader of the message finds every field at its position, and every fixed atom spelled character by character |
| PortWriter.Encode | c_src/common.c:421-496 | with and without a buffer the cursor advances by the same lengths, and a buffer receives those bytes |
| PortWriter.EncodeFrame | c_src/common.c:421-452 | the measuring pass returns the length that the writing pass produces |
| PortWriter.EncodeDone | c_src/common.c:283-291 | likewise for completion messages |
| PortWriter.StaticBuffer.Resize | c_src/common.c:498-507 | the buffer has room for what is required and never shrinks |
| PortWriter.PortWriter.WriteFrame | c_src/common.c:407-419 | over any sequence of frames the port gets exactly each frame's message, nothing left over from longer ones, in which a reader finds the frame |
| PortWriter.PortWriter.WriteDone | c_src/common.c:293-305 | likewise for completion messages, whose atom is spelled like the name |
| PortWriter.DoneRoundTrip | c_src/common.c:283-305 | a completion message is the version byte and one atom, spelled character by character like the name |
| PortWriter.DoneBytes | c_src/main.c:49-58 | the bytes of frame_done and flush_done |
| Hysteresis.FlagIsLastWinner | c_src/audio_silence_detect.c:60-85 | every history splits into epochs, each ended by the first class to exceed its threshold; the flag is the winner of the last one (initially on), the counters are the sums since, and stay within the thresholds |
| Hysteresis.SplitIsUnique | c_src/audio_silence_detect.c:60-85 | there is only one such split |
| Hysteresis.UnbrokenRunDecides | c_src/audio_silence_detect.c:60-85 | an unbroken run of one class that totals more than its threshold sets the flag to that class, from any state |
| Hysteresis.UnbrokenRunDecidesIff | c_src/audio_silence_detect.c:60-85 | after a decision for one class, an unbroken run of the other changes the flag if and only if it totals more than its threshold |
| SilenceDetect.SilenceDetect.constructor | c_src/audio_silence_detect.c:132-140 | starts silent with empty counters |
| SilenceDetect.SilenceDetect.Process | c_src/audio_silence_detect.c:60-85 | the fields are the state machine's after this frame, each counter within its own threshold, and the frame is marked silent exactly when the flag is set |
| BlackDetect.CountDark | c_src/video_black_detect.c:38-45 | the loops count exactly the visible pixels below the threshold |
| BlackDetect.DarkMeans | c_src/video_black_detect.c:38-45 | those are the bytes at i * linesize + j, for each row i and column j |
| BlackDetect.FlooredPercentage | c_src/video_black_detect.c:47-49 | the floored percentage test holds exactly when 100 * count >= percentage * pixels |
| BlackDetect.BlackDetect.constructor | c_src/video_black_detect.c:97-105 | starts black with empty counters |
| BlackDetect.BlackDetect.Process | c_src/video_black_detect.c:26-79 | the fields are the state machine's after this frame, judged by its dark pixels, and the frame is marked black exactly when the flag is set |
| RawVideoOutput.RowsAt | c_src/video_raw_output.c:68-72 | each byte of a plane's rows is its stride-indexed byte |
| RawVideoOutput.PackedAt | c_src/video_raw_output.c:66-82 | each packed byte, luma and both chroma planes at their offsets, is the stride-indexed byte of its plane |
| RawVideoOutput.FillsAnnouncedIff | c_src/video_raw_output.c:51-64 | packing never exceeds width * height * 12 / 8 bytes, and fills them exactly when both dimensions are even, or the picture is empty or a single pixel |
| RawVideoOutput.PackingIsInjective | c_src/video_raw_output.c:68-82 | the packed bytes determine every visible byte of the luma plane and of the half-size chroma planes |
| RawVideoOutput.RawVideoOutput.CopyPlane | c_src/video_raw_output.c:68-72 | one copy loop writes the rows of its plane after what is there already |
| RawVideoOutput.RawVideoOutput.Pack | c_src/video_raw_output.c:66-82 | the three loops write the packed picture |
| RawVideoOutput.RawVideoOutput.FrameToArray | c_src/video_raw_output.c:47-83 | the reused array is large enough, grows only when it must, and starts with the packed picture |

## Left out

- The schedulers are step functions on values, not methods on shared objects: what a thread does between two of
  its steps is nothing, so a data race on anything but the slot, the queues, the mutexes and the port is not modelled.
- Spurious wake-ups of condition variables, and fan-out filters nested in one another.
- `encode_frame` and the header functions are straight lines of `ei_encode` calls; here they are the token lists
  `BodyTokens` and `HeaderTokens`, which one loop encodes. Fields that C leaves at zero (a null string or an unset
  profile of a raw frame) are ordinary values of the frame here.
- Conversion of a frame or packet into message metadata (`write_output_from_frame`, `write_output_from_packet`
  apart from the mutex around them), and `stream_id`, which is never encoded.
- libav: codecs, resampling, `av_rescale_q`, side data, filter graphs. A frame's timestamp enters the encoder's
  filter already rescaled, and codec calls succeed.
- `calc_avg_*`: whether a frame is silent, and its sample count, are inputs; so are the thresholds that
  `do_init` computes from floating-point durations, which the option tables keep at zero or above.
- Exits on errors, tracing, option tables, filter registration.
- The command loop, `read_filter`, `read_params` and the macros they use; reading and writing the port device.
- `DESTROY_QUEUE` and `INACTIVE` of the queued filter, which nothing uses.
- The BGR24 branch of `frame_to_array`, which passes the frame's own plane on.
- `audio_encoded_input.c`, the raw inputs and outputs apart from plane packing, stereo splitter, rescale and
  resample filters, and the Erlang side.
- Freeing memory, and allocation failure. Integer widths, except where `StampError` and the term format state them:
  counters, lengths and timestamps are unbounded.
- The copy of the buffered samples on growth assumes that allocation gives a new buffer; the source leaks the old one.
