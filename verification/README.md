# Verified model of the voice server's streaming core

A Dafny 4.11 model of the parts of the voice stack where an ordering, a count or
a byte offset decides whether a stream is correct: the `/tts/stream` sentence
pipeline and its lease protocol, the ASR utterance slots, the `/v2v/stream` turn
state, the audio timelines and buffers, the strict parsers, and three small
algorithms used by the tooling. `dafny verify dfyconfig.toml` checks everything.

Concurrent code is a step system: a state, and a function giving the effect of
each stretch of code between two `await`s, or of one indivisible action of a
thread. Theorems about it are for every finite sequence of steps, hence for every
schedule, cancel instant, failure, worker count and window size. Single-owner
buffers and loops are classes and methods whose state is tied to a function of
the calls made so far; the laws are lemmas about that function.

| file | what it models |
|---|---|
| `TtsStream.dfy` | the pipeline: consumer, executor jobs, watcher, cleanup, leases |
| `TtsStreamInvariant.dfy` | what every step keeps |
| `TtsStreamWindow.dfy` | how many sentences are ever submitted, and how many are inside together |
| `TtsStreamSafety.dfy` | order, window and lease safety over all runs |
| `TtsStreamCancel.dfy` | what cancels a response, and what still happens then |
| `TtsStreamProgress.dfy` | no deadlock, a measure that every step decreases |
| `TtsStreamRuns.dfy` | exact conditions, with the runs that show the other half |
| `LeaseRelease.dfy` | the release callback under several callers |
| `AsrSlots.dfy` | inference gate, coordinator lock, slot, uncancellable workers |
| `AsrSlotsService.dfy` | who keeps a permit, what becomes of jobs, and that everyone in line is served |
| `V2vTurn.dfy` | two tasks over the shared turn state |
| `V2vAnswer.dfy` | endpoints are taken and answered; when the shared flags change |
| `SegmentTimeline.dfy`, `Preroll.dfy` | the utterance window counter, the onset ring |
| `ReferenceWav.dfy`, `ReferenceWavRefusals.dfy`, `Bytes.dfy` | RIFF/WAVE parser and writer, the cause of each refusal |
| `Embedding.dfy` | base64/binary32 validator |
| `MockStats.dfy` | sweep-line overlap count, and its bound under concurrency |
| `LcsSimilarity.dfy` | rolling-row longest common subsequence |
| `SileroVad.dfy`, `Playback.dfy` | VAD windowing, local playback buffer |
| `PayloadArchive.dfy`, `Lexicographic.dfy` | the deterministic archive |
| `Wrappers.dfy` | optional values |

## Findings

Places where the code does something other than its comments or documentation
say, or meets a property only under a condition. The model follows the code.

- A window of `n` lets `n` sentences be submitted ahead of the one being drained,
  so `n + 1` can be inside the backend together, and never more; the comment at
  `server/main.py:4209` ("max sentences in flight at once") counts one less
  (`WindowOverlaps`, `InFlightBound`).
- The old window guard is the current one with the window smaller by one. It
  hangs exactly at window 1, on two or more sentences whose first does not raise
  (`GuardVerdict`, `NeverHangs`).
- Draining re-raises what a job left in its future. A job ended by an exception
  that `except Exception` does not catch makes the cleanup release all leases
  while later jobs are still inside the backend, exactly if the text gets a later
  sentence submitted (`LeaseSafetyExact`).
- A second caller of the release callback returns before the leases are back
  (`LoserDoesNotWait`); safety rests on the cleanup task being the caller.
- The comment in `_AsrSlotJobs.drain` says a second cancellation is re-raised;
  the code swallows it and frees the slot under a running worker. This is the
  only way to two workers in one slot (`Exclusion`, `SecondCancelBreaksExclusion`).
- In `/v2v/stream` a pending endpoint always carries the active generation, so
  the generation gate never drops anything (`PendingIsCurrent`). What it is meant
  to prevent happens elsewhere: `finalize_with_status` is given no generation and
  works on whatever utterance is open when it starts. With several utterances per
  connection a new one can be opened after an endpoint was reported or taken, while
  a partial or the endpoint is being sent, and is finalized in place of the old
  (`EndpointTargetExact`, `OvertakenAtThePartial`). A client's own end of stream is
  announced to nobody, but can be overtaken while a preparation is waited for, or
  in the line for the lock (`ClientEosExact`).
- The preroll ring is cleared by an open of the frontend VAD only. A refused open
  loses its frame, and a turn opened by audio leaves the old frames in the ring, so
  that a later turn can be opened with a stretch that has a hole (`UnbrokenOnsets`).
- The WAV writer never pads odd audio, so the strict parser refuses its output
  for odd payloads (`ScanWritten`, `RoundTrip`).
- The base64 length pre-check enforces the limit by itself only if that is a
  multiple of three; otherwise text for one or two bytes more passes, and the
  second length test is needed (`PrecheckSuffices`).
- The playback counter counts what was buffered before the response began, and
  notifications, as well as the response's speech (`CounterSplits`,
  `CounterExact`).

## Model

| member | source | states |
|---|---|---|
| TtsStream.PrefetchMax | server/main.py:4229-4235 | the window is at least 1, at most the number of sentences, and the requested value where that lies in range, the number of sentences above it and 1 below it |
| TtsStreamInvariant.StepKeepsInv | server/main.py:4237-4406 | every step of consumer, threads, watcher and cleanup keeps: each queue is a prefix of its script's chunks then at most one error then one end mark; only drained sentences are behind the current one; the window bound; the lease counts |
| TtsStreamInvariant.JobStepInv | server/main.py:4242-4331 | a thread's queue holds its chunks in order, an error only after them, the end mark last, and nothing is missing unless the cancel flag cut the job short; once the flag is up a step queues nothing but a chunk already taken past the flag test |
| TtsStreamInvariant.PrefetchEffect | server/main.py:4350-4360 | a prefetch submits at most the next sentence, stays inside the window, and leaves at least one sentence ahead if the window allows one and nobody cancelled |
| TtsStreamSafety.OrderedPrefix | server/main.py:4364-4391 | in every reachable state the yielded chunks are a prefix of the serial concatenation of the sentences' chunks, and all of it once the drain loop has completed |
| TtsStreamSafety.WindowBound | server/main.py:607-627 | every unfinished submitted sentence lies between the current one and `prefetch_max` after it; with the current guard the current one is submitted and `next_to_submit - 1 - current_idx <= prefetch_max` |
| TtsStreamSafety.StartedInOrder | server/main.py:4333-4337 | over every run a sentence is given a thread only after every sentence before it |
| TtsStreamCancel.CancelExact | server/main.py:4392-4406 | over every run the cancel flag is up exactly if the client left, the framed response asked for it or the generator is past its `finally`; the cleanup was started exactly if the client left or the generator is past its `finally`; and the generator ended as aborted exactly if it was |
| TtsStreamCancel.CancelStopsThreads | server/main.py:4250-4285 | in every continuation of every cancelled run nothing more is submitted, no job enters the backend or begins to iterate that did not, and each job queues at most one more chunk, the one it had taken before it saw the flag |
| TtsStreamCancel.CancelStopsAudio | server/main.py:4364-4391 | and the client still hears at most what was queued of the current sentence and that one chunk, nothing if the generator had ended |
| TtsStreamSafety.LeaseSafety | server/main.py:3612-3655 | in every continuation of every run, once any lease is released no job of the response is inside the backend or enters it again, if no sentence that leaves an exception in its future has a submitted successor (the exact condition, see `LeaseSafetyExact`) |
| TtsStreamSafety.ReleasedAtMostOnce | server/main.py:4062-4091 | over every run each lease is released at most once, in the order coordinator, backend manager, session |
| TtsStreamSafety.StepKeepsLeases | server/main.py:3612-3655 | while the cleanup drains, every job inside the backend is one of those it still waits for; after it releases, none is inside |
| TtsStreamProgress.NeverStuck | server/main.py:4347-4406 | a state that keeps the invariant and has submitted the sentence being drained can take another step of its own, or has ended with all leases back and no thread at work |
| TtsStreamProgress.StepDecreases | server/main.py:4237-4406 | every step of any actor decreases an explicit measure of the work left |
| TtsStreamProgress.RunLength | server/main.py:4237-4406 | no run, cancelled or not, is longer than a bound in the number of chunks and sentences |
| TtsStreamRuns.UndisturbedDeliversAll | server/main.py:4364-4391 | with no cancel, a run that has come to its end has yielded exactly the serial audio, up to and including the first sentence that raises if one does, has completed exactly if none does, and has released each lease once |
| TtsStreamRuns.TerminalReleasesAll | server/main.py:4392-4406 | however a response ended, once it can go no further each of the three leases has been released exactly once |
| TtsStreamRuns.NeverHangs | server/main.py:4347-4391 | no reachable state is stuck if and only if a sentence may be submitted ahead, or there is one sentence, or the first one raises |
| TtsStreamRuns.GuardVerdict | server/main.py:613-627 | the current guard never hangs; the old one hangs if and only if the window is 1, there are two or more sentences and the first does not raise |
| TtsStreamRuns.HangAtSecond | server/main.py:618-625 | the run that hangs: sentence 0 drained, the consumer waiting for sentence 1, which was never submitted |
| TtsStreamWindow.StepKeepsPlace | server/main.py:4347-4391 | at every step the number of submitted sentences is the one that the consumer's place in the text determines, and never exceeds the most the text can reach |
| TtsStreamWindow.NeverMoreSubmitted | server/main.py:4347-4391 | over every run only the sentences that text, window and guard allow are ever handed to the executor |
| TtsStreamWindow.InFlightBound | server/main.py:4209-4235 | over every run at most `workers` sentences of a response are inside the backend together, and at most one more than the window lets ahead |
| TtsStreamRuns.SubmitEnough | server/main.py:4347-4391 | some run gets any number of sentences submitted up to the most the text can reach, with no later thread begun |
| TtsStreamRuns.WindowOverlaps | server/main.py:4209-4235 | for every window `n` a run has `n + 1` sentences of one response inside the backend at once, given threads enough, `2 n` sentences, audio in the first `n` and no error in the first `n - 1` |
| TtsStreamRuns.EscapeBreaksLeases | server/main.py:3586-3655 | for every sentence that leaves an exception in its future and has a submitted successor there is a run that releases the leases with the successor inside the backend |
| TtsStreamRuns.LeaseSafetyExact | server/main.py:3586-3655 | lease safety over all runs holds if and only if no sentence that leaves an exception in its future has a successor that is ever submitted; which sentences are is computed from the text, the window and the guard |
| LeaseRelease.ExactlyOnce | server/main.py:4064-4091 | any number of callers in any interleaving, any releases failing: no lease is released twice, and when a caller returns from the end of the body each was released once |
| LeaseRelease.AllAttempted | server/main.py:4069-4091 | whichever of the three releases raises or is cancelled, all three are attempted and the first error raised is the one reported |
| LeaseRelease.LoserDoesNotWait | server/main.py:4066-4068 | a later caller returns although no lease has been released yet |
| AsrSlots.StepKeepsInv | server/main.py:5435-5534 | every step keeps: a permit per holder, nobody waiting while one is free, one lock owner, and an unfinished job only while its slot waits for it |
| AsrSlots.WorkersBounded | server/main.py:5514-5534 | over every run with any cancellations, the workers inside the backend on behalf of slots not given up by force are at most the gate's permits, and at most one under a coordinator lock |
| AsrSlots.Exclusion | server/main.py:5514-5534 | with one permit or a lock, and no second cancellation during a drain, at most one finalize-path worker is inside the backend |
| AsrSlots.SecondCancelBreaksExclusion | server/main.py:5471-5479 | in every configuration a second cancellation during the drain leads to two workers inside the backend |
| AsrSlots.GateConserves | server/core/asr_infer_gate.py:126-183 | permits in use are exactly the holders, at most the concurrency; the queue stays within its bound; nobody waits while a permit is free; at most as many tasks as permits are parked on the coordinator lock |
| AsrSlots.WakeNextKeeps | server/core/asr_infer_gate.py:126-139 | a permit given up goes to one waiter or back to the gate, never lost or doubled |
| AsrSlots.OldestWaiterIsServed | server/core/asr_infer_gate.py:134-138 | a freed permit goes to the longest-waiting task that was not cancelled, and only cancelled ones before it leave the queue |
| AsrSlotsService.AcquireExact | server/core/asr_infer_gate.py:141-160 | a session is refused exactly if all permits are held and the queue is at its bound, admitted at once exactly if one is free, and otherwise goes to the end of the queue |
| AsrSlotsService.HoldersExact | server/core/asr_infer_gate.py:162-183 | at every step a holder stops being one exactly if it leaves its slot with nothing unfinished, is done draining, or gives up after a cancellation of its own; only one that asks while a permit is free, or was waiting, becomes one |
| AsrSlotsService.KeepsItsPermit | server/core/asr_infer_gate.py:162-183 | over every run a session that was handed a permit and not cancelled since holds it until it leaves its slot or is cancelled |
| AsrSlotsService.GrantedGoesOn | server/core/asr_infer_gate.py:162-183 | a waiter that was handed a permit and not cancelled resumes as a holder, next in line for the coordinator lock |
| AsrSlotsService.JobsAreNotLost | server/main.py:5456-5479 | over every run a job inside the backend leaves it only by returning, one not begun is dropped only by its own session's cancellation, and its slot is given up only by that session's second one |
| AsrSlotsService.NeverStuck | server/main.py:5519-5534 | gate, lock and drains never deadlock: unless nobody is in line or in a slot, something can go on with nobody cancelled |
| AsrSlotsService.EveryoneIsServed | server/main.py:5519-5534 | from any reachable state, if slots finish, threads return and nobody is cancelled, the run is bounded, stops only when nobody is left, and has let every session that was in line into its slot |
| V2vTurn.StepKeepsInv | server/main.py:7152-7357 | every step of either task keeps the turn invariant: a pending endpoint is of the active generation and the last utterance; a single-turn connection opens once and finalizes the utterance whose endpoint it took |
| V2vTurn.PendingIsCurrent | server/main.py:7601-7617 | at every await of either task a pending endpoint is stamped with the active generation and belongs to the last utterance opened, so the generation gate never drops one |
| V2vTurn.SingleTurnOnce | server/main.py:7152-7179 | a single-turn connection opens at most one ASR stream and sends at most one final |
| V2vTurn.ClientEosExact | server/main.py:7642-7667 | a client's end of stream always finalizes the utterance it was sent for if and only if the connection is single-turn, or no preparation is waited for and no frontend VAD can open an utterance ahead in the line for the lock |
| V2vTurn.OvertakenAtThePreparation | server/main.py:7652-7661 | the run in which an end of stream waits for a preparation and then finalizes a newer utterance |
| V2vTurn.OvertakenAtTheLock | server/main.py:7662-7667 | the run in which an end of stream is in line behind an open and then finalizes the utterance that this opened |
| V2vTurn.LateFinalizeKeepsNewer | server/main.py:7668-7677 | over every run from a finalize on, returned or not: an utterance opened since then is still active, unless the client or a timeout cancelled it, an open was refused, or the manager went idle |
| V2vTurn.OvertakenAtTheAnnouncement | server/main.py:7643-7651 | with several utterances per connection there is a run in which an endpoint is announced and then finalizes a newer utterance |
| V2vTurn.OvertakenAtThePartial | server/main.py:7596-7622 | and one in which the endpoint reported on one utterance is taken for another, opened while a partial was being sent |
| V2vTurn.EndpointTargetExact | server/main.py:7619-7667 | every finalize runs on the utterance whose endpoint caused it, in all runs, if and only if the connection is single-turn |
| V2vAnswer.EndpointIsTaken | server/main.py:7601-7642 | in every reachable state in which the task looks, it takes an endpoint exactly if one is pending or the poll reported one on an open utterance; taking it clears what was pending, closes a single-turn input side and begins the answer; otherwise nothing changes but that the task sleeps or ends |
| V2vAnswer.PartialKeepsEndpoint | server/main.py:7596-7599 | an endpoint reported by a poll is kept while its partial is sent |
| V2vAnswer.EndpointsAnswered | server/main.py:7642-7720 | over every run each endpoint taken has been answered by exactly one final, or its finalize was discarded, or the answer is under way; no final is sent without one |
| V2vAnswer.SingleTurnAnswers | server/main.py:7624-7720 | over every single-turn run without abort, disconnect, timeout or discarded finalize, the input side is closed exactly if an endpoint is pending, being answered or answered, and the task has ended only with its one final sent, whether or not an utterance was open |
| V2vAnswer.FlagsExact | server/main.py:7152-7720 | at every step of either task the active flag, generation, pending endpoint and both closed flags change at the stated events and at no others |
| V2vAnswer.FramesExact | server/main.py:7152-7341 | which frame is ignored, fed, opens an utterance or is announced, and that an end of speech is carried along until its audio has been fed |
| V2vAnswer.EndpointCanBeAnswered | server/main.py:7601-7720 | from every reachable state with an endpoint pending or in hand a run leads to its final, unless the client left or the turn is timing out |
| SegmentTimeline.NextKeepsTiles | server/main.py:5625-5835 | after every event the finals and the dropped stretches tile the received audio without gap or overlap and the buffer is the rest |
| SegmentTimeline.FinalsAreDisjoint | server/main.py:5591-5598 | over every run the windows of successive finals are ordered and disjoint |
| SegmentTimeline.EverySampleOnce | server/main.py:5740-5742 | every sample received is in the window of exactly one final, in exactly one stretch dropped by a reset or a rejection, or in the open buffer |
| SegmentTimeline.FinalWindowIsItsAudio | server/main.py:5676-5681 | the window of a final is exactly as long as its buffered audio, and is that audio's place in the stream |
| SegmentTimeline.EventExact | server/main.py:5620-5835 | what every event does: arriving audio joins the buffer; that becomes the window of a final, or one dropped stretch of exactly that audio on a reset or a rejection, or stays |
| SegmentTimeline.LaterPiecesStartLater | server/main.py:5620-5681 | over every run, once an utterance was answered, reset or rejected the buffer is empty and every later final or dropped stretch starts after all audio heard by then |
| SegmentTimeline.Connection.CurrentWindow | server/main.py:5591-5598 | the summing loop returns the seconds at which the buffered audio starts and ends in the received stream |
| SegmentTimeline.Connection.BufferAudio | server/main.py:5740-5742 | appends a chunk to the buffer and to the sample count |
| SegmentTimeline.Connection.EmitFinal | server/main.py:5676-5681 | returns the window of the buffered audio, records it as a final and clears the buffer |
| SegmentTimeline.Connection.DropBuffer | server/main.py:5625 | clears the buffer; the sample count stays, so the dropped stretch becomes a gap |
| SegmentTimeline.Connection.Receive | server/main.py:5620-5835 | every event does to `_seg` and `_t_samples` what the timeline does: the buffer is empty after a final, a reset or a rejection and grows by the arriving audio otherwise; it emits a final, with the window of its piece, exactly when the event ends an utterance |
| Preroll.Gone | server/main.py:7362-7371 | how many pushed frames the ring has let go: what is left is the longest suffix within the cap, or the last frame alone |
| Preroll.ActiveExact | server/main.py:7207-7313 | over every run a turn is open exactly if one was opened and no end of a turn and no refusal has come since |
| Preroll.PushedExact | server/main.py:7242-7371 | over every run the frames in the ring, before the cap, are exactly those received since the frontend VAD last opened a turn, not refused an open, after which no turn was open |
| Preroll.DroppedStayDropped | server/main.py:7365-7371 | what an earlier frame pushed out of the ring cannot come back with a later one |
| Preroll.Session.Push | server/main.py:7362-7371 | the loop leaves the longest suffix of the frames pushed since the last clear that fits the cap, or the last frame alone, and the counter is its exact length |
| Preroll.Session.OpenTurn | server/main.py:7251-7260 | opening a turn feeds the ring, oldest frame first, and clears it |
| Preroll.Session.Receive | server/main.py:7207-7313 | a frame that opens a turn is fed right after the ring, which is cleared; a refused open loses its frame; a turn opened by audio leaves the ring; in a turn frames go to the stream; frames after which no turn is open go into the ring |
| Preroll.Session.EndTurn | server/main.py:7673-7674 | a finished turn leaves the ring as it was, and the following frames go into it |
| Preroll.UnbrokenExact | server/main.py:7207-7371 | over every run the ring is a stretch of consecutive frames up to the last one received if and only if every frame pushed before the last one missed has been let go |
| Preroll.UnbrokenOnsets | server/main.py:7207-7371 | in all runs the audio a turn is opened with is one unbroken stretch of the received audio if and only if the ring is off, or opens are never refused and only the frontend VAD opens turns |
| Preroll.OnsetIsContiguous | server/main.py:7242-7260 | with the ring unbroken, what a turn is opened with is the end of all audio received, each sample once and in order, up to the trigger |
| ReferenceWav.ScanChunks | server/main.py:2814-2837 | the loop with the moving offset reads only inside the buffer, terminates, and finds what the chunk grammar gives |
| ReferenceWav.Parse | server/main.py:2801-2854 | the handler's parser computes the parse function, error by error |
| ReferenceWav.ScanSound | server/main.py:2817-2837 | what the loop accepts is a body of padded chunks with at most one `fmt ` and one `data`, whose payloads it returns |
| ReferenceWav.ScanComplete | server/main.py:2817-2837 | every such body is accepted |
| ReferenceWav.ParserExact | server/main.py:2801-2854 | the parser returns this audio and rate if and only if the file is a RIFF/WAVE file tiled by padded chunks with exactly one PCM16 `fmt ` and one non-empty frame-aligned `data` that meet the codec contract |
| ReferenceWavRefusals.ScanRefusesExact | server/main.py:2814-2837 | the chunk loop refuses with an error exactly if the body begins with chunks that are fine and what follows them has that fault |
| ReferenceWavRefusals.HeaderRefusesExact | server/main.py:2808-2837 | which files are refused for their header, and that the loop's refusals are the file's |
| ReferenceWavRefusals.FormatRefusesExact | server/main.py:2838-2854 | of a file whose chunks are fine, exactly which refusal its format, its audio and the codec contract earn |
| ReferenceWav.ScanWritten | bench/tts_n2_harness.py:184-191 | the writer's output scans to its own format and audio for even lengths and is refused as truncated for odd ones |
| ReferenceWav.RoundTrip | bench/tts_n2_harness.py:184-191 | whatever the header fields can hold is written, and the parser returns what the writer was given if and only if rate and channels are the contract's and the audio is non-empty whole frames |
| Bytes.PutLe32OfLe32 | bench/tts_n2_harness.py:189-191 | writing a little-endian word read from four bytes gives the four bytes back |
| Embedding.DecodeEncode | server/main.py:2626 | strict base64 decoding inverts encoding for every byte string |
| Embedding.DecodedLength | server/main.py:2612-2615 | the length of a decoded text is fixed by the text's length and its padding |
| Embedding.PrecheckExact | server/main.py:2611-2621 | the pre-check never refuses a text that decodes to at most `m` bytes, and a text that passes decodes to at most `m + 2` |
| Embedding.PrecheckSlack | server/main.py:2611-2633 | for every limit the longest data that passes the pre-check has the limit rounded up to a multiple of three |
| Embedding.PrecheckSuffices | server/main.py:2611-2633 | the pre-check alone enforces the limit if and only if that is a multiple of three |
| Embedding.FiniteByTopBytes | server/main.py:2653-2661 | a binary32 word is finite exactly when its exponent bits, in the two top bytes, are not all ones |
| Embedding.ScanBlocks | server/main.py:2656-2664 | the scan by blocks of 4096 bytes accepts exactly the data all of whose words are finite |
| Embedding.DecodeEmbedding | server/main.py:2589-2665 | a request is accepted exactly when one profile is given, its text decodes within the limit to whole finite binary32 words, and the declared dimension agrees; and each refusal has exactly its stated cause |
| MockStats.SweepFindsPeak | scripts/mock_openai_client.py:168-178 | for every sorted order of the edges the largest running sum is the largest number of spans containing a common instant |
| MockStats.SortSorts | scripts/mock_openai_client.py:173 | sorting by (time, delta) gives a sorted permutation |
| MockStats.TouchingDoNotOverlap | scripts/mock_openai_client.py:172-173 | spans that only touch do not count as overlapping, and empty ones count nowhere |
| MockStats.Stats.Enter | scripts/mock_openai_client.py:142-146 | counts the request in and keeps the peak at least the count, raising it only to the count |
| MockStats.Stats.Leave | scripts/mock_openai_client.py:148-152 | counts the request out and records its span exactly when it was served |
| MockStats.Stats.PeakAccepted | scripts/mock_openai_client.py:154-178 | the loop returns the maximum over all instants of the number of served spans open then, and 0 for none |
| MockStats.AcceptedAtMostInflight | scripts/mock_openai_client.py:241-252 | over every interleaving of any number of workers with a clock that never goes back, the peak of served spans is at most the peak counted in flight |
| MockStats.CountersExact | scripts/mock_openai_client.py:142-152 | over every interleaving, in flight are the requests sent less those ended, the peak is the largest such number at any moment, and each served request has left one span |
| MockStats.SpansAreReadings | scripts/mock_openai_client.py:241-252 | over every interleaving each recorded span is what the clock showed when one worker began and ended a request that was then served |
| LcsSimilarity.LcsIsLongest | deploy/roundtrip_verify.py:34-39 | the recurrence gives the length of a common subsequence, and no common subsequence is longer |
| LcsSimilarity.LongestCommonUnique | deploy/roundtrip_verify.py:34-40 | that length is determined by the definition alone |
| LcsSimilarity.LcsLength | deploy/roundtrip_verify.py:34-40 | the rolling-row loop computes the length of a longest common subsequence |
| LcsSimilarity.Similarity | deploy/roundtrip_verify.py:27-40 | the whole function computes the score of the normalized texts |
| LcsSimilarity.ScoreIsSimilarity | deploy/roundtrip_verify.py:27-40 | the score lies in [0, 1], is symmetric, and is 1 exactly for equal normalized texts |
| LcsSimilarity.ScoreExact | deploy/roundtrip_verify.py:30-40 | the score times the length of the longer text is the length of a longest common subsequence; two empty texts score 1 |
| LcsSimilarity.NormalizeExact | deploy/roundtrip_verify.py:22-24 | normalizing keeps exactly the characters that are neither white space nor punctuation, each once and in order, and lower-cases each by itself |
| SileroVad.ChunkingIndependence | agent/ovs_agent/vad.py:99-115 | however a sample stream is cut into calls: the same model inputs, final state, context and residue, and the same verdict overall |
| SileroVad.FeedSplit | agent/ovs_agent/vad.py:99-115 | two calls do what one call on the concatenation does |
| SileroVad.WindowsOfStream | agent/ovs_agent/vad.py:103-112 | after a reset, call `k` sees exactly the context and window at `k` windows into the zero-prefixed stream; the residue is shorter than a window and the context is the audio before it |
| SileroVad.StateIsThreaded | agent/ovs_agent/vad.py:103-115 | each call is given the recurrent state the call before it returned, from the stream's state before to its state after, and the verdict is that some call's probability reached the threshold |
| SileroVad.SampleExact | agent/ovs_agent/vad.py:100 | sample `k` is the two's-complement value of bytes `2 k` and `2 k + 1`, low byte first, over 32768 |
| SileroVad.SamplesConcat | agent/ovs_agent/vad.py:100-101 | decoding PCM in pieces gives the pieces of the decoded stream |
| SileroVad.Detector.IsSpeech | agent/ovs_agent/vad.py:99-115 | the loop leaves the state, makes the calls and returns the verdict of the stream function, and refuses a half sample with nothing changed |
| SileroVad.Detector.ResetStream | agent/ovs_agent/vad.py:117-120 | a reset returns to the initial stream |
| Playback.Conservation | agent/ovs_agent/audio_io.py:592-605 | over every run the bytes the device got since the last clear are an exact first-in-first-out prefix of those pushed since; counted = buffered at begin + pushed - cleared - still buffered |
| Playback.BargeInIsSilent | agent/ovs_agent/audio_io.py:790-802 | between `stop_playback` and `arm_for_next_turn` no byte of `play` reaches the device |
| Playback.LatchExact | agent/ovs_agent/audio_io.py:773-802 | over every run the latch is set exactly if a stop has not been followed by an `arm_for_next_turn` |
| Playback.PlayingExact | agent/ovs_agent/audio_io.py:706-756 | over every run speech is due exactly if some was accepted since the last stop or end of stream |
| Playback.ArmedSpeechIsHeard | agent/ovs_agent/audio_io.py:741-776 | speech that comes with the latch clear reaches the device whole and in order, right after all that was buffered before, once it has drained the buffer and unless a stop comes first |
| Playback.NotificationIsHeard | agent/ovs_agent/audio_io.py:730-739 | so does a notification, whatever the latch says |
| Playback.CounterSplits | agent/ovs_agent/audio_io.py:592-605 | over every run the counter is the response's own speech, plus leftover from before it began, plus notifications, that the device has got since |
| Playback.CounterExact | agent/ovs_agent/audio_io.py:716-739 | whatever calls follow, the counter of a response is its own speech if and only if nothing was buffered as it began and no notification is played |
| Playback.AudioIO.OutputCallback | agent/ovs_agent/audio_io.py:592-605 | the device buffer gets the front of the playback buffer followed by zeros, and that front is removed and counted |
| Playback.AudioIO.PlayPcm | agent/ovs_agent/audio_io.py:741-756 | speech is dropped under the latch, otherwise resampled if the rates differ and appended |
| Playback.AudioIO.PlayNotification | agent/ovs_agent/audio_io.py:730-739 | a notification is appended whatever the latch says and leaves `_is_playing` alone |
| Playback.AudioIO.StopPlayback | agent/ovs_agent/audio_io.py:790-802 | empties the buffer and sets the latch |
| Playback.AudioIO.ArmForNextTurn | agent/ovs_agent/audio_io.py:773-776 | clears the latch and nothing else |
| Playback.AudioIO.MarkPlaybackDone | agent/ovs_agent/audio_io.py:706-714 | speech is no longer due; the buffered tail stays and is still played |
| Playback.AudioIO.BeginResponsePlayback | agent/ovs_agent/audio_io.py:716-720 | starts the count of a response at zero |
| Playback.AudioIO.PlaybackPositionMs | agent/ovs_agent/audio_io.py:722-728 | the whole milliseconds of 16-bit mono audio counted, 0 for another response |
| Playback.AudioIO.Playing | agent/ovs_agent/audio_io.py:152-157 | playing while speech is due or anything is still buffered |
| PayloadArchive.BelowExact | scripts/package_edgellm_v010_artifact.py:128-148 | the traversed entries of a tree are exactly what path lookups find, each once |
| PayloadArchive.ReorderedIsSameTree | scripts/package_edgellm_v010_artifact.py:131 | listing directories in another order, at any depth, does not change the tree |
| PayloadArchive.PermutedIsReordered | scripts/package_edgellm_v010_artifact.py:131 | every permutation of a listing is such a reordering |
| PayloadArchive.VisitEntries | scripts/package_edgellm_v010_artifact.py:135-148 | reading one directory moves each of its entries to the files or the stack, losing and duplicating nothing, or stops at an unsupported one |
| PayloadArchive.CollectPayloadFiles | scripts/package_edgellm_v010_artifact.py:125-153 | the worklist terminates and returns exactly the regular files, each once, in ascending order of their path strings; it refuses exactly trees with a link or special file, or with no file |
| PayloadArchive.CollectDirectories | scripts/package_edgellm_v010_artifact.py:156-173 | returns exactly the directories of the listing, in ascending order of their path strings, or refuses an unsupported entry |
| PayloadArchive.PosixInjective | scripts/package_edgellm_v010_artifact.py:97-112 | two different paths of a tree are never spelled the same |
| PayloadArchive.FilesAreCanonical | scripts/package_edgellm_v010_artifact.py:150-153 | the returned list is free of duplicates and depends on the tree alone, not on the order in which directories are listed |
| PayloadArchive.MembersAreTheTree | scripts/package_edgellm_v010_artifact.py:194-200 | the archive's members are every entry of the tree, once, in ascending order of their path strings |
| PayloadArchive.MembersAreCanonical | scripts/package_edgellm_v010_artifact.py:194-200 | the member list is a function of the tree alone |
| PayloadArchive.DirectoriesComeFirst | scripts/package_edgellm_v010_artifact.py:200-206 | every directory precedes everything beneath it |
| Lexicographic.SortedUnique | scripts/package_edgellm_v010_artifact.py:150 | a sort by distinct keys has one possible result |
| Lexicographic.LexExact | scripts/package_edgellm_v010_artifact.py:150 | a string comes no later than another exactly if it is a prefix of it, or has the smaller character at the first place where they differ |

## Left out

- `/tts/stream`, the ASR slots and the two V2V tasks are step systems on values, not classes: their interleaving is the subject, so update in place and aliasing of the Python lists and dictionaries are not modelled.
- Queue puts, event flags, executor starts and `call_soon_threadsafe` are single steps; asyncio's shielding, generator finalizers, heartbeats and wall-clock timeouts appear only as steps that may happen at any time.
- Other responses sharing the TTS executor: a queued job may wait arbitrarily long for a thread, but threads busy elsewhere are not counted against `workers`.
- The setup of `/tts/stream` before the release callback exists, the framed response's inner owner and the response headers.
- `/asr/stream` connections that hold the connection-level lock (`_asr_no_slot`), and `accept_waveform`, which runs outside the slot.
- What the coordinator does in exclusive mode once it has the lock (unload and preload of backends).
- The ASR session manager appears as arbitrary return values: any generation number, any poll or finalize outcome. It is taken to work on the utterance that is open when a call starts, and its calls, if they are serialised, to be served in order of arrival; holder-set bookkeeping and eviction are not part of this model.
- Tasks that are ready run in any order, which is more than one event loop does: a preparation may be over for a while before the task that waits for it goes on.
- Frames that a `/v2v/stream` connection ignores for good (after its session has closed, or its single turn is over) are not events of the preroll model.
- The TTS half of `/v2v/stream`, the speech buffer of V2V diarization, and punctuation and embedding enrichment, apart from the await they take.
- Rounding of window seconds to three decimals, float rounding of samples and scores (reals here), and resampling and model inference (uninterpreted functions).
- V2vAnswer.EndpointCanBeAnswered: says that an answer is never out of reach, not that a scheduler gets to it; waiting times and fairness are not modelled.
- Embedding.DecodeEncode: is about padded base64 (section 4 of RFC 4648). Like the library, the decoder ignores stray bits under the padding; padding beyond a full group, which some library versions tolerate, is refused.
- Decoded request models, JSON error shapes, status codes and where the codec contract comes from; errors are constructors, the contract a parameter.
- Case folding: the per-character lower-casing is a parameter of the similarity function.
- `Stats.record` and the latency percentiles of the mock client, its barrier and its retry loop.
- PortAudio devices, hot-plug, the legacy queue writer and subprocess playback; whether the output device is available is a parameter.
- Symbolic-link and existence checks on the payload root, hashing, re-stat races while the archive is written, tar headers and metadata.
- Release-lock, promotion and rendering scripts, routing, metrics, configuration, event bus and plugins.
