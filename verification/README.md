# lad-translate, modelled and proved in Dafny

lad-translate turns a live talk into spoken translations. Audio goes through a backlog guard into a
streaming recogniser; a phrase chunker turns the recogniser's revisable transcripts into phrases that can
never be recalled; a session fans each phrase out to one worker per language. This project models the parts
of that path that hold state and proves what they keep over whole runs.

Each stateful class of the source is a Dafny class with the same fields and methods. What one call does is
also written as a function on a plain value (`Tracker`, `ChunkerState`, `GuardState`, `WorkerState`, ...);
every method is proved to follow its function, and everything about runs, histories and interleavings is
proved about the functions. Asyncio runs one piece of code at a time between awaits, so concurrency is a
sequence of such pieces in any possible order.

| file | what it models |
|---|---|
| `Words.dfy`, `Transcript.dfy`, `Sequences.dfy`, `Options.dfy`, `Durations.dfy` | tokens and joining, hypotheses, sequences, optional values, arithmetic on durations |
| `Clause.dfy`, `Stability.dfy`, `Chunker.dfy` | boundaries, LocalAgreement-n, the phrase chunker |
| `ChunkerRuns.dfy`, `ChunkerPhrases.dfy`, `ChunkerRevision.dfy`, `ChunkerHold.dfy`, `ChunkerCeiling.dfy`, `ChunkerSpans.dfy` | runs of the chunker: agreement and tiling, what an interim commits and what phrases say, revisions and final text, hold time and when max_wait_s bounds it, audio spans |
| `Schedule.dfy`, `Features.dfy`, `WordClocks.dfy`, `Transcribe.dfy`, `StreamingAdapter.dfy` | encoder steps, the buffer that forgets, word stamps, the streaming loop |
| `StreamingTrace.dfy`, `StreamingSpeech.dfy`, `LaterSessions.dfy` | what a session yields, step by step; from audio samples to spoken words: adapter and chunker together; spans in an adapter's later sessions |
| `WordErrorRate.dfy` | the edit-distance table and its back-pointer walk |
| `Backlog.dfy`, `BacklogRuns.dfy` | the backlog guard, and every interleaving of its producer and consumer |
| `LanguageWorkers.dfy`, `Fanout.dfy`, `FanoutCuts.dfy` | one language's worker, the session protocol over the chunker's runs, and what a session never says |
| `Drift.dfy`, `Latency.dfy`, `LatencyMeasures.dfy`, `SessionLatency.dfy`, `SessionMeasures.dfy` | playout drift and the playout queue, latency traces and percentiles, what a sample measures, and both within a session |

Seconds are reals. Token normalisation, the word tables of the boundary rules, the acoustic front end and
the encoder step are function-valued parameters, so the results hold for all of them. Wall-clock readings
are parameters.

Five statements in the source's own documentation are not what the code does; the code was followed and the
exact condition proved.

- `flush` says it emits everything outstanding, and emits the agreed prefix: `FlushSpeaksAllIff`,
  `FlushLeavesNothingPendingIff`, and the run of `FlushCanLeaveWordsUnspoken`.
- The contradiction detector compares with the latest hypothesis rather than with what was spoken, so it is
  exact up to its first flag and in general exactly while the latest hypothesis still begins with everything
  spoken: `DetectorExactIff`, and the run of `DetectorCanMissAfterAFlag`.
- `max_lag_s` caps the backlog exactly when no single frame reaches it: `PushBoundsLag`, and the frame of
  `OneLongFrameReachesTheThreshold`.
- `max_wait_s` is called a direct latency ceiling, but its timer restarts whenever the agreed prefix grows. It
  is one exactly when it is 0 or less, or max_words is at most min_words + 1: `MaxWaitIsCeilingIff`, and the
  run of `HoldOutlastsMaxWait`. The ceiling that holds in general is `HoldTimeBound`.
- `silence_commit_s` is to flush pending text when no hypothesis comes, but the session calls `tick` only
  straight after a `feed`: from listening on, silence releases nothing however long it lasts
  (`SilenceReleasesNothing`), and that one tick releases something exactly when the time was already up by
  then and agreed words were pending (`TickAfterFeedReleasesIff`).

Two more things are easily supposed and not so. A failure or a limit that cuts the pump loses the rest of the
batch in hand and, since it skips the flush, every agreed word the chunker still holds: nothing exactly when no
translation is awaited and nothing is held (`WhatACutLoses`, `SessionSaysAllIff`, and the runs of
`AWholeBatchCanBeLost` and `AnIdleStopLosesTheTail`). And an adapter keeps one word clock for all its sessions,
so the spans of a later one are ordered exactly when the stamps it finds are in order and not beyond its first
audio (`LaterSpansOrderedIff`, and the session of `RepeatedWordsGoBack`).

## Model

| member | source | states |
|---|---|---|
| Words.TokeniseJoin | src/lad_translate/chunker/stability.py:43-45 | splitting words that were joined with single spaces gives the same words back |
| Words.TokensKeepEverything | src/lad_translate/chunker/stability.py:43-45 | splitting loses nothing but the spaces |
| Words.JoinOfJoins | src/lad_translate/chunker/chunker.py:140 | joining phrase texts with single spaces is joining all their words |
| Clause.FindBoundaryIsLatest | src/lad_translate/chunker/clause.py:102-136 | the cut is the latest one leaving min_words; punctuation beats any conjunction; a conjunction counts only when weak boundaries are allowed; 0 exactly when there is no usable cut |
| Clause.OnlyFullStopsAreDoubted | src/lad_translate/chunker/clause.py:68-95 | what a token's last character makes of it; only a full stop is doubted, after nothing, one character, a digit or an abbreviation |
| Stability.AgreedIff | src/lad_translate/chunker/stability.py:143-155 | a prefix counts as agreed exactly when the window is full and every hypothesis in it starts with that prefix |
| Stability.StabilityTracker.Create | src/lad_translate/chunker/stability.py:75-83 | refuses an agreement window below 1, otherwise starts empty |
| Stability.StabilityTracker.Add | src/lad_translate/chunker/stability.py:106-122 | the tracker's whole state after a hypothesis: window, surface, contradiction flag, first sightings; a final fills the window |
| Stability.StabilityTracker.DetectContradiction | src/lad_translate/chunker/stability.py:124-136 | raises the flag exactly when `Detects` says so and never lowers it |
| Stability.StabilityTracker.AgreedLength | src/lad_translate/chunker/stability.py:143-155 | the scanning loop stops at the agreed length |
| Stability.StabilityTracker.StablePrefix | src/lad_translate/chunker/stability.py:157-177 | the agreed surface words beyond what is committed, with their first sighting, or nothing |
| Chunker.DecisionFits | src/lad_translate/chunker/chunker.py:77-103 | what an interim commits fits the prefix and max_words; a clause or timeout takes at least min_words; holding means too few words or too short a wait |
| Chunker.PhraseChunker.Feed | src/lad_translate/chunker/chunker.py:43-51 | phrases and whole new state after a hypothesis: drain on a final, at most one phrase on an interim |
| Chunker.PhraseChunker.Tick | src/lad_translate/chunker/chunker.py:53-65 | drains after silence_commit_s without a hypothesis, otherwise nothing |
| Chunker.PhraseChunker.Flush | src/lad_translate/chunker/chunker.py:67-71 | drains the agreed prefix of the last hypothesis |
| Chunker.PhraseChunker.TryEmit | src/lad_translate/chunker/chunker.py:77-103 | the commit decision for an interim, branch by branch |
| Chunker.PhraseChunker.EmitAll | src/lad_translate/chunker/chunker.py:105-121 | the draining loop ends and emits exactly what the recursive drain does |
| Chunker.PhraseChunker.CommitChunk | src/lad_translate/chunker/chunker.py:123-153 | the phrase and the whole state after one commit |
| ChunkerRuns.GuardAndDefaultUnused | src/lad_translate/chunker/stability.py:163-177 | in every reachable state the surface is at least as long as the agreed prefix and that length has a first sighting, so neither the length guard nor the 0.0 default is ever used |
| ChunkerRuns.EveryRunKeepsInv | src/lad_translate/chunker/chunker.py:43-153 | in every feed/tick/flush run: window is the last n hypotheses, committed count is the number of words spoken, ids count from 0, phrases respect their sizes, spans are contiguous from 0 |
| ChunkerRuns.SpokenWordsWereAgreed | src/lad_translate/chunker/stability.py:143-181 | LocalAgreement safety and tiling: what an event emits are the next words of the latest hypothesis, and the last n hypotheses all begin with everything said so far and those words |
| ChunkerRuns.DrainingKeepsInv | src/lad_translate/chunker/chunker.py:105-121 | a drain ends with exactly the agreed prefix spoken |
| ChunkerRuns.RepeatedDrainIsSilent | src/lad_translate/chunker/chunker.py:114-121 | draining again straight away emits nothing and changes nothing |
| ChunkerRuns.FlushSpeaksAllIff | src/lad_translate/chunker/chunker.py:67-71 | after a flush the words spoken are those of the latest hypothesis if and only if what was spoken before still begins it, and the last n hypotheses share the whole of it or there was nothing left to say |
| ChunkerRuns.FlushLeavesNothingPendingIff | src/lad_translate/chunker/chunker.py:67-71 | a flush leaves no word of the latest hypothesis pending if and only if the last n hypotheses share the whole of it or speaking had gone past its end |
| ChunkerRuns.FlushCanLeaveWordsUnspoken | src/lad_translate/chunker/chunker.py:67-71 | words heard once are left unspoken by the flush when two hypotheses must agree |
| ChunkerRuns.FlushReleases | src/lad_translate/chunker/chunker.py:67-71 | a flush releases nothing exactly when no agreed word is pending, at most one phrase exactly when what is pending fits in one, and leaves none pending |
| ChunkerRuns.TickReleasesIff | src/lad_translate/chunker/chunker.py:53-65 | a tick releases something exactly when silence_commit_s are up and an agreed word is pending |
| ChunkerPhrases.InterimFollowsRules | src/lad_translate/chunker/chunker.py:77-103 | in any reachable state an interim commits, of the agreed words not yet spoken: a full phrase; else through the latest punctuation leaving min_words; else, close to max_words, up to the latest conjunction; else all of them exactly when their length was first seen max_wait_s ago; else nothing |
| ChunkerPhrases.FirstSightingsAreFirst | src/lad_translate/chunker/stability.py:138-141 | a length's first sighting is the wall time of the first hypothesis after which it was the agreed one |
| ChunkerPhrases.PhrasesSay | src/lad_translate/chunker/chunker.py:105-153 | every phrase's wall time, stability lag and audio end, and the sizes and reason of a drain |
| ChunkerPhrases.WordsEndWhereStamped | src/lad_translate/chunker/chunker.py:155-172 | a word's own stamp if it has one, otherwise linear along the hypothesis |
| ChunkerRevision.ComparedUpToNormalisation | src/lad_translate/chunker/stability.py:143-155 | two hypotheses compare equal exactly when their words are the same up to normalisation |
| ChunkerRevision.DetectorExactIff | src/lad_translate/chunker/stability.py:124-136 | in any reachable state the detector flags precisely the hypotheses that take back a spoken word if and only if nothing is spoken or the latest hypothesis begins with everything spoken |
| ChunkerRevision.DetectorExactUpToFirstFlag | src/lad_translate/chunker/stability.py:124-136 | up to and including the first flag, flagged exactly when the normalised tokens do not extend everything spoken |
| ChunkerRevision.DetectorCanMissAfterAFlag | src/lad_translate/chunker/stability.py:132-136 | a concrete run after which the detector is not exact |
| ChunkerRevision.UnflaggedFinalIsSpoken | src/lad_translate/chunker/chunker.py:43-71 | an unflagged run whose last hypothesis is a final has spoken that final exactly, up to normalisation, whatever ticks and flushes followed |
| ChunkerRevision.FlagIsReportedOnNextPhrase | src/lad_translate/chunker/stability.py:101-104 | a contradiction is carried by the next phrase and no other, and waits while nothing is committed |
| ChunkerRevision.FinalTranscriptIsSpoken | src/lad_translate/chunker/chunker.py:43-71 | on append-only speech ending in a final, the phrases joined with single spaces are the final transcript, whatever the settings, ticks and flushes |
| ChunkerRevision.TuningNeverChangesTheWords | src/lad_translate/chunker/types.py:68-108 | two configurations fed the same append-only run speak the same words |
| ChunkerHold.AgreedNeverShrinks | src/lad_translate/chunker/stability.py:143-155 | a hypothesis that extends the newest one never shortens the agreed prefix |
| ChunkerHold.HeldMeansRecent | src/lad_translate/chunker/chunker.py:98-103 | an interim that commits nothing with min_words pending saw the agreed length less than max_wait_s ago |
| ChunkerHold.HoldTimeBound | src/lad_translate/chunker/chunker.py:77-103 | from any hypothesis that leaves min_words stable words pending, with gaps of at most g, silence lasts at most (max_words - min_words)(max_wait_s + g); at most g when max_words <= min_words |
| ChunkerHold.HoldEndsInACommit | src/lad_translate/chunker/stability.py:138-141 | a hold fed to that bound has committed, although the timer restarts whenever the agreed length grows |
| ChunkerCeiling.HoldOutlastsMaxWait | src/lad_translate/chunker/stability.py:138-141 | a run in which min_words pending words become min_words + 1 halfway and nothing is committed max_wait_s after the hold began |
| ChunkerCeiling.MaxWaitIsCeilingIff | src/lad_translate/chunker/types.py:89-94 | no hold of any appending run stands max_wait_s after it began if and only if max_wait_s <= 0 or max_words <= min_words + 1, given a word that is no boundary |
| ChunkerSpans.PhrasesAreDatedByStamps | src/lad_translate/chunker/chunker.py:155-172 | for stamped hypotheses every commit uses a word timing; interpolation is never reached |
| ChunkerSpans.StampedSpansAreOrdered | src/lad_translate/chunker/chunker.py:123-153 | for stamped hypotheses every phrase has start <= end, spans are contiguous from 0, even when the backend revises |
| ChunkerSpans.SessionHypothesesAreFromClock | src/lad_translate/adapters/stt_fastconformer.py:757-769 | in any session whose clock has no stamp beyond its start, the adapter's hypotheses have audio ends that move forward and the stamps of that clock, given chunk_size_first <= shift_size_first + chunk_size |
| ChunkerSpans.StreamingSpansAreOrdered | src/lad_translate/adapters/stt_fastconformer.py:650-695 | encoder steps, word clock and chunker together: the phrases of a new adapter's session, and of any later one that the clock fits, have ordered contiguous spans |
| LaterSessions.LaterSpansOrderedIff | src/lad_translate/adapters/stt_fastconformer.py:474-493 | whatever a session says and however it is chunked its spans are ordered, if and only if the stamps the clock kept are in order and none lies beyond the session's first audio |
| LaterSessions.RepeatedWordsGoBack | src/lad_translate/adapters/stt_fastconformer.py:474-493 | otherwise a session that repeats the old words and adds one has a span that goes backwards |
| StreamingTrace.SessionYields | src/lad_translate/adapters/stt_fastconformer.py:650-753 | the encoder's state threaded step by step, what each step is given, and exactly which texts are yielded: the non-empty ones that differ from what was said last, as interims with their own steps, and the last text once more as the final |
| StreamingTrace.FramesAreThoseOfTheBlocks | src/lad_translate/adapters/stt_fastconformer.py:664-687 | the frames are the features of the samples cut into full blocks, the last one short if need be |
| StreamingTrace.HypothesisSays | src/lad_translate/adapters/stt_fastconformer.py:757-769 | text, finality, ten milliseconds a frame, the next number, and its words in order with a stamp each |
| StreamingSpeech.StreamingSessionSpeaksFinalText | src/lad_translate/adapters/stt_fastconformer.py:650-695 | any streaming session whose texts only append has spoken its final transcript word for word, whatever the delivery, settings, ticks and flushes |
| Schedule.ChunkSchedule.Offer | src/lad_translate/adapters/stt_fastconformer.py:287-314 | the loop returns the recursively defined steps and leaves the recursively defined position |
| Schedule.ChunkSchedule.FlushRest | src/lad_translate/adapters/stt_fastconformer.py:316-339 | one short step over everything left, or none, and the new position |
| Schedule.OfferSplits | src/lad_translate/adapters/stt_fastconformer.py:287-314 | offering part of the audio first changes neither the steps nor the final state |
| Schedule.TrickleIsBurst | src/lad_translate/adapters/stt_fastconformer.py:287-314 | any nondecreasing sequence of offers gives the steps and state of one offer of the total |
| Schedule.PlansStayInBounds | src/lad_translate/adapters/stt_fastconformer.py:297-350 | steps lie within what arrived, have the full cache width, and never reach back past retain_from |
| Schedule.CoverageIff | src/lad_translate/adapters/stt_fastconformer.py:287-339 | every frame of every session is in some step if and only if no shift exceeds its chunk |
| Schedule.SessionCoversEveryFrame | src/lad_translate/adapters/stt_fastconformer.py:316-339 | with shift <= chunk the offered steps and the flush cover every frame |
| Schedule.SessionPlansAreShaped | src/lad_translate/adapters/stt_fastconformer.py:271-339 | every step of every session, the flush included: numbered from 0, one shift apart, one chunk each and then the rest; no history, all padding and nothing dropped on the first; a full cache of frames just before, padded only from before the session, and drop_extra on every other |
| Schedule.EachFrameIsNewOnceIff | src/lad_translate/adapters/stt_fastconformer.py:287-339 | every frame of every session is new in exactly one step if and only if each shift equals its chunk |
| Schedule.EndsInOrderIff | src/lad_translate/adapters/stt_fastconformer.py:287-339 | step ends are nondecreasing in every session if and only if chunk_size_first <= shift_size_first + chunk_size |
| Features.FrameWindow.Extend | src/lad_translate/adapters/stt_fastconformer.py:378-381 | refuses a negative count, otherwise counts it |
| Features.FrameWindow.Local | src/lad_translate/adapters/stt_fastconformer.py:383-395 | offsets of any range, forward or not, or which error, in the source's order of checks |
| Features.FrameWindow.DropBefore | src/lad_translate/adapters/stt_fastconformer.py:397-402 | clamped dropping, and how many went |
| Features.FeatureBuffer.Append | src/lad_translate/adapters/stt_fastconformer.py:424-431 | the never-forgetting contents grow by the features |
| Features.FeatureBuffer.Slice | src/lad_translate/adapters/stt_fastconformer.py:433-435 | exactly the frames a buffer that never forgets would give, or the error; nothing for a backward range, and what a negative offset then selects when it runs back past the window |
| Features.FeatureBuffer.DiscardBefore | src/lad_translate/adapters/stt_fastconformer.py:437-440 | moves the origin and nothing else |
| WordClocks.WordClock.Stamp | src/lad_translate/adapters/stt_fastconformer.py:474-493 | shared words keep their ends, the rest get the present one; the spans handed out |
| WordClocks.RunStartIsFirst | src/lad_translate/adapters/stt_fastconformer.py:443-466 | the run start is the first call of the latest unbroken run sharing the prefix through a word |
| WordClocks.EndIsRunStart | src/lad_translate/adapters/stt_fastconformer.py:474-493 | each word's end is the audio end of that call |
| WordClocks.EndsNondecreasing | src/lad_translate/adapters/stt_fastconformer.py:474-493 | ends are nondecreasing along the transcript and never beyond the latest audio |
| WordClocks.EndsMoveForward | src/lad_translate/adapters/stt_fastconformer.py:474-493 | at a fixed position ends never move backwards in time |
| WordClocks.TimingsTile | src/lad_translate/adapters/stt_fastconformer.py:487-493 | spans are contiguous from 0 and ordered |
| WordClocks.TimingsNameWords | src/lad_translate/adapters/stt_fastconformer.py:487-493 | each word of the latest transcript in order, with the audio end of the call its unbroken run began at |
| Transcribe.CuttingKeepsEverySample | src/lad_translate/adapters/stt_fastconformer.py:664-668 | block cutting keeps every sample in order |
| Transcribe.BlocksAreFull | src/lad_translate/adapters/stt_fastconformer.py:664-668 | every block is full and less than a block remains |
| Transcribe.CuttingComposes | src/lad_translate/adapters/stt_fastconformer.py:664-668 | cutting portion by portion gives the blocks of the whole |
| Transcribe.LaterFramesDoNotMatter | src/lad_translate/adapters/stt_fastconformer.py:706-753 | steps already run are unaffected by frames that arrive later |
| StreamingAdapter.FastConformer.RunStep | src/lad_translate/adapters/stt_fastconformer.py:706-753 | slicing, padding and encoding give the step of the never-forgetting buffer; neither IndexError is reachable |
| StreamingAdapter.FastConformer.MakeHypothesis | src/lad_translate/adapters/stt_fastconformer.py:757-769 | numbering, audio end and stamps of one hypothesis |
| StreamingAdapter.FastConformer.Deliver | src/lad_translate/adapters/stt_fastconformer.py:664-684 | one portion of audio keeps encoder, schedule and output in step with a buffer that never forgets, discarding only after the batch |
| StreamingAdapter.FastConformer.EndOfStream | src/lad_translate/adapters/stt_fastconformer.py:686-695 | the short last block, the flush with all outputs kept, and the final hypothesis |
| StreamingAdapter.FastConformer.Transcribe | src/lad_translate/adapters/stt_fastconformer.py:650-695 | the hypotheses are a function of the concatenated samples alone, those of a buffer that never forgets; with shift <= chunk fewer frames than one chunk plus one cache are held after every portion |
| WordErrorRate.NeighboursDifferByAtMostOne | tools/score_stt.py:58-66 | neighbouring cells differ by at most one, which makes the unconditional diagonal safe |
| WordErrorRate.CellIsLowerBound | tools/score_stt.py:58-66 | no edit script turning one prefix into the other costs less than the cell |
| WordErrorRate.WalkDecodesOptimalScript | tools/score_stt.py:68-83 | the walk's script turns the reference into the hypothesis at exactly the cell's cost |
| WordErrorRate.WalkIsThePreferredOptimum | tools/score_stt.py:64-66 | among all optimal scripts the walk decodes the one preferred from the end: keep, substitute, delete, insert |
| WordErrorRate.KeptAndReplacedBalance | tools/score_stt.py:68-83 | reference length less deletions is hypothesis length less insertions |
| WordErrorRate.FillTable | tools/score_stt.py:50-66 | the nested loops fill every cell and back-pointer with the recurrence |
| WordErrorRate.Wer | tools/score_stt.py:41-83 | the distance is minimal over all scripts, the walk ends, its counts are those of its script and add up to the distance |
| Backlog.BacklogGuard.Create | src/lad_translate/session/backpressure.py:72-98 | refuses recover_to_s at or above max_lag_s |
| Backlog.BacklogGuard.Push | src/lad_translate/session/backpressure.py:109-115 | the whole state after a push, shedding included |
| Backlog.BacklogGuard.ShedWhenBehind | src/lad_translate/session/backpressure.py:143-182 | peak, warning, and what the shedding loop keeps, drops and counts |
| Backlog.BacklogGuard.Close | src/lad_translate/session/backpressure.py:117-120 | closed and event set |
| Backlog.BacklogGuard.Resume | src/lad_translate/session/backpressure.py:130-139 | one run of drain between suspensions, and the frame it yields |
| BacklogRuns.EveryInterleavingKeepsInv | src/lad_translate/session/backpressure.py:109-139 | in every interleaving the buffer is the end of the input, frames in = out + dropped + buffered with each frame in one place, output in input order, no lost wake-up: with a frame to deliver or an end to report the consumer can run |
| BacklogRuns.DrainReturnsOnlyWhenAllDelivered | src/lad_translate/session/backpressure.py:130-139 | drain returns only with everything not shed delivered |
| BacklogRuns.ClosedGuardDrains | src/lad_translate/session/backpressure.py:130-139 | once closed, one resumption per buffered frame and one more deliver the rest in order and end the drain |
| BacklogRuns.ShedReachesTarget | src/lad_translate/session/backpressure.py:161-166 | a shed stops at the first point at or below the target, or at the newest frame |
| BacklogRuns.PushBoundsLag | src/lad_translate/session/backpressure.py:143-182 | for contiguous frames: lag after a push is below max_lag_s exactly when the frame is shorter, a shed happens exactly when due and ends in (recover_to_s - last dropped, recover_to_s] exactly when the newest frame fits, seconds dropped is the lag given up, and the warning stands exactly when the lag before shedding reaches warn_lag_s |
| BacklogRuns.OneLongFrameReachesTheThreshold | src/lad_translate/session/backpressure.py:161-163 | a single frame as long as the threshold leaves the lag at it |
| BacklogRuns.EveryInterleavingIsBounded | src/lad_translate/session/backpressure.py:143-182 | in every reachable state lag is below max_lag_s, peak below max_lag_s plus one frame, and seconds_dropped >= shed_events (max_lag_s - recover_to_s) |
| BacklogRuns.ShedsAreAmortised | src/lad_translate/session/backpressure.py:83-90 | at most one shed per max_lag_s - recover_to_s seconds of input |
| LanguageWorkers.LanguageWorker.Speak | src/lad_translate/session/pipeline.py:88-115 | blank, skipped at the threshold, spoken or failed, decided on the depth just read; the speed asked for; the drift record of this language and of no other |
| LanguageWorkers.SkippedIff | src/lad_translate/session/pipeline.py:88-101 | passed over exactly when all spaces, skipped exactly when otherwise and the reported depth is at the threshold |
| LanguageWorkers.SecondsTile | src/lad_translate/session/pipeline.py:99 | the seconds of a session's phrases add up to its audio |
| LanguageWorkers.LanguageWorker.StopAndJoin | src/lad_translate/session/pipeline.py:67-86 | the task returns with everything queued before the sentinel handled in order, each outcome as its readings have it, and every skip and its seconds on record |
| LanguageWorkers.SubmitAll | src/lad_translate/session/pipeline.py:281-284 | each translation joins its own language's queue, at once and without waiting, and languages without one are left alone |
| Fanout.EveryRunKeepsInv | src/lad_translate/session/pipeline.py:64-86 | in every interleaving handled + in hand + queued is each language's translations in order, nothing is behind a sentinel, the k-th dispatch is the chunker's phrase k |
| Fanout.ClosedSessionHandledEverything | src/lad_translate/session/pipeline.py:351-354 | after shutdown each item was handled exactly once, in increasing phrase order, blank exactly when its translation was |
| Fanout.EachTranslationIsHandled | src/lad_translate/session/pipeline.py:281-284 | a closed session's language handled, in order of dispatch, exactly the phrases it got a translation of, each with its own text |
| Fanout.PumpFeedsWhatItHears | src/lad_translate/session/pipeline.py:227-232 | the chunker is fed every hypothesis heard before a stop signal, in order, and no other |
| FanoutCuts.UndispatchedIsTheEndOfOneBatch | src/lad_translate/session/pipeline.py:223-239 | in every run, what was dispatched and what is left of the last batch are together everything the chunker released, every earlier batch in full |
| FanoutCuts.WhatACutLoses | src/lad_translate/session/pipeline.py:200-239 | a failure or cancellation loses exactly the batch from the awaited phrase on and what the skipped flush would have released; when that is nothing, and when at most one phrase, in terms of the pump and the words held |
| FanoutCuts.SessionSaysAllIff | src/lad_translate/session/pipeline.py:200-239 | a session has dispatched all it could say of what it heard if and only if its pump was never cut with a translation awaited or agreed words held |
| FanoutCuts.UninterruptedSessionSaysAll | src/lad_translate/session/pipeline.py:200-239 | without a stop signal or a failure a session has fed all it heard and dispatched all it could say of it |
| FanoutCuts.SilenceReleasesNothing | src/lad_translate/session/pipeline.py:227-236 | without a hypothesis or the end of the source a listening session releases and dispatches nothing |
| FanoutCuts.TickAfterFeedReleasesIff | src/lad_translate/session/pipeline.py:235-236 | the tick after a feed releases something exactly when silence_commit_s were up by then and agreed words are held |
| FanoutCuts.AWholeBatchCanBeLost | src/lad_translate/session/pipeline.py:232-233 | a run in which one cancellation loses a phrase for every word of a final |
| FanoutCuts.AnIdleStopLosesTheTail | src/lad_translate/session/pipeline.py:202-206 | a run that a limit stops as it listens, with no phrase left over, and every word heard unsaid |
| Fanout.EachLanguageHandlesTheTalk | src/lad_translate/session/pipeline.py:223-284 | in a closed session that left no phrase over, on append-only speech ending in a final, the phrases a fully translated language handled are together the final transcript |
| Fanout.SlowLanguagesHoldUpNobody | src/lad_translate/session/pipeline.py:8-16 | leave every step of any languages out of a run in progress: what remains is a possible run with the same dispatches, and every other language's queue, phrase in hand and handled phrases unchanged |
| Fanout.ShutdownMakesProgress | src/lad_translate/session/pipeline.py:351-354 | every step of a shutdown, by any task, brings its end nearer |
| Fanout.ShutdownNeverBlocks | src/lad_translate/session/pipeline.py:70-73 | until it has ended some step is possible |
| Drift.DriftController.Observe | src/lad_translate/session/drift.py:176-182 | depth and peak of a known language, nothing for an unknown one |
| Drift.DriftController.SpeedFor | src/lad_translate/session/drift.py:184-204 | the ramp speed rounded to three decimals, and when a speed-up is counted |
| Drift.DriftController.ShouldSkip | src/lad_translate/session/drift.py:206-215 | due exactly for a known language at or above its skip threshold |
| Drift.DriftController.constructor | src/lad_translate/session/drift.py:137-153 | for each language of the session an explicit policy, else the measured one, else the default |
| Drift.SpeedIsLinear | src/lad_translate/session/drift.py:184-204 | between the thresholds speed lies on the straight line from 1 to max_speed, ends included |
| Drift.EqualSteps | src/lad_translate/session/drift.py:184-192 | equal steps in depth make equal steps in speed |
| Drift.ArabicSpeedsUpSooner | src/lad_translate/session/drift.py:88-104 | the measured Arabic policy is nowhere slower than the default, and faster exactly between 1 s and 6 s |
| Drift.SpeedRange | src/lad_translate/session/drift.py:195-204 | speed is within [1, max_speed], at max_speed whenever a skip is due, above 1 exactly past the threshold |
| Drift.SpeedMonotone | src/lad_translate/session/drift.py:195-204 | a deeper queue is never spoken more slowly |
| Drift.SpokenSpeedRange | src/lad_translate/session/drift.py:184-204 | the rounded speed stays between 1 and the rounded max_speed, reaches it whenever a skip is due, and is monotone in depth |
| Drift.RoundingIsClose | src/lad_translate/session/drift.py:204 | rounding moves a speed by at most half a thousandth, keeps order, and leaves three decimals alone |
| Drift.TiesGoToEven | src/lad_translate/session/drift.py:204 | a tie goes to the even thousandth |
| Drift.QueueStaysShallow | src/lad_translate/session/pipeline.py:93-115 | over any worker run with any playback the queue stays below skip_at_s plus the longest phrase |
| Drift.NeverBlocksIff | src/lad_translate/session/room.py:68-74 | no push of any run fills the room's buffer if and only if the longest phrase fits between skip_at_s and its end |
| Latency.StagesSumToLatency | src/lad_translate/obs/latency.py:95-115 | with all stages marked the breakdown sums to glass to glass |
| Latency.BreakdownNamesStages | src/lad_translate/obs/latency.py:95-115 | each stage is there exactly when both its marks are, with the time between them |
| Latency.StagesAreFiled | src/lad_translate/obs/latency.py:192-197 | a closing files each stage under its language and name, capped, and moves no other list |
| Latency.LatencyRecorder.OpenChunk | src/lad_translate/obs/latency.py:164-171 | opens a trace on the audio clock, or nothing before it is anchored |
| Latency.LatencyRecorder.Mark | src/lad_translate/obs/latency.py:173-183 | unknown phrases ignored, first mark wins, publishing closes; stage samples too |
| Latency.LatencyRecorder.CloseTrace | src/lad_translate/obs/latency.py:192-218 | sample, breach and stage lists after a close, and the trace gone |
| Latency.EveryRunIsAccounted | src/lad_translate/obs/latency.py:164-218 | in every run of a recorder, for distinct keys: opened = closed + open, each closes at most once, samples are the last sample_cap in closing order |
| LatencyMeasures.SamplesMeasureLatency | src/lad_translate/obs/latency.py:164-218 | from the events alone: each sample is the wall of the key's first published mark after opening less the wall at which its audio ended on the first anchor's clock; every key so published has one; breaches are the samples above the objective |
| LatencyMeasures.FirstMarksWin | src/lad_translate/obs/latency.py:173-183 | over any run in which a trace stays open, a stage once marked keeps its time and the first mark gives it one |
| SessionLatency.EverySessionIsRecorded | src/lad_translate/session/pipeline.py:266-284 | keys are distinct in every session, under every interleaving: the recorder can follow it, opening each phrase in each language at most once |
| SessionLatency.SessionIsAccounted | src/lad_translate/session/pipeline.py:88-115 | in every state of a session a trace is open exactly when it was begun and the phrase has not been heard in that language, and begun = closed + open |
| SessionLatency.UnheardTracesStayOpen | src/lad_translate/session/pipeline.py:90-101 | the trace of a blank or skipped phrase never closes, so open traces grow over a session |
| SessionMeasures.SamplesMeasurePhrases | src/lad_translate/session/pipeline.py:266-284 | in every session each sample is of a phrase heard at some step, measured from that phrase's own audio end; breaches are those above the objective; open traces carry their phrase's commit time and a translated mark exactly where it was translated |
| SessionMeasures.HeardTracesAreComplete | src/lad_translate/session/pipeline.py:109-125 | a phrase is heard with all stages marked, so its sample is their sum |
| Latency.PercentileMonotone | src/lad_translate/obs/latency.py:118-125 | interpolated percentiles rise with pct and lie between smallest and largest |
| Latency.PercentileInterpolates | src/lad_translate/obs/latency.py:118-125 | a percentile lies as far between two neighbouring samples as its rank does |
| Latency.StatsAreOrdered | src/lad_translate/obs/latency.py:222-236 | p50 <= p95 <= p99 <= worst, with no samples as with many |

## Left out

- Neural models, resampling, tensors and threads: opaque libraries, present only as function parameters; `_extract_text` is taken to have stripped the text.
- LiveKit transport, tokens, the join API, SQL and tenancy, and the Whisper, Qwen3, translation and synthesis adapters: I/O, or members that would only be easy.
- `normalise_token`, the abbreviation and conjunction tables and the digit test: parameters of `Lexicon`, so nothing depends on their contents.
- Floating point: seconds are exact reals, products of a count and a duration are exact multiples, and rounding to three decimals is that of the exact value.
- Audio samples of a room frame: only their duration matters to the guard, so a frame carries its duration instead of its bytes.
- Logging, `as_dict`, `summary`, `drop_rate`, stage means and the revisions counter: reporting only.
- An exception on the way to synthesis, such as a failing queue reading: a phrase fails in synthesis or not at all.
- Cancellation of `run()` from outside, exceptions before its try block, and `_settle`: outside the session protocol.
- A translator that answers for a language that was not asked for raises in the source; the protocol has translations for asked languages only, any of which may be missing.
- LanguageWorkers.LanguageWorker.StopAndJoin: the task runs alone to its end; its interleavings with the other tasks are those of `Fanout`.
- ChunkerSpans.StampedSpansAreOrdered: only for hypotheses with word stamps; with interpolated word times the audio cursor can move backwards.
- SessionLatency: the recorder is told of a phrase's first piece when the phrase finishes, with the times at which it was made and pushed.
- SessionLatency: the clock is taken to be anchored by the first frame before any phrase is dispatched, as it is in the source.
- ChunkerHold.HoldTimeBound: for interim hypotheses that append, in wall-clock order; a revision can shrink the agreed prefix and a drain ends the hold early. MaxWaitIsCeilingIff is about the same runs.
- Schedule.ChunkSchedule.Offer: needs both shifts at least 1, without which the source's loop does not end.
- Chunker.PhraseChunker.EmitAll: needs min_words, max_words and agreement_n at least 1, which the source relies on and does not check.
