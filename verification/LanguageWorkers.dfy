/** One language's worker: an ordered queue, and a task that speaks one phrase at a time. */
module LanguageWorkers {
  import opened Options
  import opened Durations
  import opened Words
  import opened Chunker
  import opened Drift
  import Runs = ChunkerRuns

  datatype Item = Item(chunk: PhraseChunk, text: string)

  /** What the queue holds: work, or the sentinel that ends the task. */
  datatype Entry = Work(item: Item) | Stop

  /** How a phrase ends: its translation was blank, it was skipped for drift, spoken, or it failed. */
  datatype Outcome = Blank | Skipped | Spoken | Failed

  /** Where the task is suspended: in `queue.get()`, inside `_speak`, or returned. */
  datatype Phase = Waiting | Speaking(item: Item) | Done

  datatype Handled = Handled(item: Item, outcome: Outcome)

  datatype WorkerState = WorkerState(queue: seq<Entry>, phase: Phase, handled: seq<Handled>)

  const STARTED := WorkerState([], Waiting, [])

  predicate IsBlank(text: string) { Tokenise(text) == [] }

  function Submitted(w: WorkerState, item: Item): WorkerState { w.(queue := w.queue + [Work(item)]) }

  function Stopped(w: WorkerState): WorkerState { w.(queue := w.queue + [Stop]) }

  predicate CanGet(w: WorkerState) { w.phase.Waiting? && w.queue != [] }

  function Got(w: WorkerState): WorkerState
    requires CanGet(w)
  {
    w.(queue := w.queue[1..], phase := match w.queue[0] case Work(item) => Speaking(item) case Stop => Done)
  }

  /** A blank translation returns before anything can be skipped or fail. */
  predicate CanFinish(w: WorkerState, outcome: Outcome) {
    w.phase.Speaking? && (outcome.Blank? <==> IsBlank(w.phase.item.text))
  }

  function Finished(w: WorkerState, outcome: Outcome): WorkerState
    requires CanFinish(w, outcome)
  {
    w.(phase := Waiting, handled := w.handled + [Handled(w.phase.item, outcome)])
  }

  // ---------------------------------------------------------------- what a worker keeps

  function ItemsOf(handled: seq<Handled>): seq<Item> {
    seq(|handled|, k requires 0 <= k < |handled| => handled[k].item)
  }

  function InHand(phase: Phase): seq<Item> { if phase.Speaking? then [phase.item] else [] }

  function WorkIn(queue: seq<Entry>): seq<Item> {
    if queue == [] then []
    else (if queue[0].Work? then [queue[0].item] else []) + WorkIn(queue[1..])
  }

  /** Handled, in hand and queued, in that order: everything the worker was given. */
  function Given(w: WorkerState): seq<Item> { ItemsOf(w.handled) + InHand(w.phase) + WorkIn(w.queue) }

  predicate AllWork(queue: seq<Entry>) { forall k | 0 <= k < |queue| :: queue[k].Work? }

  /** A worker has nothing behind its sentinel, and returns only after taking it. */
  predicate QueueInv(w: WorkerState, placed: bool) {
    if !placed then AllWork(w.queue) && !w.phase.Done?
    else if w.phase.Done? then w.queue == []
    else w.queue != [] && w.queue[|w.queue| - 1].Stop? && AllWork(w.queue[..|w.queue| - 1])
  }

  predicate Correct(h: Handled) { h.outcome.Blank? <==> IsBlank(h.item.text) }

  predicate WorkerInv(w: WorkerState, share: seq<Item>, placed: bool) {
    && Given(w) == share
    && QueueInv(w, placed)
    && forall k | 0 <= k < |w.handled| :: Correct(w.handled[k])
  }

  lemma {:induction false} WorkInAppend(queue: seq<Entry>, e: Entry)
    ensures WorkIn(queue + [e]) == WorkIn(queue) + (if e.Work? then [e.item] else [])
  {
    var longer := queue + [e];
    if queue == [] {
      assert longer == [e] && longer[1..] == [];
    } else {
      var head := if queue[0].Work? then [queue[0].item] else [];
      assert longer[0] == queue[0] && longer[1..] == queue[1..] + [e];
      WorkInAppend(queue[1..], e);
      assert WorkIn(longer) == head + WorkIn(longer[1..]) && WorkIn(queue) == head + WorkIn(queue[1..]);
    }
  }

  function SubmitTo(w: WorkerState, chunk: PhraseChunk, text: Option<string>): WorkerState {
    if text.Some? then Submitted(w, Item(chunk, text.value)) else w
  }

  lemma {:induction false} SubmitKeepsWorkerInv(w: WorkerState, share: seq<Item>, chunk: PhraseChunk,
                                                text: Option<string>)
    requires WorkerInv(w, share, false)
    ensures WorkerInv(SubmitTo(w, chunk, text), share + (if text.Some? then [Item(chunk, text.value)] else []), false)
  {
    if text.Some? {
      WorkInAppend(w.queue, Work(Item(chunk, text.value)));
    } else {
      assert share + [] == share;
    }
  }

  lemma {:induction false} StopKeepsWorkerInv(w: WorkerState, share: seq<Item>)
    requires WorkerInv(w, share, false)
    ensures WorkerInv(Stopped(w), share, true)
  {
    WorkInAppend(w.queue, Stop);
    assert (w.queue + [Stop])[..|w.queue|] == w.queue;
  }

  lemma {:induction false} GetKeepsWorkerInv(w: WorkerState, share: seq<Item>, placed: bool)
    requires WorkerInv(w, share, placed) && CanGet(w)
    ensures WorkerInv(Got(w), share, placed)
  {
    var rest := w.queue[1..];
    if placed {
      if |w.queue| == 1 {
        assert WorkIn(rest) == [];
      } else {
        assert w.queue[..|w.queue| - 1][0] == w.queue[0];
        assert forall k | 0 <= k < |rest| - 1 :: rest[k] == w.queue[..|w.queue| - 1][k + 1];
      }
    }
  }

  lemma {:induction false} FinishKeepsWorkerInv(w: WorkerState, share: seq<Item>, placed: bool, outcome: Outcome)
    requires WorkerInv(w, share, placed) && CanFinish(w, outcome)
    ensures WorkerInv(Finished(w, outcome), share, placed)
  {
    assert ItemsOf(Finished(w, outcome).handled) == ItemsOf(w.handled) + [w.phase.item];
  }

  // ---------------------------------------------------------------- what becomes of a phrase

  /** What the room and the synthesiser answer for one phrase: the playout queue's depth, and whether speaking
      goes through. */
  datatype Answer = Answer(depth: real, succeeds: bool)

  /** A blank translation is passed over, a phrase is skipped when the queue just observed is at the skip
      threshold, and otherwise it is spoken, or fails. */
  function OutcomeOf(p: Option<DriftPolicy>, text: string, answer: Answer): Outcome {
    if IsBlank(text) then Blank
    else if p.Some? && SkipDue(p.value, Max(0.0, answer.depth)) then Skipped
    else if answer.succeeds then Spoken
    else Failed
  }

  function SecondsOf(chunk: PhraseChunk): real { chunk.tAudioEnd - chunk.tAudioStart }

  /** Seconds of audio in a run of phrases. */
  function SecondsIn(chunks: seq<PhraseChunk>): real {
    if chunks == [] then 0.0 else SecondsIn(chunks[..|chunks| - 1]) + SecondsOf(chunks[|chunks| - 1])
  }

  /** The phrases of a session account for its audio: their seconds add up to where the last one ends. */
  lemma {:induction false} SecondsTile(chunks: seq<PhraseChunk>)
    requires Runs.Tiled(chunks)
    ensures SecondsIn(chunks) == Runs.CursorAfter(chunks)
  {
    if |chunks| > 1 {
      SecondsTile(chunks[..|chunks| - 1]);
    } else if |chunks| == 1 {
      assert chunks[..0] == [];
    }
  }

  /** What becomes of a phrase. It is passed over exactly when its translation is all spaces, and otherwise skipped
      exactly when the language has a policy and the depth reported is at its threshold or deeper. */
  lemma {:induction false} SkippedIff(p: Option<DriftPolicy>, text: string, answer: Answer)
    requires p.Some? ==> p.value.skipAtS > 0.0
    ensures var outcome, spaces := OutcomeOf(p, text, answer), forall c | c in text :: IsSpace(c);
            && (outcome.Blank? <==> spaces)
            && (outcome.Skipped? <==> !spaces && p.Some? && answer.depth >= p.value.skipAtS)
            && (outcome.Spoken? ==> answer.succeeds) && (outcome.Failed? ==> !answer.succeeds)
  {
    NoWordsIff(text);
  }

  function SkippedIn(handled: seq<Handled>): nat {
    if handled == [] then 0
    else SkippedIn(handled[..|handled| - 1]) + if handled[|handled| - 1].outcome.Skipped? then 1 else 0
  }

  function SecondsSkippedIn(handled: seq<Handled>): real {
    if handled == [] then 0.0
    else
      var last := handled[|handled| - 1];
      SecondsSkippedIn(handled[..|handled| - 1]) + if last.outcome.Skipped? then SecondsOf(last.item.chunk) else 0.0
  }

  /** Every skip is on the language's record: `d` is what `d0` became over these phrases. */
  predicate SkipsRecorded(d0: LanguageDrift, d: LanguageDrift, handled: seq<Handled>) {
    && d.skippedPhrases == d0.skippedPhrases + SkippedIn(handled)
    && d.skippedSeconds == d0.skippedSeconds + SecondsSkippedIn(handled)
    && d0.peakDepthS <= d.peakDepthS
  }

  class LanguageWorker {
    const language: string
    const drift: DriftController
    var queue: seq<Entry>
    var phase: Phase
    ghost var handled: seq<Handled>

    ghost function State(): WorkerState
      reads this
    {
      WorkerState(queue, phase, handled)
    }

    constructor (language: string, drift: DriftController)
      ensures this.language == language && this.drift == drift && State() == STARTED
    {
      this.language, this.drift := language, drift;
      queue, phase, handled := [], Waiting, [];
    }

    /** The policy this language is held to, if it has drift state at all. */
    function Policy(): Option<DriftPolicy>
      reads drift
    {
      if language in drift.state then Some(drift.PolicyFor(language)) else None
    }

    method Submit(chunk: PhraseChunk, text: string)
      modifies this
      ensures State() == Submitted(old(State()), Item(chunk, text))
    {
      queue := queue + [Work(Item(chunk, text))];
    }

    /** The first half of `stop`: the sentinel goes in behind the work. */
    method PutSentinel()
      modifies this
      ensures State() == Stopped(old(State()))
    {
      queue := queue + [Stop];
    }

    /** `_run` from `queue.get()` to the next suspension. */
    method Get()
      requires CanGet(State())
      modifies this
      ensures State() == Got(old(State()))
    {
      var entry := queue[0];
      queue := queue[1..];
      phase := match entry case Work(item) => Speaking(item) case Stop => Done;
    }

    /** `_speak` for the phrase in hand: look at the playout queue, skip the phrase if it is due, otherwise
        synthesise it at the speed the queue calls for. A failure is dropped and the task carries on. */
    method Speak(answer: Answer) returns (speed: Option<real>)
      requires phase.Speaking? && drift.Valid()
      modifies this, drift
      ensures drift.Valid() && Policy() == old(Policy())
      ensures var outcome := OutcomeOf(old(Policy()), old(phase).item.text, answer);
              && CanFinish(old(State()), outcome) && State() == Finished(old(State()), outcome)
              && (speed.Some? <==> outcome.Spoken? || outcome.Failed?)
      ensures speed.Some? ==>
                speed.value == if language in drift.state
                               then Rounded(Drift.Speed(drift.PolicyFor(language), Max(0.0, answer.depth))) else 1.0
      ensures drift.state.Keys == old(drift.state).Keys
      ensures forall l | l in drift.state && l != language :: drift.state[l] == old(drift.state)[l]
      ensures language in drift.state ==>
                var d0, d := old(drift.state)[language], drift.state[language];
                var outcome := OutcomeOf(old(Policy()), old(phase).item.text, answer);
                && SkipsRecorded(d0, d, [Handled(old(phase).item, outcome)])
                && (IsBlank(old(phase).item.text) ==> d == d0)
                && (!IsBlank(old(phase).item.text) ==> d.queueDepthS == Max(0.0, answer.depth) <= d.peakDepthS)
    {
      var item := phase.item;
      ghost var outcome := OutcomeOf(Policy(), item.text, answer);
      speed := None;
      if !IsBlank(item.text) {
        drift.Observe(language, answer.depth);
        var skip := drift.ShouldSkip(language);
        if skip {
          drift.NoteSkipped(language, SecondsOf(item.chunk));
        } else {
          var rate := drift.SpeedFor(language);
          speed := Some(rate);
        }
      }
      handled := handled + [Handled(item, outcome)];
      phase := Waiting;
      assert [Handled(item, outcome)][..0] == [];
    }

    /** `stop`, and the task's run to its end: the sentinel goes in behind the work, and the task returns when
        it has handled everything before it, each phrase as the room and synthesiser answer for it. */
    method StopAndJoin(answers: nat -> Answer) returns (ghost last: seq<Handled>)
      requires drift.Valid() && AllWork(queue) && !phase.Done?
      requires forall k | 0 <= k < |handled| :: Correct(handled[k])
      modifies this, drift
      ensures drift.Valid() && phase.Done? && queue == []
      ensures handled == old(handled) + last && ItemsOf(handled) == old(Given(State()))
      ensures Answered(old(Policy()), last, answers)
      ensures language in old(drift.state) ==>
                language in drift.state && SkipsRecorded(old(drift.state)[language], drift.state[language], last)
    {
      ghost var share := Given(State());
      StopKeepsWorkerInv(State(), share);
      PutSentinel();
      var turn := 0;
      last := [];
      while !phase.Done?
        invariant drift.Valid() && Policy() == old(Policy()) && drift.state.Keys == old(drift.state).Keys
        invariant WorkerInv(State(), share, true)
        invariant handled == old(handled) + last && turn == |last|
        invariant Answered(old(Policy()), last, answers)
        invariant language in drift.state ==> SkipsRecorded(old(drift.state)[language], drift.state[language], last)
        decreases 2 * |queue| + if phase.Speaking? then 1 else 0
      {
        if phase.Waiting? {
          GetNext(share);
        } else {
          ghost var h := SpeakNext(answers(turn), share, old(drift.state), last);
          last := last + [h];
          turn := turn + 1;
        }
      }
      DoneHandledAll(State(), share);
    }

    /** Taking the next entry within a run: there is one until the sentinel is taken. */
    method GetNext(ghost share: seq<Item>)
      requires phase.Waiting? && WorkerInv(State(), share, true)
      modifies this
      ensures WorkerInv(State(), share, true) && handled == old(handled) && |queue| < |old(queue)|
    {
      GetKeepsWorkerInv(State(), share, true);
      Get();
    }

    /** Speaking the phrase in hand, within a run that has handled `last` since the records stood at `d0`. */
    method SpeakNext(answer: Answer, ghost share: seq<Item>, ghost d0: map<string, LanguageDrift>,
                     ghost last: seq<Handled>)
      returns (ghost h: Handled)
      requires phase.Speaking? && drift.Valid() && WorkerInv(State(), share, true)
      requires d0.Keys == drift.state.Keys
      requires language in drift.state ==> SkipsRecorded(d0[language], drift.state[language], last)
      modifies this, drift
      ensures drift.Valid() && Policy() == old(Policy()) && drift.state.Keys == old(drift.state).Keys
      ensures WorkerInv(State(), share, true) && phase.Waiting? && queue == old(queue)
      ensures handled == old(handled) + [h] && h.outcome == OutcomeOf(old(Policy()), h.item.text, answer)
      ensures language in drift.state ==> SkipsRecorded(d0[language], drift.state[language], last + [h])
    {
      h := Handled(phase.item, OutcomeOf(Policy(), phase.item.text, answer));
      ghost var before := drift.state;
      FinishKeepsWorkerInv(State(), share, true, h.outcome);
      var speed := Speak(answer);
      if language in before {
        RecordsCompose(d0[language], before[language], drift.state[language], last, h);
      }
    }
  }

  /** The last loop of `_dispatch`: each translation goes to its own language's worker, none is waited for, and
      a language without one is left alone. */
  method SubmitAll(workers: seq<LanguageWorker>, chunk: PhraseChunk, texts: seq<Option<string>>)
    requires |texts| == |workers| && forall i, j | 0 <= i < j < |workers| :: workers[i] != workers[j]
    modifies set w | w in workers
    ensures forall i | 0 <= i < |workers| :: workers[i].State() == SubmitTo(old(workers[i].State()), chunk, texts[i])
  {
    for i := 0 to |workers|
      invariant forall k | 0 <= k < i :: workers[k].State() == SubmitTo(old(workers[k].State()), chunk, texts[k])
      invariant forall k | i <= k < |workers| :: workers[k].State() == old(workers[k].State())
    {
      if texts[i].Some? {
        workers[i].Submit(chunk, texts[i].value);
      }
    }
  }

  lemma {:induction false} DoneHandledAll(w: WorkerState, share: seq<Item>)
    requires WorkerInv(w, share, true) && w.phase.Done?
    ensures ItemsOf(w.handled) == share && w.queue == []
  {
    assert Given(w) == ItemsOf(w.handled) + [] + [];
  }

  /** Each phrase ended as its answer has it end. */
  predicate Answered(p: Option<DriftPolicy>, handled: seq<Handled>, answers: nat -> Answer) {
    forall k | 0 <= k < |handled| :: handled[k].outcome == OutcomeOf(p, handled[k].item.text, answers(k))
  }

  lemma {:induction false} RecordsCompose(d0: LanguageDrift, d1: LanguageDrift, d2: LanguageDrift,
                                          handled: seq<Handled>, h: Handled)
    requires SkipsRecorded(d0, d1, handled) && SkipsRecorded(d1, d2, [h])
    ensures SkipsRecorded(d0, d2, handled + [h])
  {
    var longer := handled + [h];
    assert longer[..|longer| - 1] == handled && [h][..|[h]| - 1] == [];
    assert SkippedIn([h]) == SkippedIn([]) + if h.outcome.Skipped? then 1 else 0;
    assert SecondsSkippedIn([h]) == SecondsSkippedIn([]) + if h.outcome.Skipped? then SecondsOf(h.item.chunk) else 0.0;
  }
}
