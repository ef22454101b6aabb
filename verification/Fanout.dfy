/** The session's fan-out as a protocol: one pump, a worker per language, a stop signal, and the shutdown
    that joins the workers one by one.

    The pump drives the phrase chunker of `ChunkerRuns`: one call of `feed`, `tick` or `flush` releases a
    whole list of phrases, and the pump awaits their translations one after the other. Each step is what one
    task does between two awaits; a run is any order of possible steps. */
module Fanout {
  import opened Options
  import opened Sequences
  import opened Words
  import opened Transcript
  import opened Chunker
  import opened LanguageWorkers
  import Runs = ChunkerRuns
  import Revision = ChunkerRevision

  /** Which of the pump's three loops over phrases it is in. */
  datatype Stage = Feeding | Ticking | Flushing

  /** The pump: waiting for a hypothesis, awaiting the translation of phrase k of a batch (or done with the
      batch, at its end), or over, with the phrases it left undispatched. */
  datatype Pump =
    | Listening
    | Dispatching(stage: Stage, batch: seq<PhraseChunk>, k: nat)
    | Ended(lost: seq<PhraseChunk>)

  /** `run`: racing the pump against the stop signal, joining worker i (its sentinel placed or not), closed. */
  datatype Main = Racing | Joining(i: nat, placed: bool) | Closed

  /** A completed dispatch: the phrase, and its translation for each language that got one. */
  datatype Dispatch = Dispatch(chunk: PhraseChunk, texts: seq<Option<string>>)

  /** `calls` are the calls made of the chunker so far, which determine where it stands. */
  datatype Session = Session(workers: seq<WorkerState>, pump: Pump, main: Main, stop: bool,
                             calls: seq<Runs.Event>, dispatched: seq<Dispatch>)

  datatype Event =
    | Hear(hyp: Hypothesis)                // a hypothesis: feed it, or flush when asked to stop
    | SourceEnds                           // no more hypotheses: flush
    | Translated(texts: seq<Option<string>>) // the awaited translations came back: submit them all
    | BatchDone(now: real)                 // a loop over phrases is through: tick, listen again, or end
    | PumpFails                            // the recogniser or a translation raised
    | StopSignal                           // a limit was reached
    | Cancel                               // one of the racers finished: cancel the rest, start joining
    | PlaceSentinel
    | Joined
    | Close
    | Get(i: nat)
    | Finish(i: nat, outcome: Outcome)

  function Begin(languages: nat): Session {
    Session(seq(languages, _ => STARTED), Listening, Racing, false, [], [])
  }

  predicate Awaiting(pump: Pump) { pump.Dispatching? && pump.k < |pump.batch| }

  predicate Enabled(s: Session, e: Event) {
    match e
    case Hear(_) => s.main.Racing? && s.pump.Listening?
    case SourceEnds => s.main.Racing? && s.pump.Listening?
    case Translated(texts) => s.main.Racing? && Awaiting(s.pump) && |texts| == |s.workers|
    case BatchDone(_) => s.main.Racing? && s.pump.Dispatching? && s.pump.k == |s.pump.batch|
    case PumpFails => s.main.Racing? && !s.pump.Ended?
    case StopSignal => true
    case Cancel => s.main.Racing? && (s.pump.Ended? || s.stop)
    case PlaceSentinel => s.main.Joining? && !s.main.placed && s.main.i < |s.workers|
    case Joined => s.main.Joining? && s.main.placed && s.main.i < |s.workers| && s.workers[s.main.i].phase.Done?
    case Close => s.main.Joining? && s.main.i == |s.workers|
    case Get(i) => i < |s.workers| && CanGet(s.workers[i])
    case Finish(i, outcome) => i < |s.workers| && CanFinish(s.workers[i], outcome)
  }

  /** The phrases a call of the chunker releases. */
  function Released(c: Settings, calls: seq<Runs.Event>, call: Runs.Event): seq<PhraseChunk>
    requires c.Usable()
  {
    Runs.Emits(c, Runs.After(c, calls).state, call).chunks
  }

  /** Call the chunker and start on what it releases. */
  function Called(c: Settings, s: Session, stage: Stage, call: Runs.Event): Session
    requires c.Usable()
  {
    s.(pump := Dispatching(stage, Released(c, s.calls, call), 0), calls := s.calls + [call])
  }

  /** Phrases released and not dispatched. */
  function Remaining(pump: Pump): seq<PhraseChunk> {
    match pump
    case Listening => []
    case Dispatching(_, batch, k) => if k <= |batch| then batch[k..] else []
    case Ended(lost) => lost
  }

  function Step(c: Settings, s: Session, e: Event): Session
    requires c.Usable() && Enabled(s, e)
  {
    match e
    case Hear(hyp) => if s.stop then Called(c, s, Flushing, Runs.Flush) else Called(c, s, Feeding, Runs.Feed(hyp))
    case SourceEnds => Called(c, s, Flushing, Runs.Flush)
    case Translated(texts) =>
      var chunk := s.pump.batch[s.pump.k];
      s.(workers := seq(|s.workers|, i requires 0 <= i < |s.workers| => SubmitTo(s.workers[i], chunk, texts[i])),
         pump := s.pump.(k := s.pump.k + 1), dispatched := s.dispatched + [Dispatch(chunk, texts)])
    case BatchDone(now) => (
      match s.pump.stage
      case Feeding => Called(c, s, Ticking, Runs.Tick(now))
      case Ticking => s.(pump := Listening)
      case Flushing => s.(pump := Ended([])))
    case PumpFails => s.(pump := Ended(Remaining(s.pump)))
    case StopSignal => s.(stop := true)
    case Cancel => s.(pump := Ended(Remaining(s.pump)), main := Joining(0, false))
    case PlaceSentinel =>
      s.(workers := s.workers[s.main.i := Stopped(s.workers[s.main.i])], main := Joining(s.main.i, true))
    case Joined => s.(main := Joining(s.main.i + 1, false))
    case Close => s.(main := Closed)
    case Get(i) => s.(workers := s.workers[i := Got(s.workers[i])])
    case Finish(i, outcome) => s.(workers := s.workers[i := Finished(s.workers[i], outcome)])
  }

  predicate IsRun(c: Settings, s: Session, events: seq<Event>, s': Session)
    requires c.Usable()
    decreases |events|
  {
    if events == [] then s == s'
    else Enabled(s, events[0]) && IsRun(c, Step(c, s, events[0]), events[1..], s')
  }

  // ---------------------------------------------------------------- the invariant

  /** What a language is owed: its translations, in the order the phrases were dispatched. */
  function Share(dispatched: seq<Dispatch>, i: nat): seq<Item> {
    if dispatched == [] then []
    else
      var d := dispatched[|dispatched| - 1];
      Share(dispatched[..|dispatched| - 1], i)
      + if i < |d.texts| && d.texts[i].Some? then [Item(d.chunk, d.texts[i].value)] else []
  }

  function PhrasesOf(dispatched: seq<Dispatch>): seq<PhraseChunk> {
    seq(|dispatched|, k requires 0 <= k < |dispatched| => dispatched[k].chunk)
  }

  predicate SentinelPlaced(main: Main, i: nat) {
    main.Closed? || (main.Joining? && (i < main.i || (i == main.i && main.placed)))
  }

  /** What the chunker's last call released. */
  function LastBatch(c: Settings, calls: seq<Runs.Event>): seq<PhraseChunk>
    requires c.Usable()
  {
    if calls == [] then [] else Released(c, calls[..|calls| - 1], calls[|calls| - 1])
  }

  /** Agreed words the chunker has not released. */
  function Held(c: Settings, s: Session): nat
    requires c.Usable()
  {
    Runs.Pending(c, Runs.After(c, s.calls))
  }

  /** Everything the chunker released was dispatched, in order, but for the rest of its last batch; and once it
      has been flushed it holds nothing. */
  predicate PumpInv(c: Settings, s: Session)
    requires c.Usable()
  {
    && PhrasesOf(s.dispatched) + Remaining(s.pump) == Runs.After(c, s.calls).chunks
    && |Remaining(s.pump)| <= |LastBatch(c, s.calls)|
    && (s.pump.Dispatching? ==> s.pump.batch == LastBatch(c, s.calls) && s.pump.k <= |s.pump.batch|)
    && (s.pump.Dispatching? && s.pump.stage.Flushing? ==> Held(c, s) == 0)
  }

  predicate MainInv(s: Session) {
    && (!s.main.Racing? ==> s.pump.Ended?)
    && (s.main.Joining? ==> s.main.i <= |s.workers| && (s.main.placed ==> s.main.i < |s.workers|))
    && (s.main.Joining? ==> forall i | 0 <= i < s.main.i :: s.workers[i].phase.Done?)
    && (s.main.Closed? ==> forall i | 0 <= i < |s.workers| :: s.workers[i].phase.Done?)
  }

  predicate WorkersInv(s: Session) {
    forall i | 0 <= i < |s.workers| ::
      WorkerInv(s.workers[i], Share(s.dispatched, i), SentinelPlaced(s.main, i))
  }

  predicate Inv(c: Settings, s: Session)
    requires c.Usable()
  {
    PumpInv(c, s) && MainInv(s) && WorkersInv(s)
  }

  lemma {:induction false} ShareAppend(dispatched: seq<Dispatch>, d: Dispatch, i: nat)
    ensures Share(dispatched + [d], i)
         == Share(dispatched, i) + if i < |d.texts| && d.texts[i].Some? then [Item(d.chunk, d.texts[i].value)] else []
  {
    assert (dispatched + [d])[..|dispatched|] == dispatched;
  }

  lemma {:induction false} CallKeepsPumpInv(c: Settings, s: Session, stage: Stage, call: Runs.Event)
    requires c.Usable() && PumpInv(c, s) && Remaining(s.pump) == [] && (stage.Flushing? ==> call.Flush?)
    ensures PumpInv(c, Called(c, s, stage, call))
  {
    Runs.AfterOneMore(c, s.calls, call);
    Runs.FlushReleases(c, s.calls);
    var s' := Called(c, s, stage, call);
    assert s'.calls[..|s'.calls| - 1] == s.calls;
    assert PhrasesOf(s.dispatched) + [] == PhrasesOf(s.dispatched);
  }

  lemma {:induction false} DispatchMovesOn(dispatched: seq<Dispatch>, d: Dispatch, pump: Pump)
    requires Awaiting(pump) && d.chunk == pump.batch[pump.k]
    ensures PhrasesOf(dispatched + [d]) + Remaining(pump.(k := pump.k + 1)) == PhrasesOf(dispatched) + Remaining(pump)
    ensures |Remaining(pump.(k := pump.k + 1))| < |Remaining(pump)|
  {
    assert PhrasesOf(dispatched + [d]) == PhrasesOf(dispatched) + [d.chunk];
    assert Remaining(pump) == [d.chunk] + pump.batch[pump.k + 1..];
  }

  lemma {:induction false} StepKeepsPumpInv(c: Settings, s: Session, e: Event)
    requires c.Usable() && PumpInv(c, s) && Enabled(s, e)
    ensures PumpInv(c, Step(c, s, e))
  {
    match e
    case Hear(hyp) =>
      if s.stop {
        CallKeepsPumpInv(c, s, Flushing, Runs.Flush);
      } else {
        CallKeepsPumpInv(c, s, Feeding, Runs.Feed(hyp));
      }
    case SourceEnds => CallKeepsPumpInv(c, s, Flushing, Runs.Flush);
    case BatchDone(now) =>
      if s.pump.stage.Feeding? {
        CallKeepsPumpInv(c, s, Ticking, Runs.Tick(now));
      }
    case Translated(texts) => DispatchMovesOn(s.dispatched, Dispatch(s.pump.batch[s.pump.k], texts), s.pump);
    case _ =>
  }

  lemma {:induction false} SubmittingKeepsWorkersInv(s: Session, chunk: PhraseChunk, texts: seq<Option<string>>,
                                                     s': Session)
    requires WorkersInv(s) && s.main.Racing? && |texts| == |s.workers| == |s'.workers| && s'.main == s.main
    requires forall i | 0 <= i < |s.workers| :: s'.workers[i] == SubmitTo(s.workers[i], chunk, texts[i])
    requires s'.dispatched == s.dispatched + [Dispatch(chunk, texts)]
    ensures WorkersInv(s')
  {
    forall i | 0 <= i < |s.workers|
      ensures WorkerInv(s'.workers[i], Share(s'.dispatched, i), SentinelPlaced(s'.main, i))
    {
      ShareAppend(s.dispatched, Dispatch(chunk, texts), i);
      SubmitKeepsWorkerInv(s.workers[i], Share(s.dispatched, i), chunk, texts[i]);
    }
  }

  lemma {:induction false} OneWorkerKeepsWorkersInv(s: Session, i: nat, w: WorkerState, s': Session)
    requires WorkersInv(s) && i < |s.workers| && s'.workers == s.workers[i := w] && s'.dispatched == s.dispatched
    requires WorkerInv(w, Share(s.dispatched, i), SentinelPlaced(s'.main, i))
    requires forall k | 0 <= k < |s.workers| && k != i :: SentinelPlaced(s'.main, k) == SentinelPlaced(s.main, k)
    ensures WorkersInv(s')
  {
  }

  lemma {:induction false} StepKeepsWorkersInv(c: Settings, s: Session, e: Event)
    requires c.Usable() && MainInv(s) && WorkersInv(s) && Enabled(s, e)
    ensures MainInv(Step(c, s, e)) && WorkersInv(Step(c, s, e))
  {
    var s' := Step(c, s, e);
    match e
    case Translated(texts) => SubmittingKeepsWorkersInv(s, s.pump.batch[s.pump.k], texts, s');
    case PlaceSentinel =>
      StopKeepsWorkerInv(s.workers[s.main.i], Share(s.dispatched, s.main.i));
      OneWorkerKeepsWorkersInv(s, s.main.i, Stopped(s.workers[s.main.i]), s');
    case Get(i) =>
      GetKeepsWorkerInv(s.workers[i], Share(s.dispatched, i), SentinelPlaced(s.main, i));
      OneWorkerKeepsWorkersInv(s, i, Got(s.workers[i]), s');
    case Finish(i, outcome) =>
      FinishKeepsWorkerInv(s.workers[i], Share(s.dispatched, i), SentinelPlaced(s.main, i), outcome);
      OneWorkerKeepsWorkersInv(s, i, Finished(s.workers[i], outcome), s');
    case _ =>
  }

  lemma {:induction false} RunKeepsInv(c: Settings, s: Session, events: seq<Event>, s': Session)
    requires c.Usable() && Inv(c, s) && IsRun(c, s, events, s')
    ensures Inv(c, s')
    decreases |events|
  {
    if events != [] {
      StepKeepsPumpInv(c, s, events[0]);
      StepKeepsWorkersInv(c, s, events[0]);
      RunKeepsInv(c, Step(c, s, events[0]), events[1..], s');
    }
  }

  /** Every state of every session: each language's handled items, the one in hand and its queue are exactly
      its translations in order, nothing stands behind a sentinel, and the k-th dispatch is the chunker's
      phrase k. */
  lemma {:induction false} EveryRunKeepsInv(c: Settings, languages: nat, events: seq<Event>, s: Session)
    requires c.Usable() && IsRun(c, Begin(languages), events, s)
    ensures Inv(c, s)
    ensures forall k | 0 <= k < |s.dispatched| :: s.dispatched[k].chunk.chunkId == k
  {
    assert Runs.After(c, []).chunks == [];
    RunKeepsInv(c, Begin(languages), events, s);
    Runs.EveryRunKeepsInv(c, s.calls);
    forall k | 0 <= k < |s.dispatched|
      ensures s.dispatched[k].chunk.chunkId == k
    {
      assert PhrasesOf(s.dispatched)[k] == Runs.After(c, s.calls).chunks[k];
    }
  }

  // ---------------------------------------------------------------- what a session guarantees

  predicate IdsIncrease(items: seq<Item>) {
    forall i, j | 0 <= i < j < |items| :: items[i].chunk.chunkId < items[j].chunk.chunkId
  }

  lemma {:induction false} SharesIncrease(dispatched: seq<Dispatch>, i: nat)
    requires forall k | 0 <= k < |dispatched| :: dispatched[k].chunk.chunkId == k
    ensures IdsIncrease(Share(dispatched, i))
    ensures forall k | 0 <= k < |Share(dispatched, i)| :: Share(dispatched, i)[k].chunk.chunkId < |dispatched|
  {
    if dispatched != [] {
      SharesIncrease(dispatched[..|dispatched| - 1], i);
    }
  }

  /** When the session has closed, by whatever schedule and however it was stopped, each language has
      handled each phrase it was given exactly once, in the order they were spoken; a phrase was blank
      exactly when its translation was, and was otherwise spoken, skipped or failed. */
  lemma {:induction false} ClosedSessionHandledEverything(c: Settings, languages: nat, events: seq<Event>, s: Session)
    requires c.Usable() && IsRun(c, Begin(languages), events, s) && s.main.Closed?
    ensures forall i | 0 <= i < |s.workers| ::
              && ItemsOf(s.workers[i].handled) == Share(s.dispatched, i)
              && IdsIncrease(ItemsOf(s.workers[i].handled))
              && s.workers[i].queue == []
              && forall k | 0 <= k < |s.workers[i].handled| :: Correct(s.workers[i].handled[k])
  {
    EveryRunKeepsInv(c, languages, events, s);
    forall i | 0 <= i < |s.workers|
      ensures ItemsOf(s.workers[i].handled) == Share(s.dispatched, i)
      ensures IdsIncrease(ItemsOf(s.workers[i].handled)) && s.workers[i].queue == []
      ensures forall k | 0 <= k < |s.workers[i].handled| :: Correct(s.workers[i].handled[k])
    {
      assert WorkerInv(s.workers[i], Share(s.dispatched, i), SentinelPlaced(s.main, i));
      assert Given(s.workers[i]) == ItemsOf(s.workers[i].handled) + [] + [];
      SharesIncrease(s.dispatched, i);
    }
  }

  /** The dispatches that have a translation for language i, in order. */
  ghost predicate AreTranslations(dispatched: seq<Dispatch>, i: nat, ks: seq<nat>) {
    && (forall a, b | 0 <= a < b < |ks| :: ks[a] < ks[b])
    && (forall k: nat :: k in ks <==>
          k < |dispatched| && i < |dispatched[k].texts| && dispatched[k].texts[i].Some?)
  }

  /** A language's share is one item for each of them: the phrase dispatched, with that language's own text. */
  ghost predicate IsShare(dispatched: seq<Dispatch>, i: nat, ks: seq<nat>, share: seq<Item>) {
    && |share| == |ks|
    && forall a | 0 <= a < |ks| ::
         && ks[a] < |dispatched| && i < |dispatched[ks[a]].texts| && dispatched[ks[a]].texts[i].Some?
         && share[a] == Item(dispatched[ks[a]].chunk, dispatched[ks[a]].texts[i].value)
  }

  lemma {:induction false} ShareIsTheTranslations(dispatched: seq<Dispatch>, i: nat) returns (ks: seq<nat>)
    ensures AreTranslations(dispatched, i, ks) && IsShare(dispatched, i, ks, Share(dispatched, i))
  {
    if dispatched == [] {
      ks := [];
    } else {
      var n := |dispatched| - 1;
      var init, d := dispatched[..n], dispatched[n];
      ks := ShareIsTheTranslations(init, i);
      TranslationsGrow(init, d, dispatched, i, ks);
      ShareGrows(init, d, dispatched, i, ks, Share(init, i), Share(dispatched, i));
      ks := if i < |d.texts| && d.texts[i].Some? then ks + [n] else ks;
    }
  }

  lemma {:induction false} TranslationsGrow(dispatched: seq<Dispatch>, d: Dispatch, longer: seq<Dispatch>, i: nat,
                                            ks: seq<nat>)
    requires AreTranslations(dispatched, i, ks) && longer == dispatched + [d]
    ensures AreTranslations(longer, i, if i < |d.texts| && d.texts[i].Some? then ks + [|dispatched|] else ks)
  {
    forall k: nat
      ensures k in ks + [|dispatched|] <==> k in ks || k == |dispatched|
    {
    }
    assert forall a | 0 <= a < |ks| :: ks[a] in ks;
  }

  lemma {:induction false} ShareGrows(dispatched: seq<Dispatch>, d: Dispatch, longer: seq<Dispatch>, i: nat,
                                      ks: seq<nat>, share: seq<Item>, share': seq<Item>)
    requires IsShare(dispatched, i, ks, share) && longer == dispatched + [d]
    requires share' == share + if i < |d.texts| && d.texts[i].Some? then [Item(d.chunk, d.texts[i].value)] else []
    ensures IsShare(longer, i, if i < |d.texts| && d.texts[i].Some? then ks + [|dispatched|] else ks, share')
  {
  }

  /** In a closed session each language has handled, in the order of dispatch, exactly the phrases it got a
      translation of, each with its own text. */
  lemma {:induction false} EachTranslationIsHandled(c: Settings, languages: nat, events: seq<Event>, s: Session, i: nat)
    returns (ks: seq<nat>)
    requires c.Usable() && IsRun(c, Begin(languages), events, s) && s.main.Closed? && i < |s.workers|
    ensures AreTranslations(s.dispatched, i, ks)
    ensures IsShare(s.dispatched, i, ks, ItemsOf(s.workers[i].handled))
  {
    ClosedSessionHandledEverything(c, languages, events, s);
    ks := ShareIsTheTranslations(s.dispatched, i);
  }

  /** The hypotheses heard before a stop signal. */
  function HeardIn(events: seq<Event>, stopped: bool): seq<Hypothesis> {
    if events == [] then []
    else
      (if events[0].Hear? && !stopped then [events[0].hyp] else [])
      + HeardIn(events[1..], stopped || events[0].StopSignal?)
  }

  /** The pump feeds the chunker every hypothesis it hears, in order, until it is asked to stop, and no other. */
  lemma {:induction false} PumpFeedsWhatItHears(c: Settings, s: Session, events: seq<Event>, s': Session)
    requires c.Usable() && IsRun(c, s, events, s')
    ensures Runs.After(c, s'.calls).heard == Runs.After(c, s.calls).heard + HeardIn(events, s.stop)
    decreases |events|
  {
    if events != [] {
      var e, next := events[0], Step(c, s, events[0]);
      PumpFeedsOne(c, s, e);
      PumpFeedsWhatItHears(c, next, events[1..], s');
      Associates(Runs.After(c, s.calls).heard, if e.Hear? && !s.stop then [e.hyp] else [],
                 HeardIn(events[1..], next.stop));
    } else {
      Associates(Runs.After(c, s.calls).heard, [], []);
    }
  }

  lemma {:induction false} PumpFeedsOne(c: Settings, s: Session, e: Event)
    requires c.Usable() && Enabled(s, e)
    ensures Runs.After(c, Step(c, s, e).calls).heard
         == Runs.After(c, s.calls).heard + if e.Hear? && !s.stop then [e.hyp] else []
    ensures Step(c, s, e).stop == (s.stop || e.StopSignal?)
  {
    var s' := Step(c, s, e);
    if s'.calls != s.calls {
      var call := s'.calls[|s.calls|];
      assert s'.calls == s.calls + [call];
      Runs.AfterOneMore(c, s.calls, call);
    }
  }

  /** Language i got a translation of every phrase. */
  predicate AllTranslated(dispatched: seq<Dispatch>, i: nat) {
    forall k | 0 <= k < |dispatched| :: i < |dispatched[k].texts| && dispatched[k].texts[i].Some?
  }

  function SourcesOf(items: seq<Item>): seq<PhraseChunk> {
    seq(|items|, k requires 0 <= k < |items| => items[k].chunk)
  }

  lemma {:induction false} FullShare(dispatched: seq<Dispatch>, i: nat)
    requires AllTranslated(dispatched, i)
    ensures SourcesOf(Share(dispatched, i)) == PhrasesOf(dispatched)
  {
    if dispatched != [] {
      var init, last := dispatched[..|dispatched| - 1], dispatched[|dispatched| - 1];
      FullShare(init, i);
      assert Share(dispatched, i) == Share(init, i) + [Item(last.chunk, last.texts[i].value)];
      assert SourcesOf(Share(dispatched, i)) == SourcesOf(Share(init, i)) + [last.chunk];
      assert PhrasesOf(dispatched) == PhrasesOf(init) + [last.chunk];
    }
  }

  /** In a closed session whose pump left no phrase over, a fully translated language handled every phrase the
      chunker released. */
  lemma {:induction false} HandledIsReleased(c: Settings, languages: nat, events: seq<Event>, s: Session, i: nat)
    requires c.Usable() && IsRun(c, Begin(languages), events, s) && s.main.Closed? && i < |s.workers|
    requires s.pump.Ended? && s.pump.lost == [] && AllTranslated(s.dispatched, i)
    ensures SourcesOf(ItemsOf(s.workers[i].handled)) == Runs.After(c, s.calls).chunks
  {
    EveryRunKeepsInv(c, languages, events, s);
    ClosedSessionHandledEverything(c, languages, events, s);
    FullShare(s.dispatched, i);
    assert PhrasesOf(s.dispatched) + [] == PhrasesOf(s.dispatched);
  }

  /** From the microphone's transcript to a language's listeners: in a closed session whose pump left no phrase
      over, the phrases a fully translated language handled are, joined, the final transcript of append-only
      speech: nothing lost, repeated or out of order on the way. */
  lemma {:induction false} EachLanguageHandlesTheTalk(c: Settings, languages: nat, events: seq<Event>, s: Session,
                                                      i: nat)
    requires c.Usable() && IsRun(c, Begin(languages), events, s) && s.main.Closed? && i < |s.workers|
    requires s.pump.Ended? && s.pump.lost == [] && AllTranslated(s.dispatched, i)
    requires var session := Runs.After(c, s.calls);
             Revision.AppendOnly(session.heard) && Revision.EndsInFinal(session)
    ensures var heard := Runs.After(c, s.calls).heard;
            var phrases := SourcesOf(ItemsOf(s.workers[i].handled));
            Join(Revision.Texts(phrases)) == Join(Tokenise(heard[|heard| - 1].text))
  {
    HandledIsReleased(c, languages, events, s, i);
    Revision.FinalTranscriptIsSpoken(c, s.calls);
  }

  // ---------------------------------------------------------------- slow languages

  /** A step of one of the given workers. */
  predicate ByOneOf(e: Event, slow: set<nat>) { (e.Get? || e.Finish?) && e.i in slow }

  /** The run with every step of these workers left out. */
  function Without(events: seq<Event>, slow: set<nat>): seq<Event> {
    if events == [] then []
    else (if ByOneOf(events[0], slow) then [] else [events[0]]) + Without(events[1..], slow)
  }

  /** The same but for what these workers have got through. */
  predicate SameButFor(s: Session, t: Session, slow: set<nat>) {
    && |s.workers| == |t.workers| && t == s.(workers := t.workers)
    && forall i | 0 <= i < |s.workers| && i !in slow :: s.workers[i] == t.workers[i]
  }

  lemma {:induction false} SlowStep(c: Settings, s: Session, t: Session, e: Event, slow: set<nat>)
    requires c.Usable() && SameButFor(s, t, slow) && Enabled(s, e) && s.main.Racing?
    ensures ByOneOf(e, slow) ==> SameButFor(Step(c, s, e), t, slow)
    ensures !ByOneOf(e, slow) ==> Enabled(t, e) && SameButFor(Step(c, s, e), Step(c, t, e), slow)
  {
  }

  lemma {:induction false} RacingBefore(c: Settings, s: Session, events: seq<Event>, s': Session)
    requires c.Usable() && IsRun(c, s, events, s') && s'.main.Racing?
    ensures s.main.Racing?
    decreases |events|
  {
    if events != [] {
      RacingBefore(c, Step(c, s, events[0]), events[1..], s');
    }
  }

  /** A slow language never holds up another. Take any run of a session in progress and leave out every step of
      any languages, as though they had hung from the start: what is left is still a possible run, it dispatches
      the same phrases, and every other language has the same queue, the same phrase in hand and the same
      phrases handled. */
  lemma {:induction false} SlowLanguagesHoldUpNobody(c: Settings, s: Session, t: Session, events: seq<Event>,
                                                     s': Session, slow: set<nat>) returns (t': Session)
    requires c.Usable() && IsRun(c, s, events, s') && s'.main.Racing? && SameButFor(s, t, slow)
    ensures IsRun(c, t, Without(events, slow), t') && SameButFor(s', t', slow)
    decreases |events|
  {
    t' := t;
    if events != [] {
      var e, rest := events[0], events[1..];
      RacingBefore(c, s, events, s');
      SlowStep(c, s, t, e, slow);
      if ByOneOf(e, slow) {
        t' := SlowLanguagesHoldUpNobody(c, Step(c, s, e), t, rest, s', slow);
        assert Without(events, slow) == Without(rest, slow);
      } else {
        t' := SlowLanguagesHoldUpNobody(c, Step(c, s, e), Step(c, t, e), rest, s', slow);
        assert Without(events, slow)[1..] == Without(rest, slow);
      }
    }
  }

  // ---------------------------------------------------------------- shutdown ends

  /** Work left for a worker: two steps per entry, one for the phrase in hand. */
  function WorkLeft(w: WorkerState): nat { 2 * |w.queue| + if w.phase.Speaking? then 1 else 0 }

  function TotalLeft(workers: seq<WorkerState>): nat {
    if workers == [] then 0 else WorkLeft(workers[0]) + TotalLeft(workers[1..])
  }

  /** Steps left for the joining loop itself, counting the sentinels it has still to place. */
  function MainLeft(s: Session): nat {
    match s.main
    case Racing => 0
    case Joining(i, placed) => if i <= |s.workers| then 4 * (|s.workers| - i) + (if placed then 1 else 4) else 0
    case Closed => 0
  }

  lemma {:induction false} TotalLeftUpdate(workers: seq<WorkerState>, i: nat, w: WorkerState)
    requires i < |workers|
    ensures TotalLeft(workers[i := w]) == TotalLeft(workers) - WorkLeft(workers[i]) + WorkLeft(w)
  {
    if i == 0 {
      assert workers[0 := w][1..] == workers[1..];
    } else {
      assert workers[i := w][1..] == workers[1..][i - 1 := w];
      TotalLeftUpdate(workers[1..], i - 1, w);
    }
  }

  /** Once joining has begun, every step but a repeated stop signal brings the end nearer, and until it is
      reached some step is possible: a shutdown always finishes. */
  lemma {:induction false} ShutdownMakesProgress(c: Settings, s: Session, e: Event)
    requires c.Usable() && MainInv(s) && WorkersInv(s) && s.main.Joining? && Enabled(s, e) && !e.StopSignal?
    ensures var s' := Step(c, s, e); MainLeft(s') + TotalLeft(s'.workers) < MainLeft(s) + TotalLeft(s.workers)
  {
    match e
    case PlaceSentinel => TotalLeftUpdate(s.workers, s.main.i, Stopped(s.workers[s.main.i]));
    case Get(i) => TotalLeftUpdate(s.workers, i, Got(s.workers[i]));
    case Finish(i, outcome) => TotalLeftUpdate(s.workers, i, Finished(s.workers[i], outcome));
    case _ =>
  }

  lemma {:induction false} ShutdownNeverBlocks(s: Session)
    requires MainInv(s) && WorkersInv(s) && s.main.Joining?
    ensures exists e: Event :: !e.StopSignal? && Enabled(s, e)
  {
    var i := s.main.i;
    if i == |s.workers| {
      assert Enabled(s, Close);
    } else if !s.main.placed {
      assert Enabled(s, PlaceSentinel);
    } else {
      var w := s.workers[i];
      assert WorkerInv(w, Share(s.dispatched, i), SentinelPlaced(s.main, i));
      match w.phase
      case Done => assert Enabled(s, Joined);
      case Waiting => assert Enabled(s, Get(i));
      case Speaking(item) => assert Enabled(s, Finish(i, if IsBlank(item.text) then Blank else LanguageWorkers.Spoken));
    }
  }
}
