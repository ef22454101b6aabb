/** What a session says of what it heard, and what it never says: cuts, silence and the flush that is skipped. */
module FanoutCuts {
  import opened Sequences
  import opened Words
  import opened Transcript
  import opened Chunker
  import opened Fanout
  import Stability
  import Runs = ChunkerRuns
  import Revision = ChunkerRevision


  /** In any run, what the chunker released and the pump has not dispatched is the end of one batch: everything
      released in earlier calls was dispatched, and so was this batch up to that point. */
  lemma {:induction false} UndispatchedIsTheEndOfOneBatch(c: Settings, languages: nat, events: seq<Event>, s: Session)
    requires c.Usable() && IsRun(c, Begin(languages), events, s)
    ensures var rest, batch := Remaining(s.pump), LastBatch(c, s.calls);
            && |rest| <= |batch| && rest == batch[|batch| - |rest|..]
            && PhrasesOf(s.dispatched) + rest == Runs.After(c, s.calls).chunks
            && (s.calls != [] ==>
                  PhrasesOf(s.dispatched)
                  == Runs.After(c, s.calls[..|s.calls| - 1]).chunks + batch[..|batch| - |rest|])
  {
    EveryRunKeepsInv(c, languages, events, s);
    var rest, batch, done := Remaining(s.pump), LastBatch(c, s.calls), PhrasesOf(s.dispatched);
    if s.calls != [] {
      var before, all := Runs.After(c, s.calls[..|s.calls| - 1]).chunks, Runs.After(c, s.calls).chunks;
      assert all == before + batch;
      assert done == all[..|all| - |rest|] && rest == all[|all| - |rest|..];
    }
  }

  /** A failure or a cancellation that ends the pump. */
  predicate Cuts(s: Session, e: Event) { (e.PumpFails? || e.Cancel?) && !s.pump.Ended? }

  /** What a session cut here never says, of what it could say with no more hypotheses: the phrases released and
      not dispatched, and those that the flush, which a cut skips, would have released. */
  function Forgone(c: Settings, s: Session): seq<PhraseChunk>
    requires c.Usable()
  {
    Remaining(s.pump) + Released(c, s.calls, Runs.Flush)
  }

  /** What a cut loses, in any state of any run: the batch in hand from the awaited phrase on, and every agreed
      word the chunker still holds. It loses nothing exactly when no translation is awaited and nothing is held;
      and at most one phrase exactly when what is held fits in one and none is awaited, or nothing is held and
      the awaited phrase is the last of its batch. */
  lemma {:induction false} WhatACutLoses(c: Settings, languages: nat, events: seq<Event>, s: Session, cut: Event)
    requires c.Usable() && IsRun(c, Begin(languages), events, s) && Cuts(s, cut) && Enabled(s, cut)
    ensures Step(c, s, cut).pump.Ended? && Step(c, s, cut).dispatched == s.dispatched
    ensures Step(c, s, cut).calls == s.calls
    ensures Runs.After(c, s.calls + [Runs.Flush]).chunks == PhrasesOf(s.dispatched) + Forgone(c, s)
    ensures Awaiting(s.pump) ==> Forgone(c, s) == s.pump.batch[s.pump.k..] + Released(c, s.calls, Runs.Flush)
    ensures Forgone(c, s) == [] <==> !Awaiting(s.pump) && Held(c, s) == 0
    ensures |Forgone(c, s)| <= 1 <==>
            || (!Awaiting(s.pump) && Held(c, s) <= c.config.maxWords)
            || (Awaiting(s.pump) && s.pump.k == |s.pump.batch| - 1 && Held(c, s) == 0)
  {
    EveryRunKeepsInv(c, languages, events, s);
    Runs.FlushReleases(c, s.calls);
    FlushAddsForgone(c, s);
    assert Awaiting(s.pump) <==> Remaining(s.pump) != [];
  }

  lemma {:induction false} FlushAddsForgone(c: Settings, s: Session)
    requires c.Usable() && PumpInv(c, s)
    ensures Runs.After(c, s.calls + [Runs.Flush]).chunks == PhrasesOf(s.dispatched) + Forgone(c, s)
    ensures PhrasesOf(s.dispatched) == Runs.After(c, s.calls + [Runs.Flush]).chunks
            <==> Remaining(s.pump) == [] && Held(c, s) == 0
  {
    Runs.FlushReleases(c, s.calls);
    PrefixIsWholeIff(PhrasesOf(s.dispatched), Remaining(s.pump), Released(c, s.calls, Runs.Flush));
  }

  lemma {:induction false} PrefixIsWholeIff<T>(done: seq<T>, rest: seq<T>, more: seq<T>)
    ensures done + rest + more == done + (rest + more)
    ensures done == done + (rest + more) <==> rest == [] && more == []
  {
    assert done + rest + more == done + (rest + more);
    assert |done + (rest + more)| == |done| + |rest| + |more|;
  }

  /** No translation is awaited and the chunker holds no agreed word. */
  predicate Spent(c: Settings, s: Session)
    requires c.Usable()
  {
    !Awaiting(s.pump) && Held(c, s) == 0
  }

  /** The pump was cut, if at all, only when it was spent. */
  predicate CutOnlyWhenSpent(c: Settings, s: Session, events: seq<Event>)
    requires c.Usable()
    decreases |events|
  {
    events == [] || !Enabled(s, events[0]) ||
    ((Cuts(s, events[0]) ==> Spent(c, s)) && CutOnlyWhenSpent(c, Step(c, s, events[0]), events[1..]))
  }

  lemma {:induction false} EndedStaysEnded(c: Settings, s: Session, events: seq<Event>, s': Session)
    requires c.Usable() && IsRun(c, s, events, s') && s.pump.Ended?
    ensures s'.pump == s.pump && s'.calls == s.calls && s'.dispatched == s.dispatched
    ensures CutOnlyWhenSpent(c, s, events)
    decreases |events|
  {
    if events != [] {
      EndedStaysEnded(c, Step(c, s, events[0]), events[1..], s');
    }
  }

  /** The step that ends the pump leaves everything said exactly when it is no cut, or a cut of a spent pump. */
  lemma {:induction false} LastStepSaysAllIff(c: Settings, s: Session, e: Event)
    requires c.Usable() && PumpInv(c, s) && Enabled(s, e) && !s.pump.Ended? && Step(c, s, e).pump.Ended?
    ensures var s' := Step(c, s, e);
            PhrasesOf(s'.dispatched) == Runs.After(c, s'.calls + [Runs.Flush]).chunks
            <==> (Cuts(s, e) ==> Spent(c, s))
  {
    FlushAddsForgone(c, s);
    assert Awaiting(s.pump) <==> Remaining(s.pump) != [];
  }

  lemma {:induction false} RunSaysAllIff(c: Settings, s: Session, events: seq<Event>, s': Session)
    requires c.Usable() && PumpInv(c, s) && IsRun(c, s, events, s') && !s.pump.Ended? && s'.pump.Ended?
    ensures PhrasesOf(s'.dispatched) == Runs.After(c, s'.calls + [Runs.Flush]).chunks
            <==> CutOnlyWhenSpent(c, s, events)
    decreases |events|
  {
    if events != [] {
      var next := Step(c, s, events[0]);
      StepKeepsPumpInv(c, s, events[0]);
      if next.pump.Ended? {
        LastStepSaysAllIff(c, s, events[0]);
        EndedStaysEnded(c, next, events[1..], s');
      } else {
        RunSaysAllIff(c, next, events[1..], s');
      }
    }
  }

  /** A session whose pump is over has dispatched all it could say of what it heard, agreed words still held
      included, if and only if the pump was never cut but when spent. In terms of where it stopped: no phrase is
      left over and the chunker holds no agreed word. */
  lemma {:induction false} SessionSaysAllIff(c: Settings, languages: nat, events: seq<Event>, s: Session)
    requires c.Usable() && IsRun(c, Begin(languages), events, s) && s.pump.Ended?
    ensures PhrasesOf(s.dispatched) == Runs.After(c, s.calls + [Runs.Flush]).chunks
            <==> CutOnlyWhenSpent(c, Begin(languages), events)
    ensures PhrasesOf(s.dispatched) == Runs.After(c, s.calls + [Runs.Flush]).chunks
            <==> s.pump.lost == [] && Held(c, s) == 0
  {
    EveryRunKeepsInv(c, languages, events, s);
    EveryRunKeepsInv(c, languages, [], Begin(languages));
    FlushAddsForgone(c, s);
    RunSaysAllIff(c, Begin(languages), events, s);
  }

  /** A pump is cut only on a stop signal or a failure, so a session that had neither has dispatched all it could say
      of everything it heard. */
  lemma {:induction false} UninterruptedSessionSaysAll(c: Settings, languages: nat, events: seq<Event>, s: Session)
    requires c.Usable() && IsRun(c, Begin(languages), events, s) && s.pump.Ended?
    requires forall i | 0 <= i < |events| :: !events[i].StopSignal? && !events[i].PumpFails?
    ensures PhrasesOf(s.dispatched) == Runs.After(c, s.calls + [Runs.Flush]).chunks
    ensures Runs.After(c, s.calls).heard == HeardIn(events, false)
  {
    NeverCut(c, Begin(languages), events, s);
    SessionSaysAllIff(c, languages, events, s);
    PumpFeedsWhatItHears(c, Begin(languages), events, s);
    assert Runs.After(c, []).heard == [];
    assert [] + HeardIn(events, false) == HeardIn(events, false);
  }

  lemma {:induction false} NeverCut(c: Settings, s: Session, events: seq<Event>, s': Session)
    requires c.Usable() && IsRun(c, s, events, s') && !s.stop
    requires forall i | 0 <= i < |events| :: !events[i].StopSignal? && !events[i].PumpFails?
    ensures CutOnlyWhenSpent(c, s, events)
    decreases |events|
  {
    if events != [] {
      NeverCut(c, Step(c, s, events[0]), events[1..], s');
    }
  }

  /** With no hypothesis and no end of the source, nothing is released and nothing dispatched, however long the
      silence: the only tick is the one after a feed. */
  lemma {:induction false} SilenceReleasesNothing(c: Settings, s: Session, events: seq<Event>, s': Session)
    requires c.Usable() && IsRun(c, s, events, s') && (s.pump.Listening? || s.pump == Ended([]))
    requires forall i | 0 <= i < |events| :: !events[i].Hear? && !events[i].SourceEnds?
    ensures s'.calls == s.calls && s'.dispatched == s.dispatched
    ensures s'.pump == s.pump || s'.pump == Ended([])
    decreases |events|
  {
    if events != [] {
      SilenceReleasesNothing(c, Step(c, s, events[0]), events[1..], s');
    }
  }

  /** That tick releases something exactly when silence_commit_s have already gone by since the hypothesis just
      fed, and feeding it left agreed words pending. */
  lemma {:induction false} TickAfterFeedReleasesIff(c: Settings, s: Session, now: real)
    requires c.Usable() && Runs.After(c, s.calls).heard != []
    requires s.pump.Dispatching? && s.pump.stage.Feeding? && Enabled(s, BatchDone(now))
    ensures var heard := Runs.After(c, s.calls).heard;
            Step(c, s, BatchDone(now)).pump.batch != []
            <==> now - heard[|heard| - 1].tWall >= c.config.silenceCommitS && Held(c, s) > 0
  {
    Runs.TickReleasesIff(c, s.calls, now);
  }

  // ---------------------------------------------------------------- two cuts

  /** An interim hypothesis too short to be a phrase is held. */
  lemma {:induction false} ShortInterimIsHeld(c: Settings, hyp: Hypothesis)
    requires c.Usable() && c.config.agreementN == 1 && !hyp.isFinal
    requires 0 < |Tokenise(hyp.text)| < c.config.minWords && |Tokenise(hyp.text)| < c.config.maxWords
    ensures var s := Runs.After(c, [] + [Runs.Feed(hyp)]);
            s.chunks == [] && Runs.Pending(c, s) == |Tokenise(hyp.text)| && s.heard == [hyp]
  {
    Runs.AfterOneMore(c, [], Runs.Feed(hyp));
    Runs.EveryRunKeepsInv(c, []);
    Runs.HearingKeepsInv(c, Runs.BEGIN, hyp);
    Runs.StepIsFinish(c, Runs.BEGIN, Runs.Feed(hyp));
    var ready := Runs.Recorded(c, Runs.BEGIN, hyp);
    assert ready.Window() == [Runs.Tokens(c, hyp)];
    Stability.AgreedIff(1, ready.Window(), |Tokenise(hyp.text)|);
    Runs.GuardAndDefaultUnused(c, ready);
    var take, reason := Runs.TryUnfolds(c, ready);
  }

  /** A tick before silence_commit_s are up leaves the chunker as it was. */
  lemma {:induction false} EarlyTickDoesNothing(c: Settings, calls: seq<Runs.Event>, now: real)
    requires c.Usable() && Runs.After(c, calls).heard != []
    requires var heard := Runs.After(c, calls).heard; now - heard[|heard| - 1].tWall < c.config.silenceCommitS
    ensures Runs.After(c, calls + [Runs.Tick(now)]) == Runs.After(c, calls)
    ensures Released(c, calls, Runs.Tick(now)) == []
  {
    Runs.AfterOneMore(c, calls, Runs.Tick(now));
    Runs.EveryRunKeepsInv(c, calls);
    Runs.StepIsFinish(c, Runs.After(c, calls), Runs.Tick(now));
  }

  /** The ordinary ending by an idle limit: a hypothesis too short to be a phrase is heard, nothing follows, and
      the limit cuts the pump as it listens. No phrase is left over, and yet every word heard is lost. */
  lemma {:induction false} AnIdleStopLosesTheTail(c: Settings, languages: nat, hyp: Hypothesis, now: real)
    returns (s: Session)
    requires c.Usable() && c.config.agreementN == 1 && !hyp.isFinal
    requires 0 < |Tokenise(hyp.text)| < c.config.minWords && |Tokenise(hyp.text)| < c.config.maxWords
    requires now - hyp.tWall < c.config.silenceCommitS
    ensures IsRun(c, Begin(languages), [Hear(hyp), BatchDone(now), BatchDone(now), StopSignal, Cancel], s)
    ensures s.pump == Ended([]) && s.dispatched == []
    ensures Runs.Spoken(Runs.After(c, s.calls + [Runs.Flush]).chunks) == Tokenise(hyp.text)
  {
    var s0, fed := Begin(languages), [] + [Runs.Feed(hyp)];
    ShortInterimIsHeld(c, hyp);
    EarlyTickDoesNothing(c, fed, now);
    assert Runs.After(c, fed).chunks == [] + Released(c, [], Runs.Feed(hyp)) by {
      Runs.AfterOneMore(c, [], Runs.Feed(hyp));
    }
    var listening := s0.(calls := fed + [Runs.Tick(now)]);
    var s1 := Step(c, s0, Hear(hyp));
    assert s1 == s0.(pump := Dispatching(Feeding, [], 0), calls := fed);
    var s2 := Step(c, s1, BatchDone(now));
    assert s2 == s0.(pump := Dispatching(Ticking, [], 0), calls := fed + [Runs.Tick(now)]);
    assert Step(c, s2, BatchDone(now)) == listening;
    s := Step(c, Step(c, listening, StopSignal), Cancel);
    ThreeSteps(c, s0, Hear(hyp), BatchDone(now), BatchDone(now));
    TwoSteps(c, listening, StopSignal, Cancel);
    RunsCompose(c, s0, [Hear(hyp), BatchDone(now), BatchDone(now)], listening, [StopSignal, Cancel], s);
    assert [Hear(hyp), BatchDone(now), BatchDone(now)] + [StopSignal, Cancel]
        == [Hear(hyp), BatchDone(now), BatchDone(now), StopSignal, Cancel];
    TailIsHeld(c, s.calls, hyp);
  }

  lemma {:induction false} TailIsHeld(c: Settings, calls: seq<Runs.Event>, hyp: Hypothesis)
    requires c.Usable() && Runs.After(c, calls).heard == [hyp] && Runs.After(c, calls).chunks == []
    requires Runs.Pending(c, Runs.After(c, calls)) == |Tokenise(hyp.text)| > 0
    ensures Runs.Spoken(Runs.After(c, calls + [Runs.Flush]).chunks) == Tokenise(hyp.text)
  {
    Runs.FlushDrains(c, calls);
    assert Runs.Spoken([]) == [];
  }

  lemma {:induction false} TwoSteps(c: Settings, s: Session, a: Event, b: Event)
    requires c.Usable() && Enabled(s, a) && Enabled(Step(c, s, a), b)
    ensures IsRun(c, s, [a, b], Step(c, Step(c, s, a), b))
  {
    assert [a, b][1..] == [b] && [b][1..] == [];
    assert IsRun(c, Step(c, s, a), [b], Step(c, Step(c, s, a), b));
  }

  lemma {:induction false} RunsCompose(c: Settings, s: Session, first: seq<Event>, mid: Session, second: seq<Event>,
                                       s': Session)
    requires c.Usable() && IsRun(c, s, first, mid) && IsRun(c, mid, second, s')
    ensures IsRun(c, s, first + second, s')
    decreases |first|
  {
    if first == [] {
      assert first + second == second;
    } else {
      TailAppend(first, second);
      RunsCompose(c, Step(c, s, first[0]), first[1..], mid, second, s');
    }
  }

  lemma {:induction false} FewWordsEach(c: Settings, chunks: seq<PhraseChunk>)
    requires c.config.maxWords == 1 && forall i | 0 <= i < |chunks| :: Runs.WellSized(c, chunks[i])
    ensures |Runs.Spoken(chunks)| <= |chunks|
  {
    if chunks != [] {
      FewWordsEach(c, chunks[..|chunks| - 1]);
    }
  }

  lemma {:induction false} FinalReleasesAll(c: Settings, hyp: Hypothesis)
    requires c.Usable() && c.config.maxWords == 1 && hyp.isFinal
    ensures |Released(c, [], Runs.Feed(hyp))| >= |Tokenise(hyp.text)|
  {
    var s := Runs.Step(c, Runs.BEGIN, Runs.Feed(hyp));
    Runs.EveryRunKeepsInv(c, []);
    Runs.StepKeepsInv(c, Runs.BEGIN, Runs.Feed(hyp));
    Revision.FinalSpeaksAll(c, Runs.BEGIN, hyp);
    FewWordsEach(c, s.chunks);
    assert s.chunks == [] + Released(c, [], Runs.Feed(hyp));
  }

  /** More than one phrase can go at one cut, and without limit: with phrases of one word, a session stopped as
      it starts on the batch a final released loses a phrase for every word of it. */
  lemma {:induction false} AWholeBatchCanBeLost(c: Settings, languages: nat, hyp: Hypothesis) returns (s: Session)
    requires c.Usable() && c.config.maxWords == 1 && hyp.isFinal
    ensures IsRun(c, Begin(languages), [Hear(hyp), StopSignal, Cancel], s)
    ensures s.pump.Ended? && s.dispatched == [] && |s.pump.lost| >= |Tokenise(hyp.text)|
  {
    var s0 := Begin(languages);
    FinalReleasesAll(c, hyp);
    ThreeSteps(c, s0, Hear(hyp), StopSignal, Cancel);
    s := Step(c, Step(c, Step(c, s0, Hear(hyp)), StopSignal), Cancel);
  }

  lemma {:induction false} ThreeSteps(c: Settings, s: Session, a: Event, b: Event, d: Event)
    requires c.Usable() && Enabled(s, a) && Enabled(Step(c, s, a), b) && Enabled(Step(c, Step(c, s, a), b), d)
    ensures IsRun(c, s, [a, b, d], Step(c, Step(c, Step(c, s, a), b), d))
  {
    assert [a, b, d][1..] == [b, d];
    TwoSteps(c, Step(c, s, a), b, d);
  }
}
