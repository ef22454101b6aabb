/** An adapter keeps one word clock for all its sessions: when a later session's spans can go backwards. */
module LaterSessions {
  import opened Sequences
  import opened Options
  import opened Words
  import opened Transcript
  import opened Clause
  import opened WordClocks
  import opened Schedule
  import opened Transcribe
  import opened Chunker
  import opened ChunkerSpans
  import Stability
  import Runs = ChunkerRuns
  import Revision = ChunkerRevision

  /** A session that finds the clock at `c`, whose first text ends at `frame` or later, as far as the chunker
      has heard it. */
  predicate LaterSession(c: ClockState, frame: nat, emitted: seq<Emitted>, seqNo: nat,
                         wall: nat -> real, e: Settings, events: seq<Runs.Event>)
    requires c.Valid()
  {
    && TextsInOrder(emitted) && StartsFrom(frame, emitted)
    && e.Usable() && Runs.After(e, events).heard <= Hypotheses(c, seqNo, wall, emitted)
  }

  /** No such session has a phrase whose span goes backwards. */
  ghost predicate SpansAlwaysOrdered(c: ClockState, frame: nat)
    requires c.Valid()
  {
    forall emitted: seq<Emitted>, seqNo: nat, wall: nat -> real, e: Settings, events: seq<Runs.Event>
      | LaterSession(c, frame, emitted, seqNo, wall, e, events) ::
      SpansOrdered(Runs.After(e, events).chunks)
  }

  // ---------------------------------------------------------------- a session that repeats the old words

  /** Phrases of one word each, committed at first hearing. */
  const WORD_BY_WORD := Settings(ChunkerConfig(1, 1, 1, 0.0, 0.0, false, 0.0),
                                 Lexicon(s => s, s => false, {}, {}, {}, {}))

  /** The words the clock remembers, and one more, in a single text. */
  function Repeating(c: ClockState, frame: nat): Emitted {
    Emitted(Join(c.words + ["x"]), ChunkPlan(0, 0, frame, 0, 0, 0), true)
  }

  function RepeatingHypothesis(c: ClockState, frame: nat): Hypothesis
    requires c.Valid()
  {
    Hypotheses(c, 0, _ => 0.0, [Repeating(c, frame)])[0]
  }

  /** The clock keeps the old ends for the old words. */
  lemma {:induction false} OldWordsKeepOldEnds(c: ClockState, frame: nat)
    requires c.Valid() && AllWords(c.words)
    ensures var hyp, ends := RepeatingHypothesis(c, frame), c.ends + [AudioTime(frame)];
            && hyp.isFinal && Tokenise(hyp.text) == c.words + ["x"]
            && Hypotheses(c, 0, _ => 0.0, [Repeating(c, frame)]) == [hyp]
            && forall k | 1 <= k <= |ends| :: WordEndTime(hyp, k) == ends[k - 1]
  {
    var longer, first := c.words + ["x"], AudioTime(frame);
    assert AllWords(longer);
    TokeniseJoin(longer);
    SharedWithLonger(c.words, "x");
    var stamped := Stamped(c, longer, first);
    assert c.ends[..|c.ends|] == c.ends && Repeat(first, 1) == [first];
    assert stamped.ends == c.ends + [first];
    HypothesesAppend(c, 0, _ => 0.0, [], Repeating(c, frame));
    assert [] + [Repeating(c, frame)] == [Repeating(c, frame)];
  }

  lemma {:induction false} SharedWithLonger(words: seq<string>, w: string)
    ensures Shared(words, words + [w]) == |words|
  {
    if words != [] {
      assert (words + [w])[1..] == words[1..] + [w];
      SharedWithLonger(words[1..], w);
    }
  }

  /** Each phrase spoken is one word, and ends where the latest hypothesis has that word end. */
  predicate WordByWord(s: Runs.Session) {
    && s.state.lastHyp.Some? && |s.chunks| == s.Committed()
    && forall k | 0 <= k < |s.chunks| :: s.chunks[k].tAudioEnd == WordEndTime(s.state.lastHyp.value, k + 1)
  }

  lemma {:induction false} DrainingGoesWordByWord(e: Settings, s: Runs.Session)
    requires e.Usable() && e.config.maxWords == 1 && Runs.Inv(e, s) && WordByWord(s)
    ensures WordByWord(Runs.DrainedSession(e, s, Final, None))
    ensures Runs.DrainedSession(e, s, Final, None).state.lastHyp == s.state.lastHyp
    decreases Runs.Pending(e, s)
  {
    Runs.DrainUnfolds(e, s, Final, None);
    Runs.GuardAndDefaultUnused(e, s);
    var found := Stability.Stable(e.config.agreementN, s.state.tracker);
    if found.Some? {
      Runs.SpeakingKeepsInv(e, s, found.value, 1, Final, None);
      SpeakingGoesWordByWord(s, found.value);
      DrainingGoesWordByWord(e, Runs.Speak(s, found.value, 1, Final, None));
    }
  }

  lemma {:induction false} SpeakingGoesWordByWord(s: Runs.Session, prefix: Stability.Prefix)
    requires WordByWord(s) && prefix.tokens != []
    ensures WordByWord(Runs.Speak(s, prefix, 1, Final, None))
  {
    SpeakingMovesCursor(s, prefix, 1, Final, None);
  }

  /** Fed as a final, a hypothesis becomes one phrase a word, ending where its words do. */
  lemma {:induction false} FinalGoesWordByWord(hyp: Hypothesis)
    requires hyp.isFinal
    ensures var s := Runs.After(WORD_BY_WORD, [] + [Runs.Feed(hyp)]);
            && s.heard == [hyp] && |s.chunks| == |Tokenise(hyp.text)|
            && forall k | 0 <= k < |s.chunks| :: s.chunks[k].tAudioEnd == WordEndTime(hyp, k + 1)
  {
    var e := WORD_BY_WORD;
    Runs.AfterOneMore(e, [], Runs.Feed(hyp));
    Runs.EveryRunKeepsInv(e, []);
    Runs.HearingKeepsInv(e, Runs.BEGIN, hyp);
    Runs.StepIsFinish(e, Runs.BEGIN, Runs.Feed(hyp));
    var ready := Runs.Recorded(e, Runs.BEGIN, hyp);
    DrainingGoesWordByWord(e, ready);
    Revision.FinalFillsWindow(e, Runs.BEGIN, hyp);
    Runs.DrainingKeepsInv(e, ready, Final, None);
    Runs.GuardAndDefaultUnused(e, ready);
  }

  lemma {:induction false} NeighboursInOrder(s: seq<real>)
    requires forall k | 0 <= k < |s| - 1 :: s[k] <= s[k + 1]
    ensures WordClocks.Nondecreasing(s)
  {
    if s != [] {
      var n := |s| - 1;
      NeighboursInOrder(s[..n]);
      forall i, j | 0 <= i <= j < |s|
        ensures s[i] <= s[j]
      {
        if i < j == n {
          assert s[..n][i] <= s[..n][n - 1];
        } else if j < n {
          assert s[..n][i] <= s[..n][j];
        }
      }
    }
  }

  lemma {:induction false} OrderedSpansHaveOrderedEnds(chunks: seq<PhraseChunk>, ends: seq<real>)
    requires |chunks| == |ends| && forall k | 0 <= k < |ends| :: chunks[k].tAudioEnd == ends[k]
    requires SpansOrdered(chunks)
    ensures WordClocks.Nondecreasing([0.0] + ends)
  {
    var all := [0.0] + ends;
    forall k | 0 <= k < |ends|
      ensures all[k] <= all[k + 1]
    {
      assert k > 0 ==> chunks[k].tAudioStart == chunks[k - 1].tAudioEnd;
      assert chunks[k].tAudioStart <= chunks[k].tAudioEnd;
    }
    NeighboursInOrder(all);
  }

  /** A clock whose old ends do not fit before the new session's first audio: repeating the old words, and one
      word more, sends a span backwards. */
  lemma {:induction false} RepeatedWordsGoBack(c: ClockState, frame: nat)
    requires c.Valid() && AllWords(c.words) && !Fits(c, AudioTime(frame))
    ensures LaterSession(c, frame, [Repeating(c, frame)], 0, _ => 0.0, WORD_BY_WORD,
                         [] + [Runs.Feed(RepeatingHypothesis(c, frame))])
    ensures !SpansOrdered(Runs.After(WORD_BY_WORD, [] + [Runs.Feed(RepeatingHypothesis(c, frame))]).chunks)
  {
    var hyp, ends := RepeatingHypothesis(c, frame), c.ends + [AudioTime(frame)];
    OldWordsKeepOldEnds(c, frame);
    FinalGoesWordByWord(hyp);
    assert [0.0] + ends == [0.0] + c.ends + [AudioTime(frame)];
    var chunks := Runs.After(WORD_BY_WORD, [] + [Runs.Feed(hyp)]).chunks;
    if SpansOrdered(chunks) {
      OrderedSpansHaveOrderedEnds(chunks, ends);
    }
  }

  /** The source never resets the clock between sessions. Spans of a session that starts at `frame` are ordered,
      whatever is said and however it is chunked, if and only if the stamps the clock has kept are in order and
      none of them lies beyond that start. */
  lemma {:induction false} LaterSpansOrderedIff(c: ClockState, frame: nat)
    requires c.Valid() && AllWords(c.words)
    ensures SpansAlwaysOrdered(c, frame) <==> Fits(c, AudioTime(frame))
  {
    if Fits(c, AudioTime(frame)) {
      forall emitted: seq<Emitted>, seqNo: nat, wall: nat -> real, e: Settings, events: seq<Runs.Event>
        | LaterSession(c, frame, emitted, seqNo, wall, e, events)
        ensures SpansOrdered(Runs.After(e, events).chunks)
      {
        var hyps, heard := Hypotheses(c, seqNo, wall, emitted), Runs.After(e, events).heard;
        OrderedTextsAreFromClock(c, seqNo, wall, emitted, frame);
        FromClockPrefix(c, AudioTime(frame), hyps, |heard|);
        assert heard == hyps[..|heard|];
        StampedSpansAreOrdered(c, AudioTime(frame), e, events);
      }
    } else {
      RepeatedWordsGoBack(c, frame);
    }
  }
}
