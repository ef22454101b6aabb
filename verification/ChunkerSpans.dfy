/** Audio spans of phrases, from encoder step to committed phrase: schedule, word clock, chunker. */
module ChunkerSpans {
  import opened Options
  import opened Words
  import opened Transcript
  import opened WordClocks
  import opened Schedule
  import opened Transcribe
  import opened Stability
  import opened Chunker
  import Runs = ChunkerRuns

  /** The stamping calls behind a run of hypotheses. */
  function CallsOf(hyps: seq<Hypothesis>): seq<Call> {
    seq(|hyps|, i requires 0 <= i < |hyps| => Call(Tokenise(hyps[i].text), hyps[i].tAudioEnd))
  }

  /** A clock whose stamps are in order between zero and where the session's audio begins. */
  predicate Fits(c: ClockState, from: real) {
    c.Valid() && WordClocks.Nondecreasing([0.0] + c.ends + [from])
  }

  lemma {:induction false} FitsMeans(c: ClockState, from: real)
    requires c.Valid()
    ensures Fits(c, from) <==>
            && 0.0 <= from && WordClocks.Nondecreasing(c.ends) && AtMost(c.ends, from)
            && forall i | 0 <= i < |c.ends| :: 0.0 <= c.ends[i]
  {
    var all := [0.0] + c.ends + [from];
    assert all[0] == 0.0 && all[|all| - 1] == from;
    assert forall i | 0 <= i < |c.ends| :: all[i + 1] == c.ends[i];
  }

  /** Hypotheses as the streaming adapter yields them in one session: from `from` on their audio ends move
      forward, and each carries the stamps of one clock, which the session found as `c`, over all of them so far. */
  predicate FromClock(c: ClockState, from: real, hyps: seq<Hypothesis>) {
    && Fits(c, from)
    && Forward(CallsOf(hyps))
    && (forall i | 0 <= i < |hyps| :: hyps[i].tAudioEnd >= from)
    && (forall i | 0 <= i < |hyps| :: StampedAt(c, hyps, i))
  }

  predicate StampedAt(c: ClockState, hyps: seq<Hypothesis>, i: nat)
    requires c.Valid() && i < |hyps|
  {
    hyps[i].words == Some(Timings(ClockFrom(c, CallsOf(hyps[..i + 1]))))
  }

  lemma {:induction false} FromClockPrefix(c: ClockState, from: real, hyps: seq<Hypothesis>, n: nat)
    requires FromClock(c, from, hyps) && n <= |hyps|
    ensures FromClock(c, from, hyps[..n])
  {
    assert CallsOf(hyps[..n]) == CallsOf(hyps)[..n];
    forall i | 0 <= i < n
      ensures StampedAt(c, hyps[..n], i)
    {
      assert StampedAt(c, hyps, i);
      assert hyps[..n][..i + 1] == hyps[..i + 1];
    }
  }

  function Clock(c: ClockState, s: Runs.Session): ClockState
    requires c.Valid()
  {
    ClockFrom(c, CallsOf(s.heard))
  }

  /** No stamp from position `first` on lies before the cursor. */
  predicate NotBefore(ends: seq<real>, first: int, cursor: real) {
    forall p | 0 <= p < |ends| && first <= p :: cursor <= ends[p]
  }

  /** No stamp from the last committed word on lies before the audio cursor, and no phrase ends before it starts. */
  predicate SpanInv(c: ClockState, from: real, s: Runs.Session) {
    && FromClock(c, from, s.heard)
    && s.state.audioCursor <= (if s.heard == [] then from else s.heard[|s.heard| - 1].tAudioEnd)
    && NotBefore(Clock(c, s).ends, s.Committed() - 1, s.state.audioCursor)
    && (forall i | 0 <= i < |s.chunks| :: s.chunks[i].tAudioStart <= s.chunks[i].tAudioEnd)
  }

  /** Stamping again keeps stamps behind the cursor out, as long as the present audio is not behind it. */
  lemma {:induction false} StampingKeepsNotBefore(c: ClockState, words: seq<string>, audioEnd: real, first: int,
                                                  cursor: real)
    requires c.Valid() && NotBefore(c.ends, first, cursor) && cursor <= audioEnd
    ensures NotBefore(Stamped(c, words, audioEnd).ends, first, cursor)
  {
  }

  lemma {:induction false} ClockOneMore(c: ClockState, from: real, heard: seq<Hypothesis>, hyp: Hypothesis)
    requires c.Valid()
    ensures ClockFrom(c, CallsOf(heard + [hyp]))
         == Stamped(ClockFrom(c, CallsOf(heard)), Tokenise(hyp.text), hyp.tAudioEnd)
    ensures FromClock(c, from, heard + [hyp]) ==> hyp.tAudioEnd >= from
    ensures FromClock(c, from, heard + [hyp]) && heard != [] ==> heard[|heard| - 1].tAudioEnd <= hyp.tAudioEnd
  {
    var calls, n := CallsOf(heard + [hyp]), |heard|;
    assert calls[..n] == CallsOf(heard);
    assert (heard + [hyp])[n] == hyp;
    if FromClock(c, from, heard + [hyp]) && n > 0 {
      assert calls[n - 1].audioEnd <= calls[n].audioEnd;
    }
  }

  lemma {:induction false} HearingKeepsSpans(c: ClockState, from: real, e: Settings, s: Runs.Session, hyp: Hypothesis)
    requires SpanInv(c, from, s) && FromClock(c, from, s.heard + [hyp])
    ensures SpanInv(c, from, Runs.Recorded(e, s, hyp))
  {
    ClockOneMore(c, from, s.heard, hyp);
    StampingKeepsNotBefore(Clock(c, s), Tokenise(hyp.text), hyp.tAudioEnd, s.Committed() - 1, s.state.audioCursor);
  }

  lemma {:induction false} ClockAtLast(c: ClockState, from: real, heard: seq<Hypothesis>)
    requires heard != [] && FromClock(c, from, heard)
    ensures var hyp, clock := heard[|heard| - 1], ClockFrom(c, CallsOf(heard));
            && hyp.words == Some(Timings(clock)) && clock.words == Tokenise(hyp.text)
            && WordClocks.Nondecreasing(clock.ends) && AtMost(clock.ends, hyp.tAudioEnd)
  {
    var n, calls := |heard|, CallsOf(heard);
    assert StampedAt(c, heard, n - 1) && heard[..n] == heard;
    FitsMeans(c, from);
    assert calls[0].audioEnd == heard[0].tAudioEnd >= from;
    EndsStayInOrder(c, calls);
  }

  /** The latest hypothesis of a stamped run has a timing for each of its words. */
  lemma {:induction false} LatestTimesEveryWord(c: ClockState, from: real, heard: seq<Hypothesis>, k: nat)
    requires heard != [] && FromClock(c, from, heard) && 1 <= k <= |Tokenise(heard[|heard| - 1].text)|
    ensures var hyp, ends := heard[|heard| - 1], ClockFrom(c, CallsOf(heard)).ends;
            && HasTimingFor(hyp, k) && |ends| == |Tokenise(hyp.text)|
            && WordEndTime(hyp, k) == ends[k - 1] <= hyp.tAudioEnd
            && NotBefore(ends, k - 1, ends[k - 1])
  {
    ClockAtLast(c, from, heard);
    var hyp, clock := heard[|heard| - 1], ClockFrom(c, CallsOf(heard));
    assert Timings(clock)[k - 1].tAudioEnd == clock.ends[k - 1];
  }

  /** A phrase is always dated by a stamp, never by interpolation: the latest hypothesis times every word
      the chunker can commit. */
  lemma {:induction false} PhrasesAreDatedByStamps(c: ClockState, from: real, e: Settings, s: Runs.Session,
                                                   prefix: Prefix, take: nat)
    requires e.Usable() && Runs.TrackerInv(e, s) && FromClock(c, from, s.heard)
    requires Stable(e.config.agreementN, s.state.tracker) == Some(prefix) && 1 <= take <= |prefix.tokens|
    ensures s.heard != [] && s.state.lastHyp == Some(s.heard[|s.heard| - 1])
    ensures var hyp, k, ends := s.heard[|s.heard| - 1], s.Committed() + take, Clock(c, s).ends;
            && HasTimingFor(hyp, k) && k <= |ends|
            && WordEndTime(hyp, k) == ends[k - 1] <= hyp.tAudioEnd
            && NotBefore(ends, k - 1, ends[k - 1])
  {
    Runs.StableReaches(e, s, prefix, take);
    LatestTimesEveryWord(c, from, s.heard, s.Committed() + take);
  }

  /** What one commit does to the cursor and the words counted as spoken. */
  lemma {:induction false} SpeakingMovesCursor(s: Runs.Session, prefix: Prefix, take: nat, reason: CommitReason,
                                               now: Option<real>)
    requires 1 <= take <= |prefix.tokens| && s.state.lastHyp.Some?
    ensures var s', chunk := Runs.Speak(s, prefix, take, reason, now),
                             Runs.Speak(s, prefix, take, reason, now).chunks[|s.chunks|];
            && s'.chunks == s.chunks + [chunk] && s'.heard == s.heard && s'.Committed() == s.Committed() + take
            && chunk.tAudioStart == s.state.audioCursor
            && s'.state.audioCursor == chunk.tAudioEnd
            && chunk.tAudioEnd == WordEndTime(s.state.lastHyp.value, s.Committed() + take)
  {
  }

  lemma {:induction false} SpeakingKeepsSpans(c: ClockState, from: real, e: Settings, s: Runs.Session, prefix: Prefix,
                                              take: nat, reason: CommitReason, now: Option<real>)
    requires e.Usable() && Runs.TrackerInv(e, s) && SpanInv(c, from, s)
    requires Stable(e.config.agreementN, s.state.tracker) == Some(prefix) && 1 <= take <= |prefix.tokens|
    ensures s.state.lastHyp.Some?
    ensures SpanInv(c, from, Runs.Speak(s, prefix, take, reason, now))
  {
    PhrasesAreDatedByStamps(c, from, e, s, prefix, take);
    SpeakingMovesCursor(s, prefix, take, reason, now);
  }

  lemma {:induction false} DrainingKeepsSpans(c: ClockState, from: real, e: Settings, s: Runs.Session,
                                              reason: CommitReason, now: Option<real>)
    requires e.Usable() && Runs.Inv(e, s) && SpanInv(c, from, s) && s.state.lastHyp.Some?
    requires reason == Silence || reason == Final
    ensures SpanInv(c, from, Runs.DrainedSession(e, s, reason, now))
    decreases Agreed(e.config.agreementN, s.Window()) - s.Committed()
  {
    Runs.DrainUnfolds(e, s, reason, now);
    Runs.GuardAndDefaultUnused(e, s);
    var found := Stable(e.config.agreementN, s.state.tracker);
    if found.Some? {
      var take := Runs.Take(e, found.value);
      Runs.SpeakingKeepsInv(e, s, found.value, take, reason, now);
      SpeakingKeepsSpans(c, from, e, s, found.value, take, reason, now);
      DrainingKeepsSpans(c, from, e, Runs.Speak(s, found.value, take, reason, now), reason, now);
    }
  }

  lemma {:induction false} FinishingKeepsSpans(c: ClockState, from: real, e: Settings, s: Runs.Session,
                                               event: Runs.Event)
    requires e.Usable() && Runs.Inv(e, s) && SpanInv(c, from, s)
    ensures SpanInv(c, from, Runs.Finished(e, s, event))
  {
    if s.state.lastHyp.Some? {
      if event.Feed? && !event.hyp.isFinal {
        var take, reason := Runs.TryUnfolds(e, s);
        if take > 0 {
          SpeakingKeepsSpans(c, from, e, s, Stable(e.config.agreementN, s.state.tracker).value, take, reason, None);
        }
      } else if event.Tick? {
        DrainingKeepsSpans(c, from, e, s, Silence, Some(event.now));
      } else {
        DrainingKeepsSpans(c, from, e, s, Final, None);
      }
    }
  }

  lemma {:induction false} EveryRunKeepsSpans(c: ClockState, from: real, e: Settings, events: seq<Runs.Event>)
    requires e.Usable() && FromClock(c, from, Runs.After(e, events).heard)
    ensures SpanInv(c, from, Runs.After(e, events))
  {
    if events == [] {
      assert CallsOf([]) == [];
      FitsMeans(c, from);
    } else {
      var before, event := events[..|events| - 1], events[|events| - 1];
      var s, s' := Runs.After(e, before), Runs.After(e, events);
      Runs.EveryRunKeepsInv(e, before);
      Runs.StepKeepsInv(e, s, event);
      Runs.StepIsFinish(e, s, event);
      FromClockPrefix(c, from, s'.heard, |s.heard|);
      assert s'.heard[..|s.heard|] == s.heard;
      EveryRunKeepsSpans(c, from, e, before);
      if event.Feed? {
        HearingKeepsSpans(c, from, e, s, event.hyp);
      }
      FinishingKeepsSpans(c, from, e, Runs.Ready(e, s, event), event);
    }
  }

  /** Ordered, contiguous spans from zero, even when the backend takes words back. */
  predicate SpansOrdered(chunks: seq<PhraseChunk>) {
    Runs.Tiled(chunks) && forall i | 0 <= i < |chunks| :: chunks[i].tAudioStart <= chunks[i].tAudioEnd
  }

  lemma {:induction false} StampedSpansAreOrdered(c: ClockState, from: real, e: Settings, events: seq<Runs.Event>)
    requires e.Usable() && FromClock(c, from, Runs.After(e, events).heard)
    ensures SpansOrdered(Runs.After(e, events).chunks)
  {
    Runs.EveryRunKeepsInv(e, events);
    EveryRunKeepsSpans(c, from, e, events);
  }

  // ---------------------------------------------------------------- what the streaming adapter yields

  predicate TextsInOrder(emitted: seq<Emitted>) {
    forall i, j | 0 <= i <= j < |emitted| :: emitted[i].plan.end <= emitted[j].plan.end
  }

  lemma {:induction false} StepsEmitInOrder<S, F, E>(m: Model<S, F, E>, frames: seq<F>, plans: seq<ChunkPlan>)
    requires Within(plans, |frames|) && EndsInOrder(plans)
    ensures var st := SteppedAll(m, frames, plans);
            && TextsInOrder(st.emitted)
            && st.lastPlan == (if plans == [] then None else Some(plans[|plans| - 1]))
            && (plans == [] ==> st.emitted == [])
            && (forall i | 0 <= i < |st.emitted| :: st.emitted[i].plan.end <= plans[|plans| - 1].end)
  {
    if plans != [] {
      StepsEmitInOrder(m, frames, plans[..|plans| - 1]);
    }
  }

  lemma {:induction false} SessionTextsInOrder<S, F, E>(m: Model<S, F, E>, samples: seq<S>)
    requires m.Usable() && m.geometry.chunkFirst <= m.geometry.shiftFirst + m.geometry.chunk
    ensures TextsInOrder(Texts(m, samples))
  {
    var g, offered, total := m.geometry, |Arrived(m, samples)|, |Everything(m, samples)|;
    var plans, all := Plans(g, ORIGIN, offered), SessionPlans(g, offered, total);
    AllPlansEndInOrder(g, offered, total);
    PlansWithin(g, ORIGIN, offered);
    assert forall i | 0 <= i < |plans| :: plans[i] == all[i];
    assert EndsInOrder(plans);
    StepsEmitInOrder(m, Arrived(m, samples), plans);
    if Flush(g, Landing(g, ORIGIN, offered), total).Some? {
      assert all[|plans|].end == total;
    }
  }

  /** Every text of a session ends at or after a frame. */
  predicate StartsFrom(frame: nat, emitted: seq<Emitted>) {
    forall i | 0 <= i < |emitted| :: frame <= emitted[i].plan.end
  }

  lemma {:induction false} SessionHypothesesAreFromClock<S, F, E>(m: Model<S, F, E>, samples: seq<S>, c: ClockState,
                                                                  seqNo: nat, wall: nat -> real, frame: nat)
    requires m.Usable() && m.geometry.chunkFirst <= m.geometry.shiftFirst + m.geometry.chunk
    requires Fits(c, AudioTime(frame)) && StartsFrom(frame, Texts(m, samples))
    ensures FromClock(c, AudioTime(frame), Hypotheses(c, seqNo, wall, Texts(m, samples)))
  {
    SessionTextsInOrder(m, samples);
    OrderedTextsAreFromClock(c, seqNo, wall, Texts(m, samples), frame);
  }

  lemma {:induction false} CallsMatch(c: ClockState, seqNo: nat, wall: nat -> real, texts: seq<Emitted>)
    requires c.Valid()
    ensures CallsOf(Hypotheses(c, seqNo, wall, texts)) == Calls(texts)
  {
    if texts != [] {
      var init := texts[..|texts| - 1];
      CallsMatch(c, seqNo, wall, init);
      assert Calls(texts)[..|init|] == Calls(init);
      assert CallsOf(Hypotheses(c, seqNo, wall, texts))[..|init|] == CallsOf(Hypotheses(c, seqNo, wall, init));
    }
  }

  lemma {:induction false} HypothesisIsStamped(c: ClockState, seqNo: nat,
                                               wall: nat -> real, texts: seq<Emitted>, k: nat)
    requires c.Valid() && k < |texts|
    ensures StampedAt(c, Hypotheses(c, seqNo, wall, texts), k)
    ensures Hypotheses(c, seqNo, wall, texts)[k].tAudioEnd == AudioTime(texts[k].plan.end)
  {
    HypothesisAt(c, seqNo, wall, texts, k);
    HypothesesPrefix(c, seqNo, wall, texts, k + 1);
    CallsMatch(c, seqNo, wall, texts[..k + 1]);
  }

  lemma {:induction false} OrderedTextsAreFromClock(c: ClockState, seqNo: nat,
                                                    wall: nat -> real, texts: seq<Emitted>, frame: nat)
    requires Fits(c, AudioTime(frame)) && TextsInOrder(texts) && StartsFrom(frame, texts)
    ensures FromClock(c, AudioTime(frame), Hypotheses(c, seqNo, wall, texts))
  {
    var hyps := Hypotheses(c, seqNo, wall, texts);
    forall k | 0 <= k < |hyps|
      ensures StampedAt(c, hyps, k) && hyps[k].tAudioEnd == AudioTime(texts[k].plan.end)
    {
      HypothesisIsStamped(c, seqNo, wall, texts, k);
    }
  }

  /** From encoder steps to phrases, for any session of an adapter whose clock fits the session's start; a new
      adapter's always does. However audio arrives, whatever the encoder says and takes back, wherever ticks
      fall, and at whatever point the stream is cut: its phrases have ordered, contiguous spans starting at
      zero. */
  lemma {:induction false} StreamingSpansAreOrdered<S, F, E>(
      m: Model<S, F, E>, samples: seq<S>, c: ClockState, seqNo: nat, wall: nat -> real, frame: nat,
      e: Settings, events: seq<Runs.Event>)
    requires m.Usable() && m.geometry.chunkFirst <= m.geometry.shiftFirst + m.geometry.chunk
    requires c == UNSET || (Fits(c, AudioTime(frame)) && StartsFrom(frame, Texts(m, samples)))
    requires e.Usable() && Runs.After(e, events).heard <= Hypotheses(c, seqNo, wall, Texts(m, samples))
    ensures SpansOrdered(Runs.After(e, events).chunks)
  {
    var start := if c == UNSET then 0 else frame;
    var hyps, heard := Hypotheses(c, seqNo, wall, Texts(m, samples)), Runs.After(e, events).heard;
    FitsMeans(c, AudioTime(start));
    SessionHypothesesAreFromClock(m, samples, c, seqNo, wall, start);
    FromClockPrefix(c, AudioTime(start), hyps, |heard|);
    assert heard == hyps[..|heard|];
    StampedSpansAreOrdered(c, AudioTime(start), e, events);
  }
}
