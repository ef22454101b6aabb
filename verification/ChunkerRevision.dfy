/** What was spoken against what the backend later said. */
module ChunkerRevision {
  import opened Sequences
  import opened Options
  import opened Words
  import opened Transcript
  import opened Stability
  import opened Chunker
  import opened ChunkerRuns

  /** The audience's words as the agreement comparison sees them. */
  function SaidTokens(e: Settings, s: Session): seq<string> { Normalised(e.lex.normalise, Spoken(s.chunks)) }

  /** The tracker flags this hypothesis, were it fed now. */
  predicate Flags(s: Session, normalised: seq<string>) { Detects(s.state.tracker, normalised) }

  /** No hypothesis of the run was flagged when it arrived. */
  predicate Unflagged(e: Settings, events: seq<Event>)
    requires e.Usable()
  {
    events == [] ||
    var before, event := events[..|events| - 1], events[|events| - 1];
    Unflagged(e, before) && (event.Feed? ==> !Flags(After(e, before), Tokens(e, event.hyp)))
  }

  /** Speaking has stayed within the latest hypothesis. */
  predicate LatestExtendsSpoken(e: Settings, s: Session) {
    s.heard != [] ==> SaidTokens(e, s) <= Tokens(e, s.heard[|s.heard| - 1])
  }

  lemma {:induction false} NormalisedAppend(f: Normaliser, a: seq<string>, b: seq<string>)
    ensures Normalised(f, a + b) == Normalised(f, a) + Normalised(f, b)
  {
  }

  lemma {:induction false} NormalisedSlice(f: Normaliser, a: seq<string>, lo: nat, hi: nat)
    requires lo <= hi <= |a|
    ensures Normalised(f, a[lo..hi]) == Normalised(f, a)[lo..hi]
  {
  }

  /** Two hypotheses compare equal exactly when they have the same words up to normalisation. */
  lemma {:induction false} ComparedUpToNormalisation(e: Settings, a: Hypothesis, b: Hypothesis)
    ensures var x, y := Tokenise(a.text), Tokenise(b.text);
            Tokens(e, a) == Tokens(e, b)
            <==> |x| == |y| && forall i | 0 <= i < |x| :: e.lex.normalise(x[i]) == e.lex.normalise(y[i])
  {
    var x, y := Tokenise(a.text), Tokenise(b.text);
    assert forall i | 0 <= i < |x| :: Tokens(e, a)[i] == e.lex.normalise(x[i]);
    assert forall i | 0 <= i < |y| :: Tokens(e, b)[i] == e.lex.normalise(y[i]);
  }

  /** While nothing is flagged, the latest hypothesis begins with everything spoken. */
  lemma {:induction false} UnflaggedRunFollowsLatest(e: Settings, events: seq<Event>)
    requires e.Usable() && Unflagged(e, events)
    ensures LatestExtendsSpoken(e, After(e, events))
  {
    if events != [] {
      var before, event := events[..|events| - 1], events[|events| - 1];
      UnflaggedRunFollowsLatest(e, before);
      EveryRunKeepsInv(e, before);
      var s := After(e, before);
      StepKeepsInv(e, s, event);
      ReadyFollowsLatest(e, s, event);
      SpeakingFollowsLatest(e, Ready(e, s, event), Step(e, s, event));
    }
  }

  lemma {:induction false} ReadyFollowsLatest(e: Settings, s: Session, event: Event)
    requires e.Usable() && Inv(e, s) && LatestExtendsSpoken(e, s)
    requires event.Feed? ==> !Flags(s, Tokens(e, event.hyp))
    ensures LatestExtendsSpoken(e, Ready(e, s, event))
  {
    if event.Feed? && s.Committed() > 0 {
      var spoken, next := SaidTokens(e, s), Tokens(e, event.hyp);
      var previous := s.Window()[|s.Window()| - 1];
      assert spoken == previous[..s.Committed()] == next[..s.Committed()];
    }
  }

  lemma {:induction false} SpeakingFollowsLatest(e: Settings, s: Session, s': Session)
    requires Inv(e, s) && Inv(e, s') && Extends(e, s, s') && s.heard == s'.heard
    requires LatestExtendsSpoken(e, s)
    ensures LatestExtendsSpoken(e, s')
  {
    if s.Committed() < s'.Committed() && s.heard != [] {
      var f, surface := e.lex.normalise, s'.Surface();
      var latest := Normalised(f, surface);
      NormalisedAppend(f, Spoken(s.chunks), surface[s.Committed()..s'.Committed()]);
      NormalisedSlice(f, surface, s.Committed(), s'.Committed());
      assert SaidTokens(e, s) == latest[..s.Committed()];
      assert SaidTokens(e, s') == latest[..s.Committed()] + latest[s.Committed()..s'.Committed()]
          == latest[..s'.Committed()];
    }
  }

  /** The detector is exact in a state: it flags precisely the hypotheses that do not begin with
      everything spoken. */
  ghost predicate DetectorExact(e: Settings, s: Session) {
    forall normalised: seq<string> :: Flags(s, normalised) <==> !(SaidTokens(e, s) <= normalised)
  }

  /** A word different from the given one. */
  function Other(w: string): (o: string)
    ensures o != w
  {
    w + "x"
  }

  /** In any reachable state the detector is exact if and only if nothing has been spoken or the latest
      hypothesis still begins with everything that has. */
  lemma {:induction false} DetectorExactIff(e: Settings, events: seq<Event>)
    requires e.Usable()
    ensures var s := After(e, events);
            DetectorExact(e, s) <==> s.chunks == [] || LatestExtendsSpoken(e, s)
  {
    EveryRunKeepsInv(e, events);
    var s := After(e, events);
    assert s.chunks == [] <==> s.Committed() == 0 by { NothingSpoken(e, s.chunks); }
    if s.Committed() > 0 {
      var c, spoken := s.Committed(), SaidTokens(e, s);
      var previous := s.Window()[|s.Window()| - 1];
      if LatestExtendsSpoken(e, s) {
        assert previous[..c] == spoken;
        forall normalised: seq<string>
          ensures Flags(s, normalised) <==> !(spoken <= normalised)
        {
          if c <= |normalised| {
            assert spoken <= normalised <==> normalised[..c] == spoken;
          }
        }
      } else if c <= |previous| {
        assert spoken[..c] == spoken && previous[..c] != spoken;
        assert Flags(s, spoken) && spoken <= spoken;
      } else {
        var unlike := [Other(spoken[0])] + spoken[1..];
        assert unlike[0] != spoken[0];
        assert !Flags(s, unlike) && !(spoken <= unlike);
      }
    }
  }

  lemma {:induction false} NothingSpoken(e: Settings, chunks: seq<PhraseChunk>)
    requires ChunksInv(e, chunks)
    ensures chunks == [] <==> Spoken(chunks) == []
  {
    if chunks != [] {
      assert WellSized(e, chunks[|chunks| - 1]);
    }
  }

  /** Up to and including the first flag, a hypothesis is flagged exactly when it takes back a spoken word. */
  lemma {:induction false} DetectorExactUpToFirstFlag(e: Settings, events: seq<Event>)
    requires e.Usable() && Unflagged(e, events)
    ensures DetectorExact(e, After(e, events))
  {
    UnflaggedRunFollowsLatest(e, events);
    DetectorExactIff(e, events);
  }

  /** After a flag the detector compares with the latest hypothesis, not with what was spoken: once "b" has
      replaced a spoken "a", saying "b" again takes back the "a" just as much and is not flagged. */
  lemma {:induction false} DetectorCanMissAfterAFlag(e: Settings, a: Hypothesis, b: Hypothesis)
    requires e.Usable() && e.config.agreementN == 1 && e.config.maxWords == 1
    requires !a.isFinal && !b.isFinal && a.text == "a" && b.text == "b"
    requires e.lex.normalise("a") != e.lex.normalise("b")
    ensures var s := After(e, [Feed(a), Feed(b)]);
            && Spoken(s.chunks) == ["a"]
            && !(SaidTokens(e, s) <= Tokens(e, b)) && !Flags(s, Tokens(e, b))
            && !DetectorExact(e, s)
  {
    TokeniseJoin(["a"]);
    TokeniseJoin(["b"]);
    assert Join(["a"]) == "a" && Join(["b"]) == "b";
    TwoHeard(e, a, b);
    OneWordIsSpoken(e, a);
    ReplacedWordIsMissed(e, Step(e, BEGIN, Feed(a)), b);
  }

  lemma {:induction false} TwoHeard(e: Settings, a: Hypothesis, b: Hypothesis)
    requires e.Usable()
    ensures Inv(e, Step(e, BEGIN, Feed(a)))
    ensures After(e, [Feed(a), Feed(b)]) == Step(e, Step(e, BEGIN, Feed(a)), Feed(b))
  {
    EveryRunKeepsInv(e, []);
    StepKeepsInv(e, BEGIN, Feed(a));
    AfterOneMore(e, [], Feed(a));
    AfterOneMore(e, [Feed(a)], Feed(b));
    assert [] + [Feed(a)] == [Feed(a)] && [Feed(a)] + [Feed(b)] == [Feed(a), Feed(b)];
  }

  lemma {:induction false} ReplacedWordIsMissed(e: Settings, s: Session, b: Hypothesis)
    requires e.Usable() && e.config.agreementN == 1 && Inv(e, s) && |Spoken(s.chunks)| == |Tokenise(b.text)| == 1
    requires e.lex.normalise(Spoken(s.chunks)[0]) != e.lex.normalise(Tokenise(b.text)[0])
    ensures var s' := Step(e, s, Feed(b));
            && Spoken(s'.chunks) == Spoken(s.chunks)
            && !(SaidTokens(e, s') <= Tokens(e, b)) && !Flags(s', Tokens(e, b)) && !DetectorExact(e, s')
  {
    OtherWordIsSilent(e, s, b);
    var s' := Step(e, s, Feed(b));
    assert SaidTokens(e, s')[0] != Tokens(e, b)[0];
  }

  /** With one word spoken, a hypothesis of one word leaves nothing to say. */
  lemma {:induction false} OtherWordIsSilent(e: Settings, s: Session, b: Hypothesis)
    requires e.Usable() && e.config.agreementN == 1 && Inv(e, s) && s.Committed() == 1
    requires |Tokenise(b.text)| == 1
    ensures var s' := Step(e, s, Feed(b));
            && s'.chunks == s.chunks && s'.Committed() == 1
            && s'.Window() != [] && s'.Window()[|s'.Window()| - 1] == Tokens(e, b)
  {
    StepKeepsInv(e, s, Feed(b));
    GuardAndDefaultUnused(e, Recorded(e, s, b));
    HearingMovesWindow(e, s, b);
  }

  lemma {:induction false} OneWordIsSpoken(e: Settings, a: Hypothesis)
    requires e.Usable() && e.config.agreementN == 1 && e.config.maxWords == 1
    requires !a.isFinal && |Tokenise(a.text)| == 1
    ensures var s := Step(e, BEGIN, Feed(a)); s.Committed() == 1 && Spoken(s.chunks) == Tokenise(a.text)
  {
    EveryRunKeepsInv(e, []);
    HearingKeepsInv(e, BEGIN, a);
    StepKeepsInv(e, BEGIN, Feed(a));
    StepIsFinish(e, BEGIN, Feed(a));
    var ready := Recorded(e, BEGIN, a);
    assert ready.Window() == [Tokens(e, a)];
    AgreedIff(1, ready.Window(), 1);
    AgreedIff(1, ready.Window(), 2);
    GuardAndDefaultUnused(e, ready);
    var take, reason := TryUnfolds(e, ready);
  }

  /** The last hypothesis heard was a final; ticks and flushes may have followed it. */
  predicate EndsInFinal(s: Session) { s.heard != [] && s.heard[|s.heard| - 1].isFinal }

  /** An unflagged run whose last hypothesis is a final has spoken that final exactly, up to normalisation. */
  lemma {:induction false} UnflaggedFinalIsSpoken(e: Settings, events: seq<Event>)
    requires e.Usable() && Unflagged(e, events) && EndsInFinal(After(e, events))
    ensures var s := After(e, events); SaidTokens(e, s) == Tokens(e, s.heard[|s.heard| - 1])
  {
    EveryRunKeepsInv(e, events);
    UnflaggedRunFollowsLatest(e, events);
    SpeakingReachesFinal(e, events);
  }

  /** A final fills the window with itself. */
  lemma {:induction false} FinalFillsWindow(e: Settings, s: Session, hyp: Hypothesis)
    requires e.Usable() && Inv(e, s) && hyp.isFinal
    ensures |Tokens(e, hyp)| <= Agreed(e.config.agreementN, Recorded(e, s, hyp).Window())
  {
    var n, entry, window := e.config.agreementN, Tokens(e, hyp), s.Window();
    PushIsLast(n, Entries(e, s.heard), entry, n);
    var filled := PushTimes(n, window, entry, n);
    assert filled == Repeat(entry, n);
    AgreedIff(n, filled, |entry|);
  }

  /** So the drain that follows a final reaches its last word. */
  lemma {:induction false} FinalSpeaksAll(e: Settings, s: Session, hyp: Hypothesis)
    requires e.Usable() && Inv(e, s) && hyp.isFinal
    ensures var s' := Step(e, s, Feed(hyp));
            |Tokenise(hyp.text)| <= s'.Committed() && s'.Surface() == Tokenise(hyp.text)
  {
    HearingKeepsInv(e, s, hyp);
    StepIsFinish(e, s, Feed(hyp));
    DrainingKeepsInv(e, Recorded(e, s, hyp), Final, None);
    FinalFillsWindow(e, s, hyp);
  }

  /** The latest hypothesis has been spoken through, or past, its last word. */
  predicate SpokenThrough(s: Session) {
    s.heard != [] && s.Surface() == Tokenise(s.heard[|s.heard| - 1].text) && |s.Surface()| <= s.Committed()
  }

  /** And whatever ticks and flushes follow, nothing of the final is left unsaid. */
  lemma {:induction false} SpeakingReachesFinal(e: Settings, events: seq<Event>)
    requires e.Usable() && EndsInFinal(After(e, events))
    ensures SpokenThrough(After(e, events))
  {
    var before, event := events[..|events| - 1], events[|events| - 1];
    var s := After(e, before);
    EveryRunKeepsInv(e, before);
    assert After(e, events) == Step(e, s, event);
    if !event.Feed? {
      OtherEventsOnlySpeak(e, s, event);
      SpeakingReachesFinal(e, before);
    } else {
      FinalSpeaksAll(e, s, event.hyp);
    }
  }

  lemma {:induction false} OtherEventsOnlySpeak(e: Settings, s: Session, event: Event)
    requires e.Usable() && Inv(e, s) && !event.Feed?
    ensures Step(e, s, event).heard == s.heard
    ensures SpokenThrough(s) ==> SpokenThrough(Step(e, s, event))
  {
    StepKeepsInv(e, s, event);
  }

  // ---------------------------------------------------------------- how a flag is reported

  /** Going from s to s', a raised flag is carried by the first phrase emitted, by no other, and is then
      lowered; with no phrase it stays as it was. */
  predicate Reported(s: Session, s': Session) {
    && s.chunks <= s'.chunks
    && (s.chunks == s'.chunks ==> s'.state.tracker.contradicted == s.state.tracker.contradicted)
    && (s.chunks != s'.chunks ==>
          && !s'.state.tracker.contradicted
          && s'.chunks[|s.chunks|].revisedAfterCommit == s.state.tracker.contradicted
          && forall i | |s.chunks| < i < |s'.chunks| :: !s'.chunks[i].revisedAfterCommit)
  }

  lemma {:induction false} DrainReports(e: Settings, s: Session, reason: CommitReason, now: Option<real>)
    requires e.Usable() && Inv(e, s) && s.state.lastHyp.Some? && (reason == Silence || reason == Final)
    ensures Reported(s, DrainedSession(e, s, reason, now))
    decreases Agreed(e.config.agreementN, s.Window()) - s.Committed()
  {
    DrainUnfolds(e, s, reason, now);
    GuardAndDefaultUnused(e, s);
    var found := Stable(e.config.agreementN, s.state.tracker);
    if found.Some? {
      var s1 := Speak(s, found.value, Take(e, found.value), reason, now);
      SpeakingKeepsInv(e, s, found.value, Take(e, found.value), reason, now);
      DrainReports(e, s1, reason, now);
      ReportedComposes(s, s1, DrainedSession(e, s1, reason, now));
    }
  }

  lemma {:induction false} ReportedComposes(a: Session, b: Session, c: Session)
    requires Reported(a, b) && a.chunks != b.chunks && Reported(b, c)
    ensures Reported(a, c)
  {
  }

  /** A contradiction is reported once, on the next phrase after the hypothesis that raised it, and waits
      unreported for as long as nothing is committed. */
  lemma {:induction false} FlagIsReportedOnNextPhrase(e: Settings, events: seq<Event>, event: Event)
    requires e.Usable()
    ensures var s, s' := After(e, events), After(e, events + [event]);
            && Reported(Ready(e, s, event), s')
            && Ready(e, s, event).state.tracker.contradicted
               == (s.state.tracker.contradicted || (event.Feed? && Flags(s, Tokens(e, event.hyp))))
  {
    AfterOneMore(e, events, event);
    EveryRunKeepsInv(e, events);
    var s := After(e, events);
    var ready := Ready(e, s, event);
    StepIsFinish(e, s, event);
    StepKeepsInv(e, s, event);
    if ready.state.lastHyp.Some? {
      if event.Feed? && !event.hyp.isFinal {
        var take, reason := TryUnfolds(e, ready);
      } else if event.Tick? {
        DrainReports(e, ready, Silence, Some(event.now));
      } else {
        DrainReports(e, ready, Final, None);
      }
    }
  }

  // ---------------------------------------------------------------- append-only speech

  /** Each hypothesis adds words to the one before it and takes none back. */
  predicate AppendOnly(heard: seq<Hypothesis>) {
    forall i | 0 < i < |heard| :: Tokenise(heard[i - 1].text) <= Tokenise(heard[i].text)
  }

  predicate SpokenIsPrefix(s: Session) { s.heard != [] ==> Spoken(s.chunks) <= s.Surface() }

  lemma {:induction false} AppendOnlyRunSpeaksPrefix(e: Settings, events: seq<Event>)
    requires e.Usable() && AppendOnly(After(e, events).heard)
    ensures SpokenIsPrefix(After(e, events))
  {
    if events != [] {
      var before, event := events[..|events| - 1], events[|events| - 1];
      var s := After(e, before);
      EveryRunKeepsInv(e, before);
      assert After(e, events) == Step(e, s, event);
      HearingAppends(s.heard, event, Step(e, s, event).heard);
      AppendOnlyRunSpeaksPrefix(e, before);
      StepSpeaksPrefix(e, s, event);
    }
  }

  /** Append-only speech was so before its last event, and that event appends. */
  lemma {:induction false} HearingAppends(heard: seq<Hypothesis>, event: Event, heard': seq<Hypothesis>)
    requires heard' == (if event.Feed? then heard + [event.hyp] else heard) && AppendOnly(heard')
    ensures AppendOnly(heard)
    ensures event.Feed? && heard != [] ==> Tokenise(heard[|heard| - 1].text) <= Tokenise(event.hyp.text)
  {
    forall i | 0 < i < |heard|
      ensures Tokenise(heard[i - 1].text) <= Tokenise(heard[i].text)
    {
      assert heard'[i - 1] == heard[i - 1] && heard'[i] == heard[i];
    }
    var n := |heard|;
    if event.Feed? && n > 0 {
      assert heard'[n - 1] == heard[n - 1] && heard'[n] == event.hyp;
    }
  }

  lemma {:induction false} StepSpeaksPrefix(e: Settings, s: Session, event: Event)
    requires e.Usable() && Inv(e, s) && SpokenIsPrefix(s)
    requires event.Feed? && s.heard != [] ==> Tokenise(s.heard[|s.heard| - 1].text) <= Tokenise(event.hyp.text)
    ensures SpokenIsPrefix(Step(e, s, event))
  {
    StepKeepsInv(e, s, event);
    SpeakingKeepsPrefix(e, Ready(e, s, event), Step(e, s, event));
  }

  lemma {:induction false} SpeakingKeepsPrefix(e: Settings, s: Session, s': Session)
    requires Inv(e, s) && Inv(e, s') && Extends(e, s, s')
    requires s.heard == s'.heard && s.Surface() == s'.Surface() && SpokenIsPrefix(s)
    ensures SpokenIsPrefix(s')
  {
    if s.Committed() < s'.Committed() && s.heard != [] {
      assert Spoken(s.chunks) == s.Surface()[..s.Committed()];
      assert Spoken(s'.chunks) == s.Surface()[..s'.Committed()];
    }
  }

  function Texts(chunks: seq<PhraseChunk>): seq<string> {
    seq(|chunks|, i requires 0 <= i < |chunks| => chunks[i].text)
  }

  lemma {:induction false} SpokenIsFlattened(chunks: seq<PhraseChunk>)
    ensures Spoken(chunks) == Flatten(seq(|chunks|, i requires 0 <= i < |chunks| => Tokenise(chunks[i].text)))
  {
    if chunks != [] {
      var init, last := chunks[..|chunks| - 1], chunks[|chunks| - 1];
      SpokenIsFlattened(init);
      var pieces := seq(|init|, i requires 0 <= i < |init| => Tokenise(init[i].text));
      FlattenAppend(pieces, [Tokenise(last.text)]);
      assert Flatten([Tokenise(last.text)]) == Tokenise(last.text) + [];
      assert pieces + [Tokenise(last.text)]
          == seq(|chunks|, i requires 0 <= i < |chunks| => Tokenise(chunks[i].text));
    }
  }

  /** Joining the phrase texts with single spaces gives the spoken words joined with single spaces. */
  lemma {:induction false} TextsReassemble(e: Settings, chunks: seq<PhraseChunk>)
    requires ChunksInv(e, chunks)
    ensures Join(Texts(chunks)) == Join(Spoken(chunks))
  {
    var pieces := seq(|chunks|, i requires 0 <= i < |chunks| => Tokenise(chunks[i].text));
    SpokenIsFlattened(chunks);
    forall i | 0 <= i < |chunks|
      ensures pieces[i] != [] && Join(pieces[i]) == chunks[i].text
    {
      assert WellSized(e, chunks[i]);
    }
    JoinOfJoins(pieces);
    assert Texts(chunks) == seq(|pieces|, i requires 0 <= i < |pieces| => Join(pieces[i]));
  }

  /** On append-only speech that ends in a final, the phrases together are the final transcript: no word
      lost, repeated or reworded, whatever the agreement, size, wait and boundary settings, and wherever
      ticks and flushes fell. */
  lemma {:induction false} FinalTranscriptIsSpoken(e: Settings, events: seq<Event>)
    requires e.Usable() && AppendOnly(After(e, events).heard) && EndsInFinal(After(e, events))
    ensures var s := After(e, events);
            var final := s.heard[|s.heard| - 1];
            && Spoken(s.chunks) == Tokenise(final.text)
            && Join(Texts(s.chunks)) == Join(Tokenise(final.text))
  {
    EveryRunKeepsInv(e, events);
    AppendOnlyRunSpeaksPrefix(e, events);
    SpeakingReachesFinal(e, events);
    TextsReassemble(e, After(e, events).chunks);
  }

  lemma {:induction false} HeardIsIndependentOfSettings(e: Settings, e': Settings, events: seq<Event>)
    requires e.Usable() && e'.Usable()
    ensures After(e, events).heard == After(e', events).heard
  {
    if events != [] {
      HeardIsIndependentOfSettings(e, e', events[..|events| - 1]);
    }
  }

  /** Tuning moves the cuts, never the words. */
  lemma {:induction false} TuningNeverChangesTheWords(e: Settings, e': Settings, events: seq<Event>)
    requires e.Usable() && e'.Usable()
    requires AppendOnly(After(e, events).heard) && EndsInFinal(After(e, events))
    ensures Spoken(After(e, events).chunks) == Spoken(After(e', events).chunks)
    ensures Join(Texts(After(e, events).chunks)) == Join(Texts(After(e', events).chunks))
  {
    HeardIsIndependentOfSettings(e, e', events);
    FinalTranscriptIsSpoken(e, events);
    FinalTranscriptIsSpoken(e', events);
  }
}
