/** What makes an interim hypothesis commit, and what each phrase says about itself. */
module ChunkerPhrases {
  import opened Options
  import opened Durations
  import opened Words
  import opened Transcript
  import opened Clause
  import opened Stability
  import opened Chunker
  import opened ChunkerRuns

  // ---------------------------------------------------------------- when an interim commits

  /** The agreed words of the latest hypothesis from position `start` on. */
  function AgreedFromOn(e: Settings, s: Session, start: nat): seq<string> {
    if start <= AgreedIn(e, s) <= |s.Surface()| then s.Surface()[start..AgreedIn(e, s)] else []
  }

  /** The latest place where punctuation allows a cut. */
  predicate LatestPunctuation(e: Settings, ts: seq<string>, k: nat) {
    && Punctuated(e.lex, ts, e.config.minWords, k)
    && forall l: nat | l <= |ts| && Punctuated(e.lex, ts, e.config.minWords, l) :: l <= k
  }

  /** The latest conjunction that can open the next phrase. */
  predicate LatestConjunction(e: Settings, ts: seq<string>, k: nat) {
    && BeforeConjunction(e.lex, ts, e.config.minWords, k)
    && forall l: nat | l <= |ts| && BeforeConjunction(e.lex, ts, e.config.minWords, l) :: l <= k
  }

  predicate NoPunctuation(e: Settings, ts: seq<string>) {
    forall l: nat | l <= |ts| :: !Punctuated(e.lex, ts, e.config.minWords, l)
  }

  predicate NoConjunction(e: Settings, ts: seq<string>) {
    forall l: nat | l <= |ts| :: !BeforeConjunction(e.lex, ts, e.config.minWords, l)
  }

  /** Close enough to max_words for a conjunction to do. */
  predicate WeakAllowed(e: Settings, ts: seq<string>) {
    e.config.allowConjunctionBoundary && |ts| as real >= e.config.conjunctionThreshold * e.config.maxWords as real
  }

  /** How many of these words an interim commits and why, 0 for none, told from the words and the wait alone. */
  predicate Rules(e: Settings, ts: seq<string>, lag: real, take: nat, reason: CommitReason) {
    if |ts| >= e.config.maxWords then take == e.config.maxWords && reason.MaxWords?
    else if !NoPunctuation(e, ts) then LatestPunctuation(e, ts, take) && reason.ClauseBoundary?
    else if WeakAllowed(e, ts) && !NoConjunction(e, ts) then LatestConjunction(e, ts, take) && reason.ClauseBoundary?
    else if |ts| >= e.config.minWords && lag >= e.config.maxWaitS then take == |ts| && reason.StabilityTimeout?
    else take == 0
  }

  lemma {:induction false} DecisionFollowsRules(e: Settings, ts: seq<string>, lag: real)
    requires e.Usable()
    ensures var (take, reason) := Decide(e, ts, lag); Rules(e, ts, lag, take, reason)
  {
    var cfg := e.config;
    TimesIsProduct(cfg.maxWords, cfg.conjunctionThreshold);
    assert cfg.maxWords as real * cfg.conjunctionThreshold == cfg.conjunctionThreshold * cfg.maxWords as real;
    FindBoundaryIsLatest(e.lex, ts, cfg.minWords, WeakAllowed(e, ts));
  }

  /** Exactly one phrase more, of so many words and for this reason. */
  predicate SpokeOne(s: Session, s': Session, take: nat, reason: CommitReason) {
    && |s'.chunks| == |s.chunks| + 1 && s.chunks <= s'.chunks
    && s'.chunks[|s.chunks|].wordCount == take && s'.chunks[|s.chunks|].reason == reason
  }

  /** In any reachable state an interim hypothesis follows the rules on the agreed words not yet spoken: a full
      phrase if there are enough of them; else up to the latest punctuation that leaves min_words; else, when close
      enough to max_words, up to the latest conjunction; else all of them once their length was first seen
      max_wait_s ago; else nothing. */
  lemma {:induction false} InterimFollowsRules(e: Settings, events: seq<Event>, hyp: Hypothesis)
    returns (take: nat, reason: CommitReason)
    requires e.Usable() && !hyp.isFinal
    ensures var s, s' := After(e, events), After(e, events + [Feed(hyp)]);
            && AgreedIn(e, s') in s'.state.tracker.firstSeen
            && Rules(e, AgreedFromOn(e, s', s.Committed()),
                     hyp.tWall - s'.state.tracker.firstSeen[AgreedIn(e, s')], take, reason)
            && (take == 0 ==> s'.chunks == s.chunks)
            && (take > 0 ==> SpokeOne(s, s', take, reason))
  {
    AfterOneMore(e, events, Feed(hyp));
    EveryRunKeepsInv(e, events);
    take, reason := StepFollowsRules(e, After(e, events), hyp);
  }

  lemma {:induction false} StepFollowsRules(e: Settings, s: Session, hyp: Hypothesis)
    returns (take: nat, reason: CommitReason)
    requires e.Usable() && !hyp.isFinal && Inv(e, s)
    ensures var s' := Step(e, s, Feed(hyp));
            && AgreedIn(e, s') in s'.state.tracker.firstSeen
            && Rules(e, AgreedFromOn(e, s', s.Committed()),
                     hyp.tWall - s'.state.tracker.firstSeen[AgreedIn(e, s')], take, reason)
            && (take == 0 ==> s'.chunks == s.chunks)
            && (take > 0 ==> SpokeOne(s, s', take, reason))
  {
    StepKeepsInv(e, s, Feed(hyp));
    StepIsFinish(e, s, Feed(hyp));
    var ready := Recorded(e, s, hyp);
    GuardAndDefaultUnused(e, ready);
    var ts, lag := AgreedFromOn(e, ready, s.Committed()), hyp.tWall - ready.state.tracker.firstSeen[AgreedIn(e, ready)];
    DecisionFollowsRules(e, ts, lag);
    TryDecides(e, ready, ts, lag);
    take, reason := Decide(e, ts, lag).0, Decide(e, ts, lag).1;
  }

  /** Trying follows the decision on the agreed words. */
  lemma {:induction false} TryDecides(e: Settings, ready: Session, ts: seq<string>, lag: real)
    requires e.Usable() && TrackerInv(e, ready) && ready.state.lastHyp.Some?
    requires ts == AgreedFromOn(e, ready, ready.Committed())
    requires AgreedIn(e, ready) in ready.state.tracker.firstSeen
    requires lag == ready.state.lastHyp.value.tWall - ready.state.tracker.firstSeen[AgreedIn(e, ready)]
    ensures var s', (take, reason) := TriedSession(e, ready), Decide(e, ts, lag);
            if take == 0 then s'.chunks == ready.chunks else SpokeOne(ready, s', take, reason)
  {
    GuardAndDefaultUnused(e, ready);
    DecisionFits(e, ts, lag);
    assert ready.chunks + [] == ready.chunks;
  }

  // ---------------------------------------------------------------- when a length was first seen

  /** The agreed length after these hypotheses. */
  function AgreedAfter(e: Settings, heard: seq<Hypothesis>): nat {
    Agreed(e.config.agreementN, Last(e.config.agreementN, Entries(e, heard)))
  }

  /** And after each of them in turn. */
  function AgreedLengths(e: Settings, heard: seq<Hypothesis>): (lengths: seq<nat>)
    ensures |lengths| == |heard|
  {
    if heard == [] then [] else AgreedLengths(e, heard[..|heard| - 1]) + [AgreedAfter(e, heard)]
  }

  /** Position j is the first at which the length was k. */
  predicate FirstAt(lengths: seq<nat>, k: nat, j: nat) {
    j < |lengths| && lengths[j] == k && forall i | 0 <= i < j :: lengths[i] != k
  }

  ghost predicate SeenAs(lengths: seq<nat>, heard: seq<Hypothesis>, k: nat, wall: real) {
    exists j: nat :: FirstAt(lengths, k, j) && j < |heard| && wall == heard[j].tWall
  }

  ghost predicate SeenInv(lengths: seq<nat>, heard: seq<Hypothesis>, firstSeen: map<nat, real>) {
    && (forall k | k in firstSeen :: SeenAs(lengths, heard, k, firstSeen[k]))
    && (forall j | 0 <= j < |lengths| :: lengths[j] in firstSeen)
  }

  lemma {:induction false} LengthsGrow(e: Settings, heard: seq<Hypothesis>, hyp: Hypothesis)
    ensures AgreedLengths(e, heard + [hyp]) == AgreedLengths(e, heard) + [AgreedAfter(e, heard + [hyp])]
  {
    assert (heard + [hyp])[..|heard|] == heard;
  }

  /** The time a length is first seen is the wall time of the first hypothesis after which it was the agreed one. */
  lemma {:induction false} FirstSightingsAreFirst(e: Settings, events: seq<Event>)
    requires e.Usable()
    ensures var s := After(e, events); SeenInv(AgreedLengths(e, s.heard), s.heard, s.state.tracker.firstSeen)
  {
    if events != [] {
      var before, event := events[..|events| - 1], events[|events| - 1];
      var s := After(e, before);
      FirstSightingsAreFirst(e, before);
      EveryRunKeepsInv(e, before);
      StepKeepsInv(e, s, event);
      assert After(e, events) == Step(e, s, event);
      if event.Feed? {
        HearingMovesWindow(e, s, event.hyp);
        LengthsGrow(e, s.heard, event.hyp);
        SeenGrows(AgreedLengths(e, s.heard), s.heard, event.hyp, AgreedAfter(e, s.heard + [event.hyp]),
                  s.state.tracker.firstSeen);
      }
    }
  }

  lemma {:induction false} SeenGrows(lengths: seq<nat>, heard: seq<Hypothesis>, hyp: Hypothesis, agreed: nat,
                                     firstSeen: map<nat, real>)
    requires |lengths| == |heard| && SeenInv(lengths, heard, firstSeen)
    ensures SeenInv(lengths + [agreed], heard + [hyp],
                    if agreed in firstSeen then firstSeen else firstSeen[agreed := hyp.tWall])
  {
    forall k | k in firstSeen
      ensures SeenAs(lengths + [agreed], heard + [hyp], k, firstSeen[k])
    {
      var j: nat :| FirstAt(lengths, k, j) && j < |heard| && firstSeen[k] == heard[j].tWall;
      assert FirstAt(lengths + [agreed], k, j);
    }
    if agreed !in firstSeen {
      assert FirstAt(lengths + [agreed], agreed, |lengths|);
    }
  }

  // ---------------------------------------------------------------- what a phrase says

  /** Phrase j: committed at `wall`, that long after its length was first seen, and ending where the hypothesis has
      its last word end. */
  predicate SaysAt(hyp: Hypothesis, seen: real, wall: real, chunks: seq<PhraseChunk>, j: nat) {
    && j < |chunks| && |Spoken(chunks[..j + 1])| >= 1
    && chunks[j].tWallCommitted == wall
    && chunks[j].stabilityLag == Max(0.0, wall - seen)
    && chunks[j].tAudioEnd == WordEndTime(hyp, |Spoken(chunks[..j + 1])|)
  }

  /** All phrases from the n-th on. */
  predicate AllSay(hyp: Hypothesis, seen: real, wall: real, chunks: seq<PhraseChunk>, n: nat) {
    forall j | n <= j < |chunks| :: SaysAt(hyp, seen, wall, chunks, j)
  }

  function WallOf(event: Event, hyp: Hypothesis): real { if event.Tick? then event.now else hyp.tWall }

  /** A drain commits full phrases and then the rest, all for one reason. */
  predicate DrainedFrom(e: Settings, chunks: seq<PhraseChunk>, n: nat, reason: CommitReason) {
    && (forall j | n <= j < |chunks| :: chunks[j].reason == reason)
    && (forall j | n <= j < |chunks| - 1 :: chunks[j].wordCount == e.config.maxWords)
  }

  lemma {:induction false} SpeakingSays(e: Settings, s: Session, prefix: Prefix, take: nat, reason: CommitReason,
                                        now: Option<real>, wall: real)
    requires e.Usable() && Inv(e, s) && s.state.lastHyp.Some?
    requires Stable(e.config.agreementN, s.state.tracker) == Some(prefix) && 1 <= take <= |prefix.tokens|
    requires wall == if now.Some? then now.value else s.state.lastHyp.value.tWall
    ensures var s' := Speak(s, prefix, take, reason, now);
            && SaysAt(s.state.lastHyp.value, prefix.firstSeenWall, wall, s'.chunks, |s.chunks|)
            && s'.chunks[|s.chunks|].reason == reason && s'.chunks[|s.chunks|].wordCount == take
  {
    SpeakingExtends(e, s, prefix, take, reason, now);
    var s' := Speak(s, prefix, take, reason, now);
    assert s'.chunks[..|s.chunks| + 1] == s'.chunks;
  }

  lemma {:induction false} SayingKept(hyp: Hypothesis, seen: real, wall: real, chunks: seq<PhraseChunk>, j: nat,
                                      more: seq<PhraseChunk>)
    requires SaysAt(hyp, seen, wall, chunks, j) && chunks <= more
    ensures SaysAt(hyp, seen, wall, more, j)
  {
    assert more[..j + 1] == chunks[..j + 1];
  }

  lemma {:induction false} DrainingSays(e: Settings, s: Session, reason: CommitReason, now: Option<real>, wall: real)
    requires e.Usable() && Inv(e, s) && s.state.lastHyp.Some? && (reason == Silence || reason == Final)
    requires AgreedIn(e, s) in s.state.tracker.firstSeen
    requires wall == if now.Some? then now.value else s.state.lastHyp.value.tWall
    ensures var s' := DrainedSession(e, s, reason, now);
            && s.chunks <= s'.chunks
            && AllSay(s.state.lastHyp.value, s.state.tracker.firstSeen[AgreedIn(e, s)], wall, s'.chunks, |s.chunks|)
            && DrainedFrom(e, s'.chunks, |s.chunks|, reason)
            && (Pending(e, s) == 0 ==> s'.chunks == s.chunks)
    decreases Pending(e, s)
  {
    DrainUnfolds(e, s, reason, now);
    GuardAndDefaultUnused(e, s);
    var found := Stable(e.config.agreementN, s.state.tracker);
    if found.Some? {
      var take := Take(e, found.value);
      var s1 := Speak(s, found.value, take, reason, now);
      SpeakingKeepsInv(e, s, found.value, take, reason, now);
      SpeakingSays(e, s, found.value, take, reason, now, wall);
      DrainingSays(e, s1, reason, now, wall);
      SayingKept(s.state.lastHyp.value, found.value.firstSeenWall, wall, s1.chunks, |s.chunks|,
                 DrainedSession(e, s1, reason, now).chunks);
    }
  }

  lemma {:induction false} TryingSays(e: Settings, s: Session)
    requires e.Usable() && Inv(e, s) && s.state.lastHyp.Some? && AgreedIn(e, s) in s.state.tracker.firstSeen
    ensures var hyp := s.state.lastHyp.value;
            AllSay(hyp, s.state.tracker.firstSeen[AgreedIn(e, s)], hyp.tWall, TriedSession(e, s).chunks, |s.chunks|)
  {
    var take, reason := TryUnfolds(e, s);
    GuardAndDefaultUnused(e, s);
    if take > 0 {
      var prefix := Stable(e.config.agreementN, s.state.tracker).value;
      SpeakingSays(e, s, prefix, take, reason, None, s.state.lastHyp.value.tWall);
    }
  }

  /** Every phrase an event makes the chunker say was committed at the event's own wall time (for a tick its clock
      reading, otherwise that of the latest hypothesis), says how long after its length was first seen that was, and
      ends where the latest hypothesis has its last word end; a drain says full phrases and then the rest. */
  lemma {:induction false} PhrasesSay(e: Settings, events: seq<Event>, event: Event)
    requires e.Usable() && After(e, events + [event]).heard != []
    ensures var s, s' := After(e, events), After(e, events + [event]);
            var hyp := s'.heard[|s'.heard| - 1];
            && AgreedIn(e, s') in s'.state.tracker.firstSeen
            && AllSay(hyp, s'.state.tracker.firstSeen[AgreedIn(e, s')], WallOf(event, hyp), s'.chunks, |s.chunks|)
            && (!event.Feed? || event.hyp.isFinal ==>
                  DrainedFrom(e, s'.chunks, |s.chunks|, if event.Tick? then Silence else Final))
  {
    AfterOneMore(e, events, event);
    EveryRunKeepsInv(e, events);
    StepSays(e, After(e, events), event);
  }

  lemma {:induction false} StepSays(e: Settings, s: Session, event: Event)
    requires e.Usable() && Inv(e, s) && Step(e, s, event).heard != []
    ensures var s' := Step(e, s, event);
            var hyp := s'.heard[|s'.heard| - 1];
            && AgreedIn(e, s') in s'.state.tracker.firstSeen
            && AllSay(hyp, s'.state.tracker.firstSeen[AgreedIn(e, s')], WallOf(event, hyp), s'.chunks, |s.chunks|)
            && (!event.Feed? || event.hyp.isFinal ==>
                  DrainedFrom(e, s'.chunks, |s.chunks|, if event.Tick? then Silence else Final))
  {
    StepKeepsInv(e, s, event);
    StepIsFinish(e, s, event);
    var ready := Ready(e, s, event);
    var hyp := ready.state.lastHyp.value;
    if event.Feed? && !event.hyp.isFinal {
      TryingSays(e, ready);
    } else if event.Tick? {
      DrainingSays(e, ready, Silence, Some(event.now), event.now);
    } else {
      DrainingSays(e, ready, Final, None, hyp.tWall);
    }
  }

  /** Where a hypothesis has its index-th word end: at that word's own stamp if it has one; otherwise as far along the
      hypothesis as the word is among its words, and at its end when there is nothing to go by. */
  lemma {:induction false} WordsEndWhereStamped(hyp: Hypothesis, index: nat)
    requires index >= 1
    ensures var total, t := |Tokenise(hyp.text)|, WordEndTime(hyp, index);
            var span := hyp.tAudioEnd - hyp.tAudioStart;
            if hyp.words.Some? && hyp.words.value != [] && index <= |hyp.words.value|
            then t == hyp.words.value[index - 1].tAudioEnd
            else if total == 0 || span <= 0.0 || index >= total then t == hyp.tAudioEnd
            else (t - hyp.tAudioStart) * total as real == index as real * span
  {
    var total, span := |Tokenise(hyp.text)|, hyp.tAudioEnd - hyp.tAudioStart;
    if total > 0 {
      var k := if index <= total then index else total;
      var share := span / total as real;
      TimesIsProduct(k, share);
      assert share * total as real == span;
      assert (k as real * share) * total as real == k as real * span;
      assert total as real * share == span;
    }
  }
}
