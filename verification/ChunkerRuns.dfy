/** What the phrase chunker keeps over every run of `feed`, `tick` and `flush`. */
module ChunkerRuns {
  import opened Sequences
  import opened Options
  import opened Words
  import opened Transcript
  import opened Stability
  import opened Chunker

  datatype Event = Feed(hyp: Hypothesis) | Tick(now: real) | Flush

  /** The chunker, everything it emitted, and everything it was fed. */
  datatype Session = Session(state: ChunkerState, chunks: seq<PhraseChunk>, heard: seq<Hypothesis>)
  {
    function Committed(): nat { state.tracker.committed }
    function Window(): seq<seq<string>> { state.tracker.window }
    function Surface(): seq<string> { state.tracker.surface }
  }

  const BEGIN := Session(NEW, [], [])

  function Emits(e: Settings, s: ChunkerState, event: Event): Emission
    requires e.Usable()
  {
    match event
    case Feed(hyp) => Fed(e, s, hyp)
    case Tick(now) => Ticked(e, s, now)
    case Flush => Flushed(e, s)
  }

  function Step(e: Settings, s: Session, event: Event): Session
    requires e.Usable()
  {
    var emission := Emits(e, s.state, event);
    Session(emission.state, s.chunks + emission.chunks, if event.Feed? then s.heard + [event.hyp] else s.heard)
  }

  function After(e: Settings, events: seq<Event>): Session
    requires e.Usable()
  {
    if events == [] then BEGIN else Step(e, After(e, events[..|events| - 1]), events[|events| - 1])
  }

  /** Every word the audience has been given, in order. */
  function Spoken(chunks: seq<PhraseChunk>): seq<string> {
    if chunks == [] then []
    else Spoken(chunks[..|chunks| - 1]) + Tokenise(chunks[|chunks| - 1].text)
  }

  function Tokens(e: Settings, hyp: Hypothesis): seq<string> { Normalised(e.lex.normalise, Tokenise(hyp.text)) }

  /** The normalised hypotheses so far; a final agrees with itself, so it counts n times. */
  function Entries(e: Settings, heard: seq<Hypothesis>): seq<seq<string>> {
    if heard == [] then []
    else
      var hyp := heard[|heard| - 1];
      Entries(e, heard[..|heard| - 1]) + Repeat(Tokens(e, hyp), if hyp.isFinal then e.config.agreementN else 1)
  }

  function Last<T>(n: nat, s: seq<T>): seq<T> { if |s| <= n then s else s[|s| - n..] }

  function AgreedIn(e: Settings, s: Session): nat { Agreed(e.config.agreementN, s.Window()) }

  /** Stable words waiting to be committed. */
  function Pending(e: Settings, s: Session): nat {
    if s.Committed() <= AgreedIn(e, s) then AgreedIn(e, s) - s.Committed() else 0
  }

  // ---------------------------------------------------------------- the invariant

  /** The window is the last n hypotheses; the surface is the latest; its agreed length has a first sighting. */
  predicate TrackerInv(e: Settings, s: Session) {
    && s.Window() == Last(e.config.agreementN, Entries(e, s.heard))
    && (s.heard == [] ==> s.state.lastHyp.None? && s.Committed() == 0)
    && (s.heard != [] ==>
          var hyp := s.heard[|s.heard| - 1];
          && s.state.lastHyp == Some(hyp)
          && s.Surface() == Tokenise(hyp.text)
          && s.Window() != [] && s.Window()[|s.Window()| - 1] == Tokens(e, hyp)
          && Agreed(e.config.agreementN, s.Window()) in s.state.tracker.firstSeen)
  }

  predicate WellSized(e: Settings, c: PhraseChunk) {
    && 1 <= c.wordCount <= e.config.maxWords
    && c.wordCount == |Tokenise(c.text)| && c.text == Join(Tokenise(c.text))
    && (c.reason == ClauseBoundary || c.reason == StabilityTimeout ==> e.config.minWords <= c.wordCount)
    && (c.reason == MaxWords ==> c.wordCount == e.config.maxWords)
  }

  function CursorAfter(chunks: seq<PhraseChunk>): real {
    if chunks == [] then 0.0 else chunks[|chunks| - 1].tAudioEnd
  }

  /** The first phrase starts at zero, and each one where the one before it ended. */
  predicate Tiled(chunks: seq<PhraseChunk>) {
    && (chunks != [] ==> chunks[0].tAudioStart == 0.0)
    && (forall i | 0 < i < |chunks| :: chunks[i].tAudioStart == chunks[i - 1].tAudioEnd)
  }

  /** Ids count from 0, sizes are respected, and spans are contiguous. */
  predicate ChunksInv(e: Settings, chunks: seq<PhraseChunk>) {
    && (forall i | 0 <= i < |chunks| :: chunks[i].chunkId == i && WellSized(e, chunks[i]))
    && Tiled(chunks)
  }

  predicate Inv(e: Settings, s: Session) {
    && TrackerInv(e, s)
    && ChunksInv(e, s.chunks)
    && s.state.nextId == |s.chunks|
    && s.state.audioCursor == CursorAfter(s.chunks)
    && s.Committed() == |Spoken(s.chunks)|
  }

  /** The words of the latest hypothesis from where speaking stood to where it stands now were added,
      and if any were, the whole prefix through the last of them is agreed. */
  predicate Extends(e: Settings, s: Session, s': Session) {
    && s.chunks <= s'.chunks
    && s.Committed() <= s'.Committed()
    && (s.Committed() == s'.Committed() <==> s.chunks == s'.chunks)
    && (s.Committed() < s'.Committed() ==>
          && s'.Committed() <= Agreed(e.config.agreementN, s'.Window())
          && s'.Committed() <= |s'.Surface()|
          && Spoken(s'.chunks) == Spoken(s.chunks) + s'.Surface()[s.Committed()..s'.Committed()])
  }

  lemma {:induction false} PushIsLast<T>(n: nat, s: seq<T>, x: T, times: nat)
    requires n >= 1
    ensures PushTimes(n, Last(n, s), x, times) == Last(n, s + Repeat(x, times))
    decreases times
  {
    if times == 0 {
      assert s + Repeat(x, 0) == s;
    } else {
      assert Push(n, Last(n, s), x) == Last(n, s + [x]);
      PushIsLast(n, s + [x], x, times - 1);
      assert s + [x] + Repeat(x, times - 1) == s + Repeat(x, times);
    }
  }

  /** Neither the surface-length guard nor the 0.0 default of `stable_prefix` ever matters. */
  lemma {:induction false} GuardAndDefaultUnused(e: Settings, s: Session)
    requires e.Usable() && TrackerInv(e, s)
    ensures var n, t := e.config.agreementN, s.state.tracker;
            && Agreed(n, t.window) <= |t.surface|
            && (Agreed(n, t.window) <= t.committed ==> Stable(n, t).None?)
            && (Agreed(n, t.window) > t.committed ==>
                  && Agreed(n, t.window) in t.firstSeen
                  && Stable(n, t) == Some(Prefix(t.surface[t.committed..Agreed(n, t.window)],
                                                 t.firstSeen[Agreed(n, t.window)])))
  {
    var n, t := e.config.agreementN, s.state.tracker;
    AgreedIff(n, t.window, Agreed(n, t.window));
    if t.window != [] {
      var last := t.window[|t.window| - 1];
      assert Agreed(n, t.window) > 0 ==> Agreed(n, t.window) <= |last|;
    } else {
      assert s.heard == [] ==> Agreed(n, t.window) == 0;
    }
  }

  /** What can be committed are words of the latest hypothesis. */
  lemma {:induction false} StableReaches(e: Settings, s: Session, prefix: Prefix, take: nat)
    requires e.Usable() && TrackerInv(e, s)
    requires Stable(e.config.agreementN, s.state.tracker) == Some(prefix) && take <= |prefix.tokens|
    ensures s.heard != [] && s.state.lastHyp == Some(s.heard[|s.heard| - 1])
    ensures s.Committed() + take <= |Tokenise(s.heard[|s.heard| - 1].text)|
  {
    GuardAndDefaultUnused(e, s);
  }

  /** The session as it stands once a hypothesis is recorded and nothing yet emitted. */
  function Recorded(e: Settings, s: Session, hyp: Hypothesis): Session {
    s.(state := s.state.(tracker := Added(e.config.agreementN, e.lex.normalise, s.state.tracker, hyp),
                         lastHyp := Some(hyp)),
       heard := s.heard + [hyp])
  }

  lemma {:induction false} EntriesAppend(e: Settings, heard: seq<Hypothesis>, hyp: Hypothesis)
    ensures Entries(e, heard + [hyp])
         == Entries(e, heard) + Repeat(Tokens(e, hyp), if hyp.isFinal then e.config.agreementN else 1)
  {
    assert (heard + [hyp])[..|heard|] == heard;
  }

  /** The window moves on to the last n entries, the newest of them being this hypothesis. */
  lemma {:induction false} HearingMovesWindow(e: Settings, s: Session, hyp: Hypothesis)
    requires e.Usable() && TrackerInv(e, s)
    ensures var window := Recorded(e, s, hyp).Window();
            && window == Last(e.config.agreementN, Entries(e, s.heard + [hyp]))
            && window != [] && window[|window| - 1] == Tokens(e, hyp)
  {
    var n := e.config.agreementN;
    var times := if hyp.isFinal then n else 1;
    PushIsLast(n, Entries(e, s.heard), Tokens(e, hyp), times);
    EntriesAppend(e, s.heard, hyp);
    var entries := Entries(e, s.heard + [hyp]);
    assert entries[|entries| - 1] == Tokens(e, hyp);
  }

  lemma {:induction false} HearingKeepsInv(e: Settings, s: Session, hyp: Hypothesis)
    requires e.Usable() && Inv(e, s)
    ensures Inv(e, Recorded(e, s, hyp))
  {
    HearingMovesWindow(e, s, hyp);
  }

  /** One phrase committed from the stable prefix. */
  function Speak(s: Session, prefix: Prefix, take: nat, reason: CommitReason, now: Option<real>): Session
    requires 1 <= take <= |prefix.tokens| && s.state.lastHyp.Some?
  {
    var (chunk, next) := Chunker.Committed(s.state, s.state.lastHyp.value, prefix, take, reason, now);
    s.(state := next, chunks := s.chunks + [chunk])
  }

  predicate Sized(e: Settings, take: nat, reason: CommitReason) {
    && take <= e.config.maxWords
    && (reason == ClauseBoundary || reason == StabilityTimeout ==> e.config.minWords <= take)
    && (reason == MaxWords ==> take == e.config.maxWords)
  }

  lemma {:induction false} SliceOfWords(ts: seq<string>, lo: nat, hi: nat)
    requires AllWords(ts) && lo <= hi <= |ts|
    ensures AllWords(ts[lo..hi])
  {
  }

  lemma {:induction false} SpokenAppend(chunks: seq<PhraseChunk>, c: PhraseChunk)
    ensures Spoken(chunks + [c]) == Spoken(chunks) + Tokenise(c.text)
  {
    assert (chunks + [c])[..|chunks|] == chunks;
  }

  lemma {:induction false} ChunksInvAppend(e: Settings, chunks: seq<PhraseChunk>, c: PhraseChunk)
    requires ChunksInv(e, chunks) && WellSized(e, c)
    requires c.chunkId == |chunks| && c.tAudioStart == CursorAfter(chunks)
    ensures ChunksInv(e, chunks + [c])
  {
  }

  /** The words of a phrase are the next words of the latest hypothesis. */
  lemma {:induction false} SpokenTokens(e: Settings, s: Session, prefix: Prefix, take: nat)
    requires e.Usable() && Inv(e, s)
    requires Stable(e.config.agreementN, s.state.tracker) == Some(prefix)
    requires 1 <= take <= |prefix.tokens|
    ensures s.heard != []
    ensures s.Committed() + take <= Agreed(e.config.agreementN, s.Window()) <= |s.Surface()|
    ensures var text := Join(prefix.tokens[..take]);
            && Tokenise(text) == s.Surface()[s.Committed()..s.Committed() + take]
            && |Tokenise(text)| == take && text == Join(Tokenise(text))
  {
    GuardAndDefaultUnused(e, s);
    var tokens := prefix.tokens[..take];
    TokensAreWords(s.heard[|s.heard| - 1].text);
    assert tokens == s.Surface()[s.Committed()..s.Committed() + take];
    SliceOfWords(s.Surface(), s.Committed(), s.Committed() + take);
    TokeniseJoin(tokens);
  }

  lemma {:induction false} SpeakingExtends(e: Settings, s: Session, prefix: Prefix, take: nat, reason: CommitReason,
                                           now: Option<real>)
    requires e.Usable() && Inv(e, s)
    requires Stable(e.config.agreementN, s.state.tracker) == Some(prefix)
    requires 1 <= take <= |prefix.tokens|
    ensures s.state.lastHyp.Some?
    ensures Extends(e, s, Speak(s, prefix, take, reason, now))
    ensures Speak(s, prefix, take, reason, now).Committed() == |Spoken(Speak(s, prefix, take, reason, now).chunks)|
  {
    SpokenTokens(e, s, prefix, take);
    var chunk := Speak(s, prefix, take, reason, now).chunks[|s.chunks|];
    assert chunk.text == Join(prefix.tokens[..take]);
    SpokenAppend(s.chunks, chunk);
  }

  lemma {:induction false} SpokenChunkIsWellSized(e: Settings, s: Session, prefix: Prefix, take: nat,
                                                  reason: CommitReason, now: Option<real>)
    requires e.Usable() && Inv(e, s)
    requires Stable(e.config.agreementN, s.state.tracker) == Some(prefix)
    requires 1 <= take <= |prefix.tokens| && Sized(e, take, reason)
    ensures s.state.lastHyp.Some?
    ensures WellSized(e, Speak(s, prefix, take, reason, now).chunks[|s.chunks|])
  {
    SpokenTokens(e, s, prefix, take);
  }

  lemma {:induction false} SpeakingKeepsInv(e: Settings, s: Session, prefix: Prefix, take: nat, reason: CommitReason,
                                            now: Option<real>)
    requires e.Usable() && Inv(e, s)
    requires Stable(e.config.agreementN, s.state.tracker) == Some(prefix)
    requires 1 <= take <= |prefix.tokens| && Sized(e, take, reason)
    ensures s.state.lastHyp.Some?
    ensures Inv(e, Speak(s, prefix, take, reason, now))
  {
    SpeakingExtends(e, s, prefix, take, reason, now);
    SpokenChunkIsWellSized(e, s, prefix, take, reason, now);
    ChunksInvAppend(e, s.chunks, Speak(s, prefix, take, reason, now).chunks[|s.chunks|]);
  }

  lemma {:induction false} ExtendsComposes(e: Settings, a: Session, b: Session, c: Session)
    requires Extends(e, a, b) && Extends(e, b, c)
    requires b.Window() == c.Window() && b.Surface() == c.Surface()
    ensures Extends(e, a, c)
  {
    if a.Committed() < b.Committed() < c.Committed() {
      assert c.Surface()[a.Committed()..c.Committed()]
          == c.Surface()[a.Committed()..b.Committed()] + c.Surface()[b.Committed()..c.Committed()];
    }
  }

  function DrainedSession(e: Settings, s: Session, reason: CommitReason, now: Option<real>): Session
    requires e.Usable() && s.state.lastHyp.Some?
  {
    var emission := Drained(e, s.state, s.state.lastHyp.value, reason, now);
    s.(state := emission.state, chunks := s.chunks + emission.chunks)
  }

  /** What the drain takes in its next round. */
  function Take(e: Settings, prefix: Prefix): nat {
    if |prefix.tokens| <= e.config.maxWords then |prefix.tokens| else e.config.maxWords
  }

  lemma {:induction false} DrainUnfolds(e: Settings, s: Session, reason: CommitReason, now: Option<real>)
    requires e.Usable() && s.state.lastHyp.Some?
    ensures match Stable(e.config.agreementN, s.state.tracker)
            case None => DrainedSession(e, s, reason, now) == s
            case Some(prefix) =>
              1 <= Take(e, prefix) <= |prefix.tokens| &&
              var s1 := Speak(s, prefix, Take(e, prefix), reason, now);
              && s1.state.lastHyp == s.state.lastHyp
              && s1.state.tracker == s.state.tracker.(committed := s.Committed() + Take(e, prefix),
                                                      contradicted := false)
              && DrainedSession(e, s, reason, now) == DrainedSession(e, s1, reason, now)
  {
    assert s.chunks + [] == s.chunks;
    var found := Stable(e.config.agreementN, s.state.tracker);
    if found.Some? {
      var s1 := Speak(s, found.value, Take(e, found.value), reason, now);
      var rest := Drained(e, s1.state, s.state.lastHyp.value, reason, now);
      assert s.chunks + ([s1.chunks[|s.chunks|]] + rest.chunks) == s1.chunks + rest.chunks;
    }
  }

  function Larger(a: nat, b: nat): nat { if a > b then a else b }

  /** Draining speaks exactly the agreed prefix: it ends with everything agreed spoken, no more. */
  lemma {:induction false} DrainingKeepsInv(e: Settings, s: Session, reason: CommitReason, now: Option<real>)
    requires e.Usable() && Inv(e, s) && s.state.lastHyp.Some? && (reason == Silence || reason == Final)
    ensures var s' := DrainedSession(e, s, reason, now);
            && Inv(e, s') && Extends(e, s, s')
            && s'.Window() == s.Window() && s'.Surface() == s.Surface() && s'.heard == s.heard
            && s'.state.tracker.firstSeen == s.state.tracker.firstSeen
            && s'.Committed() == Larger(s.Committed(), Agreed(e.config.agreementN, s.Window()))
    decreases Agreed(e.config.agreementN, s.Window()) - s.Committed()
  {
    DrainUnfolds(e, s, reason, now);
    GuardAndDefaultUnused(e, s);
    var found := Stable(e.config.agreementN, s.state.tracker);
    if found.Some? {
      var s1 := Speak(s, found.value, Take(e, found.value), reason, now);
      SpeakingKeepsInv(e, s, found.value, Take(e, found.value), reason, now);
      SpeakingExtends(e, s, found.value, Take(e, found.value), reason, now);
      DrainingKeepsInv(e, s1, reason, now);
      ExtendsComposes(e, s, s1, DrainedSession(e, s1, reason, now));
    }
  }

  function TriedSession(e: Settings, s: Session): Session
    requires e.Usable() && s.state.lastHyp.Some?
  {
    var emission := Tried(e, s.state, s.state.lastHyp.value);
    s.(state := emission.state, chunks := s.chunks + emission.chunks)
  }

  /** An interim hypothesis commits at most one phrase, and one that fits; or it holds. */
  lemma {:induction false} TryUnfolds(e: Settings, s: Session) returns (take: nat, reason: CommitReason)
    requires e.Usable() && s.state.lastHyp.Some?
    ensures take == 0 ==> TriedSession(e, s) == s
    ensures take > 0 ==>
              && Stable(e.config.agreementN, s.state.tracker).Some?
              && var prefix := Stable(e.config.agreementN, s.state.tracker).value;
              && take <= |prefix.tokens| && Sized(e, take, reason)
              && TriedSession(e, s) == Speak(s, prefix, take, reason, None)
    ensures take == 0 ==>
              match Stable(e.config.agreementN, s.state.tracker)
              case None => true
              case Some(prefix) =>
                && |prefix.tokens| < e.config.maxWords
                && (|prefix.tokens| < e.config.minWords
                    || s.state.lastHyp.value.tWall - prefix.firstSeenWall < e.config.maxWaitS)
  {
    assert s.chunks + [] == s.chunks;
    var found := Stable(e.config.agreementN, s.state.tracker);
    take, reason := 0, ClauseBoundary;
    if found.Some? {
      var tokens, lag := found.value.tokens, s.state.lastHyp.value.tWall - found.value.firstSeenWall;
      DecisionFits(e, tokens, lag);
      var decision := Decide(e, tokens, lag);
      take, reason := decision.0, decision.1;
    }
  }

  lemma {:induction false} TryingKeepsInv(e: Settings, s: Session)
    requires e.Usable() && Inv(e, s) && s.state.lastHyp.Some?
    ensures var s' := TriedSession(e, s);
            && Inv(e, s') && Extends(e, s, s')
            && s'.Window() == s.Window() && s'.Surface() == s.Surface() && s'.heard == s.heard
            && s'.state.tracker.firstSeen == s.state.tracker.firstSeen
  {
    var take, reason := TryUnfolds(e, s);
    if take > 0 {
      SpeakingKeepsInv(e, s, Stable(e.config.agreementN, s.state.tracker).value, take, reason, None);
      SpeakingExtends(e, s, Stable(e.config.agreementN, s.state.tracker).value, take, reason, None);
    }
  }

  /** The session in which an event's phrases are emitted: the hypothesis recorded, if there is one. */
  function Ready(e: Settings, s: Session, event: Event): Session {
    if event.Feed? then Recorded(e, s, event.hyp) else s
  }

  /** Every event is a preparation followed by a try, a drain, or nothing. */
  function Finished(e: Settings, ready: Session, event: Event): Session
    requires e.Usable()
  {
    if ready.state.lastHyp.None? then ready
    else
      match event
      case Feed(hyp) => if hyp.isFinal then DrainedSession(e, ready, Final, None) else TriedSession(e, ready)
      case Tick(now) =>
        if now - ready.state.lastHyp.value.tWall < e.config.silenceCommitS then ready
        else DrainedSession(e, ready, Silence, Some(now))
      case Flush => DrainedSession(e, ready, Final, None)
  }

  lemma {:induction false} StepIsFinish(e: Settings, s: Session, event: Event)
    requires e.Usable()
    ensures Step(e, s, event) == Finished(e, Ready(e, s, event), event)
  {
    assert s.chunks + [] == s.chunks;
  }

  lemma {:induction false} StepKeepsInv(e: Settings, s: Session, event: Event)
    requires e.Usable() && Inv(e, s)
    ensures var s', ready := Step(e, s, event), Ready(e, s, event);
            && Inv(e, ready) && Inv(e, s') && Extends(e, ready, s')
            && ready.chunks == s.chunks && ready.Committed() == s.Committed()
            && s'.Window() == ready.Window() && s'.Surface() == ready.Surface()
            && s'.heard == ready.heard && s'.state.tracker.firstSeen == ready.state.tracker.firstSeen
  {
    StepIsFinish(e, s, event);
    var ready := Ready(e, s, event);
    if event.Feed? {
      HearingKeepsInv(e, s, event.hyp);
    }
    if ready.state.lastHyp.Some? {
      if event.Feed? && !event.hyp.isFinal {
        TryingKeepsInv(e, ready);
      } else if event.Tick? {
        DrainingKeepsInv(e, ready, Silence, Some(event.now));
      } else {
        DrainingKeepsInv(e, ready, Final, None);
      }
    }
  }

  /** Every reachable state keeps the invariant: phrases tile the words from 0, respect their size
      limits, and stand in one contiguous audio timeline. */
  lemma {:induction false} EveryRunKeepsInv(e: Settings, events: seq<Event>)
    requires e.Usable()
    ensures Inv(e, After(e, events))
  {
    if events != [] {
      EveryRunKeepsInv(e, events[..|events| - 1]);
      StepKeepsInv(e, After(e, events[..|events| - 1]), events[|events| - 1]);
    }
  }

  lemma {:induction false} AfterOneMore(e: Settings, events: seq<Event>, event: Event)
    requires e.Usable()
    ensures After(e, events + [event]) == Step(e, After(e, events), event)
  {
    assert (events + [event])[..|events|] == events;
  }

  /** The last n hypotheses all begin with the first `end` tokens of the latest one. */
  predicate LastShare(e: Settings, heard: seq<Hypothesis>, end: nat) {
    var n, entries := e.config.agreementN, Entries(e, heard);
    && heard != [] && n <= |entries|
    && end <= |Tokens(e, heard[|heard| - 1])|
    && forall i | |entries| - n <= i < |entries| ::
         end <= |entries[i]| && entries[i][..end] == Tokens(e, heard[|heard| - 1])[..end]
  }

  lemma {:induction false} AgreedMeansLastShare(e: Settings, s: Session, end: nat)
    requires e.Usable() && TrackerInv(e, s) && end > 0
    ensures end <= Agreed(e.config.agreementN, s.Window()) <==> LastShare(e, s.heard, end)
  {
    AgreedIff(e.config.agreementN, s.Window(), end);
    if s.heard != [] {
      WindowIsLastEntries(e.config.agreementN, Entries(e, s.heard), s.Window(), end);
    }
  }

  lemma {:induction false} WindowIsLastEntries(n: nat, entries: seq<seq<string>>, window: seq<seq<string>>, end: nat)
    requires n >= 1 && window == Last(n, entries) && window != []
    ensures var latest := window[|window| - 1];
            |window| >= n && AgreeOnPrefix(window, end)
            <==>
            && n <= |entries| && end <= |latest|
            && forall i | |entries| - n <= i < |entries| :: end <= |entries[i]| && entries[i][..end] == latest[..end]
  {
    var latest := window[|window| - 1];
    if n <= |entries| {
      assert forall i | |entries| - n <= i < |entries| :: entries[i] == window[i - (|entries| - n)];
      assert forall i | 0 <= i < n :: window[i] == entries[|entries| - n + i];
    }
  }

  /** LocalAgreement safety. Whatever an event makes the chunker say are the next words of the latest
      hypothesis, and the last n hypotheses all begin with everything said so far and those words. */
  lemma {:induction false} SpokenWordsWereAgreed(e: Settings, events: seq<Event>, event: Event)
    requires e.Usable()
    ensures var s, s' := After(e, events), After(e, events + [event]);
            && s.chunks <= s'.chunks
            && (s.chunks != s'.chunks ==>
                  && s'.heard != []
                  && var latest, end := Tokenise(s'.heard[|s'.heard| - 1].text), s'.Committed();
                  && s.Committed() < end <= |latest|
                  && Spoken(s'.chunks) == Spoken(s.chunks) + latest[s.Committed()..end]
                  && LastShare(e, s'.heard, end))
  {
    AfterOneMore(e, events, event);
    EveryRunKeepsInv(e, events);
    var s := After(e, events);
    StepKeepsInv(e, s, event);
    var s' := Step(e, s, event);
    if s.chunks != s'.chunks {
      AgreedMeansLastShare(e, s', s'.Committed());
    }
  }

  /** A second drain straight after the first says nothing and changes nothing. */
  lemma {:induction false} RepeatedDrainIsSilent(e: Settings, s: Session, reason: CommitReason, now: Option<real>,
                                                 reason': CommitReason, now': Option<real>)
    requires e.Usable() && Inv(e, s) && s.state.lastHyp.Some?
    requires (reason == Silence || reason == Final)
    ensures var drained := DrainedSession(e, s, reason, now);
            && drained.state.lastHyp.Some?
            && DrainedSession(e, drained, reason', now') == drained
  {
    DrainingKeepsInv(e, s, reason, now);
    var drained := DrainedSession(e, s, reason, now);
    GuardAndDefaultUnused(e, drained);
    DrainUnfolds(e, drained, reason', now');
  }

  /** What a flush does, from the agreed prefix and what was spoken before. */
  lemma {:induction false} FlushDrains(e: Settings, events: seq<Event>)
    requires e.Usable() && After(e, events).heard != []
    ensures var s, s' := After(e, events), After(e, events + [Flush]);
            && Inv(e, s) && Inv(e, s') && Extends(e, s, s') && s'.Surface() == s.Surface()
            && s'.Committed() == Larger(s.Committed(), Agreed(e.config.agreementN, s.Window()))
            && Agreed(e.config.agreementN, s.Window()) <= |s.Surface()|
  {
    AfterOneMore(e, events, Flush);
    EveryRunKeepsInv(e, events);
    var s := After(e, events);
    StepIsFinish(e, s, Flush);
    DrainingKeepsInv(e, s, Final, None);
    GuardAndDefaultUnused(e, s);
  }

  /** No word of the latest hypothesis is left pending by a flush exactly when the last n hypotheses all
      begin with the whole of it, or speaking had already gone past its end. */
  lemma {:induction false} FlushLeavesNothingPendingIff(e: Settings, events: seq<Event>)
    requires e.Usable() && After(e, events).heard != []
    ensures var s, s' := After(e, events), After(e, events + [Flush]);
            |s'.Surface()| <= s'.Committed()
            <==> LastShare(e, s.heard, |s.Surface()|) || |s.Surface()| <= s.Committed()
  {
    FlushDrains(e, events);
    var s := After(e, events);
    if s.Surface() != [] {
      AgreedMeansLastShare(e, s, |s.Surface()|);
    }
  }

  /** `flush` is documented to emit everything outstanding; it emits the agreed prefix. Afterwards the words
      spoken are those of the latest hypothesis exactly when what was spoken before still begins it, and
      either the last n hypotheses share the whole of it or there was nothing left to say. */
  lemma {:induction false} FlushSpeaksAllIff(e: Settings, events: seq<Event>)
    requires e.Usable() && After(e, events).heard != []
    ensures var s, s' := After(e, events), After(e, events + [Flush]);
            Spoken(s'.chunks) == s.Surface()
            <==>
            && Spoken(s.chunks) <= s.Surface()
            && (LastShare(e, s.heard, |s.Surface()|) || Spoken(s.chunks) == s.Surface())
  {
    FlushDrains(e, events);
    var s, s' := After(e, events), After(e, events + [Flush]);
    if s.Surface() != [] {
      AgreedMeansLastShare(e, s, |s.Surface()|);
    }
    if s.Committed() < s'.Committed() {
      ExtendedIsWhole(Spoken(s.chunks), s.Surface(), s'.Committed());
    }
  }

  lemma {:induction false} ExtendedIsWhole(spoken: seq<string>, all: seq<string>, end: nat)
    requires |spoken| <= end <= |all|
    ensures spoken + all[|spoken|..end] == all <==> spoken <= all && end == |all|
  {
    var whole := spoken + all[|spoken|..end];
    assert whole[..|spoken|] == spoken;
    if spoken <= all && end == |all| {
      assert all[..|spoken|] + all[|spoken|..] == all;
    }
  }

  lemma {:induction false} DrainIsSilentIff(e: Settings, s: Session, reason: CommitReason, now: Option<real>)
    requires e.Usable() && Inv(e, s) && s.state.lastHyp.Some? && (reason == Silence || reason == Final)
    ensures s.chunks <= DrainedSession(e, s, reason, now).chunks
    ensures DrainedSession(e, s, reason, now).chunks == s.chunks <==> Pending(e, s) == 0
    ensures Pending(e, DrainedSession(e, s, reason, now)) == 0
  {
    DrainingKeepsInv(e, s, reason, now);
  }

  /** A drain releases nothing exactly when no agreed word is pending, and at most one phrase exactly when what
      is pending fits in one. */
  lemma {:induction false} DrainReleases(e: Settings, s: Session, reason: CommitReason, now: Option<real>)
    requires e.Usable() && Inv(e, s) && s.state.lastHyp.Some? && (reason == Silence || reason == Final)
    ensures var released := Drained(e, s.state, s.state.lastHyp.value, reason, now).chunks;
            && (released == [] <==> Pending(e, s) == 0)
            && (|released| <= 1 <==> Pending(e, s) <= e.config.maxWords)
  {
    DrainIsSilentIff(e, s, reason, now);
    if Pending(e, s) > 0 {
      var s1 := FirstOfDrain(e, s, reason, now);
      DrainIsSilentIff(e, s1, reason, now);
    }
  }

  /** A drain with words pending speaks one phrase, of as many of them as fit, and drains on. */
  lemma {:induction false} FirstOfDrain(e: Settings, s: Session, reason: CommitReason, now: Option<real>)
    returns (s1: Session)
    requires e.Usable() && Inv(e, s) && s.state.lastHyp.Some? && (reason == Silence || reason == Final)
    requires Pending(e, s) > 0
    ensures Inv(e, s1) && s1.state.lastHyp == s.state.lastHyp && |s1.chunks| == |s.chunks| + 1
    ensures DrainedSession(e, s, reason, now) == DrainedSession(e, s1, reason, now)
    ensures Pending(e, s1) == if Pending(e, s) <= e.config.maxWords then 0 else Pending(e, s) - e.config.maxWords
  {
    DrainUnfolds(e, s, reason, now);
    GuardAndDefaultUnused(e, s);
    var prefix := Stable(e.config.agreementN, s.state.tracker).value;
    SpeakingKeepsInv(e, s, prefix, Take(e, prefix), reason, now);
    s1 := Speak(s, prefix, Take(e, prefix), reason, now);
  }

  /** The same for a flush, in any reachable state; and afterwards no agreed word is pending. */
  lemma {:induction false} FlushReleases(e: Settings, events: seq<Event>)
    requires e.Usable()
    ensures var s, s' := After(e, events), After(e, events + [Flush]);
            var released := Emits(e, s.state, Flush).chunks;
            && s'.chunks == s.chunks + released && Pending(e, s') == 0
            && (released == [] <==> Pending(e, s) == 0)
            && (|released| <= 1 <==> Pending(e, s) <= e.config.maxWords)
  {
    AfterOneMore(e, events, Flush);
    EveryRunKeepsInv(e, events);
    var s := After(e, events);
    if s.state.lastHyp.Some? {
      DrainReleases(e, s, Final, None);
      FlushDrains(e, events);
    }
  }

  /** A tick releases something exactly when silence_commit_s have gone by since the last hypothesis and an
      agreed word is pending. */
  lemma {:induction false} TickReleasesIff(e: Settings, events: seq<Event>, now: real)
    requires e.Usable() && After(e, events).heard != []
    ensures var s := After(e, events);
            Emits(e, s.state, Tick(now)).chunks != []
            <==> now - s.heard[|s.heard| - 1].tWall >= e.config.silenceCommitS && Pending(e, s) > 0
  {
    EveryRunKeepsInv(e, events);
    var s := After(e, events);
    DrainReleases(e, s, Silence, Some(now));
  }

  /** For one: words heard once only are left unspoken by the flush when two hypotheses must agree. */
  lemma {:induction false} FlushCanLeaveWordsUnspoken(e: Settings, hyp: Hypothesis)
    requires e.Usable() && e.config.agreementN == 2 && !hyp.isFinal && Tokenise(hyp.text) != []
    ensures After(e, [Feed(hyp)] + [Flush]).chunks == []
    ensures After(e, [Feed(hyp)] + [Flush]).Surface() != []
  {
    AfterOneMore(e, [], Feed(hyp));
    AfterOneMore(e, [Feed(hyp)], Flush);
    assert [] + [Feed(hyp)] == [Feed(hyp)];
    EveryRunKeepsInv(e, []);
    EveryRunKeepsInv(e, [Feed(hyp)]);
    var ready, s := Recorded(e, BEGIN, hyp), After(e, [Feed(hyp)]);
    StepKeepsInv(e, BEGIN, Feed(hyp));
    StepKeepsInv(e, s, Flush);
    assert ready.Window() == [Tokens(e, hyp)];
  }
}
