/** The phrase chunker: turns revisable hypotheses into phrases that can never be recalled.

    As for the tracker, `ChunkerState` and the functions on it say what each call does, and the
    class is the program. */
module Chunker {
  import opened Options
  import opened Words
  import opened Transcript
  import opened Clause
  import opened Stability
  import opened Durations

  datatype CommitReason = ClauseBoundary | MaxWords | StabilityTimeout | Silence | Final

  datatype PhraseChunk = PhraseChunk(chunkId: nat, text: string, tAudioStart: real, tAudioEnd: real,
                                     tWallCommitted: real, reason: CommitReason, wordCount: nat,
                                     stabilityLag: real, revisedAfterCommit: bool)

  datatype ChunkerConfig = ChunkerConfig(agreementN: nat, minWords: nat, maxWords: nat, maxWaitS: real,
                                         silenceCommitS: real, allowConjunctionBoundary: bool,
                                         conjunctionThreshold: real)

  /** The configuration and the lookups of one session. */
  datatype Settings = Settings(config: ChunkerConfig, lex: Lexicon)
  {
    /** What the code relies on: draining does not end when a phrase may hold no words. */
    predicate Usable() { config.agreementN >= 1 && config.minWords >= 1 && config.maxWords >= 1 }
  }

  datatype ChunkerState = ChunkerState(tracker: Tracker, nextId: nat, lastHyp: Option<Hypothesis>, audioCursor: real)

  const NEW := ChunkerState(FRESH, 0, None, 0.0)

  /** The phrases of one call and the state it leaves. */
  datatype Emission = Emission(chunks: seq<PhraseChunk>, state: ChunkerState)

  /** Position of a word by linear interpolation over the hypothesis span. */
  function Interpolated(hyp: Hypothesis, index: nat): real {
    var span, totalWords := hyp.tAudioEnd - hyp.tAudioStart, |Tokenise(hyp.text)|;
    if totalWords == 0 || span <= 0.0 then hyp.tAudioEnd
    else hyp.tAudioStart + Times(if index <= totalWords then index else totalWords, span / totalWords as real)
  }

  predicate HasTimingFor(hyp: Hypothesis, index: nat) {
    hyp.words.Some? && hyp.words.value != [] && index <= |hyp.words.value|
  }

  /** Audio position of the end of the index-th word, counted from 1. */
  function WordEndTime(hyp: Hypothesis, index: nat): real
    requires index >= 1
  {
    if HasTimingFor(hyp, index) then hyp.words.value[index - 1].tAudioEnd else Interpolated(hyp, index)
  }

  /** `_commit`: the first `take` tokens of the stable prefix become a phrase. */
  function Committed(s: ChunkerState, hyp: Hypothesis, prefix: Prefix, take: nat, reason: CommitReason,
                     now: Option<real>): (PhraseChunk, ChunkerState)
    requires 1 <= take <= |prefix.tokens|
  {
    var end := WordEndTime(hyp, s.tracker.committed + take);
    var wall := if now.Some? then now.value else hyp.tWall;
    (PhraseChunk(s.nextId, Join(prefix.tokens[..take]), s.audioCursor, end, wall, reason, take,
                 if wall - prefix.firstSeenWall > 0.0 then wall - prefix.firstSeenWall else 0.0,
                 s.tracker.contradicted),
     s.(tracker := s.tracker.(committed := s.tracker.committed + take, contradicted := false),
        nextId := s.nextId + 1, audioCursor := end))
  }

  function One(c: (PhraseChunk, ChunkerState)): Emission { Emission([c.0], c.1) }

  /** How many tokens `_try_emit` commits and why, given the stable prefix; 0 to hold. */
  function Decide(e: Settings, tokens: seq<string>, lag: real): (nat, CommitReason)
    requires e.Usable()
  {
    var cfg := e.config;
    if |tokens| >= cfg.maxWords then (cfg.maxWords, MaxWords)
    else
      var allowWeak := cfg.allowConjunctionBoundary
                       && |tokens| as real >= Times(cfg.maxWords, cfg.conjunctionThreshold);
      var cut := FindBoundary(e.lex, tokens, cfg.minWords, allowWeak);
      if cut.end > 0 then (cut.end, ClauseBoundary)
      else if lag >= cfg.maxWaitS && |tokens| >= cfg.minWords then (|tokens|, StabilityTimeout)
      else (0, ClauseBoundary)
  }

  lemma {:induction false} DecisionFits(e: Settings, tokens: seq<string>, lag: real)
    requires e.Usable()
    ensures var (take, reason) := Decide(e, tokens, lag);
            && take <= |tokens| && take <= e.config.maxWords
            && (take > 0 && reason != MaxWords ==> e.config.minWords <= take)
            && (take > 0 && reason == MaxWords ==> take == e.config.maxWords)
            && (take == 0 ==> |tokens| < e.config.maxWords && (|tokens| < e.config.minWords || lag < e.config.maxWaitS))
  {
    var cfg := e.config;
    FindBoundaryIsLatest(e.lex, tokens, cfg.minWords, cfg.allowConjunctionBoundary
                         && |tokens| as real >= Times(cfg.maxWords, cfg.conjunctionThreshold));
  }

  /** `_try_emit`: at most one phrase, on an interim hypothesis. */
  function Tried(e: Settings, s: ChunkerState, hyp: Hypothesis): Emission
    requires e.Usable()
  {
    match Stable(e.config.agreementN, s.tracker)
    case None => Emission([], s)
    case Some(prefix) =>
      DecisionFits(e, prefix.tokens, hyp.tWall - prefix.firstSeenWall);
      var (take, reason) := Decide(e, prefix.tokens, hyp.tWall - prefix.firstSeenWall);
      if take == 0 then Emission([], s) else One(Committed(s, hyp, prefix, take, reason, None))
  }

  /** `_emit_all`: drain the agreed prefix in phrases of at most `max_words`. */
  function Drained(e: Settings, s: ChunkerState, hyp: Hypothesis, reason: CommitReason, now: Option<real>): Emission
    requires e.Usable()
    decreases Agreed(e.config.agreementN, s.tracker.window) - s.tracker.committed
  {
    match Stable(e.config.agreementN, s.tracker)
    case None => Emission([], s)
    case Some(prefix) =>
      var take := if |prefix.tokens| <= e.config.maxWords then |prefix.tokens| else e.config.maxWords;
      var (chunk, next) := Committed(s, hyp, prefix, take, reason, now);
      var rest := Drained(e, next, hyp, reason, now);
      Emission([chunk] + rest.chunks, rest.state)
  }

  /** With `done` already emitted, draining `s` gives `target` in all. */
  predicate DrainsTo(e: Settings, s: ChunkerState, hyp: Hypothesis, reason: CommitReason, now: Option<real>,
                     done: seq<PhraseChunk>, target: Emission)
    requires e.Usable()
  {
    var rest := Drained(e, s, hyp, reason, now);
    target == Emission(done + rest.chunks, rest.state)
  }

  lemma {:induction false} DrainOnce(e: Settings, s: ChunkerState, hyp: Hypothesis, reason: CommitReason,
                                     now: Option<real>, done: seq<PhraseChunk>, target: Emission)
    requires e.Usable() && DrainsTo(e, s, hyp, reason, now, done, target)
    ensures match Stable(e.config.agreementN, s.tracker)
            case None => target == Emission(done, s)
            case Some(prefix) =>
              var take := if |prefix.tokens| <= e.config.maxWords then |prefix.tokens| else e.config.maxWords;
              var (chunk, next) := Committed(s, hyp, prefix, take, reason, now);
              DrainsTo(e, next, hyp, reason, now, done + [chunk], target)
  {
    var found := Stable(e.config.agreementN, s.tracker);
    if found.Some? {
      var take := if |found.value.tokens| <= e.config.maxWords then |found.value.tokens| else e.config.maxWords;
      var (chunk, next) := Committed(s, hyp, found.value, take, reason, now);
      var rest := Drained(e, next, hyp, reason, now).chunks;
      assert done + ([chunk] + rest) == done + [chunk] + rest;
    } else {
      assert done + [] == done;
    }
  }

  function Fed(e: Settings, s: ChunkerState, hyp: Hypothesis): Emission
    requires e.Usable()
  {
    var heard := s.(tracker := Added(e.config.agreementN, e.lex.normalise, s.tracker, hyp), lastHyp := Some(hyp));
    if hyp.isFinal then Drained(e, heard, hyp, Final, None) else Tried(e, heard, hyp)
  }

  function Ticked(e: Settings, s: ChunkerState, now: real): Emission
    requires e.Usable()
  {
    if s.lastHyp.None? || now - s.lastHyp.value.tWall < e.config.silenceCommitS then Emission([], s)
    else Drained(e, s, s.lastHyp.value, Silence, Some(now))
  }

  function Flushed(e: Settings, s: ChunkerState): Emission
    requires e.Usable()
  {
    if s.lastHyp.None? then Emission([], s) else Drained(e, s, s.lastHyp.value, Final, None)
  }

  class PhraseChunker {
    const settings: Settings
    const tracker: StabilityTracker
    var nextId: nat
    var lastHypWall: Option<real>
    var lastHyp: Option<Hypothesis>
    var audioCursor: real

    function State(): ChunkerState
      reads this, tracker
    {
      ChunkerState(tracker.State(), nextId, lastHyp, audioCursor)
    }

    ghost predicate Valid()
      reads this
    {
      && settings.Usable()
      && tracker.n == settings.config.agreementN && tracker.normalise == settings.lex.normalise
      && lastHypWall == (if lastHyp.Some? then Some(lastHyp.value.tWall) else None)
    }

    constructor (settings: Settings)
      requires settings.Usable()
      ensures Valid() && fresh(tracker) && this.settings == settings && State() == NEW
    {
      this.settings := settings;
      tracker := new StabilityTracker(settings.config.agreementN, settings.lex.normalise);
      nextId, lastHypWall, lastHyp, audioCursor := 0, None, None, 0.0;
    }

    method Feed(hyp: Hypothesis) returns (chunks: seq<PhraseChunk>)
      requires Valid()
      modifies this, tracker
      ensures Valid() && Emission(chunks, State()) == Fed(settings, old(State()), hyp)
    {
      tracker.Add(hyp);
      lastHypWall := Some(hyp.tWall);
      lastHyp := Some(hyp);
      if hyp.isFinal {
        chunks := EmitAll(hyp, Final, None);
      } else {
        chunks := TryEmit(hyp);
      }
    }

    method Tick(now: real) returns (chunks: seq<PhraseChunk>)
      requires Valid()
      modifies this, tracker
      ensures Valid() && Emission(chunks, State()) == Ticked(settings, old(State()), now)
    {
      if lastHypWall.None? || lastHyp.None? {
        return [];
      }
      if now - lastHypWall.value < settings.config.silenceCommitS {
        return [];
      }
      chunks := EmitAll(lastHyp.value, Silence, Some(now));
    }

    method Flush() returns (chunks: seq<PhraseChunk>)
      requires Valid()
      modifies this, tracker
      ensures Valid() && Emission(chunks, State()) == Flushed(settings, old(State()))
    {
      if lastHyp.None? {
        return [];
      }
      chunks := EmitAll(lastHyp.value, Final, None);
    }

    method TryEmit(hyp: Hypothesis) returns (chunks: seq<PhraseChunk>)
      requires Valid()
      modifies this, tracker
      ensures Valid() && Emission(chunks, State()) == Tried(settings, old(State()), hyp)
    {
      var found := tracker.StablePrefix();
      if found.None? {
        return [];
      }
      var prefix, cfg := found.value, settings.config;
      var tokens := prefix.tokens;
      DecisionFits(settings, tokens, hyp.tWall - prefix.firstSeenWall);
      if |tokens| >= cfg.maxWords {
        var chunk := CommitChunk(hyp, prefix, cfg.maxWords, MaxWords, None);
        return [chunk];
      }
      var allowWeak := cfg.allowConjunctionBoundary
                       && |tokens| as real >= Times(cfg.maxWords, cfg.conjunctionThreshold);
      var cut := FindBoundary(settings.lex, tokens, cfg.minWords, allowWeak);
      if cut.end > 0 {
        var chunk := CommitChunk(hyp, prefix, cut.end, ClauseBoundary, None);
        return [chunk];
      }
      var lag := hyp.tWall - prefix.firstSeenWall;
      if lag >= cfg.maxWaitS && |tokens| >= cfg.minWords {
        var chunk := CommitChunk(hyp, prefix, |tokens|, StabilityTimeout, None);
        return [chunk];
      }
      return [];
    }

    method EmitAll(hyp: Hypothesis, reason: CommitReason, now: Option<real>) returns (chunks: seq<PhraseChunk>)
      requires Valid()
      modifies this, tracker
      ensures Valid() && Emission(chunks, State()) == Drained(settings, old(State()), hyp, reason, now)
    {
      chunks := [];
      ghost var target := Drained(settings, State(), hyp, reason, now);
      while true
        invariant Valid() && tracker.window == old(tracker.window)
        invariant DrainsTo(settings, State(), hyp, reason, now, chunks, target)
        decreases Agreed(tracker.n, tracker.window) - tracker.committed
      {
        DrainOnce(settings, State(), hyp, reason, now, chunks, target);
        var prefix := tracker.StablePrefix();
        if prefix.None? || prefix.value.tokens == [] {
          break;
        }
        var tokens := prefix.value.tokens;
        var take := if |tokens| <= settings.config.maxWords then |tokens| else settings.config.maxWords;
        var chunk := CommitChunk(hyp, prefix.value, take, reason, now);
        chunks := chunks + [chunk];
      }
    }

    /** `_commit`. */
    method CommitChunk(hyp: Hypothesis, prefix: Prefix, take: nat, reason: CommitReason, now: Option<real>)
      returns (chunk: PhraseChunk)
      requires Valid() && 1 <= take <= |prefix.tokens|
      modifies this`nextId, this`audioCursor, tracker`committed, tracker`contradicted
      ensures Valid() && (chunk, State()) == Committed(old(State()), hyp, prefix, take, reason, now)
    {
      var committedBefore := tracker.committed;
      var tokens := prefix.tokens[..take];
      var tAudioStart := audioCursor;
      var tAudioEnd := WordEndTime(hyp, committedBefore + take);
      var tWall := if now.Some? then now.value else hyp.tWall;
      var lag := tWall - prefix.firstSeenWall;
      var revised := tracker.ResetContradiction();
      chunk := PhraseChunk(nextId, Join(tokens), tAudioStart, tAudioEnd, tWall, reason, take,
                           if lag > 0.0 then lag else 0.0, revised);
      tracker.Commit(take);
      nextId := nextId + 1;
      audioCursor := tAudioEnd;
    }
  }
}
