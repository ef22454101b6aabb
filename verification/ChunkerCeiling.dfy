/** When `max_wait_s` really is a ceiling on how long ready words are held, and a run where it is not. */
module ChunkerCeiling {
  import opened Sequences
  import opened Options
  import opened Words
  import opened Transcript
  import opened Clause
  import opened Stability
  import opened Chunker
  import opened ChunkerRuns
  import opened ChunkerHold

  /** The hold that began at hypothesis i-1 is still unbroken after hypothesis j-1. */
  ghost predicate StillHeld(e: Settings, hyps: seq<Hypothesis>, run: seq<Session>, i: nat, j: nat)
    requires e.Usable()
  {
    && InterimAppending(e, hyps) && IsRun(e, hyps, run) && 1 <= i < j <= |hyps|
    && HoldStarts(e, run, i) && run[j].chunks == run[i].chunks
  }

  /** No hold of any run stands max_wait_s after it began. */
  ghost predicate MaxWaitIsCeiling(e: Settings)
    requires e.Usable()
  {
    forall hyps: seq<Hypothesis>, run: seq<Session>, i: nat, j: nat | StillHeld(e, hyps, run, i, j) ::
      hyps[j - 1].tWall - hyps[i - 1].tWall < e.config.maxWaitS
  }

  // ---------------------------------------------------------------- where it is a ceiling

  /** No hold survives a single hypothesis when nothing is to be waited for. */
  lemma {:induction false} NoWaitNoHold(e: Settings, hyps: seq<Hypothesis>, run: seq<Session>, i: nat, j: nat)
    requires e.Usable() && e.config.maxWaitS <= 0.0
    ensures !StillHeld(e, hyps, run, i, j)
  {
    if StillHeld(e, hyps, run, i, j) {
      ChunksOnlyGrow(e, hyps, run, i, i + 1);
      ChunksOnlyGrow(e, hyps, run, i + 1, j);
      SilentStep(e, hyps, run, i);
      assert false;
    }
  }

  /** When one word more than min_words already forces a phrase, the timer has no room to restart. */
  lemma {:induction false} NoRoomToRestart(e: Settings, hyps: seq<Hypothesis>, run: seq<Session>, i: nat, j: nat)
    requires e.Usable() && e.config.maxWaitS > 0.0 && e.config.maxWords <= e.config.minWords + 1
    requires StillHeld(e, hyps, run, i, j)
    ensures hyps[j - 1].tWall - hyps[i - 1].tWall < e.config.maxWaitS
  {
    HoldLasts(e, hyps, run, i, j, hyps[|hyps| - 1].tWall - hyps[0].tWall);
    RunFacts(e, hyps, run, j);
    assert run[j].heard[j - 1] == hyps[j - 1];
  }

  // ---------------------------------------------------------------- where it is not

  /** A word that ends no clause and starts none. */
  predicate PlainWord(lex: Lexicon, w: string) {
    IsWord(w) && StrengthAfter(lex, w) == NoBoundary && !IsConjunction(lex, w)
  }

  /** One word said over and over: min_words of it until all agree, then one more until all agree on that,
      halfway through max_wait_s, and the same again when max_wait_s is up. */
  function Restarting(e: Settings, w: string): (hyps: seq<Hypothesis>) {
    seq(2 * e.config.agreementN + 1, k requires 0 <= k => RestartingAt(e, w, k))
  }

  function RestartingAt(e: Settings, w: string, k: nat): Hypothesis {
    var n, wait := e.config.agreementN, e.config.maxWaitS;
    var wall := if k < n then 0.0 else if k < 2 * n then wait / 2.0 else wait;
    Hypothesis(Join(Repeat(w, WordsAt(e, k))), false, 0.0, wall, wall, k, None)
  }

  function WordsAt(e: Settings, k: nat): nat {
    if k < e.config.agreementN then e.config.minWords else e.config.minWords + 1
  }

  function RunOf(e: Settings, hyps: seq<Hypothesis>): (run: seq<Session>)
    requires e.Usable()
    ensures |run| == |hyps| + 1
  {
    if hyps == [] then [BEGIN]
    else
      var before := RunOf(e, hyps[..|hyps| - 1]);
      before + [Step(e, before[|hyps| - 1], Feed(hyps[|hyps| - 1]))]
  }

  lemma {:induction false} RunGrows(e: Settings, hyps: seq<Hypothesis>, run: seq<Session>, hyp: Hypothesis, s: Session)
    requires e.Usable() && IsRun(e, hyps, run) && Follows(e, run[|hyps|], hyp, s)
    ensures IsRun(e, hyps + [hyp], run + [s])
  {
    forall j | 0 <= j < |hyps| + 1
      ensures StepOf(e, hyps + [hyp], run + [s], j)
    {
      if j < |hyps| {
        assert StepOf(e, hyps, run, j);
      }
    }
  }

  lemma {:induction false} RunOfIsRun(e: Settings, hyps: seq<Hypothesis>)
    requires e.Usable()
    ensures IsRun(e, hyps, RunOf(e, hyps))
  {
    if hyps != [] {
      var init, hyp := hyps[..|hyps| - 1], hyps[|hyps| - 1];
      RunOfIsRun(e, init);
      RunGrows(e, init, RunOf(e, init), hyp, Step(e, RunOf(e, init)[|init|], Feed(hyp)));
      assert init + [hyp] == hyps;
    }
  }

  lemma {:induction false} RestartingSays(e: Settings, w: string, k: nat)
    requires IsWord(w)
    ensures Tokenise(RestartingAt(e, w, k).text) == Repeat(w, WordsAt(e, k))
    ensures Tokens(e, RestartingAt(e, w, k)) == Repeat(e.lex.normalise(w), WordsAt(e, k))
  {
    TokeniseJoin(Repeat(w, WordsAt(e, k)));
  }

  lemma {:induction false} RestartingAppends(e: Settings, w: string)
    requires e.Usable() && IsWord(w) && e.config.maxWaitS > 0.0
    ensures InterimAppending(e, Restarting(e, w))
  {
    var hyps := Restarting(e, w);
    forall i | 0 < i < |hyps|
      ensures Tokens(e, hyps[i - 1]) <= Tokens(e, hyps[i])
    {
      RestartingSays(e, w, i - 1);
      RestartingSays(e, w, i);
    }
  }

  lemma {:induction false} EntriesOfInterims(e: Settings, heard: seq<Hypothesis>)
    requires forall i | 0 <= i < |heard| :: !heard[i].isFinal
    ensures |Entries(e, heard)| == |heard|
    ensures forall i | 0 <= i < |heard| :: Entries(e, heard)[i] == Tokens(e, heard[i])
  {
    if heard != [] {
      EntriesOfInterims(e, heard[..|heard| - 1]);
    }
  }

  /** The first n hypotheses say the same words, and so do the last n. */
  lemma {:induction false} RestartingShares(e: Settings, w: string, k: nat)
    requires e.Usable() && IsWord(w) && (k == e.config.agreementN || k == 2 * e.config.agreementN + 1)
    ensures LastShare(e, Restarting(e, w)[..k], WordsAt(e, k - 1))
  {
    var n, heard := e.config.agreementN, Restarting(e, w)[..k];
    EntriesOfInterims(e, heard);
    forall i | k - n <= i < k
      ensures Tokens(e, heard[i]) == Repeat(e.lex.normalise(w), WordsAt(e, k - 1))
    {
      RestartingSays(e, w, i);
    }
  }

  lemma {:induction false} AgreedWhileRestarting(e: Settings, w: string, s: Session, k: nat)
    requires e.Usable() && IsWord(w) && TrackerInv(e, s)
    requires 1 <= k <= 2 * e.config.agreementN + 1 && s.heard == Restarting(e, w)[..k]
    ensures AgreedIn(e, s) <= WordsAt(e, k - 1)
    ensures k == e.config.agreementN || k == 2 * e.config.agreementN + 1 ==> AgreedIn(e, s) == WordsAt(e, k - 1)
  {
    RestartingSays(e, w, k - 1);
    GuardAndDefaultUnused(e, s);
    if k == e.config.agreementN || k == 2 * e.config.agreementN + 1 {
      RestartingShares(e, w, k);
      AgreedMeansLastShare(e, s, WordsAt(e, k - 1));
    }
  }

  /** Plain words below the size limit and inside the wait are held. */
  lemma {:induction false} PlainWordsAreHeld(e: Settings, tokens: seq<string>, lag: real, w: string)
    requires e.Usable() && PlainWord(e.lex, w) && forall i | 0 <= i < |tokens| :: tokens[i] == w
    requires |tokens| < e.config.maxWords && lag < e.config.maxWaitS
    ensures Decide(e, tokens, lag).0 == 0
  {
    FindBoundaryIsLatest(e.lex, tokens, e.config.minWords, false);
    FindBoundaryIsLatest(e.lex, tokens, e.config.minWords, true);
  }

  /** Nothing spoken; every length seen was seen in the past, the longer one not before the halfway point. */
  predicate Quiet(e: Settings, s: Session) {
    && s.chunks == [] && s.Committed() == 0
    && forall a | a in s.state.tracker.firstSeen ::
         && s.state.tracker.firstSeen[a] >= 0.0
         && (a > e.config.minWords ==> s.state.tracker.firstSeen[a] >= e.config.maxWaitS / 2.0)
  }

  lemma {:induction false} RestartingStaysQuiet(e: Settings, w: string, run: seq<Session>, k: nat)
    requires e.Usable() && PlainWord(e.lex, w) && e.config.maxWaitS > 0.0
    requires e.config.maxWords >= e.config.minWords + 2
    requires IsRun(e, Restarting(e, w), run) && k <= 2 * e.config.agreementN + 1
    ensures Quiet(e, run[k])
  {
    if k > 0 {
      var hyps, hyp := Restarting(e, w), RestartingAt(e, w, k - 1);
      RestartingStaysQuiet(e, w, run, k - 1);
      RunKeepsInv(e, hyps, run, k - 1);
      assert StepOf(e, hyps, run, k - 1) && hyps[k - 1] == hyp;
      PrefixGrows(hyps, k);
      QuietStep(e, w, run[k - 1], k);
    }
  }

  lemma {:induction false} HearingIsQuiet(e: Settings, w: string, s: Session, k: nat)
    requires e.Usable() && IsWord(w) && e.config.maxWaitS > 0.0
    requires 1 <= k <= 2 * e.config.agreementN + 1 && Inv(e, s) && Quiet(e, s)
    requires s.heard + [RestartingAt(e, w, k - 1)] == Restarting(e, w)[..k]
    ensures var ready := Recorded(e, s, RestartingAt(e, w, k - 1));
            && Inv(e, ready) && Quiet(e, ready)
            && AgreedIn(e, ready) <= WordsAt(e, k - 1)
            && (k == 2 * e.config.agreementN + 1 ==> AgreedIn(e, ready) == WordsAt(e, k - 1))
  {
    HearingKeepsInv(e, s, RestartingAt(e, w, k - 1));
    AgreedWhileRestarting(e, w, Recorded(e, s, RestartingAt(e, w, k - 1)), k);
  }

  lemma {:induction false} QuietStep(e: Settings, w: string, s: Session, k: nat)
    requires e.Usable() && PlainWord(e.lex, w) && e.config.maxWaitS > 0.0
    requires e.config.maxWords >= e.config.minWords + 2
    requires 1 <= k <= 2 * e.config.agreementN + 1 && Inv(e, s) && Quiet(e, s)
    requires s.heard + [RestartingAt(e, w, k - 1)] == Restarting(e, w)[..k]
    ensures Quiet(e, Step(e, s, Feed(RestartingAt(e, w, k - 1))))
  {
    var hyp := RestartingAt(e, w, k - 1);
    var ready := Recorded(e, s, hyp);
    HearingIsQuiet(e, w, s, k);
    RestartingSays(e, w, k - 1);
    GuardAndDefaultUnused(e, ready);
    StepIsFinish(e, s, Feed(hyp));
    var found := Stable(e.config.agreementN, ready.state.tracker);
    if found.Some? {
      PlainWordsAreHeld(e, found.value.tokens, hyp.tWall - found.value.firstSeenWall, w);
    }
    assert ready.chunks + [] == ready.chunks;
  }

  /** Words ready from the start are held for as long as max_wait_s and longer: one word more, agreed halfway
      through, restarts the timer. */
  lemma {:induction false} HoldOutlastsMaxWait(e: Settings, w: string)
    requires e.Usable() && PlainWord(e.lex, w) && e.config.maxWaitS > 0.0
    requires e.config.maxWords >= e.config.minWords + 2
    ensures var hyps, n := Restarting(e, w), e.config.agreementN;
            && StillHeld(e, hyps, RunOf(e, hyps), n, 2 * n + 1)
            && hyps[2 * n].tWall - hyps[n - 1].tWall == e.config.maxWaitS
            && RunOf(e, hyps)[2 * n + 1].chunks == []
            && Pending(e, RunOf(e, hyps)[n]) == e.config.minWords
            && Pending(e, RunOf(e, hyps)[2 * n + 1]) == e.config.minWords + 1
  {
    var hyps, n := Restarting(e, w), e.config.agreementN;
    var run := RunOf(e, hyps);
    RestartingAppends(e, w);
    RunOfIsRun(e, hyps);
    RestartingHolds(e, w, run, n);
    RestartingHolds(e, w, run, 2 * n + 1);
  }

  /** Once all agree on the first words, and once all agree on one more, everything agreed is held. */
  lemma {:induction false} RestartingHolds(e: Settings, w: string, run: seq<Session>, k: nat)
    requires e.Usable() && PlainWord(e.lex, w) && e.config.maxWaitS > 0.0
    requires e.config.maxWords >= e.config.minWords + 2
    requires IsRun(e, Restarting(e, w), run) && (k == e.config.agreementN || k == 2 * e.config.agreementN + 1)
    ensures run[k].chunks == [] && Pending(e, run[k]) == WordsAt(e, k - 1)
  {
    RestartingStaysQuiet(e, w, run, k);
    RunKeepsInv(e, Restarting(e, w), run, k);
    AgreedWhileRestarting(e, w, run[k], k);
  }

  /** `max_wait_s` is documented as a direct latency ceiling. It is one exactly when there is nothing to wait
      for, or max_words leaves no room for a second stable length at or above min_words. */
  lemma {:induction false} MaxWaitIsCeilingIff(e: Settings, w: string)
    requires e.Usable() && PlainWord(e.lex, w)
    ensures MaxWaitIsCeiling(e) <==> e.config.maxWaitS <= 0.0 || e.config.maxWords <= e.config.minWords + 1
  {
    if e.config.maxWaitS <= 0.0 || e.config.maxWords <= e.config.minWords + 1 {
      forall hyps: seq<Hypothesis>, run: seq<Session>, i: nat, j: nat | StillHeld(e, hyps, run, i, j)
        ensures hyps[j - 1].tWall - hyps[i - 1].tWall < e.config.maxWaitS
      {
        if e.config.maxWaitS <= 0.0 {
          NoWaitNoHold(e, hyps, run, i, j);
        } else {
          NoRoomToRestart(e, hyps, run, i, j);
        }
      }
    } else {
      HoldOutlastsMaxWait(e, w);
      var hyps, n := Restarting(e, w), e.config.agreementN;
      assert StillHeld(e, hyps, RunOf(e, hyps), n, 2 * n + 1);
    }
  }
}
