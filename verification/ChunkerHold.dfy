/** How long the chunker can hold words that are ready. */
module ChunkerHold {
  import opened Options
  import opened Transcript
  import opened Stability
  import opened Chunker
  import opened ChunkerRuns
  import opened Durations

  /** The sessions passed through while feeding a run of hypotheses and nothing else. */
  ghost predicate IsRun(e: Settings, hyps: seq<Hypothesis>, run: seq<Session>)
    requires e.Usable()
  {
    && |run| == |hyps| + 1 && run[0] == BEGIN
    && forall j | 0 <= j < |hyps| :: StepOf(e, hyps, run, j)
  }

  predicate StepOf(e: Settings, hyps: seq<Hypothesis>, run: seq<Session>, j: nat)
    requires e.Usable() && j < |hyps| && j + 1 < |run|
  {
    Follows(e, run[j], hyps[j], run[j + 1])
  }

  predicate Follows(e: Settings, s: Session, hyp: Hypothesis, s': Session)
    requires e.Usable()
  {
    s' == Step(e, s, Feed(hyp))
  }

  /** Interim hypotheses that only ever add words (up to normalisation), in the order of their wall times. */
  predicate InterimAppending(e: Settings, hyps: seq<Hypothesis>) {
    && (forall i | 0 <= i < |hyps| :: !hyps[i].isFinal)
    && (forall i | 0 < i < |hyps| :: Tokens(e, hyps[i - 1]) <= Tokens(e, hyps[i]))
    && (forall i, j | 0 <= i <= j < |hyps| :: hyps[i].tWall <= hyps[j].tWall)
  }

  /** A hypothesis that extends the newest one never shrinks the agreed prefix. */
  lemma {:induction false} AgreedNeverShrinks(n: nat, window: seq<seq<string>>, entry: seq<string>)
    requires n >= 1 && |window| <= n
    requires window != [] ==> window[|window| - 1] <= entry
    ensures Agreed(n, window) <= Agreed(n, Push(n, window, entry))
  {
    var k := Agreed(n, window);
    AgreedIff(n, window, k);
    AgreedIff(n, Push(n, window, entry), k);
    if k > 0 {
      var next, last := Push(n, window, entry), window[|window| - 1];
      assert last[..k] == window[0][..k] && entry[..k] == last[..k];
      forall i | 0 <= i < |next|
        ensures k <= |next[i]| && next[i][..k] == window[0][..k]
      {
        if i < |next| - 1 { assert next[i] == window[i + 1]; } else { assert next[i] == entry; }
      }
    }
  }

  /** Every first sighting is of a length no longer than the present one, and lies in the past. */
  predicate SightingsPast(e: Settings, s: Session) {
    s.state.lastHyp.Some? ==>
      forall k | k in s.state.tracker.firstSeen ::
        k <= AgreedIn(e, s) && s.state.tracker.firstSeen[k] <= s.state.lastHyp.value.tWall
  }

  /** What one more appended interim hypothesis does to the agreed length and its first sighting. */
  lemma {:induction false} HearingGrows(e: Settings, s: Session, hyp: Hypothesis)
    requires e.Usable() && Inv(e, s) && SightingsPast(e, s) && !hyp.isFinal
    requires s.heard != [] ==> Tokens(e, s.heard[|s.heard| - 1]) <= Tokens(e, hyp)
    requires s.heard != [] ==> s.heard[|s.heard| - 1].tWall <= hyp.tWall
    requires s.heard == [] ==> s.state == NEW
    ensures var ready := Recorded(e, s, hyp);
            && SightingsPast(e, ready)
            && AgreedIn(e, s) <= AgreedIn(e, ready)
            && ready.state.tracker.firstSeen[AgreedIn(e, ready)]
               == if s.heard != [] && AgreedIn(e, ready) == AgreedIn(e, s)
                  then s.state.tracker.firstSeen[AgreedIn(e, s)] else hyp.tWall
  {
    var n, entry := e.config.agreementN, Tokens(e, hyp);
    assert PushTimes(n, s.Window(), entry, 1) == Push(n, s.Window(), entry);
    assert s.heard == [] ==> s.Window() == [];
    AgreedNeverShrinks(n, s.Window(), entry);
  }

  lemma {:induction false} StepGrows(e: Settings, s: Session, hyp: Hypothesis, s': Session)
    requires e.Usable() && Inv(e, s) && Follows(e, s, hyp, s')
    ensures Inv(e, s') && s.chunks <= s'.chunks && s'.heard == s.heard + [hyp]
  {
    StepKeepsInv(e, s, Feed(hyp));
  }

  lemma {:induction false} StepKeepsSightings(e: Settings, s: Session, hyp: Hypothesis, s': Session)
    requires e.Usable() && Inv(e, s) && SightingsPast(e, s) && !hyp.isFinal && Follows(e, s, hyp, s')
    requires s.heard != [] ==> Tokens(e, s.heard[|s.heard| - 1]) <= Tokens(e, hyp)
    requires s.heard != [] ==> s.heard[|s.heard| - 1].tWall <= hyp.tWall
    requires s.heard == [] ==> s.state == NEW
    ensures SightingsPast(e, s')
  {
    HearingGrows(e, s, hyp);
    StepKeepsInv(e, s, Feed(hyp));
  }

  lemma {:induction false} PrefixGrows<T>(s: seq<T>, j: nat)
    requires 1 <= j <= |s|
    ensures s[..j] == s[..j - 1] + [s[j - 1]]
  {
  }

  lemma {:induction false} NewKeepsInv(e: Settings)
    ensures Inv(e, BEGIN)
  {
  }

  /** Every session of a run keeps the chunker's invariant and has heard what was fed. */
  lemma {:induction false} RunKeepsInv(e: Settings, hyps: seq<Hypothesis>, run: seq<Session>, j: nat)
    requires e.Usable() && IsRun(e, hyps, run) && j <= |hyps|
    ensures Inv(e, run[j]) && run[j].heard == hyps[..j]
  {
    if j > 0 {
      RunKeepsInv(e, hyps, run, j - 1);
      assert StepOf(e, hyps, run, j - 1);
      StepGrows(e, run[j - 1], hyps[j - 1], run[j]);
      PrefixGrows(hyps, j);
    } else {
      NewKeepsInv(e);
    }
  }

  /** Every session of a run of appended interim hypotheses. */
  lemma {:induction false} RunFacts(e: Settings, hyps: seq<Hypothesis>, run: seq<Session>, j: nat)
    requires e.Usable() && InterimAppending(e, hyps) && IsRun(e, hyps, run) && j <= |hyps|
    ensures Inv(e, run[j]) && run[j].heard == hyps[..j]
    ensures SightingsPast(e, run[j])
  {
    RunKeepsInv(e, hyps, run, j);
    if j > 0 {
      RunFacts(e, hyps, run, j - 1);
      assert StepOf(e, hyps, run, j - 1);
      assert j > 1 ==> run[j - 1].heard[j - 2] == hyps[j - 2];
      StepKeepsSightings(e, run[j - 1], hyps[j - 1], run[j]);
    }
  }

  /** An interim hypothesis that commits nothing: fewer than max_words are pending, and either fewer than
      min_words are, or the agreed length was first seen less than max_wait_s ago. */
  lemma {:induction false} HeldMeansRecent(e: Settings, s: Session, hyp: Hypothesis)
    requires e.Usable() && Inv(e, s) && !hyp.isFinal
    requires Step(e, s, Feed(hyp)).chunks == s.chunks
    ensures var s' := Step(e, s, Feed(hyp));
            && s' == Recorded(e, s, hyp)
            && (Pending(e, s') >= e.config.minWords ==>
                  && Pending(e, s') < e.config.maxWords
                  && AgreedIn(e, s') in s'.state.tracker.firstSeen
                  && hyp.tWall < s'.state.tracker.firstSeen[AgreedIn(e, s')] + e.config.maxWaitS)
  {
    HearingKeepsInv(e, s, hyp);
    StepIsFinish(e, s, Feed(hyp));
    var ready := Recorded(e, s, hyp);
    var take, reason := TryUnfolds(e, ready);
    GuardAndDefaultUnused(e, ready);
  }

  /** Where a hold that began at wall time t0 with p0 words pending stands. */
  predicate Holding(e: Settings, s: Session, t0: real, p0: nat, g: real) {
    && s.state.lastHyp.Some?
    && e.config.minWords <= p0 <= Pending(e, s) < e.config.maxWords
    && AgreedIn(e, s) in s.state.tracker.firstSeen
    && var first := s.state.tracker.firstSeen[AgreedIn(e, s)];
       && s.state.lastHyp.value.tWall < first + e.config.maxWaitS
       && first <= t0 + Times(Pending(e, s) - p0, e.config.maxWaitS + g)
  }

  /** The timer restarts only when the agreed length grows, and it can grow only so often. */
  lemma {:induction false} HoldContinues(e: Settings, s: Session, hyp: Hypothesis, t0: real, p0: nat, g: real)
    requires e.Usable() && Inv(e, s) && SightingsPast(e, s) && !hyp.isFinal && s.heard != []
    requires e.config.maxWaitS >= 0.0 && g >= 0.0
    requires Holding(e, s, t0, p0, g)
    requires Tokens(e, s.heard[|s.heard| - 1]) <= Tokens(e, hyp)
    requires s.heard[|s.heard| - 1].tWall <= hyp.tWall <= s.heard[|s.heard| - 1].tWall + g
    requires Step(e, s, Feed(hyp)).chunks == s.chunks
    ensures Holding(e, Step(e, s, Feed(hyp)), t0, p0, g)
  {
    HearingGrows(e, s, hyp);
    HeldMeansRecent(e, s, hyp);
    HoldGrows(e, s, Recorded(e, s, hyp), t0, p0, g);
  }

  lemma {:induction false} HoldGrows(e: Settings, s: Session, s': Session, t0: real, p0: nat, g: real)
    requires e.config.maxWaitS >= 0.0 && g >= 0.0 && Holding(e, s, t0, p0, g)
    requires s'.state.lastHyp.Some? && s'.state.lastHyp.value.tWall <= s.state.lastHyp.value.tWall + g
    requires Pending(e, s) <= Pending(e, s') < e.config.maxWords
    requires AgreedIn(e, s') in s'.state.tracker.firstSeen
    requires var first := s'.state.tracker.firstSeen[AgreedIn(e, s')];
             && s'.state.lastHyp.value.tWall < first + e.config.maxWaitS
             && first == if Pending(e, s') == Pending(e, s) then s.state.tracker.firstSeen[AgreedIn(e, s)]
                         else s'.state.lastHyp.value.tWall
    ensures Holding(e, s', t0, p0, g)
  {
    var p, p' := Pending(e, s), Pending(e, s');
    if p' > p {
      TimesAdds(p - p0, p' - p, e.config.maxWaitS + g);
    }
  }

  /** Gaps between hypotheses i-1 .. j-1 are at most g. */
  predicate GapsAtMost(hyps: seq<Hypothesis>, i: nat, j: nat, g: real)
    requires j <= |hyps|
  {
    forall k | i <= k < j && k > 0 :: hyps[k].tWall <= hyps[k - 1].tWall + g
  }

  /** A hold: hypothesis i-1 has left at least min_words stable words pending, whether or not it committed
      anything itself. */
  predicate HoldStarts(e: Settings, run: seq<Session>, i: nat)
    requires 1 <= i < |run|
  {
    e.config.minWords <= Pending(e, run[i])
  }

  lemma {:induction false} ChunksOnlyGrow(e: Settings, hyps: seq<Hypothesis>, run: seq<Session>, i: nat, j: nat)
    requires e.Usable() && InterimAppending(e, hyps) && IsRun(e, hyps, run) && i <= j <= |hyps|
    ensures run[i].chunks <= run[j].chunks
    decreases j
  {
    if i < j {
      ChunksOnlyGrow(e, hyps, run, i, j - 1);
      RunFacts(e, hyps, run, j - 1);
      assert StepOf(e, hyps, run, j - 1);
      StepGrows(e, run[j - 1], hyps[j - 1], run[j]);
    }
  }

  /** A silent hypothesis after words were left pending: they are pending still, perhaps with more, and their
      agreed length was first seen less than max_wait_s ago and no later than now. */
  lemma {:induction false} SilentStep(e: Settings, hyps: seq<Hypothesis>, run: seq<Session>, i: nat)
    requires e.Usable() && InterimAppending(e, hyps) && IsRun(e, hyps, run) && 1 <= i < |hyps|
    requires HoldStarts(e, run, i) && run[i + 1].chunks == run[i].chunks
    ensures var s, s' := run[i], run[i + 1];
            && s'.state.lastHyp == Some(hyps[i])
            && Pending(e, s) <= Pending(e, s') < e.config.maxWords
            && AgreedIn(e, s') in s'.state.tracker.firstSeen
            && var first := s'.state.tracker.firstSeen[AgreedIn(e, s')];
               && hyps[i].tWall < first + e.config.maxWaitS && first <= hyps[i].tWall
               && (Pending(e, s) == Pending(e, s') ==> first <= hyps[i - 1].tWall)
  {
    RunFacts(e, hyps, run, i);
    RunFacts(e, hyps, run, i + 1);
    assert StepOf(e, hyps, run, i);
    assert run[i].heard[i - 1] == hyps[i - 1];
    HearingGrows(e, run[i], hyps[i]);
    HeldMeansRecent(e, run[i], hyps[i]);
  }

  lemma {:induction false} HoldBegins(e: Settings, hyps: seq<Hypothesis>, run: seq<Session>, i: nat, g: real)
    requires e.Usable() && InterimAppending(e, hyps) && IsRun(e, hyps, run) && 1 <= i < |hyps|
    requires e.config.maxWaitS >= 0.0 && g >= 0.0 && hyps[i].tWall <= hyps[i - 1].tWall + g
    requires HoldStarts(e, run, i) && run[i + 1].chunks == run[i].chunks
    ensures Holding(e, run[i + 1], hyps[i - 1].tWall, Pending(e, run[i]), g)
  {
    SilentStep(e, hyps, run, i);
    TimesAdds(0, Pending(e, run[i + 1]) - Pending(e, run[i]), e.config.maxWaitS + g);
  }

  lemma {:induction false} HoldGoesOn(e: Settings, hyps: seq<Hypothesis>, run: seq<Session>, j: nat, t0: real, p0: nat,
                                      g: real)
    requires e.Usable() && InterimAppending(e, hyps) && IsRun(e, hyps, run) && 2 <= j <= |hyps|
    requires e.config.maxWaitS >= 0.0 && g >= 0.0 && hyps[j - 1].tWall <= hyps[j - 2].tWall + g
    requires Holding(e, run[j - 1], t0, p0, g) && run[j].chunks == run[j - 1].chunks
    ensures Holding(e, run[j], t0, p0, g)
  {
    RunFacts(e, hyps, run, j - 1);
    assert StepOf(e, hyps, run, j - 1);
    assert run[j - 1].heard[j - 2] == hyps[j - 2];
    HoldContinues(e, run[j - 1], hyps[j - 1], t0, p0, g);
  }

  lemma {:induction false} HoldLasts(e: Settings, hyps: seq<Hypothesis>, run: seq<Session>, i: nat, j: nat, g: real)
    requires e.Usable() && InterimAppending(e, hyps) && IsRun(e, hyps, run) && 1 <= i < j <= |hyps|
    requires e.config.maxWaitS >= 0.0 && g >= 0.0 && GapsAtMost(hyps, i, j, g) && HoldStarts(e, run, i)
    requires run[j].chunks == run[i].chunks
    ensures Holding(e, run[j], hyps[i - 1].tWall, Pending(e, run[i]), g)
    decreases j
  {
    ChunksOnlyGrow(e, hyps, run, i, j - 1);
    ChunksOnlyGrow(e, hyps, run, j - 1, j);
    if i + 1 == j {
      HoldBegins(e, hyps, run, i, g);
    } else {
      HoldLasts(e, hyps, run, i, j - 1, g);
      HoldGoesOn(e, hyps, run, j, hyps[i - 1].tWall, Pending(e, run[i]), g);
    }
  }

  lemma {:induction false} BoundInPeriods(e: Settings, hyps: seq<Hypothesis>, run: seq<Session>, i: nat, j: nat,
                                          g: real)
    requires e.Usable() && InterimAppending(e, hyps) && IsRun(e, hyps, run) && 1 <= i < j < |hyps|
    requires e.config.maxWaitS >= 0.0 && g >= 0.0 && GapsAtMost(hyps, i, j + 1, g) && HoldStarts(e, run, i)
    requires run[j].chunks == run[i].chunks
    ensures e.config.minWords < e.config.maxWords
    ensures hyps[j].tWall - hyps[i - 1].tWall
          < Times(e.config.maxWords - e.config.minWords, e.config.maxWaitS + g)
  {
    HoldLasts(e, hyps, run, i, j, g);
    RunFacts(e, hyps, run, j);
    HoldingIsBrief(e, run[j], hyps[i - 1].tWall, Pending(e, run[i]), g);
    assert run[j].heard[j - 1] == hyps[j - 1];
  }

  /** The longest a hold can last, given the gap between hypotheses. With max_words at or below min_words any
      hold is long enough to be cut by the very next hypothesis. */
  function HoldLimit(e: Settings, g: real): real {
    if e.config.minWords < e.config.maxWords
    then (e.config.maxWords - e.config.minWords) as real * (e.config.maxWaitS + g)
    else g
  }

  /** The hold-time bound. From any hypothesis i-1 that leaves min_words stable words pending, under continued
      feeding with gaps of at most g, the first hypothesis that commits comes within the limit: if none of
      those from i to j-1 committed, hypothesis j is still inside it. */
  lemma {:induction false} HoldTimeBound(e: Settings, hyps: seq<Hypothesis>, run: seq<Session>, i: nat, j: nat, g: real)
    requires e.Usable() && InterimAppending(e, hyps) && IsRun(e, hyps, run) && 1 <= i <= j < |hyps|
    requires e.config.maxWaitS >= 0.0 && g >= 0.0 && GapsAtMost(hyps, i, j + 1, g) && HoldStarts(e, run, i)
    requires run[j].chunks == run[i].chunks
    ensures hyps[j].tWall - hyps[i - 1].tWall <= HoldLimit(e, g)
    ensures e.config.minWords < e.config.maxWords && e.config.maxWaitS > 0.0 ==>
              hyps[j].tWall - hyps[i - 1].tWall < HoldLimit(e, g)
  {
    var periods := if e.config.minWords < e.config.maxWords then e.config.maxWords - e.config.minWords else 0;
    TimesIsProduct(periods, e.config.maxWaitS + g);
    if i < j {
      BoundInPeriods(e, hyps, run, i, j, g);
    } else {
      TimesAdds(0, periods, e.config.maxWaitS + g);
    }
  }

  /** Therefore a hold that is fed past the limit has committed. */
  lemma {:induction false} HoldEndsInACommit(e: Settings, hyps: seq<Hypothesis>, run: seq<Session>, i: nat, j: nat,
                                             g: real)
    requires e.Usable() && InterimAppending(e, hyps) && IsRun(e, hyps, run) && 1 <= i <= j < |hyps|
    requires e.config.maxWaitS >= 0.0 && g >= 0.0 && GapsAtMost(hyps, i, j + 1, g) && HoldStarts(e, run, i)
    requires var held := hyps[j].tWall - hyps[i - 1].tWall;
             held > HoldLimit(e, g)
             || (held == HoldLimit(e, g) && e.config.minWords < e.config.maxWords && e.config.maxWaitS > 0.0)
    ensures run[i].chunks < run[j].chunks
  {
    ChunksOnlyGrow(e, hyps, run, i, j);
    if run[j].chunks == run[i].chunks {
      HoldTimeBound(e, hyps, run, i, j, g);
    }
  }

  lemma {:induction false} HoldingIsBrief(e: Settings, s: Session, t0: real, p0: nat, g: real)
    requires e.config.maxWaitS >= 0.0 && g >= 0.0
    requires Holding(e, s, t0, p0, g) && TrackerInv(e, s)
    ensures s.heard != [] && e.config.minWords < e.config.maxWords
    ensures s.heard[|s.heard| - 1].tWall + g
          < t0 + Times(e.config.maxWords - e.config.minWords, e.config.maxWaitS + g)
  {
    var p := Pending(e, s);
    TimesAdds(p - p0, e.config.maxWords - e.config.minWords - (p - p0), e.config.maxWaitS + g);
  }
}
