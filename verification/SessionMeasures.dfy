/** What the latency samples of a session measure: each phrase's own audio end, its own marks, its own first sound. */
module SessionMeasures {
  import opened Options
  import opened Sequences
  import opened Chunker
  import opened LanguageWorkers
  import opened Fanout
  import opened SessionLatency
  import Runs = ChunkerRuns
  import L = Latency
  import M = LatencyMeasures

  /** An open trace stands as its phrase does: dated at the end of the phrase's audio, marked committed when the
      chunker committed it, marked translated if its language has the translation, and not yet heard. */
  predicate Fits(chunks: seq<PhraseChunk>, epoch: real, translated: set<L.Key>, key: L.Key, t: L.Trace) {
    && t.key == key && key.chunkId < |chunks|
    && t.audioEndWall == epoch + chunks[key.chunkId].tAudioEnd
    && L.Committed in t.marks && t.marks[L.Committed] == chunks[key.chunkId].tWallCommitted
    && (L.Translated in t.marks <==> key in translated)
    && L.FirstAudio !in t.marks && L.Published !in t.marks
  }

  predicate AllFit(chunks: seq<PhraseChunk>, epoch: real, translated: set<L.Key>, h: L.History) {
    && h.recorder.epoch == Some(epoch)
    && forall key | key in h.recorder.open :: Fits(chunks, epoch, translated, key, h.recorder.open[key])
  }

  /** The phrases and languages that have their translation. */
  function TranslatedIn(dispatched: seq<Dispatch>, languages: seq<string>): set<L.Key> {
    set k, i | 0 <= k < |dispatched| && 0 <= i < |languages| && i < |dispatched[k].texts|
               && dispatched[k].texts[i].Some? :: KeyOf(dispatched[k].chunk, languages[i])
  }

  /** The keys one dispatch marks. */
  function TranslatedNow(chunk: PhraseChunk, texts: seq<Option<string>>, languages: seq<string>): set<L.Key>
    requires |texts| == |languages|
  {
    set i | 0 <= i < |texts| && texts[i].Some? :: KeyOf(chunk, languages[i])
  }

  // ---------------------------------------------------------------- what each part of a log does

  lemma {:induction false} SplitRun(r: Recording, h: L.History, a: seq<L.Event>, b: seq<L.Event>, h': L.History)
    returns (mid: L.History)
    requires L.IsRun(r.cap, r.slo, h, a + b, h')
    ensures L.IsRun(r.cap, r.slo, h, a, mid) && L.IsRun(r.cap, r.slo, mid, b, h')
    decreases |a|
  {
    if a == [] {
      assert a + b == b;
      mid := h;
    } else {
      TailAppend(a, b);
      mid := SplitRun(r, L.Step(r.cap, r.slo, h, a[0]), a[1..], b, h');
    }
  }

  lemma {:induction false} TranslatedFits(r: Recording, h: L.History, chunk: PhraseChunk, texts: seq<Option<string>>,
                                          languages: seq<string>, wall: real, h': L.History, chunks: seq<PhraseChunk>,
                                          epoch: real, translated: set<L.Key>)
    requires |texts| == |languages| && AllFit(chunks, epoch, translated, h)
    requires L.IsRun(r.cap, r.slo, h, TranslatedLog(chunk, texts, languages, wall), h')
    ensures AllFit(chunks, epoch, translated + TranslatedNow(chunk, texts, languages), h')
    ensures h'.closed == h.closed && h'.recorder.breaches == h.recorder.breaches
    decreases |texts|
  {
    var now := TranslatedNow(chunk, texts, languages);
    if texts == [] {
      assert translated + now == translated;
    } else {
      var key, rest := KeyOf(chunk, languages[0]), TranslatedLog(chunk, texts[1..], languages[1..], wall);
      var later := TranslatedNow(chunk, texts[1..], languages[1..]);
      NowAndLater(chunk, texts, languages);
      if texts[0].Some? {
        var mark := L.Mark(key, L.Translated, wall);
        assert ([mark] + rest)[1..] == rest;
        TranslatedFits(r, L.Step(r.cap, r.slo, h, mark), chunk, texts[1..], languages[1..], wall, h', chunks, epoch,
                       translated + {key});
        assert translated + now == translated + {key} + later;
      } else {
        assert [] + rest == rest;
        TranslatedFits(r, h, chunk, texts[1..], languages[1..], wall, h', chunks, epoch, translated);
        assert translated + now == translated + later;
      }
    }
  }

  lemma {:induction false} NowAndLater(chunk: PhraseChunk, texts: seq<Option<string>>, languages: seq<string>)
    requires |texts| == |languages| && texts != []
    ensures TranslatedNow(chunk, texts, languages)
         == (if texts[0].Some? then {KeyOf(chunk, languages[0])} else {})
            + TranslatedNow(chunk, texts[1..], languages[1..])
  {
    var now, later := TranslatedNow(chunk, texts, languages), TranslatedNow(chunk, texts[1..], languages[1..]);
    forall key | key in later
      ensures key in now
    {
      var i :| 0 <= i < |texts[1..]| && texts[1..][i].Some? && key == KeyOf(chunk, languages[1..][i]);
      assert texts[i + 1].Some? && key == KeyOf(chunk, languages[i + 1]);
    }
    forall key | key in now
      ensures key in later || (texts[0].Some? && key == KeyOf(chunk, languages[0]))
    {
      var i :| 0 <= i < |texts| && texts[i].Some? && key == KeyOf(chunk, languages[i]);
      if i > 0 {
        assert texts[1..][i - 1].Some? && key == KeyOf(chunk, languages[1..][i - 1]);
      }
    }
  }

  lemma {:induction false} OpeningsFit(r: Recording, h: L.History, chunk: PhraseChunk, languages: seq<string>,
                                       h': L.History, chunks: seq<PhraseChunk>, epoch: real, translated: set<L.Key>)
    requires AllFit(chunks, epoch, translated, h)
    requires chunk.chunkId < |chunks| && chunks[chunk.chunkId] == chunk
    requires forall l | l in languages :: KeyOf(chunk, l) !in translated
    requires L.IsRun(r.cap, r.slo, h, OpenLog(chunk, languages), h')
    ensures AllFit(chunks, epoch, translated, h')
    ensures h'.closed == h.closed && h'.recorder.breaches == h.recorder.breaches
    decreases |languages|
  {
    if languages != [] {
      var key, rest := KeyOf(chunk, languages[0]), OpenLog(chunk, languages[1..]);
      var open, mark := L.Open(key, chunk.tAudioEnd), L.Mark(key, L.Committed, chunk.tWallCommitted);
      assert ([open, mark] + rest)[1..] == [mark] + rest && ([mark] + rest)[1..] == rest;
      assert languages[0] in languages;
      var mid := L.Step(r.cap, r.slo, L.Step(r.cap, r.slo, h, open), mark);
      assert AllFit(chunks, epoch, translated, mid);
      OpeningsFit(r, mid, chunk, languages[1..], h', chunks, epoch, translated);
    }
  }

  /** Publishing measures from the end of the phrase's audio. */
  lemma {:induction false} PublishingFits(r: Recording, h: L.History, key: L.Key, sound: Sound, h': L.History,
                                          chunks: seq<PhraseChunk>, epoch: real, translated: set<L.Key>)
    requires AllFit(chunks, epoch, translated, h)
    requires L.IsRun(r.cap, r.slo, h,
                     [L.Mark(key, L.FirstAudio, sound.made), L.Mark(key, L.Published, sound.pushed)], h')
    ensures AllFit(chunks, epoch, translated, h')
    ensures key !in h.recorder.open ==> h'.closed == h.closed && h'.recorder.breaches == h.recorder.breaches
    ensures key in h.recorder.open ==>
              && key.chunkId < |chunks|
              && var seconds := sound.pushed - (epoch + chunks[key.chunkId].tAudioEnd);
                 && h'.closed == h.closed + [L.Closing(key, seconds)]
                 && h'.recorder.breaches == h.recorder.breaches + if seconds > r.slo then 1 else 0
  {
    var first, second := L.Mark(key, L.FirstAudio, sound.made), L.Mark(key, L.Published, sound.pushed);
    var mid := L.Step(r.cap, r.slo, h, first);
    assert [first, second][1..] == [second] && [second][1..] == [];
    assert L.IsRun(r.cap, r.slo, mid, [second], h');
    assert L.IsRun(r.cap, r.slo, L.Step(r.cap, r.slo, mid, second), [], h');
  }

  // ---------------------------------------------------------------- what each step does

  function ChunksOf(c: Settings, j: Joint): seq<PhraseChunk>
    requires c.Usable()
  {
    Runs.After(c, j.session.calls).chunks
  }

  /** This step is the one at which the room heard the phrase in this language. */
  predicate HeardAt(r: Recording, j: Joint, x: Timed, key: L.Key) {
    && Airs(x) && x.event.i < |j.session.workers| && x.event.i < |r.languages|
    && j.session.workers[x.event.i].phase.Speaking?
    && key == KeyOf(j.session.workers[x.event.i].phase.item.chunk, r.languages[x.event.i])
  }

  lemma {:induction false} MorePhrasesFit(chunks: seq<PhraseChunk>, more: seq<PhraseChunk>, epoch: real,
                                          translated: set<L.Key>, h: L.History)
    requires AllFit(chunks, epoch, translated, h) && chunks <= more
    ensures AllFit(more, epoch, translated, h)
  {
    forall key | key in h.recorder.open
      ensures Fits(more, epoch, translated, key, h.recorder.open[key])
    {
      assert Fits(chunks, epoch, translated, key, h.recorder.open[key]);
    }
  }

  lemma {:induction false} PhrasesOnlyGrow(c: Settings, s: Session, e: Event)
    requires c.Usable() && Enabled(s, e)
    ensures Runs.After(c, s.calls).chunks <= Runs.After(c, Step(c, s, e).calls).chunks
  {
    var s' := Step(c, s, e);
    if s'.calls != s.calls {
      var call := s'.calls[|s.calls|];
      assert s'.calls == s.calls + [call];
      Runs.AfterOneMore(c, s.calls, call);
    }
  }

  /** The awaited phrase is the chunker's phrase of that number, and no language has its translation yet. */
  lemma {:induction false} AwaitedPhrase(c: Settings, s: Session, languages: seq<string>)
    requires c.Usable() && PumpInv(c, s) && Awaiting(s.pump)
    ensures var chunk, chunks := s.pump.batch[s.pump.k], Runs.After(c, s.calls).chunks;
            && chunk.chunkId == |s.dispatched| < |chunks| && chunks[chunk.chunkId] == chunk
            && forall l | l in languages :: KeyOf(chunk, l) !in TranslatedIn(s.dispatched, languages)
  {
    IdsFollow(c, s);
    assert Remaining(s.pump)[0] == Runs.After(c, s.calls).chunks[|s.dispatched|];
  }

  lemma {:induction false} DispatchTranslates(dispatched: seq<Dispatch>, d: Dispatch, languages: seq<string>)
    requires |d.texts| == |languages|
    ensures TranslatedIn(dispatched + [d], languages)
         == TranslatedIn(dispatched, languages) + TranslatedNow(d.chunk, d.texts, languages)
  {
    var longer := dispatched + [d];
    var before, after := TranslatedIn(dispatched, languages), TranslatedIn(longer, languages);
    var now := TranslatedNow(d.chunk, d.texts, languages);
    forall key | key in before
      ensures key in after
    {
      var k, i :| 0 <= k < |dispatched| && 0 <= i < |languages| && i < |dispatched[k].texts|
                  && dispatched[k].texts[i].Some? && key == KeyOf(dispatched[k].chunk, languages[i]);
      assert longer[k] == dispatched[k];
    }
    forall key | key in now
      ensures key in after
    {
      var i :| 0 <= i < |d.texts| && d.texts[i].Some? && key == KeyOf(d.chunk, languages[i]);
      assert longer[|dispatched|].texts[i].Some?;
    }
    forall key | key in after
      ensures key in before || key in now
    {
      var k, i :| 0 <= k < |longer| && 0 <= i < |languages| && i < |longer[k].texts|
                  && longer[k].texts[i].Some? && key == KeyOf(longer[k].chunk, languages[i]);
      if k < |dispatched| {
        assert dispatched[k].texts[i].Some?;
      }
    }
  }

  /** What the step's own marks leave. */
  ghost predicate Followed(c: Settings, r: Recording, epoch: real, j: Joint, x: Timed, h: L.History)
    requires c.Usable() && Enabled(j.session, x.event)
  {
    var s' := Step(c, j.session, x.event);
    && AllFit(ChunksOf(c, j), epoch, TranslatedIn(s'.dispatched, r.languages), h)
    && Grown(c, r, epoch, j, x, h)
  }

  /** The samples after a step: the same, or one more, of the phrase heard at it. */
  ghost predicate Grown(c: Settings, r: Recording, epoch: real, j: Joint, x: Timed, h: L.History)
    requires c.Usable()
  {
    || (h.closed == j.history.closed && h.recorder.breaches == j.history.recorder.breaches)
    || exists key: L.Key :: ClosedNow(c, r, epoch, j, x, h, key)
  }

  predicate ClosedNow(c: Settings, r: Recording, epoch: real, j: Joint, x: Timed, h: L.History, key: L.Key)
    requires c.Usable()
  {
    && HeardAt(r, j, x, key) && key in j.history.recorder.open && key.chunkId < |ChunksOf(c, j)|
    && var seconds := x.sound.value.pushed - (epoch + ChunksOf(c, j)[key.chunkId].tAudioEnd);
       && h.closed == j.history.closed + [L.Closing(key, seconds)]
       && h.recorder.breaches == j.history.recorder.breaches + if seconds > r.slo then 1 else 0
  }

  lemma {:induction false} TranslationsFollow(c: Settings, r: Recording, epoch: real, j: Joint, x: Timed, h: L.History)
    requires c.Usable() && Enabled(j.session, x.event) && |j.session.workers| == |r.languages| && x.event.Translated?
    requires AllFit(ChunksOf(c, j), epoch, TranslatedIn(j.session.dispatched, r.languages), j.history)
    requires L.IsRun(r.cap, r.slo, j.history, MarksLog(r, j.session, x), h)
    ensures Followed(c, r, epoch, j, x, h)
  {
    var s, texts := j.session, x.event.texts;
    var chunk := s.pump.batch[s.pump.k];
    DispatchTranslates(s.dispatched, Dispatch(chunk, texts), r.languages);
    TranslatedFits(r, j.history, chunk, texts, r.languages, x.wall, h, ChunksOf(c, j), epoch,
                   TranslatedIn(s.dispatched, r.languages));
  }

  lemma {:induction false} HearingFollows(c: Settings, r: Recording, epoch: real, j: Joint, x: Timed, key: L.Key,
                                          translated: set<L.Key>, h: L.History)
    requires c.Usable() && HeardAt(r, j, x, key) && AllFit(ChunksOf(c, j), epoch, translated, j.history)
    requires L.IsRun(r.cap, r.slo, j.history,
                     [L.Mark(key, L.FirstAudio, x.sound.value.made), L.Mark(key, L.Published, x.sound.value.pushed)], h)
    ensures AllFit(ChunksOf(c, j), epoch, translated, h) && Grown(c, r, epoch, j, x, h)
  {
    PublishingFits(r, j.history, key, x.sound.value, h, ChunksOf(c, j), epoch, translated);
    if key in j.history.recorder.open {
      GrownByOne(c, r, epoch, j, x, h, key);
    }
  }

  lemma {:induction false} GrownByOne(c: Settings, r: Recording, epoch: real, j: Joint, x: Timed, h: L.History,
                                      key: L.Key)
    requires c.Usable() && ClosedNow(c, r, epoch, j, x, h, key)
    ensures Grown(c, r, epoch, j, x, h)
  {
  }

  lemma {:induction false} FinishFollows(c: Settings, r: Recording, epoch: real, j: Joint, x: Timed, h: L.History)
    requires c.Usable() && Enabled(j.session, x.event) && |j.session.workers| == |r.languages| && x.event.Finish?
    requires AllFit(ChunksOf(c, j), epoch, TranslatedIn(j.session.dispatched, r.languages), j.history)
    requires L.IsRun(r.cap, r.slo, j.history, MarksLog(r, j.session, x), h)
    ensures Followed(c, r, epoch, j, x, h)
  {
    if Airs(x) {
      HearingFollows(c, r, epoch, j, x, KeyOf(j.session.workers[x.event.i].phase.item.chunk, r.languages[x.event.i]),
                     TranslatedIn(j.session.dispatched, r.languages), h);
    }
  }

  lemma {:induction false} MarksFollow(c: Settings, r: Recording, epoch: real, j: Joint, x: Timed, h: L.History)
    requires c.Usable() && Enabled(j.session, x.event) && |j.session.workers| == |r.languages|
    requires AllFit(ChunksOf(c, j), epoch, TranslatedIn(j.session.dispatched, r.languages), j.history)
    requires L.IsRun(r.cap, r.slo, j.history, MarksLog(r, j.session, x), h)
    ensures Followed(c, r, epoch, j, x, h)
  {
    if x.event.Translated? {
      TranslationsFollow(c, r, epoch, j, x, h);
    } else if x.event.Finish? {
      FinishFollows(c, r, epoch, j, x, h);
    }
  }

  /** Whatever the session does, its open traces go on standing as their phrases do, and its samples grow by what
      the step made heard. */
  lemma {:induction false} MoveFits(c: Settings, r: Recording, epoch: real, j: Joint, x: Timed, j': Joint)
    requires c.Usable() && r.Usable() && JointInv(c, r, j) && Moves(c, r, j, x, j')
    requires AllFit(ChunksOf(c, j), epoch, TranslatedIn(j.session.dispatched, r.languages), j.history)
    ensures AllFit(ChunksOf(c, j'), epoch, TranslatedIn(j'.session.dispatched, r.languages), j'.history)
    ensures Grown(c, r, epoch, j, x, j'.history) && ChunksOf(c, j) <= ChunksOf(c, j')
  {
    var s' := j'.session;
    var openings := if StartsAwaiting(x.event, s') then OpenLog(s'.pump.batch[s'.pump.k], r.languages) else [];
    var mid := SplitRun(r, j.history, MarksLog(r, j.session, x), openings, j'.history);
    MarksFollow(c, r, epoch, j, x, mid);
    PhrasesOnlyGrow(c, j.session, x.event);
    var translated := TranslatedIn(s'.dispatched, r.languages);
    MorePhrasesFit(ChunksOf(c, j), ChunksOf(c, j'), epoch, translated, mid);
    if StartsAwaiting(x.event, s') {
      StepKeepsPumpInv(c, j.session, x.event);
      AwaitedPhrase(c, s', r.languages);
      OpeningsFit(r, mid, s'.pump.batch[s'.pump.k], r.languages, j'.history, ChunksOf(c, j'), epoch, translated);
    }
    SameSamples(c, r, epoch, j, x, mid, j'.history);
  }

  lemma {:induction false} SameSamples(c: Settings, r: Recording, epoch: real, j: Joint, x: Timed, h: L.History,
                                       h': L.History)
    requires c.Usable() && Grown(c, r, epoch, j, x, h)
    requires h'.closed == h.closed && h'.recorder.breaches == h.recorder.breaches
    ensures Grown(c, r, epoch, j, x, h')
  {
    if key: L.Key :| ClosedNow(c, r, epoch, j, x, h, key) {
      assert ClosedNow(c, r, epoch, j, x, h', key);
    }
  }

  // ---------------------------------------------------------------- every session

  /** A sample was made at step q, when its phrase was heard in its language: the wall time its first piece had
      been handed to the room, less that at which the phrase's own audio ended. */
  predicate SampledAt(r: Recording, epoch: real, chunks: seq<PhraseChunk>, xs: seq<Timed>, joints: seq<Joint>,
                      closing: L.Closing, q: nat)
  {
    && q < |xs| && q < |joints| && HeardAt(r, joints[q], xs[q], closing.key) && closing.key.chunkId < |chunks|
    && closing.seconds == xs[q].sound.value.pushed - (epoch + chunks[closing.key.chunkId].tAudioEnd)
  }

  ghost predicate WasSampled(r: Recording, epoch: real, chunks: seq<PhraseChunk>, xs: seq<Timed>, joints: seq<Joint>,
                             closing: L.Closing)
  {
    exists q: nat :: SampledAt(r, epoch, chunks, xs, joints, closing, q)
  }

  ghost predicate AllSampled(r: Recording, epoch: real, chunks: seq<PhraseChunk>, xs: seq<Timed>, joints: seq<Joint>,
                             closed: seq<L.Closing>)
  {
    forall i | 0 <= i < |closed| :: WasSampled(r, epoch, chunks, xs, joints, closed[i])
  }

  lemma {:induction false} SamplesKept(r: Recording, epoch: real, chunks: seq<PhraseChunk>, more: seq<PhraseChunk>,
                                       xs: seq<Timed>, joints: seq<Joint>, closed: seq<L.Closing>)
    requires AllSampled(r, epoch, chunks, xs, joints, closed) && chunks <= more
    ensures AllSampled(r, epoch, more, xs, joints, closed)
  {
    forall i | 0 <= i < |closed|
      ensures WasSampled(r, epoch, more, xs, joints, closed[i])
    {
      var q: nat :| SampledAt(r, epoch, chunks, xs, joints, closed[i], q);
      assert SampledAt(r, epoch, more, xs, joints, closed[i], q);
    }
  }

  lemma {:induction false} OneMoreSample(r: Recording, epoch: real, chunks: seq<PhraseChunk>, xs: seq<Timed>,
                                         joints: seq<Joint>, closed: seq<L.Closing>, closing: L.Closing, q: nat)
    requires AllSampled(r, epoch, chunks, xs, joints, closed) && SampledAt(r, epoch, chunks, xs, joints, closing, q)
    ensures AllSampled(r, epoch, chunks, xs, joints, closed + [closing])
  {
    assert WasSampled(r, epoch, chunks, xs, joints, closing);
  }

  lemma {:induction false} SamplesGrow(c: Settings, r: Recording, epoch: real, xs: seq<Timed>, joints: seq<Joint>,
                                       n: nat, h: L.History, more: seq<PhraseChunk>)
    requires c.Usable() && n < |xs| && n < |joints| && ChunksOf(c, joints[n]) <= more
    requires AllSampled(r, epoch, ChunksOf(c, joints[n]), xs, joints, joints[n].history.closed)
    requires joints[n].history.recorder.breaches == M.Above(joints[n].history.closed, r.slo)
    requires Grown(c, r, epoch, joints[n], xs[n], h)
    ensures AllSampled(r, epoch, more, xs, joints, h.closed)
    ensures h.recorder.breaches == M.Above(h.closed, r.slo)
  {
    var j, before := joints[n], joints[n].history.closed;
    SamplesKept(r, epoch, ChunksOf(c, j), more, xs, joints, before);
    if key: L.Key :| ClosedNow(c, r, epoch, j, xs[n], h, key) {
      ClosingSampled(c, r, epoch, xs, joints, n, h, more, key);
    }
  }

  lemma {:induction false} ClosingSampled(c: Settings, r: Recording, epoch: real, xs: seq<Timed>, joints: seq<Joint>,
                                          n: nat, h: L.History, more: seq<PhraseChunk>, key: L.Key)
    requires c.Usable() && n < |xs| && n < |joints| && ChunksOf(c, joints[n]) <= more
    requires AllSampled(r, epoch, more, xs, joints, joints[n].history.closed)
    requires joints[n].history.recorder.breaches == M.Above(joints[n].history.closed, r.slo)
    requires ClosedNow(c, r, epoch, joints[n], xs[n], h, key)
    ensures AllSampled(r, epoch, more, xs, joints, h.closed)
    ensures h.recorder.breaches == M.Above(h.closed, r.slo)
  {
    var closing := L.Closing(key, xs[n].sound.value.pushed - (epoch + more[key.chunkId].tAudioEnd));
    OneMoreSample(r, epoch, more, xs, joints, joints[n].history.closed, closing, n);
    M.AboveAppend(joints[n].history.closed, closing, r.slo);
  }

  /** Traces and samples are those of their phrases. */
  ghost predicate FitsAt(c: Settings, r: Recording, epoch: real, xs: seq<Timed>, joints: seq<Joint>, j: Joint)
    requires c.Usable()
  {
    && AllFit(ChunksOf(c, j), epoch, TranslatedIn(j.session.dispatched, r.languages), j.history)
    && AllSampled(r, epoch, ChunksOf(c, j), xs, joints, j.history.closed)
    && j.history.recorder.breaches == M.Above(j.history.closed, r.slo)
  }

  lemma {:induction false} OneMoreFits(c: Settings, r: Recording, epoch: real, xs: seq<Timed>, joints: seq<Joint>,
                                       n: nat, j': Joint)
    requires c.Usable() && r.Usable() && n < |xs| && n < |joints|
    requires JointInv(c, r, joints[n]) && Moves(c, r, joints[n], xs[n], j')
    requires FitsAt(c, r, epoch, xs, joints, joints[n])
    ensures FitsAt(c, r, epoch, xs, joints, j')
  {
    MoveFits(c, r, epoch, joints[n], xs[n], j');
    SamplesGrow(c, r, epoch, xs, joints, n, j'.history, ChunksOf(c, j'));
  }

  lemma {:induction false} StartFits(c: Settings, r: Recording, epoch: real, xs: seq<Timed>, joints: seq<Joint>)
    requires c.Usable()
    ensures FitsAt(c, r, epoch, xs, joints, Start(r, epoch))
  {
  }

  lemma {:induction false} RunMovesOn(c: Settings, r: Recording, epoch: real, xs: seq<Timed>, joints: seq<Joint>,
                                      n: nat, j': Joint)
    requires c.Usable() && r.Usable() && IsJointRun(c, r, Start(r, epoch), xs, joints)
    requires n < |xs| && j' == joints[n + 1]
    ensures JointInv(c, r, joints[n]) && Moves(c, r, joints[n], xs[n], j')
  {
    StartKeepsInv(c, r, epoch);
    JointRunKeepsInv(c, r, Start(r, epoch), xs, joints, n);
    MoveAt(c, r, Start(r, epoch), xs, joints, n);
  }

  lemma {:induction false} RunFits(c: Settings, r: Recording, epoch: real, xs: seq<Timed>, joints: seq<Joint>, n: nat)
    requires c.Usable() && r.Usable() && IsJointRun(c, r, Start(r, epoch), xs, joints) && n <= |xs|
    ensures FitsAt(c, r, epoch, xs, joints, joints[n])
  {
    if n == 0 {
      StartFits(c, r, epoch, xs, joints);
    } else {
      var j' := joints[n];
      RunFits(c, r, epoch, xs, joints, n - 1);
      RunMovesOn(c, r, epoch, xs, joints, n - 1, j');
      OneMoreFits(c, r, epoch, xs, joints, n - 1, j');
    }
  }

  /** What a session records. Every sample is of a phrase heard at some step, measured from the end of that phrase's
      own audio to its first piece's push; the breaches are the samples above the objective; and a phrase still to
      be heard is on record as committed when the chunker committed it, and as translated exactly where it was. */
  lemma {:induction false} SamplesMeasurePhrases(c: Settings, r: Recording, epoch: real, xs: seq<Timed>,
                                                 joints: seq<Joint>)
    requires c.Usable() && r.Usable() && IsJointRun(c, r, Start(r, epoch), xs, joints)
    ensures var j := joints[|xs|];
            && AllSampled(r, epoch, ChunksOf(c, j), xs, joints, j.history.closed)
            && j.history.recorder.breaches == M.Above(j.history.closed, r.slo)
            && forall key | key in j.history.recorder.open ::
                 Fits(ChunksOf(c, j), epoch, TranslatedIn(j.session.dispatched, r.languages), key,
                      j.history.recorder.open[key])
  {
    RunFits(c, r, epoch, xs, joints, |xs|);
  }

  /** A trace with the marks of its first piece. */
  function HeardTrace(t: L.Trace, sound: Sound): L.Trace {
    t.(marks := t.marks[L.FirstAudio := sound.made][L.Published := sound.pushed])
  }

  /** A phrase is heard with all its stages marked, so its sample splits into them without remainder. */
  lemma {:induction false} HeardTracesAreComplete(c: Settings, r: Recording, epoch: real, xs: seq<Timed>,
                                                  joints: seq<Joint>, q: nat, key: L.Key)
    requires c.Usable() && r.Usable() && IsJointRun(c, r, Start(r, epoch), xs, joints)
    requires q < |xs| && HeardAt(r, joints[q], xs[q], key) && key in joints[q].history.recorder.open
    ensures var t := joints[q].history.recorder.open[key];
            var heard := HeardTrace(t, xs[q].sound.value);
            L.GlassToGlass(heard) == Some(L.Sum(L.Breakdown(heard)))
  {
    RunFits(c, r, epoch, xs, joints, q);
    RunMovesOn(c, r, epoch, xs, joints, q, joints[q + 1]);
    HeardTraceIsComplete(c, r, epoch, joints[q], xs[q], key);
  }

  lemma {:induction false} HeardTraceIsComplete(c: Settings, r: Recording, epoch: real, j: Joint, x: Timed, key: L.Key)
    requires c.Usable() && WorkersInv(j.session) && |j.session.workers| == |r.languages| && HeardAt(r, j, x, key)
    requires AllFit(ChunksOf(c, j), epoch, TranslatedIn(j.session.dispatched, r.languages), j.history)
    requires key in j.history.recorder.open
    ensures var t := j.history.recorder.open[key];
            var heard := HeardTrace(t, x.sound.value);
            L.GlassToGlass(heard) == Some(L.Sum(L.Breakdown(heard)))
  {
    InHandIsTranslated(j.session, r.languages, x.event.i);
    var t := j.history.recorder.open[key];
    var heard := HeardTrace(t, x.sound.value);
    forall stage: L.Stage
      ensures stage in heard.marks
    {
      match stage
      case Committed =>
      case Translated =>
      case FirstAudio =>
      case Published =>
    }
    L.StagesSumToLatency(heard);
  }

  lemma {:induction false} InHandIsTranslated(s: Session, languages: seq<string>, i: nat)
    requires WorkersInv(s) && i < |s.workers| == |languages| && s.workers[i].phase.Speaking?
    ensures KeyOf(s.workers[i].phase.item.chunk, languages[i]) in TranslatedIn(s.dispatched, languages)
  {
    var w := s.workers[i];
    assert WorkerInv(w, Share(s.dispatched, i), SentinelPlaced(s.main, i));
    assert Given(w)[|w.handled|] == w.phase.item;
    ShareIsTranslated(s.dispatched, languages, i, |w.handled|);
  }

  lemma {:induction false} ShareIsTranslated(dispatched: seq<Dispatch>, languages: seq<string>, i: nat, m: nat)
    requires i < |languages| && m < |Share(dispatched, i)|
    ensures KeyOf(Share(dispatched, i)[m].chunk, languages[i]) in TranslatedIn(dispatched, languages)
  {
    var init, d := dispatched[..|dispatched| - 1], dispatched[|dispatched| - 1];
    if m < |Share(init, i)| {
      ShareIsTranslated(init, languages, i, m);
      var k, l :| 0 <= k < |init| && 0 <= l < |languages| && l < |init[k].texts| && init[k].texts[l].Some?
                  && KeyOf(Share(init, i)[m].chunk, languages[i]) == KeyOf(init[k].chunk, languages[l]);
      assert dispatched[k] == init[k];
    } else {
      assert d.texts[i].Some?;
    }
  }
}
