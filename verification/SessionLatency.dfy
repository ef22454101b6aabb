/** Latency accounting in a running session: what the dispatcher and the workers tell the recorder, step by
    step, under every interleaving of `Fanout`. */
module SessionLatency {
  import opened Options
  import opened Sequences
  import opened Chunker
  import opened LanguageWorkers
  import opened Fanout
  import Runs = ChunkerRuns
  import L = Latency

  /** The recorder's two numbers, and the languages of the session in the order of its workers. */
  datatype Recording = Recording(cap: nat, slo: real, languages: seq<string>)
  {
    predicate Usable() { forall i, j | 0 <= i < j < |languages| :: languages[i] != languages[j] }
  }

  /** The first piece of a phrase: when it was synthesised, and when it had been handed to the room. */
  datatype Sound = Sound(made: real, pushed: real)

  /** A step of the session, the wall clock then, and for a phrase it finishes its first piece, if it had any. */
  datatype Timed = Timed(event: Event, wall: real, sound: Option<Sound>)

  /** The session, its recorder, and the phrases whose first audio reached the room, in each language. */
  datatype Joint = Joint(session: Session, history: L.History, aired: set<L.Key>)

  function KeyOf(chunk: PhraseChunk, language: string): L.Key { L.Key(chunk.chunkId, language) }

  /** `_dispatch` before its await: for each language open a trace and mark it committed. */
  function OpenLog(chunk: PhraseChunk, languages: seq<string>): seq<L.Event> {
    if languages == [] then []
    else
      var key := KeyOf(chunk, languages[0]);
      [L.Open(key, chunk.tAudioEnd), L.Mark(key, L.Committed, chunk.tWallCommitted)]
      + OpenLog(chunk, languages[1..])
  }

  /** `_dispatch` after its await: mark the languages that got a translation. */
  function TranslatedLog(chunk: PhraseChunk, texts: seq<Option<string>>, languages: seq<string>, wall: real)
    : seq<L.Event>
    requires |texts| == |languages|
  {
    if texts == [] then []
    else
      (if texts[0].Some? then [L.Mark(KeyOf(chunk, languages[0]), L.Translated, wall)] else [])
      + TranslatedLog(chunk, texts[1..], languages[1..], wall)
  }

  /** A step that begins to await a phrase's translation. */
  predicate StartsAwaiting(e: Event, after: Session) {
    (e.Hear? || e.SourceEnds? || e.BatchDone? || e.Translated?) && Awaiting(after.pump)
  }

  /** A phrase can have been heard only if it was synthesised, even when it then failed. */
  predicate Airs(x: Timed) {
    x.sound.Some? && x.event.Finish? && (x.event.outcome.Spoken? || x.event.outcome.Failed?)
  }

  /** What the recorder is told of what a step finishes: translations come back, or a phrase that was heard. */
  function MarksLog(r: Recording, s: Session, x: Timed): seq<L.Event>
    requires Enabled(s, x.event) && |s.workers| == |r.languages|
  {
    match x.event
    case Translated(texts) => TranslatedLog(s.pump.batch[s.pump.k], texts, r.languages, x.wall)
    case Finish(i, outcome) =>
      if Airs(x) then
        var key := KeyOf(s.workers[i].phase.item.chunk, r.languages[i]);
        [L.Mark(key, L.FirstAudio, x.sound.value.made), L.Mark(key, L.Published, x.sound.value.pushed)]
      else []
    case _ => []
  }

  /** What the recorder is told during one step. */
  function StepLog(c: Settings, r: Recording, s: Session, x: Timed): seq<L.Event>
    requires c.Usable() && Enabled(s, x.event) && |s.workers| == |r.languages|
  {
    var s' := Step(c, s, x.event);
    MarksLog(r, s, x)
    + if StartsAwaiting(x.event, s') then OpenLog(s'.pump.batch[s'.pump.k], r.languages) else []
  }

  /** The aired phrases after a step. */
  function AiredAfter(r: Recording, j: Joint, x: Timed): set<L.Key>
    requires Airs(x) ==> x.event.i < |j.session.workers| && j.session.workers[x.event.i].phase.Speaking?
    requires |j.session.workers| == |r.languages|
  {
    if Airs(x) then j.aired + {KeyOf(j.session.workers[x.event.i].phase.item.chunk, r.languages[x.event.i])}
    else j.aired
  }

  /** One step of the session with its recorder. */
  predicate Moves(c: Settings, r: Recording, j: Joint, x: Timed, j': Joint)
    requires c.Usable()
  {
    && Enabled(j.session, x.event) && |j.session.workers| == |r.languages|
    && j'.session == Step(c, j.session, x.event)
    && L.IsRun(r.cap, r.slo, j.history, StepLog(c, r, j.session, x), j'.history)
    && j'.aired == AiredAfter(r, j, x)
  }

  predicate IsJointRun(c: Settings, r: Recording, j: Joint, xs: seq<Timed>, joints: seq<Joint>)
    requires c.Usable()
  {
    && |joints| == |xs| + 1 && joints[0] == j
    && forall k | 0 <= k < |xs| :: Moves(c, r, joints[k], xs[k], joints[k + 1])
  }

  /** A session as it begins, its clock anchored by the first frame. */
  function Start(r: Recording, epoch: real): Joint {
    Joint(Begin(|r.languages|), L.NOTHING_YET.(recorder := L.NO_TRACES.(epoch := Some(epoch))), {})
  }

  // ---------------------------------------------------------------- runs of the recorder alone

  lemma {:induction false} LogsCompose(r: Recording, h: L.History, a: seq<L.Event>, mid: L.History, b: seq<L.Event>,
                                       h': L.History)
    requires L.IsRun(r.cap, r.slo, h, a, mid) && L.IsRun(r.cap, r.slo, mid, b, h')
    ensures L.IsRun(r.cap, r.slo, h, a + b, h')
    decreases |a|
  {
    if a == [] {
      assert a + b == b;
    } else {
      TailAppend(a, b);
      LogsCompose(r, L.Step(r.cap, r.slo, h, a[0]), a[1..], mid, b, h');
    }
  }

  /** The same traces begun and closed, the clock still anchored. */
  predicate SameTraces(h: L.History, h': L.History) {
    h'.begun == h.begun && h'.closed == h.closed && h'.recorder.epoch == h.recorder.epoch
  }

  lemma {:induction false} OneMark(r: Recording, h: L.History, key: L.Key, stage: L.Stage, wall: real)
    returns (h': L.History)
    requires stage != L.Published
    ensures L.IsRun(r.cap, r.slo, h, [L.Mark(key, stage, wall)], h') && SameTraces(h, h')
  {
    h' := L.Step(r.cap, r.slo, h, L.Mark(key, stage, wall));
    assert [L.Mark(key, stage, wall)][1..] == [];
  }

  lemma {:induction false} TranslatedRuns(r: Recording, h: L.History, chunk: PhraseChunk, texts: seq<Option<string>>,
                                          languages: seq<string>, wall: real) returns (h': L.History)
    requires |texts| == |languages|
    ensures L.IsRun(r.cap, r.slo, h, TranslatedLog(chunk, texts, languages, wall), h') && SameTraces(h, h')
    decreases |texts|
  {
    if texts == [] {
      h' := h;
    } else {
      var mid := h;
      if texts[0].Some? {
        mid := OneMark(r, h, KeyOf(chunk, languages[0]), L.Translated, wall);
      }
      h' := TranslatedRuns(r, mid, chunk, texts[1..], languages[1..], wall);
      var first := if texts[0].Some? then [L.Mark(KeyOf(chunk, languages[0]), L.Translated, wall)] else [];
      LogsCompose(r, h, first, mid, TranslatedLog(chunk, texts[1..], languages[1..], wall), h');
    }
  }

  lemma {:induction false} OneOpening(r: Recording, h: L.History, chunk: PhraseChunk, language: string)
    returns (h': L.History)
    requires h.recorder.epoch.Some? && KeyOf(chunk, language) !in h.begun
    ensures var key := KeyOf(chunk, language);
            L.IsRun(r.cap, r.slo, h, [L.Open(key, chunk.tAudioEnd), L.Mark(key, L.Committed, chunk.tWallCommitted)], h')
    ensures h'.begun == h.begun + {KeyOf(chunk, language)} && h'.closed == h.closed && h'.recorder.epoch.Some?
  {
    var key := KeyOf(chunk, language);
    var open, mark := L.Open(key, chunk.tAudioEnd), L.Mark(key, L.Committed, chunk.tWallCommitted);
    var mid := L.Step(r.cap, r.slo, h, open);
    h' := OneMark(r, mid, key, L.Committed, chunk.tWallCommitted);
    assert [open, mark][1..] == [mark];
  }

  /** A phrase whose id is new can be opened in every language. */
  lemma {:induction false} OpeningsRun(r: Recording, h: L.History, chunk: PhraseChunk, languages: seq<string>)
    returns (h': L.History)
    requires h.recorder.epoch.Some? && forall l | l in languages :: KeyOf(chunk, l) !in h.begun
    requires forall i, j | 0 <= i < j < |languages| :: languages[i] != languages[j]
    ensures L.IsRun(r.cap, r.slo, h, OpenLog(chunk, languages), h')
    ensures h'.begun == h.begun + (set l | l in languages :: KeyOf(chunk, l))
    ensures h'.closed == h.closed && h'.recorder.epoch.Some?
    decreases |languages|
  {
    if languages == [] {
      h' := h;
    } else {
      var key, rest := KeyOf(chunk, languages[0]), languages[1..];
      var mid := OneOpening(r, h, chunk, languages[0]);
      assert languages == [languages[0]] + rest;
      h' := OpeningsRun(r, mid, chunk, rest);
      LogsCompose(r, h, [L.Open(key, chunk.tAudioEnd), L.Mark(key, L.Committed, chunk.tWallCommitted)], mid,
                  OpenLog(chunk, rest), h');
    }
  }

  /** Publishing closes a trace that is open, and otherwise does nothing. */
  lemma {:induction false} PublishingRuns(r: Recording, h: L.History, key: L.Key, sound: Sound) returns (h': L.History)
    ensures L.IsRun(r.cap, r.slo, h,
                    [L.Mark(key, L.FirstAudio, sound.made), L.Mark(key, L.Published, sound.pushed)], h')
    ensures h'.begun == h.begun && h'.recorder.epoch == h.recorder.epoch
    ensures key in h.recorder.open ==>
              forall k: L.Key :: L.IsClosed(h'.closed, k) <==> L.IsClosed(h.closed, k) || k == key
    ensures key !in h.recorder.open ==> h'.closed == h.closed
  {
    var first, second := L.Mark(key, L.FirstAudio, sound.made), L.Mark(key, L.Published, sound.pushed);
    var mid := L.Step(r.cap, r.slo, h, first);
    h' := L.Step(r.cap, r.slo, mid, second);
    assert [first, second][1..] == [second] && [second][1..] == [];
    assert L.IsRun(r.cap, r.slo, mid, [second], h');
    if key in h.recorder.open {
      L.ClosedAppend(h.closed, h'.closed[|h.closed|]);
    }
  }

  // ---------------------------------------------------------------- the invariant

  /** Phrases are opened in every language as their turn comes, and while the pump runs none before. */
  predicate BegunInv(r: Recording, s: Session, begun: set<L.Key>) {
    BegunThrough(r.languages, Begun(s), s.pump.Ended?, begun)
  }

  /** How many phrases have been begun, those dispatched and the one awaited. */
  function Begun(s: Session): nat { |s.dispatched| + if Awaiting(s.pump) then 1 else 0 }

  /** The first n phrases in each of the languages, and unless the pump is over no others. */
  predicate BegunThrough(languages: seq<string>, n: nat, ended: bool, begun: set<L.Key>) {
    && (forall k: nat, l | k < n && l in languages :: L.Key(k, l) in begun)
    && (!ended ==> forall key | key in begun :: key.chunkId < n)
    && (forall key | key in begun :: key.language in languages)
  }

  /** Worker i is done with this phrase, having spoken it or failed. */
  predicate AiredBy(r: Recording, s: Session, key: L.Key, i: nat, m: nat) {
    && i < |s.workers| && i < |r.languages| && r.languages[i] == key.language
    && m < |s.workers[i].handled| && s.workers[i].handled[m].item.chunk.chunkId == key.chunkId
    && (s.workers[i].handled[m].outcome.Spoken? || s.workers[i].handled[m].outcome.Failed?)
  }

  ghost predicate AiredInv(r: Recording, s: Session, aired: set<L.Key>) {
    forall key | key in aired :: exists i: nat, m: nat :: AiredBy(r, s, key, i, m)
  }

  ghost predicate ClosedInv(h: L.History, aired: set<L.Key>) {
    forall key: L.Key :: L.IsClosed(h.closed, key) <==> key in aired
  }

  predicate IdsCount(s: Session) {
    forall k | 0 <= k < |s.dispatched| :: s.dispatched[k].chunk.chunkId == k
  }

  ghost predicate JointInv(c: Settings, r: Recording, j: Joint)
    requires c.Usable()
  {
    && Inv(c, j.session) && IdsCount(j.session) && |j.session.workers| == |r.languages|
    && L.Inv(r.cap, j.history) && j.history.recorder.epoch.Some?
    && BegunInv(r, j.session, j.history.begun)
    && AiredInv(r, j.session, j.aired) && ClosedInv(j.history, j.aired)
  }

  /** Ids of dispatched and awaited phrases count from 0. */
  lemma {:induction false} IdsFollow(c: Settings, s: Session)
    requires c.Usable() && PumpInv(c, s)
    ensures IdsCount(s)
    ensures Awaiting(s.pump) ==> s.pump.batch[s.pump.k].chunkId == |s.dispatched|
  {
    var chunks := Runs.After(c, s.calls).chunks;
    Runs.EveryRunKeepsInv(c, s.calls);
    forall k | 0 <= k < |s.dispatched|
      ensures s.dispatched[k].chunk.chunkId == k
    {
      assert PhrasesOf(s.dispatched)[k] == chunks[k];
    }
    if Awaiting(s.pump) {
      assert Remaining(s.pump)[0] == chunks[|s.dispatched|];
    }
  }

  /** The phrase a worker has in hand was dispatched. */
  lemma {:induction false} InHandWasDispatched(s: Session, i: nat)
    requires WorkersInv(s) && IdsCount(s) && i < |s.workers| && s.workers[i].phase.Speaking?
    ensures s.workers[i].phase.item.chunk.chunkId < |s.dispatched|
  {
    var w := s.workers[i];
    assert WorkerInv(w, Share(s.dispatched, i), SentinelPlaced(s.main, i));
    SharesIncrease(s.dispatched, i);
    assert Given(w)[|w.handled|] == w.phase.item;
  }

  // ---------------------------------------------------------------- each step keeps it

  /** The keys a step opens. */
  function OpenedBy(c: Settings, r: Recording, s: Session, e: Event): set<L.Key>
    requires c.Usable() && Enabled(s, e)
  {
    var s' := Step(c, s, e);
    if StartsAwaiting(e, s') then set l | l in r.languages :: KeyOf(s'.pump.batch[s'.pump.k], l) else {}
  }

  /** A step begins at most one phrase, the next one, and only while the pump runs. */
  lemma {:induction false} StepBeginsNext(c: Settings, s: Session, e: Event)
    requires c.Usable() && PumpInv(c, s) && Enabled(s, e) && PumpInv(c, Step(c, s, e))
    ensures var s' := Step(c, s, e);
            && (s.pump.Ended? ==> s'.pump.Ended?)
            && (StartsAwaiting(e, s') ==>
                  !s.pump.Ended? && s'.pump.batch[s'.pump.k].chunkId == Begun(s) && Begun(s') == Begun(s) + 1)
            && (!StartsAwaiting(e, s') ==> Begun(s') <= Begun(s) && (!s'.pump.Ended? ==> Begun(s') == Begun(s)))
  {
    IdsFollow(c, Step(c, s, e));
  }

  /** What it opens is new, and what has begun keeps its shape. */
  lemma {:induction false} OpeningKeepsBegun(c: Settings, r: Recording, s: Session, e: Event, begun: set<L.Key>)
    requires c.Usable() && PumpInv(c, s) && Enabled(s, e) && PumpInv(c, Step(c, s, e)) && BegunInv(r, s, begun)
    ensures OpenedBy(c, r, s, e) !! begun
    ensures BegunInv(r, Step(c, s, e), begun + OpenedBy(c, r, s, e))
  {
    StepBeginsNext(c, s, e);
    var s' := Step(c, s, e);
    if StartsAwaiting(e, s') {
      BeginOne(r.languages, Begun(s), begun, s'.pump.batch[s'.pump.k]);
    } else {
      assert begun + {} == begun;
    }
  }

  lemma {:induction false} BeginOne(languages: seq<string>, n: nat, begun: set<L.Key>, chunk: PhraseChunk)
    requires BegunThrough(languages, n, false, begun) && chunk.chunkId == n
    ensures (set l | l in languages :: KeyOf(chunk, l)) !! begun
    ensures BegunThrough(languages, n + 1, false, begun + set l | l in languages :: KeyOf(chunk, l))
  {
    var keys := set l | l in languages :: KeyOf(chunk, l);
    assert forall l | l in languages :: KeyOf(chunk, l) in keys;
  }

  /** Phrases stay handled, so what was aired stays accounted for. */
  lemma {:induction false} StepKeepsAired(c: Settings, r: Recording, s: Session, e: Event, key: L.Key, i: nat, m: nat)
    requires c.Usable() && Enabled(s, e) && AiredBy(r, s, key, i, m)
    ensures AiredBy(r, Step(c, s, e), key, i, m)
  {
  }

  lemma {:induction false} AiringKeepsAired(c: Settings, r: Recording, j: Joint, x: Timed)
    requires c.Usable() && Enabled(j.session, x.event) && |j.session.workers| == |r.languages|
    requires AiredInv(r, j.session, j.aired)
    ensures AiredInv(r, Step(c, j.session, x.event), AiredAfter(r, j, x))
  {
    var s' := Step(c, j.session, x.event);
    forall key | key in AiredAfter(r, j, x)
      ensures exists i: nat, m: nat :: AiredBy(r, s', key, i, m)
    {
      if key in j.aired {
        var i: nat, m: nat :| AiredBy(r, j.session, key, i, m);
        StepKeepsAired(c, r, j.session, x.event, key, i, m);
      } else {
        assert AiredBy(r, s', key, x.event.i, |j.session.workers[x.event.i].handled|);
      }
    }
  }

  /** The first part of a step's log: the recorder can follow it, and closes exactly what is aired. */
  lemma {:induction false} MarksRun(c: Settings, r: Recording, j: Joint, x: Timed)
    returns (log: seq<L.Event>, h': L.History)
    requires c.Usable() && JointInv(c, r, j) && Enabled(j.session, x.event)
    ensures L.IsRun(r.cap, r.slo, j.history, log, h')
    ensures var s' := Step(c, j.session, x.event);
            StepLog(c, r, j.session, x)
            == log + if StartsAwaiting(x.event, s') then OpenLog(s'.pump.batch[s'.pump.k], r.languages) else []
    ensures h'.begun == j.history.begun && h'.recorder.epoch.Some? && ClosedInv(h', AiredAfter(r, j, x))
  {
    log, h' := [], j.history;
    match x.event
    case Translated(texts) =>
      var chunk := j.session.pump.batch[j.session.pump.k];
      log := TranslatedLog(chunk, texts, r.languages, x.wall);
      h' := TranslatedRuns(r, j.history, chunk, texts, r.languages, x.wall);
    case Finish(i, outcome) =>
      if Airs(x) {
        var key := KeyOf(j.session.workers[i].phase.item.chunk, r.languages[i]);
        InHandWasDispatched(j.session, i);
        assert r.languages[i] in r.languages && key in j.history.begun;
        log := [L.Mark(key, L.FirstAudio, x.sound.value.made), L.Mark(key, L.Published, x.sound.value.pushed)];
        h' := PublishingRuns(r, j.history, key, x.sound.value);
      }
    case _ =>
  }

  /** What a step keeps on the session's side. */
  lemma {:induction false} SessionSideKept(c: Settings, r: Recording, j: Joint, x: Timed)
    requires c.Usable() && JointInv(c, r, j) && Enabled(j.session, x.event)
    ensures var s' := Step(c, j.session, x.event);
            && Inv(c, s') && IdsCount(s') && |s'.workers| == |r.languages|
            && OpenedBy(c, r, j.session, x.event) !! j.history.begun
            && BegunInv(r, s', j.history.begun + OpenedBy(c, r, j.session, x.event))
            && AiredInv(r, s', AiredAfter(r, j, x))
  {
    SessionStepKeepsInv(c, j.session, x.event);
    OpeningKeepsBegun(c, r, j.session, x.event, j.history.begun);
    AiringKeepsAired(c, r, j, x);
  }

  lemma {:induction false} SessionStepKeepsInv(c: Settings, s: Session, e: Event)
    requires c.Usable() && Inv(c, s) && Enabled(s, e)
    ensures Inv(c, Step(c, s, e)) && IdsCount(Step(c, s, e)) && |Step(c, s, e).workers| == |s.workers|
  {
    StepKeepsPumpInv(c, s, e);
    StepKeepsWorkersInv(c, s, e);
    IdsFollow(c, Step(c, s, e));
  }

  /** Whatever the session does next, the recorder can follow: no key is ever opened twice. */
  lemma {:induction false} RecorderFollows(c: Settings, r: Recording, j: Joint, x: Timed) returns (h': L.History)
    requires c.Usable() && r.Usable() && JointInv(c, r, j) && Enabled(j.session, x.event)
    requires OpenedBy(c, r, j.session, x.event) !! j.history.begun
    ensures L.IsRun(r.cap, r.slo, j.history, StepLog(c, r, j.session, x), h')
    ensures h'.begun == j.history.begun + OpenedBy(c, r, j.session, x.event)
    ensures h'.recorder.epoch.Some? && ClosedInv(h', AiredAfter(r, j, x))
  {
    var s' := Step(c, j.session, x.event);
    var log, mid := MarksRun(c, r, j, x);
    h' := mid;
    if StartsAwaiting(x.event, s') {
      var chunk := s'.pump.batch[s'.pump.k];
      assert forall l | l in r.languages :: KeyOf(chunk, l) in OpenedBy(c, r, j.session, x.event);
      h' := OpeningsRun(r, mid, chunk, r.languages);
      LogsCompose(r, j.history, log, mid, OpenLog(chunk, r.languages), h');
    } else {
      assert log + [] == log;
    }
  }

  lemma {:induction false} StepIsRecorded(c: Settings, r: Recording, j: Joint, x: Timed) returns (j': Joint)
    requires c.Usable() && r.Usable() && JointInv(c, r, j) && Enabled(j.session, x.event)
    ensures Moves(c, r, j, x, j') && JointInv(c, r, j')
  {
    SessionSideKept(c, r, j, x);
    var h' := RecorderFollows(c, r, j, x);
    L.RunKeepsInv(r.cap, r.slo, j.history, StepLog(c, r, j.session, x), h');
    j' := Joint(Step(c, j.session, x.event), h', AiredAfter(r, j, x));
  }

  // ---------------------------------------------------------------- every run

  lemma {:induction false} OneOutcome(r: Recording, h: L.History, log: seq<L.Event>, a: L.History, b: L.History)
    requires L.IsRun(r.cap, r.slo, h, log, a) && L.IsRun(r.cap, r.slo, h, log, b)
    ensures a == b
    decreases |log|
  {
    if log != [] {
      OneOutcome(r, L.Step(r.cap, r.slo, h, log[0]), log[1..], a, b);
    }
  }

  lemma {:induction false} StartKeepsInv(c: Settings, r: Recording, epoch: real)
    requires c.Usable()
    ensures JointInv(c, r, Start(r, epoch))
  {
    EveryRunKeepsInv(c, |r.languages|, [], Begin(|r.languages|));
    L.FreshIsAccounted(r.cap);
  }

  lemma {:induction false} JointRunKeepsInv(c: Settings, r: Recording, j: Joint, xs: seq<Timed>, joints: seq<Joint>,
                                            n: nat)
    requires c.Usable() && r.Usable() && JointInv(c, r, j) && IsJointRun(c, r, j, xs, joints) && n <= |xs|
    ensures JointInv(c, r, joints[n])
  {
    if n > 0 {
      JointRunKeepsInv(c, r, j, xs, joints, n - 1);
      MoveAt(c, r, j, xs, joints, n - 1);
      MoveKeepsInv(c, r, joints[n - 1], xs[n - 1], joints[n]);
    }
  }

  lemma {:induction false} MoveAt(c: Settings, r: Recording, j: Joint, xs: seq<Timed>, joints: seq<Joint>, k: nat)
    requires c.Usable() && IsJointRun(c, r, j, xs, joints) && k < |xs|
    ensures Moves(c, r, joints[k], xs[k], joints[k + 1])
  {
  }

  lemma {:induction false} MoveKeepsInv(c: Settings, r: Recording, j: Joint, x: Timed, j': Joint)
    requires c.Usable() && r.Usable() && JointInv(c, r, j) && Moves(c, r, j, x, j')
    ensures JointInv(c, r, j')
  {
    var after := StepIsRecorded(c, r, j, x);
    OneOutcome(r, j.history, StepLog(c, r, j.session, x), after.history, j'.history);
  }

  function EventsOf(xs: seq<Timed>): seq<Event> {
    seq(|xs|, k requires 0 <= k < |xs| => xs[k].event)
  }

  lemma {:induction false} RunIsRecorded(c: Settings, r: Recording, j: Joint, xs: seq<Timed>, s': Session)
    returns (joints: seq<Joint>)
    requires c.Usable() && r.Usable() && JointInv(c, r, j) && IsRun(c, j.session, EventsOf(xs), s')
    ensures IsJointRun(c, r, j, xs, joints) && joints[|xs|].session == s'
    decreases |xs|
  {
    if xs == [] {
      joints := [j];
    } else {
      var next := FirstIsRecorded(c, r, j, xs, s');
      var tail := xs[1..];
      var rest := RunIsRecorded(c, r, next, tail, s');
      MoveFirst(c, r, j, xs, next, tail, rest);
      joints := [j] + rest;
    }
  }

  lemma {:induction false} FirstIsRecorded(c: Settings, r: Recording, j: Joint, xs: seq<Timed>, s': Session)
    returns (next: Joint)
    requires c.Usable() && r.Usable() && JointInv(c, r, j) && xs != [] && IsRun(c, j.session, EventsOf(xs), s')
    ensures Moves(c, r, j, xs[0], next) && JointInv(c, r, next)
    ensures IsRun(c, next.session, EventsOf(xs[1..]), s')
  {
    FirstEvent(c, j.session, xs, s');
    next := StepIsRecorded(c, r, j, xs[0]);
  }

  lemma {:induction false} FirstEvent(c: Settings, s: Session, xs: seq<Timed>, s': Session)
    requires c.Usable() && xs != [] && IsRun(c, s, EventsOf(xs), s')
    ensures Enabled(s, xs[0].event) && IsRun(c, Step(c, s, xs[0].event), EventsOf(xs[1..]), s')
  {
    assert EventsOf(xs)[1..] == EventsOf(xs[1..]);
  }

  lemma {:induction false} MoveFirst(c: Settings, r: Recording, j: Joint, xs: seq<Timed>, next: Joint,
                                     tail: seq<Timed>, rest: seq<Joint>)
    requires c.Usable() && xs != [] && tail == xs[1..]
    requires Moves(c, r, j, xs[0], next) && IsJointRun(c, r, next, tail, rest)
    ensures IsJointRun(c, r, j, xs, [j] + rest) && ([j] + rest)[|xs|] == rest[|tail|]
  {
    forall k | 0 <= k < |xs|
      ensures Moves(c, r, ([j] + rest)[k], xs[k], ([j] + rest)[k + 1])
    {
      if k > 0 {
        MoveAt(c, r, next, tail, rest, k - 1);
      }
    }
  }

  /** Keys are distinct by construction: every run of a session, whatever its interleaving, is one the recorder
      can follow, opening each phrase in each language at most once. */
  lemma {:induction false} EverySessionIsRecorded(c: Settings, r: Recording, epoch: real, xs: seq<Timed>, s: Session)
    returns (joints: seq<Joint>)
    requires c.Usable() && r.Usable() && IsRun(c, Begin(|r.languages|), EventsOf(xs), s)
    ensures IsJointRun(c, r, Start(r, epoch), xs, joints) && joints[|xs|].session == s
  {
    StartKeepsInv(c, r, epoch);
    joints := RunIsRecorded(c, r, Start(r, epoch), xs, s);
  }

  /** In every state of a session: traces begun are traces closed plus traces open, each closed once; every
      dispatched phrase was begun in every language; and a trace is open exactly when it was begun and the phrase
      has not been heard in that language. */
  lemma {:induction false} SessionIsAccounted(c: Settings, r: Recording, epoch: real, xs: seq<Timed>,
                                              joints: seq<Joint>)
    requires c.Usable() && r.Usable() && IsJointRun(c, r, Start(r, epoch), xs, joints)
    ensures var j := joints[|xs|];
            var h := j.history;
            && |h.begun| == |h.closed| + |h.recorder.open| && L.Distinct(h.closed)
            && (forall k: nat, l | k < |j.session.dispatched| && l in r.languages :: L.Key(k, l) in h.begun)
            && (forall key: L.Key :: key in h.recorder.open <==> key in h.begun && key !in j.aired)
  {
    StartKeepsInv(c, r, epoch);
    JointRunKeepsInv(c, r, Start(r, epoch), xs, joints, |xs|);
  }

  /** A phrase passed over as blank or skipped for drift is never closed: its trace stays open for the rest of the
      session, so the open traces grow with every one of them. */
  lemma {:induction false} UnheardTracesStayOpen(c: Settings, r: Recording, epoch: real, xs: seq<Timed>,
                                                 joints: seq<Joint>, i: nat, m: nat)
    requires c.Usable() && r.Usable() && IsJointRun(c, r, Start(r, epoch), xs, joints)
    requires i < |r.languages| && i < |joints[|xs|].session.workers|
    requires m < |joints[|xs|].session.workers[i].handled|
    requires var outcome := joints[|xs|].session.workers[i].handled[m].outcome; outcome.Blank? || outcome.Skipped?
    ensures var j := joints[|xs|];
            KeyOf(j.session.workers[i].handled[m].item.chunk, r.languages[i]) in j.history.recorder.open
  {
    StartKeepsInv(c, r, epoch);
    JointRunKeepsInv(c, r, Start(r, epoch), xs, joints, |xs|);
    UnheardIsOpen(c, r, joints[|xs|], i, m);
  }

  lemma {:induction false} UnheardIsOpen(c: Settings, r: Recording, j: Joint, i: nat, m: nat)
    requires c.Usable() && r.Usable() && JointInv(c, r, j)
    requires i < |r.languages| && m < |j.session.workers[i].handled|
    requires var outcome := j.session.workers[i].handled[m].outcome; outcome.Blank? || outcome.Skipped?
    ensures KeyOf(j.session.workers[i].handled[m].item.chunk, r.languages[i]) in j.history.recorder.open
  {
    HandledIdsIncrease(j.session, i);
    var key := KeyOf(j.session.workers[i].handled[m].item.chunk, r.languages[i]);
    assert r.languages[i] in r.languages && key in j.history.begun;
    forall i': nat, m': nat
      ensures !AiredBy(r, j.session, key, i', m')
    {
      HandledOtherwise(r, j.session, i, m, i', m');
    }
  }

  lemma {:induction false} HandledOtherwise(r: Recording, s: Session, i: nat, m: nat, i': nat, m': nat)
    requires r.Usable() && i < |r.languages| && i < |s.workers| && m < |s.workers[i].handled|
    requires s.workers[i].handled[m].outcome.Blank? || s.workers[i].handled[m].outcome.Skipped?
    requires HandledInOrder(s.workers[i].handled)
    ensures !AiredBy(r, s, KeyOf(s.workers[i].handled[m].item.chunk, r.languages[i]), i', m')
  {
  }

  predicate HandledInOrder(handled: seq<Handled>) {
    forall m, n | 0 <= m < n < |handled| :: handled[m].item.chunk.chunkId < handled[n].item.chunk.chunkId
  }

  lemma {:induction false} HandledIdsIncrease(s: Session, i: nat)
    requires WorkersInv(s) && IdsCount(s) && i < |s.workers|
    ensures var handled := s.workers[i].handled;
            && (forall m | 0 <= m < |handled| :: handled[m].item.chunk.chunkId < |s.dispatched|)
            && HandledInOrder(handled)
  {
    var w, share := s.workers[i], Share(s.dispatched, i);
    assert WorkerInv(w, share, SentinelPlaced(s.main, i));
    SharesIncrease(s.dispatched, i);
    assert forall m | 0 <= m < |w.handled| :: share[m] == w.handled[m].item;
  }
}
