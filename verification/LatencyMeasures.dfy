/** What a latency sample measures, told from the recorder's events alone. */
module LatencyMeasures {
  import opened Options
  import opened Sequences
  import opened Latency

  /** Event a is the first to anchor the clock. */
  predicate FirstAnchor(events: seq<Event>, a: nat) {
    a < |events| && events[a].Anchor? && forall q | 0 <= q < a :: !events[q].Anchor?
  }

  predicate Opens(events: seq<Event>, o: nat, key: Key) {
    o < |events| && events[o].Open? && events[o].key == key
  }

  predicate IsPublish(e: Event, key: Key) { e.Mark? && e.key == key && e.stage == Published }

  /** Event p is the first to mark the key published after event o opened it. */
  predicate PublishedFirst(events: seq<Event>, key: Key, o: nat, p: nat) {
    && Opens(events, o, key) && o < p < |events| && IsPublish(events[p], key)
    && forall q | o < q < p :: !IsPublish(events[q], key)
  }

  /** A closing's seconds: from the moment the phrase's last word was said, on the clock anchored by event a, to the
      moment it was first heard. */
  predicate Measures(events: seq<Event>, c: Closing, a: nat, o: nat, p: nat) {
    && FirstAnchor(events, a) && PublishedFirst(events, c.key, o, p)
    && c.seconds == events[p].wall - (events[a].tWall - events[a].tAudio + events[o].tAudioEnd)
  }

  ghost predicate IsMeasured(events: seq<Event>, c: Closing) {
    exists a: nat, o: nat, p: nat :: Measures(events, c, a, o, p)
  }

  /** The closings that breached the objective. */
  function Above(closed: seq<Closing>, slo: real): nat {
    if closed == [] then 0
    else Above(closed[..|closed| - 1], slo) + if closed[|closed| - 1].seconds > slo then 1 else 0
  }

  // ---------------------------------------------------------------- the invariant

  ghost predicate ClockInv(events: seq<Event>, epoch: Option<real>) {
    match epoch
    case None => forall q | 0 <= q < |events| :: !events[q].Anchor?
    case Some(x) => exists a: nat :: FirstAnchor(events, a) && x == events[a].tWall - events[a].tAudio
  }

  /** An open trace: opened by event o, not published since, and dated on the anchored clock. */
  predicate Waits(events: seq<Event>, epoch: Option<real>, key: Key, t: Trace, o: nat) {
    && Opens(events, o, key) && (forall q | o < q < |events| :: !IsPublish(events[q], key))
    && t.key == key && Published !in t.marks
    && epoch.Some? && t.audioEndWall == epoch.value + events[o].tAudioEnd
  }

  ghost predicate OpenInv(events: seq<Event>, r: Recorder) {
    forall key | key in r.open :: exists o: nat :: Waits(events, r.epoch, key, r.open[key], o)
  }

  ghost predicate BegunInv(events: seq<Event>, begun: set<Key>) {
    && (forall key: Key :: key in begun <==> exists o: nat :: Opens(events, o, key))
    && (forall o: nat, o': nat, key: Key :: Opens(events, o, key) && Opens(events, o', key) ==> o == o')
  }

  ghost predicate MeasureInv(slo: real, events: seq<Event>, h: History) {
    && ClockInv(events, h.recorder.epoch) && OpenInv(events, h.recorder) && BegunInv(events, h.begun)
    && AllMeasured(events, h.closed)
    && h.recorder.breaches == Above(h.closed, slo)
  }

  // ---------------------------------------------------------------- one event more

  lemma {:induction false} ClockKept(events: seq<Event>, e: Event, r: Recorder, r': Recorder)
    requires ClockInv(events, r.epoch)
    requires r'.epoch == if e.Anchor? && r.epoch.None? then Some(e.tWall - e.tAudio) else r.epoch
    ensures ClockInv(events + [e], r'.epoch)
  {
    if r.epoch.Some? {
      var a: nat :| FirstAnchor(events, a) && r.epoch.value == events[a].tWall - events[a].tAudio;
      assert FirstAnchor(events + [e], a);
    } else if e.Anchor? {
      assert FirstAnchor(events + [e], |events|);
    }
  }

  lemma {:induction false} MeasuredKept(events: seq<Event>, e: Event, c: Closing)
    requires IsMeasured(events, c)
    ensures IsMeasured(events + [e], c)
  {
    var a: nat, o: nat, p: nat :| Measures(events, c, a, o, p);
    assert Measures(events + [e], c, a, o, p);
  }

  ghost predicate AllMeasured(events: seq<Event>, closed: seq<Closing>) {
    forall i | 0 <= i < |closed| :: IsMeasured(events, closed[i])
  }

  lemma {:induction false} ClosingsKept(events: seq<Event>, e: Event, closed: seq<Closing>)
    requires AllMeasured(events, closed)
    ensures AllMeasured(events + [e], closed)
  {
    forall i | 0 <= i < |closed|
      ensures IsMeasured(events + [e], closed[i])
    {
      MeasuredKept(events, e, closed[i]);
    }
  }

  lemma {:induction false} ClosingsGrow(events: seq<Event>, closed: seq<Closing>, c: Closing)
    requires AllMeasured(events, closed) && IsMeasured(events, c)
    ensures AllMeasured(events, closed + [c])
  {
  }

  lemma {:induction false} BegunKept(events: seq<Event>, e: Event, begun: set<Key>)
    requires BegunInv(events, begun) && (e.Open? ==> e.key !in begun)
    ensures BegunInv(events + [e], if e.Open? then begun + {e.key} else begun)
  {
    var longer := events + [e];
    forall o: nat, key: Key
      ensures Opens(longer, o, key) <==> Opens(events, o, key) || (o == |events| && e.Open? && e.key == key)
    {
    }
    var begun' := if e.Open? then begun + {e.key} else begun;
    forall key: Key
      ensures key in begun' <==> exists o: nat :: Opens(longer, o, key)
    {
      if key in begun {
        var o: nat :| Opens(events, o, key);
        assert Opens(longer, o, key);
      } else if key in begun' {
        assert Opens(longer, |events|, key);
      }
    }
  }

  /** A trace goes on waiting through any event that does not publish it. */
  lemma {:induction false} WaitingKept(events: seq<Event>, e: Event, epoch: Option<real>, key: Key, t: Trace, t': Trace)
    requires exists o: nat :: Waits(events, epoch, key, t, o)
    requires !IsPublish(e, key) && t'.key == t.key && t'.audioEndWall == t.audioEndWall && Published !in t'.marks
    ensures exists o: nat :: Waits(events + [e], epoch, key, t', o)
  {
    var o: nat :| Waits(events, epoch, key, t, o);
    assert Waits(events + [e], epoch, key, t', o);
  }

  lemma {:induction false} AnchorKeeps(cap: nat, slo: real, events: seq<Event>, h: History, e: Event)
    requires MeasureInv(slo, events, h) && Possible(h, e) && e.Anchor?
    ensures MeasureInv(slo, events + [e], Step(cap, slo, h, e))
  {
    var r, r' := h.recorder, Step(cap, slo, h, e).recorder;
    ClockKept(events, e, r, r');
    BegunKept(events, e, h.begun);
    ClosingsKept(events, e, h.closed);
    forall key | key in r.open
      ensures exists o: nat :: Waits(events + [e], r'.epoch, key, r.open[key], o)
    {
      var o: nat :| Waits(events, r.epoch, key, r.open[key], o);
      assert r'.epoch == r.epoch;
      WaitingKept(events, e, r.epoch, key, r.open[key], r.open[key]);
    }
  }

  lemma {:induction false} OpenKeeps(cap: nat, slo: real, events: seq<Event>, h: History, e: Event)
    requires MeasureInv(slo, events, h) && Possible(h, e) && e.Open?
    ensures MeasureInv(slo, events + [e], Step(cap, slo, h, e))
  {
    var r, r' := h.recorder, Step(cap, slo, h, e).recorder;
    ClockKept(events, e, r, r');
    BegunKept(events, e, h.begun);
    ClosingsKept(events, e, h.closed);
    forall key | key in r'.open
      ensures exists o: nat :: Waits(events + [e], r'.epoch, key, r'.open[key], o)
    {
      if key == e.key {
        assert Waits(events + [e], r'.epoch, key, r'.open[key], |events|);
      } else {
        WaitingKept(events, e, r.epoch, key, r.open[key], r.open[key]);
      }
    }
  }

  lemma {:induction false} MarkKeeps(cap: nat, slo: real, events: seq<Event>, h: History, e: Event)
    requires MeasureInv(slo, events, h) && e.Mark?
    ensures MeasureInv(slo, events + [e], Step(cap, slo, h, e))
  {
    var h' := Step(cap, slo, h, e);
    ClockKept(events, e, h.recorder, h'.recorder);
    BegunKept(events, e, h.begun);
    MarkKeepsOpen(cap, slo, events, h.recorder, e);
    ClosingsKept(events, e, h.closed);
    if e.stage == Published && e.key in h.recorder.open {
      var c := Closing(e.key, e.wall - h.recorder.open[e.key].audioEndWall);
      PublishMeasures(events, e, h.recorder);
      ClosingsGrow(events + [e], h.closed, c);
      AboveAppend(h.closed, c, slo);
      PublishCloses(cap, slo, h, e, c);
    }
  }

  lemma {:induction false} PublishCloses(cap: nat, slo: real, h: History, e: Event, c: Closing)
    requires e.Mark? && e.stage == Published && e.key in h.recorder.open
    requires Published !in h.recorder.open[e.key].marks
    requires c == Closing(e.key, e.wall - h.recorder.open[e.key].audioEndWall)
    ensures var h' := Step(cap, slo, h, e);
            && h'.closed == h.closed + [c]
            && h'.recorder.breaches == h.recorder.breaches + if c.seconds > slo then 1 else 0
  {
  }

  lemma {:induction false} MarkKeepsOpen(cap: nat, slo: real, events: seq<Event>, r: Recorder, e: Event)
    requires OpenInv(events, r) && e.Mark?
    ensures OpenInv(events + [e], Marked(cap, slo, r, e.key, e.stage, e.wall))
  {
    var r' := Marked(cap, slo, r, e.key, e.stage, e.wall);
    forall key | key in r'.open
      ensures exists o: nat :: Waits(events + [e], r'.epoch, key, r'.open[key], o)
    {
      WaitingKept(events, e, r.epoch, key, r.open[key], r'.open[key]);
    }
  }

  /** The closing a publish makes. */
  lemma {:induction false} PublishMeasures(events: seq<Event>, e: Event, r: Recorder)
    requires ClockInv(events, r.epoch) && OpenInv(events, r)
    requires e.Mark? && e.stage == Published && e.key in r.open
    ensures Published !in r.open[e.key].marks
    ensures IsMeasured(events + [e], Closing(e.key, e.wall - r.open[e.key].audioEndWall))
  {
    var o: nat :| Waits(events, r.epoch, e.key, r.open[e.key], o);
    var a: nat :| FirstAnchor(events, a) && r.epoch.value == events[a].tWall - events[a].tAudio;
    assert Measures(events + [e], Closing(e.key, e.wall - r.open[e.key].audioEndWall), a, o, |events|);
  }

  lemma {:induction false} AboveAppend(closed: seq<Closing>, c: Closing, slo: real)
    ensures Above(closed + [c], slo) == Above(closed, slo) + if c.seconds > slo then 1 else 0
  {
    assert (closed + [c])[..|closed|] == closed;
  }

  // ---------------------------------------------------------------- every run

  lemma {:induction false} StepKeepsMeasures(cap: nat, slo: real, events: seq<Event>, h: History, e: Event)
    requires MeasureInv(slo, events, h) && Possible(h, e)
    ensures MeasureInv(slo, events + [e], Step(cap, slo, h, e))
  {
    match e
    case Anchor(_, _) => AnchorKeeps(cap, slo, events, h, e);
    case Open(_, _) => OpenKeeps(cap, slo, events, h, e);
    case Mark(_, _, _) => MarkKeeps(cap, slo, events, h, e);
  }

  lemma {:induction false} RunKeepsMeasures(cap: nat, slo: real, done: seq<Event>, h: History, events: seq<Event>,
                                            h': History)
    requires MeasureInv(slo, done, h) && IsRun(cap, slo, h, events, h')
    ensures MeasureInv(slo, done + events, h')
    decreases |events|
  {
    ShiftFirst(done, events);
    if events != [] {
      var more, rest := done + [events[0]], events[1..];
      StepKeepsMeasures(cap, slo, done, h, events[0]);
      RunKeepsMeasures(cap, slo, more, Step(cap, slo, h, events[0]), rest, h');
    }
  }

  /** From these marks through these events: a stage once marked keeps its time, and the first mark of a stage not yet
      marked gives it one. */
  predicate FirstWins(before: map<Stage, real>, events: seq<Event>, key: Key, stage: Stage, after: map<Stage, real>) {
    if stage in before then stage in after && after[stage] == before[stage]
    else
      match FirstMark(events, key, stage)
      case None => stage !in after
      case Some(wall) => stage in after && after[stage] == wall
  }

  lemma {:induction false} OneEventMarks(cap: nat, slo: real, h: History, e: Event, key: Key, stage: Stage)
    requires Possible(h, e) && key in h.begun && key in h.recorder.open && key in Step(cap, slo, h, e).recorder.open
    ensures FirstWins(h.recorder.open[key].marks, [e], key, stage, Step(cap, slo, h, e).recorder.open[key].marks)
    ensures key in Step(cap, slo, h, e).begun
  {
    FirstMarkOfOne(e, key, stage);
  }

  lemma {:induction false} FirstWinsOn(before: map<Stage, real>, e: Event, mid: map<Stage, real>, rest: seq<Event>,
                                       after: map<Stage, real>, events: seq<Event>, key: Key, stage: Stage)
    requires events != [] && e == events[0] && rest == events[1..]
    requires FirstWins(before, [e], key, stage, mid) && FirstWins(mid, rest, key, stage, after)
    ensures FirstWins(before, events, key, stage, after)
  {
    FirstMarkOfOne(e, key, stage);
  }

  lemma {:induction false} FirstMarkOfOne(e: Event, key: Key, stage: Stage)
    ensures FirstMark([e], key, stage)
         == if e.Mark? && e.key == key && e.stage == stage then Some(e.wall) else None
  {
    assert [e][1..] == [];
    assert FirstMark([], key, stage).None?;
  }

  /** The first mark of a stage wins, over any run in which the trace stays open. */
  lemma {:induction false} FirstMarksWin(cap: nat, slo: real, h: History, events: seq<Event>, h': History, key: Key,
                                         stage: Stage)
    requires IsRun(cap, slo, h, events, h') && key in h.begun
    requires key in h.recorder.open && key in h'.recorder.open
    ensures FirstWins(h.recorder.open[key].marks, events, key, stage, h'.recorder.open[key].marks)
    decreases |events|
  {
    if events != [] {
      var e, rest, next := events[0], events[1..], Step(cap, slo, h, events[0]);
      if key !in next.recorder.open {
        ClosedStaysClosed(cap, slo, next, rest, h', key);
      } else {
        OneEventMarks(cap, slo, h, e, key, stage);
        FirstMarksWin(cap, slo, next, rest, h', key, stage);
        FirstWinsOn(h.recorder.open[key].marks, e, next.recorder.open[key].marks, rest, h'.recorder.open[key].marks,
                    events, key, stage);
      }
    }
  }

  /** The wall time of the first mark of a stage. */
  function FirstMark(events: seq<Event>, key: Key, stage: Stage): Option<real> {
    if events == [] then None
    else if events[0].Mark? && events[0].key == key && events[0].stage == stage then Some(events[0].wall)
    else FirstMark(events[1..], key, stage)
  }

  /** A trace that was begun and is no longer open does not open again. */
  lemma {:induction false} ClosedStaysClosed(cap: nat, slo: real, h: History, events: seq<Event>, h': History, key: Key)
    requires IsRun(cap, slo, h, events, h') && key in h.begun && key !in h.recorder.open
    ensures key !in h'.recorder.open
    decreases |events|
  {
    if events != [] {
      ClosedStaysClosed(cap, slo, Step(cap, slo, h, events[0]), events[1..], h', key);
    }
  }

  lemma {:induction false} NothingYetMeasured(slo: real)
    ensures MeasureInv(slo, [], NOTHING_YET)
  {
  }

  lemma {:induction false} EveryRunIsMeasured(cap: nat, slo: real, events: seq<Event>, h: History)
    requires IsRun(cap, slo, NOTHING_YET, events, h)
    ensures MeasureInv(slo, events, h) && Inv(cap, h)
  {
    NothingYetMeasured(slo);
    RunKeepsMeasures(cap, slo, [], NOTHING_YET, events, h);
    assert [] + events == events;
    FreshIsAccounted(cap);
    RunKeepsInv(cap, slo, NOTHING_YET, events, h);
  }

  /** Every sample of every run: the wall time of the key's first published mark after it was opened, less the wall
      time at which its audio ended, on the clock of the run's first anchor. Every key opened and published since has
      one, and the breaches are the samples above the objective. */
  lemma {:induction false} SamplesMeasureLatency(cap: nat, slo: real, events: seq<Event>, h: History)
    requires IsRun(cap, slo, NOTHING_YET, events, h)
    ensures AllMeasured(events, h.closed)
    ensures forall key: Key :: IsClosed(h.closed, key) <==> exists o: nat, p: nat :: PublishedFirst(events, key, o, p)
    ensures h.recorder.breaches == Above(h.closed, slo)
  {
    EveryRunIsMeasured(cap, slo, events, h);
    forall key: Key
      ensures IsClosed(h.closed, key) <==> exists o: nat, p: nat :: PublishedFirst(events, key, o, p)
    {
      if IsClosed(h.closed, key) {
        ClosedWasPublished(events, h.closed, key);
      } else {
        NotClosedNotPublished(cap, slo, events, h, key);
      }
    }
  }

  lemma {:induction false} ClosedWasPublished(events: seq<Event>, closed: seq<Closing>, key: Key)
    requires IsClosed(closed, key) && AllMeasured(events, closed)
    ensures exists o: nat, p: nat :: PublishedFirst(events, key, o, p)
  {
    var i :| 0 <= i < |closed| && closed[i].key == key;
    var a: nat, o: nat, p: nat :| Measures(events, closed[i], a, o, p);
    assert PublishedFirst(events, key, o, p);
  }

  lemma {:induction false} NotClosedNotPublished(cap: nat, slo: real, events: seq<Event>, h: History, key: Key)
    requires MeasureInv(slo, events, h) && Inv(cap, h) && !IsClosed(h.closed, key)
    ensures !exists o: nat, p: nat :: PublishedFirst(events, key, o, p)
  {
    forall o: nat, p: nat
      ensures !PublishedFirst(events, key, o, p)
    {
      if Opens(events, o, key) {
        assert key in h.begun && key in h.recorder.open;
        var o': nat :| Waits(events, h.recorder.epoch, key, h.recorder.open[key], o');
        assert o' == o;
      }
    }
  }
}
