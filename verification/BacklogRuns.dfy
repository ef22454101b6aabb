/** What the backlog guard keeps over every interleaving of its producer and its consumer.

    The event loop runs one piece of code at a time between awaits, so an interleaving is a
    sequence of `push`, `close` and drain-resumption steps in any order; `feed` closes in its
    `finally`, so nothing is pushed after the close. */
module BacklogRuns {
  import opened Backlog
  import opened Durations

  datatype Event = Push(frame: AudioFrame) | Close | Resume

  /** The guard, with the whole input so far and the input positions delivered and dropped. */
  datatype History = History(guard: GuardState, received: seq<AudioFrame>, delivered: seq<nat>, dropped: seq<nat>)
  {
    /** Input position of the oldest buffered frame, were there one. */
    function Head(): nat {
      if |guard.buffer| <= |received| then |received| - |guard.buffer| else 0
    }
  }

  const START := History(EMPTY, [], [], [])

  predicate Enabled(h: History, e: Event) {
    match e
    case Push(_) => !h.guard.closed
    case Close => true
    case Resume => CanResume(h.guard)
  }

  function Range(lo: nat, hi: nat): seq<nat> {
    seq(if lo <= hi then hi - lo else 0, i => lo + i)
  }

  function Step(c: Config, h: History, e: Event): History {
    match e
    case Push(f) =>
      var next := h.(guard := Pushed(c, h.guard, f), received := h.received + [f]);
      next.(dropped := h.dropped + Range(h.Head(), next.Head()))
    case Close => h.(guard := ClosedDown(h.guard))
    case Resume =>
      h.(guard := Resumed(h.guard),
         delivered := if h.guard.buffer == [] then h.delivered else h.delivered + [h.Head()])
  }

  /** The history after a sequence of events. */
  function After(c: Config, events: seq<Event>): History {
    if events == [] then START else Step(c, After(c, events[..|events| - 1]), events[|events| - 1])
  }

  /** Each event was possible when it happened. */
  predicate Possible(c: Config, events: seq<Event>) {
    events == [] ||
    (Possible(c, events[..|events| - 1]) && Enabled(After(c, events[..|events| - 1]), events[|events| - 1]))
  }

  // ---------------------------------------------------------------- conservation, order, wake-ups

  predicate Increasing(s: seq<nat>) { forall i, j | 0 <= i < j < |s| :: s[i] < s[j] }

  /** Every input frame is in exactly one place. */
  ghost predicate Accounted(h: History) {
    && |h.guard.buffer| <= |h.received|
    && h.guard.buffer == h.received[h.Head()..]
    && h.guard.stats.framesIn == |h.received|
    && h.guard.stats.framesOut == |h.delivered|
    && h.guard.stats.framesDropped == |h.dropped|
    && |h.received| == |h.delivered| + |h.dropped| + |h.guard.buffer|
    && (forall k: nat :: (k in h.delivered || k in h.dropped) <==> k < h.Head())
    && (forall k: nat :: !(k in h.delivered && k in h.dropped))
  }

  ghost predicate InOrder(h: History) {
    Increasing(h.delivered) && Increasing(h.dropped)
  }

  /** A consumer parked on a clear event has nothing to wake for; one that returned left nothing behind. */
  predicate NoLostWakeUp(g: GuardState) {
    && (g.consumer.Waiting? && !g.arrived ==> g.buffer == [] && !g.closed)
    && (g.consumer.Finished? ==> g.closed && g.buffer == [])
  }

  function End(f: AudioFrame): real { f.tAudio + f.duration }

  ghost predicate Inv(h: History) {
    && Accounted(h) && InOrder(h) && NoLostWakeUp(h.guard)
    && (h.received != [] ==> h.guard.newestAudio == End(h.received[|h.received| - 1]))
  }

  /** Shedding keeps a suffix, and never the empty one. */
  lemma {:induction false} ShedKeepsSuffix(buffer: seq<AudioFrame>, newest: real, recoverTo: real)
    ensures var kept := ShedDown(buffer, newest, recoverTo).kept;
            kept == buffer[|buffer| - |kept|..] && (buffer != [] ==> kept != [])
    decreases |buffer|
  {
    if |buffer| > 1 && Lag(buffer, newest) > recoverTo {
      ShedKeepsSuffix(buffer[1..], newest, recoverTo);
    }
  }

  lemma {:induction false} RangeMembers(lo: nat, hi: nat)
    requires lo <= hi
    ensures |Range(lo, hi)| == hi - lo && Increasing(Range(lo, hi))
    ensures forall k: nat :: k in Range(lo, hi) <==> lo <= k < hi
  {
    forall k: nat | lo <= k < hi
      ensures k in Range(lo, hi)
    {
      assert Range(lo, hi)[k - lo] == k;
    }
  }

  lemma {:induction false} IncreasingAppend(s: seq<nat>, t: seq<nat>, head: nat)
    requires Increasing(s) && Increasing(t)
    requires forall k | k in s :: k < head
    requires forall k | k in t :: head <= k
    ensures Increasing(s + t)
  {
    forall i, j | 0 <= i < j < |s + t|
      ensures (s + t)[i] < (s + t)[j]
    {
      if i < |s| { assert (s + t)[i] in s; }
      if |s| <= j { assert (s + t)[j] in t; }
    }
  }

  lemma {:induction false} PushKeepsInv(c: Config, h: History, f: AudioFrame)
    requires Inv(h) && !h.guard.closed
    ensures Inv(Step(c, h, Push(f)))
    ensures h.Head() <= Step(c, h, Push(f)).Head()
  {
    var next := Step(c, h, Push(f));
    var buffer, newest := h.guard.buffer + [f], End(f);
    ShedKeepsSuffix(buffer, newest, c.recoverTo);
    assert buffer == next.received[h.Head()..];
    assert next.guard.buffer == next.received[next.Head()..];
    RangeMembers(h.Head(), next.Head());
    IncreasingAppend(h.dropped, Range(h.Head(), next.Head()), h.Head());
  }

  lemma {:induction false} ResumeKeepsInv(c: Config, h: History)
    requires Inv(h) && CanResume(h.guard)
    ensures Inv(Step(c, h, Resume))
  {
    if h.guard.buffer != [] {
      IncreasingAppend(h.delivered, [h.Head()], h.Head());
    }
  }

  /** In every interleaving: the buffer is the unconsumed end of the input, frames in equal frames out
      plus dropped plus buffered, what came out came out in input order, and no wake-up is lost: with a
      frame to deliver or an end to report, the consumer is able to run. */
  lemma {:induction false} EveryInterleavingKeepsInv(c: Config, events: seq<Event>)
    requires Possible(c, events)
    ensures Inv(After(c, events))
    ensures var g := After(c, events).guard;
            !g.consumer.Finished? && (g.buffer != [] || g.closed) ==> CanResume(g)
  {
    if events != [] {
      var before, e := events[..|events| - 1], events[|events| - 1];
      EveryInterleavingKeepsInv(c, before);
      StepKeepsInv(c, After(c, before), e);
    }
  }

  lemma {:induction false} StepKeepsInv(c: Config, h: History, e: Event)
    requires Inv(h) && Enabled(h, e)
    ensures Inv(Step(c, h, e))
  {
    match e
    case Push(f) => PushKeepsInv(c, h, f);
    case Close =>
    case Resume => ResumeKeepsInv(c, h);
  }

  /** `drain` returned: every input frame was delivered or counted as dropped, and none both. */
  lemma {:induction false} DrainReturnsOnlyWhenAllDelivered(c: Config, events: seq<Event>)
    requires Possible(c, events) && After(c, events).guard.consumer.Finished?
    ensures var h := After(c, events);
            && |h.received| == |h.delivered| + |h.dropped|
            && forall k: nat | k < |h.received| :: k in h.delivered <==> k !in h.dropped
  {
    EveryInterleavingKeepsInv(c, events);
    var h := After(c, events);
    assert h.Head() == |h.received|;
  }

  function Resumes(n: nat): seq<Event> { seq(n, _ => Resume) }

  lemma {:induction false} OneMoreResume(c: Config, events: seq<Event>, more: seq<Event>)
    requires Possible(c, events) && more == events + [Resume]
    requires After(c, events).guard.closed && !After(c, events).guard.consumer.Finished?
    ensures Possible(c, more) && Delivers(After(c, events), After(c, more))
  {
    EveryInterleavingKeepsInv(c, events);
    assert more[..|more| - 1] == events;
  }

  /** What one resumption of a closed guard's consumer does: deliver the oldest frame, or end the drain. */
  predicate Delivers(h: History, h': History) {
    && h.Head() <= |h.received| == |h'.received|
    && |h.guard.buffer| == |h.received| - h.Head()
    && (h.guard.buffer == [] ==> h'.guard.consumer.Finished? && h'.delivered == h.delivered)
    && (h.guard.buffer != [] ==>
          && h'.guard.closed && !h'.guard.consumer.Finished? && |h'.guard.buffer| == |h.guard.buffer| - 1
          && h'.delivered == h.delivered + [h.Head()] && h'.Head() == h.Head() + 1)
  }

  lemma {:induction false} RangeFrom(prefix: seq<nat>, lo: nat, hi: nat)
    ensures lo < hi ==> prefix + [lo] + Range(lo + 1, hi) == prefix + Range(lo, hi)
    ensures lo == hi ==> prefix + Range(lo, hi) == prefix
  {
  }

  /** Once closed, resuming the consumer once per buffered frame and once more delivers the whole
      buffer, in order, and ends the drain. */
  lemma {:induction false} ClosedGuardDrains(c: Config, events: seq<Event>, done: seq<Event>)
    requires Possible(c, events)
    requires After(c, events).guard.closed && !After(c, events).guard.consumer.Finished?
    requires done == events + Resumes(|After(c, events).guard.buffer| + 1)
    ensures Possible(c, done) && After(c, done).guard.consumer.Finished?
    ensures var h := After(c, events);
            After(c, done).delivered == h.delivered + Range(h.Head(), |h.received|)
  {
    DrainsIn(c, events, |After(c, events).guard.buffer|, done);
  }

  lemma {:induction false} DrainsIn(c: Config, events: seq<Event>, n: nat, done: seq<Event>)
    requires Possible(c, events) && n == |After(c, events).guard.buffer|
    requires After(c, events).guard.closed && !After(c, events).guard.consumer.Finished?
    requires done == events + Resumes(n + 1)
    ensures Possible(c, done) && After(c, done).guard.consumer.Finished?
    ensures var h := After(c, events);
            After(c, done).delivered == h.delivered + Range(h.Head(), |h.received|)
    decreases n
  {
    var h, more := After(c, events), events + [Resume];
    OneMoreResume(c, events, more);
    ResumesSplit(events, n);
    RangeFrom(h.delivered, h.Head(), |h.received|);
    if n > 0 {
      DrainsIn(c, more, n - 1, done);
    } else {
      assert done == more;
    }
  }

  lemma {:induction false} ResumesSplit(events: seq<Event>, n: nat)
    ensures events + [Resume] + Resumes(n) == events + Resumes(n + 1)
    ensures events + [Resume] + Resumes(0) == events + [Resume]
  {
  }

  // ---------------------------------------------------------------- lag

  /** Each frame starts where the one before it ended, as `source_frames` produces them. */
  predicate Contiguous(frames: seq<AudioFrame>) {
    forall i | 0 <= i < |frames| - 1 :: frames[i + 1].tAudio == End(frames[i])
  }

  predicate NoLongerThan(frames: seq<AudioFrame>, d: real) {
    forall f | f in frames :: f.duration <= d
  }

  /** Seconds of audio in a run of frames. */
  function Total(frames: seq<AudioFrame>): (t: real)
    ensures t >= 0.0
  {
    if frames == [] then 0.0 else frames[0].duration + Total(frames[1..])
  }

  lemma {:induction false} TotalAppend(frames: seq<AudioFrame>, f: AudioFrame)
    ensures Total(frames + [f]) == Total(frames) + f.duration
  {
    if frames == [] {
      assert [] + [f] == [f];
    } else {
      assert (frames + [f])[1..] == frames[1..] + [f];
      TotalAppend(frames[1..], f);
    }
  }

  /** For contiguous frames the lag is the audio buffered. */
  lemma {:induction false} LagIsTotal(buffer: seq<AudioFrame>)
    requires buffer != [] && Contiguous(buffer)
    ensures End(buffer[|buffer| - 1]) - buffer[0].tAudio == Total(buffer)
    ensures Lag(buffer, End(buffer[|buffer| - 1])) == Total(buffer)
  {
    if |buffer| > 1 {
      assert buffer[1].tAudio == End(buffer[0]);
      forall i | 0 <= i < |buffer[1..]| - 1
        ensures buffer[1..][i + 1].tAudio == End(buffer[1..][i])
      {
        assert buffer[i + 1 + 1].tAudio == End(buffer[i + 1]);
      }
      LagIsTotal(buffer[1..]);
    } else {
      assert buffer[1..] == [];
    }
  }

  lemma {:induction false} ContiguousSuffix(frames: seq<AudioFrame>, k: nat)
    requires Contiguous(frames) && k <= |frames|
    ensures Contiguous(frames[k..])
  {
    forall i | 0 <= i < |frames[k..]| - 1
      ensures frames[k..][i + 1].tAudio == End(frames[k..][i])
    {
      assert frames[k + i + 1].tAudio == End(frames[k + i]);
    }
  }

  /** How far a shed goes: no frame more and no frame less than needed to reach the target. */
  lemma {:induction false} ShedReachesTarget(buffer: seq<AudioFrame>, recoverTo: real)
    requires buffer != [] && Contiguous(buffer)
    ensures var last := buffer[|buffer| - 1];
            var shed := ShedDown(buffer, End(last), recoverTo);
            && shed.kept != [] && shed.kept[|shed.kept| - 1] == last && Contiguous(shed.kept)
            && shed.kept == buffer[|buffer| - |shed.kept|..]
            && shed.seconds == Total(buffer) - Total(shed.kept)
            && (Total(shed.kept) <= recoverTo || |shed.kept| == 1)
            && (|shed.kept| < |buffer| ==>
                  Total(shed.kept) > recoverTo - buffer[|buffer| - |shed.kept| - 1].duration)
    decreases |buffer|
  {
    LagIsTotal(buffer);
    if |buffer| > 1 && Total(buffer) > recoverTo {
      ContiguousSuffix(buffer, 1);
      ShedReachesTarget(buffer[1..], recoverTo);
    }
  }

  /** What is kept of a contiguous buffer whose newest frame has just arrived. */
  lemma {:induction false} ShedBoundsLag(c: Config, buffer: seq<AudioFrame>)
    requires c.Valid() && buffer != [] && Contiguous(buffer)
    ensures var f := buffer[|buffer| - 1];
            var shed := ShedIfBehind(c, buffer, End(f));
            var lag' := Total(shed.kept);
            && Lag(shed.kept, End(f)) == lag'
            && shed.seconds == Total(buffer) - lag'
            && (lag' < c.maxLag <==> f.duration < c.maxLag)
            && (|shed.kept| < |buffer| <==> |buffer| > 1 && Total(buffer) >= c.maxLag)
            && (|shed.kept| < |buffer| ==>
                  && (lag' <= c.recoverTo <==> f.duration <= c.recoverTo)
                  && lag' > c.recoverTo - buffer[|buffer| - |shed.kept| - 1].duration)
  {
    LagIsTotal(buffer);
    LastBoundsTotal(buffer);
    if Total(buffer) >= c.maxLag {
      ShedReachesTarget(buffer, c.recoverTo);
      var kept := ShedDown(buffer, End(buffer[|buffer| - 1]), c.recoverTo).kept;
      LagIsTotal(kept);
      LastBoundsTotal(kept);
    }
  }

  /** What a push does to the lag when its input is contiguous. `max_lag_s` bounds the lag exactly when
      the pushed frame alone does not reach it, and a shed lands at or below `recover_to_s` exactly when
      the newest frame, which is never dropped, fits. */
  lemma {:induction false} PushBoundsLag(c: Config, h: History, f: AudioFrame)
    requires c.Valid() && Inv(h)
    requires Contiguous(h.received + [f])
    ensures var g, g' := h.guard, Pushed(c, h.guard, f);
            var lag, lag' := Total(g.buffer) + f.duration, Lag(g'.buffer, g'.newestAudio);
            && lag' == Total(g'.buffer)
            && (lag' < c.maxLag <==> f.duration < c.maxLag)
            && (g'.warned <==> lag >= c.warnLag)
            && g'.stats.peakLag == Max(g.stats.peakLag, lag)
            && g'.stats.secondsDropped == g.stats.secondsDropped + (lag - lag')
            && (g'.stats.shedEvents == g.stats.shedEvents || g'.stats.shedEvents == g.stats.shedEvents + 1)
            && (g'.stats.shedEvents > g.stats.shedEvents <==> g.buffer != [] && lag >= c.maxLag)
            && (g'.stats.shedEvents > g.stats.shedEvents ==>
                  && (lag' <= c.recoverTo <==> f.duration <= c.recoverTo)
                  && |g'.buffer| <= |g.buffer|
                  && lag' > c.recoverTo - (g.buffer + [f])[|g.buffer| - |g'.buffer|].duration)
  {
    var received, buffer := h.received + [f], h.guard.buffer + [f];
    assert buffer == received[h.Head()..];
    ContiguousSuffix(received, h.Head());
    TotalAppend(h.guard.buffer, f);
    LagIsTotal(buffer);
    ShedBoundsLag(c, buffer);
  }

  lemma {:induction false} LastBoundsTotal(frames: seq<AudioFrame>)
    requires frames != []
    ensures Total(frames) >= frames[|frames| - 1].duration
    ensures |frames| == 1 ==> Total(frames) == frames[0].duration
  {
    if |frames| > 1 {
      LastBoundsTotal(frames[1..]);
    } else {
      assert frames[1..] == [];
    }
  }

  // ---------------------------------------------------------------- whole runs

  /** The lag bound, the peak, and the price of shedding, in every reachable state. */
  ghost predicate Bounded(c: Config, h: History, d: real) {
    var g := h.guard;
    && Lag(g.buffer, g.newestAudio) < c.maxLag
    && g.stats.peakLag < c.maxLag + d
    && g.stats.secondsDropped + Total(g.buffer) <= Total(h.received)
    && (d <= c.recoverTo ==> g.stats.secondsDropped >= Times(g.stats.shedEvents, c.maxLag - c.recoverTo))
  }

  lemma {:induction false} PrefixOf(frames: seq<AudioFrame>, f: AudioFrame, d: real)
    requires Contiguous(frames + [f]) && NoLongerThan(frames + [f], d)
    ensures Contiguous(frames) && NoLongerThan(frames, d) && f.duration <= d
  {
    assert f in frames + [f];
    forall i | 0 <= i < |frames| - 1
      ensures frames[i + 1].tAudio == End(frames[i])
    {
      assert (frames + [f])[i + 1].tAudio == End((frames + [f])[i]);
    }
  }

  /** In every state of a contiguous run the lag is the audio buffered. */
  lemma {:induction false} BufferIsLag(h: History)
    requires Inv(h) && Contiguous(h.received)
    ensures Lag(h.guard.buffer, h.guard.newestAudio) == Total(h.guard.buffer)
  {
    if h.guard.buffer != [] {
      ContiguousSuffix(h.received, h.Head());
      LagIsTotal(h.guard.buffer);
    }
  }

  lemma {:induction false} PushKeepsBounded(c: Config, h: History, f: AudioFrame, d: real)
    requires c.Valid() && Inv(h) && d < c.maxLag
    requires Contiguous(h.received + [f]) && NoLongerThan(h.received + [f], d)
    requires Bounded(c, h, d)
    ensures Bounded(c, Step(c, h, Push(f)), d)
  {
    PushBoundsLag(c, h, f);
    TotalAppend(h.received, f);
    PrefixOf(h.received, f, d);
    BufferIsLag(h);
  }

  /** Over every interleaving of a contiguous stream of frames no longer than `d`, itself below the
      threshold: the lag stays below `max_lag_s`, it never even momentarily reached one frame more,
      the audio dropped never exceeds the audio received and not buffered, and, when frames fit the
      recovery target, each shed event paid for at least the hysteresis gap. */
  lemma {:induction false} EveryInterleavingIsBounded(c: Config, events: seq<Event>, d: real)
    requires c.Valid() && Possible(c, events) && 0.0 <= d < c.maxLag
    requires Contiguous(After(c, events).received) && NoLongerThan(After(c, events).received, d)
    ensures Bounded(c, After(c, events), d)
  {
    if events != [] {
      var before, e := events[..|events| - 1], events[|events| - 1];
      var h := After(c, before);
      EveryInterleavingKeepsInv(c, before);
      match e
      case Push(f) =>
        PrefixOf(h.received, f, d);
        EveryInterleavingIsBounded(c, before, d);
        PushKeepsBounded(c, h, f, d);
      case Close => EveryInterleavingIsBounded(c, before, d);
      case Resume =>
        EveryInterleavingIsBounded(c, before, d);
        ResumeLowersLag(c, h);
    }
  }

  lemma {:induction false} ResumeLowersLag(c: Config, h: History)
    requires Inv(h) && CanResume(h.guard) && Contiguous(h.received)
    ensures var g := Resumed(h.guard);
            Lag(g.buffer, g.newestAudio) == Total(g.buffer) <= Total(h.guard.buffer)
    ensures Total(h.guard.buffer) == Lag(h.guard.buffer, h.guard.newestAudio)
  {
    BufferIsLag(h);
    ResumeKeepsInv(c, h);
    BufferIsLag(Step(c, h, Resume));
  }

  /** Sheds are rare: there is at most one per `max_lag_s - recover_to_s` seconds of input. */
  lemma {:induction false} ShedsAreAmortised(c: Config, events: seq<Event>, d: real)
    requires c.Valid() && Possible(c, events) && 0.0 <= d <= c.recoverTo
    requires Contiguous(After(c, events).received) && NoLongerThan(After(c, events).received, d)
    ensures var h := After(c, events);
            Times(h.guard.stats.shedEvents, c.maxLag - c.recoverTo) <= Total(h.received)
  {
    EveryInterleavingIsBounded(c, events, d);
  }

  /** For one: a single frame as long as the threshold puts the lag at the threshold, and stays. */
  lemma {:induction false} OneLongFrameReachesTheThreshold(c: Config, f: AudioFrame)
    requires c.Valid() && f.duration >= c.maxLag
    ensures var g := After(c, [Push(f)]).guard; Lag(g.buffer, g.newestAudio) >= c.maxLag
  {
    assert [Push(f)][..0] == [];
    assert After(c, [Push(f)]) == Step(c, START, Push(f));
    assert Contiguous([] + [f]);
    PushBoundsLag(c, START, f);
  }
}
