/** The adapter's `transcribe` loop over its schedule, its forgetful buffer and its word clock, proved
    against the same session run on a buffer that never forgets. */
module StreamingAdapter {
  import opened Sequences
  import opened Options
  import opened Words
  import opened Transcript
  import opened WordClocks
  import opened Schedule
  import opened Features
  import opened Transcribe

  /** The retention rule the loop keeps: nothing the next step needs is gone, and with shifts within
      chunks nothing it does not need is kept. */
  predicate Trimmed(g: StreamingGeometry, p: Position, origin: nat, total: nat) {
    && Reachable(p) && !Runnable(g, p, total)
    && origin <= RetainFrom(g, p)
    && (g.shiftFirst <= g.chunkFirst && g.shift <= g.chunk ==> p.cursor <= total && origin == RetainFrom(g, p))
  }

  /** Fewer frames than one chunk plus one pre-encode cache. */
  predicate FewHeld(g: StreamingGeometry, held: nat) {
    held < g.chunkFirst || held < g.chunk + g.cache
  }

  /** With shifts within chunks, few were held each time. */
  predicate HeldStaysFew(g: StreamingGeometry, held: seq<nat>) {
    g.shiftFirst <= g.chunkFirst && g.shift <= g.chunk ==> forall i | 0 <= i < |held| :: FewHeld(g, held[i])
  }

  lemma {:induction false} OneMoreHeld<S, F, E>(m: Model<S, F, E>, seen: seq<S>, pending: seq<S>, frames: seq<F>,
                                                p: Position, st: StreamState<E>, origin: nat, held: seq<nat>)
    requires InStep(m, seen, pending, frames, p, st, origin) && HeldStaysFew(m.geometry, held)
    ensures HeldStaysFew(m.geometry, held + [|frames| - origin])
  {
    if m.geometry.shiftFirst <= m.geometry.chunkFirst && m.geometry.shift <= m.geometry.chunk {
      TrimmedHoldsFew(m.geometry, p, origin, |frames|);
    }
  }

  lemma {:induction false} TrimmedHoldsFew(g: StreamingGeometry, p: Position, origin: nat, total: nat)
    requires Trimmed(g, p, origin, total) && origin <= total
    requires g.shiftFirst <= g.chunkFirst && g.shift <= g.chunk
    ensures FewHeld(g, total - origin)
  {
  }

  lemma {:induction false} LandingWithin(g: StreamingGeometry, p: Position, available: nat)
    requires g.Advances() && g.shiftFirst <= g.chunkFirst && g.shift <= g.chunk && p.cursor <= available
    ensures Landing(g, p, available).cursor <= available
    decreases available - p.cursor
  {
    if Runnable(g, p, available) {
      LandingWithin(g, Next(g, p), available);
    }
  }

  lemma {:induction false} LandingMoves(g: StreamingGeometry, p: Position, available: nat)
    requires g.Advances()
    ensures Plans(g, p, available) == [] <==> Landing(g, p, available) == p
    ensures p.step <= Landing(g, p, available).step
    decreases if p.cursor <= available then available - p.cursor + 1 else 0
  {
    if Runnable(g, p, available) {
      LandingMoves(g, Next(g, p), available);
    }
  }

  /** Appending, offering and trimming once keeps the retention rule. */
  lemma {:induction false} TrimmingOnce(g: StreamingGeometry, p: Position, origin: nat, total: nat, more: nat)
    requires g.Advances() && Trimmed(g, p, origin, total) && origin <= total
    ensures var total' := total + more;
            var p' := Landing(g, p, total');
            var origin' := if Plans(g, p, total') == [] then origin else DropTarget(RetainFrom(g, p'), origin, total');
            Trimmed(g, p', origin', total')
  {
    PlansStayInBounds(g, p, total + more);
    LandingMoves(g, p, total + more);
    if g.shiftFirst <= g.chunkFirst && g.shift <= g.chunk {
      LandingWithin(g, p, total + more);
    }
  }

  /** The steps before these, and the first i of these. */
  ghost function Through(done: seq<ChunkPlan>, plans: seq<ChunkPlan>, i: nat): seq<ChunkPlan>
    requires i <= |plans|
  {
    if i == 0 then done else Through(done, plans, i - 1) + [plans[i - 1]]
  }

  lemma {:induction false} ThroughSome(done: seq<ChunkPlan>, plans: seq<ChunkPlan>, i: nat)
    requires i <= |plans|
    ensures Through(done, plans, i) == done + plans[..i]
  {
    if i > 0 {
      ThroughSome(done, plans, i - 1);
      assert plans[..i] == plans[..i - 1] + [plans[i - 1]];
    }
  }

  lemma {:induction false} ThroughAll(done: seq<ChunkPlan>, plans: seq<ChunkPlan>)
    ensures Through(done, plans, |plans|) == done + plans
  {
    ThroughSome(done, plans, |plans|);
    assert plans[..|plans|] == plans;
  }

  /** Steps whose frames are all held. */
  predicate Sliceable(plans: seq<ChunkPlan>, origin: nat, total: nat) {
    forall i | 0 <= i < |plans| :: plans[i].Valid() && origin <= plans[i].cacheStart && plans[i].end <= total
  }

  class FastConformer<S, F, E> {
    const model: Model<S, F, E>
    const clock: WordClock
    var seqNo: nat

    ghost predicate Valid()
      reads this, clock
    {
      model.Usable() && clock.State().Valid()
    }

    constructor (model: Model<S, F, E>)
      requires model.Usable()
      ensures Valid() && fresh(clock) && this.model == model && seqNo == 0 && clock.State() == UNSET
    {
      this.model := model;
      clock := new WordClock();
      seqNo := 0;
    }

    /** `_hypothesis`: the next sequence number, the step's audio end, and the clock's stamps. */
    method MakeHypothesis(x: Emitted, wall: nat -> real) returns (hyp: Hypothesis)
      requires Valid()
      modifies this, clock
      ensures Valid() && seqNo == old(seqNo) + 1
      ensures clock.State() == Stamped(old(clock.State()), Tokenise(x.text), AudioTime(x.plan.end))
      ensures hyp == HypothesisOf(x, seqNo, wall, clock.State())
    {
      seqNo := seqNo + 1;
      var audioEnd := AudioTime(x.plan.end);
      var words := clock.Stamp(x.text, audioEnd);
      hyp := Hypothesis(x.text, x.isFinal, 0.0, audioEnd, wall(seqNo), seqNo, Some(words));
    }

    /** `_run_step`: slice, pad, encode. The slice never fails: `r` is what the never-forgetting buffer gives. */
    method RunStep(st: StreamState<E>, buffer: FeatureBuffer<F>, plan: ChunkPlan, keepAll: bool)
      returns (r: StreamState<E>)
      requires buffer.Valid() && plan.Valid() && buffer.frames.Some?
      requires buffer.window.origin <= plan.cacheStart && plan.end <= |buffer.everything|
      ensures r == Encoded(model, buffer.everything, st, plan, keepAll)
    {
      var sliced := buffer.Slice(plan.cacheStart, plan.end);
      var chunk := sliced.value;
      if plan.zeroPad > 0 {
        chunk := seq(plan.zeroPad, _ => model.zero) + chunk;
      }
      assert chunk == Input(model, buffer.everything, plan);
      var (encoder, text) := model.encode(st.encoder, chunk, plan.dropExtra, keepAll);
      r := st.(encoder := encoder, text := text, lastPlan := Some(plan));
    }

    /** The inner `while`: every full block is featurised and appended. */
    method CutBlocks(waiting: seq<S>, buffer: FeatureBuffer<F>) returns (pending: seq<S>)
      requires Valid() && buffer.Valid() && {buffer, buffer.window} !! {this, clock}
      modifies buffer, buffer.window
      ensures buffer.Valid() && pending == Rest(waiting, model.samplesPerBlock)
      ensures buffer.everything == old(buffer.everything) + Arrived(model, waiting)
      ensures buffer.window.origin == old(buffer.window.origin)
    {
      pending := waiting;
      var n := model.samplesPerBlock;
      while |pending| >= n
        invariant buffer.Valid() && buffer.window.origin == old(buffer.window.origin)
        invariant buffer.everything + Arrived(model, pending) == old(buffer.everything) + Arrived(model, waiting)
        invariant Rest(pending, n) == Rest(waiting, n)
        decreases |pending|
      {
        var block := pending[..n];
        assert Arrived(model, pending) == model.featurise(block) + Arrived(model, pending[n..]) by {
          assert Blocks(pending, n)[1..] == Blocks(pending[n..], n);
        }
        pending := pending[n..];
        buffer.Append(model.featurise(block));
      }
    }

    /** The hypotheses yielded so far are the emitted texts, numbered, dated and stamped. */
    ghost predicate Yielded(c: ClockState, seqNo0: nat, wall: nat -> real, emitted: seq<Emitted>, hyps: seq<Hypothesis>)
      requires c.Valid()
      reads this, clock
    {
      && hyps == Hypotheses(c, seqNo0, wall, emitted)
      && clock.State() == Stamps(c, emitted) && seqNo == seqNo0 + |emitted|
    }

    /** Yield one more text. */
    method Yield(x: Emitted, wall: nat -> real, hyps: seq<Hypothesis>,
                 ghost c: ClockState, ghost seqNo0: nat, ghost emitted: seq<Emitted>)
      returns (r: seq<Hypothesis>)
      requires Valid() && c.Valid() && Yielded(c, seqNo0, wall, emitted, hyps)
      modifies this, clock
      ensures Valid() && Yielded(c, seqNo0, wall, emitted + [x], r)
    {
      HypothesesAppend(c, seqNo0, wall, emitted, x);
      var hyp := MakeHypothesis(x, wall);
      r := hyps + [hyp];
    }

    /** The body of the `for plan in plans` loop: run the step and yield its text when it is new. */
    method RunPlan(st: StreamState<E>, buffer: FeatureBuffer<F>, plan: ChunkPlan, wall: nat -> real,
                   hyps: seq<Hypothesis>, ghost done: seq<ChunkPlan>, ghost c: ClockState, ghost seqNo0: nat)
      returns (r: StreamState<E>, hyps': seq<Hypothesis>)
      requires Valid() && buffer.Valid() && buffer.frames.Some?
      requires Within(done, |buffer.everything|) && st == SteppedAll(model, buffer.everything, done)
      requires plan.Valid() && buffer.window.origin <= plan.cacheStart && plan.end <= |buffer.everything|
      requires c.Valid() && Yielded(c, seqNo0, wall, st.emitted, hyps)
      modifies this, clock
      ensures Valid() && Within(done + [plan], |buffer.everything|)
      ensures r == SteppedAll(model, buffer.everything, done + [plan])
      ensures Yielded(c, seqNo0, wall, r.emitted, hyps')
    {
      SteppedOnce(model, buffer.everything, done, plan);
      hyps' := hyps;
      r := RunStep(st, buffer, plan, false);
      if r.text != "" && r.text != r.lastEmitted {
        var x := Emitted(r.text, plan, false);
        hyps' := Yield(x, wall, hyps, c, seqNo0, r.emitted);
        r := r.(lastEmitted := r.text, emitted := r.emitted + [x]);
      }
    }

    /** The `for plan in plans` loop. */
    method RunPlans(st: StreamState<E>, buffer: FeatureBuffer<F>, plans: seq<ChunkPlan>, wall: nat -> real,
                    hyps: seq<Hypothesis>, ghost done: seq<ChunkPlan>, ghost c: ClockState, ghost seqNo0: nat)
      returns (r: StreamState<E>, hyps': seq<Hypothesis>)
      requires Valid() && buffer.Valid() && {buffer, buffer.window} !! {this, clock}
      requires plans != [] ==> buffer.frames.Some?
      requires Sliceable(plans, buffer.window.origin, |buffer.everything|)
      requires Within(done, |buffer.everything|) && st == SteppedAll(model, buffer.everything, done)
      requires c.Valid() && Yielded(c, seqNo0, wall, st.emitted, hyps)
      modifies this, clock
      ensures Valid() && Within(done + plans, |buffer.everything|)
      ensures r == SteppedAll(model, buffer.everything, done + plans)
      ensures Yielded(c, seqNo0, wall, r.emitted, hyps')
    {
      r, hyps' := st, hyps;
      ghost var steps := done;
      for i := 0 to |plans|
        invariant Valid() && steps == Through(done, plans, i)
        invariant Within(steps, |buffer.everything|) && r == SteppedAll(model, buffer.everything, steps)
        invariant Yielded(c, seqNo0, wall, r.emitted, hyps')
      {
        r, hyps' := RunPlan(r, buffer, plans[i], wall, hyps', steps, c, seqNo0);
        steps := steps + [plans[i]];
      }
      ThroughAll(done, plans);
    }

    /** One round of the `async for`: take a portion of audio, featurise its full blocks, run the steps that
        became runnable, and drop what is no longer needed once the whole batch is done. */
    method Deliver(samples: seq<S>, waiting: seq<S>, st: StreamState<E>, buffer: FeatureBuffer<F>,
                   schedule: ChunkSchedule, wall: nat -> real, hyps: seq<Hypothesis>,
                   ghost seen: seq<S>, ghost c: ClockState, ghost seqNo0: nat)
      returns (pending: seq<S>, r: StreamState<E>, hyps': seq<Hypothesis>)
      requires Valid() && {buffer, buffer.window, schedule} !! {this, clock}
      requires buffer.Valid() && schedule.geometry == model.geometry
      requires InStep(model, seen, waiting, buffer.everything, schedule.At(), st, buffer.window.origin)
      requires c.Valid() && Yielded(c, seqNo0, wall, st.emitted, hyps)
      modifies this, clock, buffer, buffer.window, schedule
      ensures Valid() && buffer.Valid()
      ensures InStep(model, seen + samples, pending, buffer.everything, schedule.At(), r, buffer.window.origin)
      ensures Yielded(c, seqNo0, wall, r.emitted, hyps')
    {
      ghost var frames, from, origin := buffer.everything, schedule.At(), buffer.window.origin;
      ghost var done := Plans(model.geometry, ORIGIN, |frames|);
      BeforeBatch(model, seen, waiting, frames, from, st, origin, samples);
      var plans;
      pending, plans, r, hyps' := RunBatch(waiting + samples, st, buffer, schedule, wall, hyps, done, c, seqNo0);
      Trim(plans, buffer, schedule.Retain());
      AfterBatch(model, seen, waiting, frames, from, st, origin, samples, pending, buffer.everything, schedule.At(), r,
                 buffer.window.origin);
    }

    /** Featurise the full blocks, offer what has arrived, and run the steps that became runnable, `done` having
        run before. */
    method RunBatch(samples: seq<S>, st: StreamState<E>, buffer: FeatureBuffer<F>, schedule: ChunkSchedule,
                    wall: nat -> real, hyps: seq<Hypothesis>,
                    ghost done: seq<ChunkPlan>, ghost c: ClockState, ghost seqNo0: nat)
      returns (pending: seq<S>, plans: seq<ChunkPlan>, r: StreamState<E>, hyps': seq<Hypothesis>)
      requires Valid() && {buffer, buffer.window, schedule} !! {this, clock}
      requires buffer.Valid() && schedule.geometry == model.geometry
      requires var frames := buffer.everything + Arrived(model, samples);
               var ready := Plans(model.geometry, schedule.At(), |frames|);
               && Sliceable(ready, buffer.window.origin, |frames|) && (ready != [] ==> |frames| > 0)
               && Within(done, |frames|) && st == SteppedAll(model, frames, done)
      requires c.Valid() && Yielded(c, seqNo0, wall, st.emitted, hyps)
      modifies this, clock, buffer, buffer.window, schedule
      ensures Valid() && buffer.Valid() && buffer.window.origin == old(buffer.window.origin)
      ensures buffer.everything == old(buffer.everything) + Arrived(model, samples)
      ensures pending == Rest(samples, model.samplesPerBlock)
      ensures plans == Plans(model.geometry, old(schedule.At()), |buffer.everything|)
      ensures schedule.At() == Landing(model.geometry, old(schedule.At()), |buffer.everything|)
      ensures Within(done + plans, |buffer.everything|) && r == SteppedAll(model, buffer.everything, done + plans)
      ensures Yielded(c, seqNo0, wall, r.emitted, hyps')
    {
      pending := CutBlocks(samples, buffer);
      plans := schedule.Offer(buffer.Available());
      r, hyps' := RunPlans(st, buffer, plans, wall, hyps, done, c, seqNo0);
    }

    /** Once a batch has run, drop what the next step cannot need. */
    method Trim(plans: seq<ChunkPlan>, buffer: FeatureBuffer<F>, retain: nat)
      requires buffer.Valid()
      modifies buffer, buffer.window
      ensures buffer.Valid() && buffer.everything == old(buffer.everything)
      ensures buffer.window.origin == if plans == [] then old(buffer.window.origin)
                                      else DropTarget(retain, old(buffer.window.origin), |buffer.everything|)
    {
      if plans != [] {
        buffer.DiscardBefore(retain);
      }
    }

    /** The end of the stream: the last short block, the flush, and the final hypothesis. */
    method EndOfStream(pending: seq<S>, st: StreamState<E>, buffer: FeatureBuffer<F>, schedule: ChunkSchedule,
                       wall: nat -> real, hyps: seq<Hypothesis>,
                       ghost seen: seq<S>, ghost c: ClockState, ghost seqNo0: nat)
      returns (hyps': seq<Hypothesis>)
      requires Valid() && {buffer, buffer.window, schedule} !! {this, clock}
      requires buffer.Valid() && schedule.geometry == model.geometry
      requires InStep(model, seen, pending, buffer.everything, schedule.At(), st, buffer.window.origin)
      requires c.Valid() && Yielded(c, seqNo0, wall, st.emitted, hyps)
      modifies this, clock, buffer, buffer.window, schedule
      ensures Valid() && Yielded(c, seqNo0, wall, Texts(model, seen), hyps')
    {
      EndMatches(model, seen, pending, buffer.everything, schedule.At(), st, buffer.window.origin);
      if pending != [] {
        buffer.Append(model.featurise(pending));
      }
      var flush := schedule.FlushRest(buffer.Available());
      var last := st;
      if flush.Some? {
        last := RunStep(st, buffer, flush.value, true);
      }
      hyps' := YieldFinal(last, wall, hyps, c, seqNo0);
    }

    /** The final hypothesis, if the session ended with a text. */
    method YieldFinal(last: StreamState<E>, wall: nat -> real, hyps: seq<Hypothesis>,
                      ghost c: ClockState, ghost seqNo0: nat)
      returns (r: seq<Hypothesis>)
      requires Valid() && c.Valid() && Yielded(c, seqNo0, wall, last.emitted, hyps)
      modifies this, clock
      ensures Valid() && Yielded(c, seqNo0, wall, WithFinal(last).emitted, r)
    {
      r := hyps;
      if last.text != "" && last.lastPlan.Some? {
        r := Yield(Emitted(last.text, last.lastPlan.value, true), wall, hyps, c, seqNo0, last.emitted);
      }
    }

    /** `transcribe`. The hypotheses depend only on the samples, in whatever portions they come; and when
        shifts stay within chunks, fewer frames than a chunk and a cache are held after every portion. */
    method Transcribe(inputs: seq<seq<S>>, wall: nat -> real)
      returns (hyps: seq<Hypothesis>, ghost held: seq<nat>)
      requires Valid()
      modifies this, clock
      ensures Valid()
      ensures hyps == Hypotheses(old(clock.State()), old(seqNo), wall, Texts(model, Flatten(inputs)))
      ensures clock.State() == Stamps(old(clock.State()), Texts(model, Flatten(inputs)))
      ensures seqNo == old(seqNo) + |hyps|
      ensures |held| == |inputs|
      ensures HeldStaysFew(model.geometry, held)
    {
      var buffer := new FeatureBuffer<F>();
      var schedule := new ChunkSchedule(model.geometry);
      ghost var c, seqNo0 := clock.State(), seqNo;
      var pending, st;
      pending, st, hyps, held := DeliverAll(inputs, buffer, schedule, wall, c, seqNo0);
      hyps := EndOfStream(pending, st, buffer, schedule, wall, hyps, Flatten(inputs), c, seqNo0);
    }

    /** The `async for` over the portions of audio, from a new buffer and schedule. */
    method DeliverAll(inputs: seq<seq<S>>, buffer: FeatureBuffer<F>, schedule: ChunkSchedule, wall: nat -> real,
                      ghost c: ClockState, ghost seqNo0: nat)
      returns (pending: seq<S>, st: StreamState<E>, hyps: seq<Hypothesis>, ghost held: seq<nat>)
      requires Valid() && {buffer, buffer.window, schedule} !! {this, clock}
      requires buffer.Valid() && buffer.everything == [] && buffer.window.origin == 0
      requires schedule.geometry == model.geometry && schedule.At() == ORIGIN
      requires c.Valid() && clock.State() == c && seqNo == seqNo0
      modifies this, clock, buffer, buffer.window, schedule
      ensures Valid() && buffer.Valid()
      ensures InStep(model, Flatten(inputs), pending, buffer.everything, schedule.At(), st, buffer.window.origin)
      ensures Yielded(c, seqNo0, wall, st.emitted, hyps)
      ensures |held| == |inputs| && HeldStaysFew(model.geometry, held)
    {
      st, pending, hyps, held := Start(model), [], [], [];
      ghost var seen: seq<S> := [];
      StartsInStep(model);
      for i := 0 to |inputs|
        invariant Valid() && buffer.Valid()
        invariant seen == Flatten(inputs[..i]) && |held| == i
        invariant InStep(model, seen, pending, buffer.everything, schedule.At(), st, buffer.window.origin)
        invariant Yielded(c, seqNo0, wall, st.emitted, hyps)
        invariant HeldStaysFew(model.geometry, held)
      {
        pending, st, hyps := Deliver(inputs[i], pending, st, buffer, schedule, wall, hyps, seen, c, seqNo0);
        FlattenOneMore(inputs, i);
        seen := seen + inputs[i];
        OneMoreHeld(model, seen, pending, buffer.everything, schedule.At(), st, buffer.window.origin, held);
        held := held + [|buffer.everything| - buffer.window.origin];
      }
      assert inputs[..|inputs|] == inputs;
    }
  }

  /** The frames are those of the full blocks in what was seen. */
  ghost predicate FramesInStep<S, F, E>(m: Model<S, F, E>, seen: seq<S>, pending: seq<S>, frames: seq<F>) {
    m.Usable() && pending == Rest(seen, m.samplesPerBlock) && frames == Arrived(m, seen)
  }

  /** The schedule and the encoder stand where they would with a buffer that never forgets. */
  ghost predicate StepsInStep<S, F, E>(m: Model<S, F, E>, frames: seq<F>, p: Position, st: StreamState<E>) {
    && m.Usable()
    && p == Landing(m.geometry, ORIGIN, |frames|)
    && Within(Plans(m.geometry, ORIGIN, |frames|), |frames|)
    && st == SteppedAll(m, frames, Plans(m.geometry, ORIGIN, |frames|))
  }

  /** What holds between two portions of audio, `seen` having arrived: frames, schedule and encoder are in step
      with a buffer that never forgets, and the frames from `origin` on are still held. */
  ghost predicate InStep<S, F, E>(m: Model<S, F, E>, seen: seq<S>, pending: seq<S>, frames: seq<F>, p: Position,
                                  st: StreamState<E>, origin: nat)
  {
    && FramesInStep(m, seen, pending, frames) && StepsInStep(m, frames, p, st)
    && origin <= |frames| && Trimmed(m.geometry, p, origin, |frames|)
  }

  lemma {:induction false} StartsInStep<S, F, E>(m: Model<S, F, E>)
    requires m.Usable()
    ensures InStep(m, [], [], [], ORIGIN, Start(m), 0)
  {
  }

  lemma {:induction false} FlattenOneMore<T>(ss: seq<seq<T>>, i: nat)
    requires i < |ss|
    ensures Flatten(ss[..i + 1]) == Flatten(ss[..i]) + ss[i]
  {
    FlattenAppend(ss[..i], [ss[i]]);
    assert ss[..i + 1] == ss[..i] + [ss[i]];
    assert Flatten([ss[i]]) == ss[i] + Flatten([ss[i]][1..]) == ss[i];
  }

  /** The flush finds its frames, and finishing from here is finishing the never-forgetting session. */
  lemma {:induction false} EndMatches<S, F, E>(m: Model<S, F, E>, seen: seq<S>, pending: seq<S>, frames: seq<F>,
                                               p: Position, st: StreamState<E>, origin: nat)
    requires InStep(m, seen, pending, frames, p, st, origin)
    ensures var all := if pending == [] then frames else frames + m.featurise(pending);
            var flush := Flush(m.geometry, p, |all|);
            && (flush.Some? ==>
                  && |all| > 0 && flush.value.Valid()
                  && origin <= flush.value.cacheStart && flush.value.end <= |all|)
            && Texts(m, seen) == Finish(m, all, st, flush).emitted
  {
  }

  /** The steps that a portion of audio makes runnable find every frame they ask for, and the steps before
      them would have gone the same way with those frames already there. */
  lemma {:induction false} BeforeBatch<S, F, E>(m: Model<S, F, E>, seen: seq<S>, waiting: seq<S>, frames: seq<F>,
                                                p: Position, st: StreamState<E>, origin: nat, samples: seq<S>)
    requires InStep(m, seen, waiting, frames, p, st, origin)
    ensures var g, more := m.geometry, Arrived(m, waiting + samples);
            var total, done := |frames + more|, Plans(g, ORIGIN, |frames|);
            && Sliceable(Plans(g, p, total), origin, total)
            && (Plans(g, p, total) != [] ==> total > 0)
            && Within(done, total) && st == SteppedAll(m, frames + more, done)
  {
    var g, more := m.geometry, Arrived(m, waiting + samples);
    LaterFramesDoNotMatter(m, frames, more, Plans(g, ORIGIN, |frames|));
    PlansFit(g, p, origin, |frames + more|);
  }

  /** After the batch, and the trimming that follows it, everything stands in step again. */
  lemma {:induction false} AfterBatch<S, F, E>(m: Model<S, F, E>, seen: seq<S>, waiting: seq<S>, frames: seq<F>,
                                               p: Position, st: StreamState<E>, origin: nat, samples: seq<S>,
                                               pending': seq<S>, frames': seq<F>, p': Position, r: StreamState<E>,
                                               origin': nat)
    requires InStep(m, seen, waiting, frames, p, st, origin)
    requires pending' == Rest(waiting + samples, m.samplesPerBlock)
    requires frames' == frames + Arrived(m, waiting + samples)
    requires var steps := Plans(m.geometry, ORIGIN, |frames|) + Plans(m.geometry, p, |frames'|);
             Within(steps, |frames'|) && r == SteppedAll(m, frames', steps)
    requires p' == Landing(m.geometry, p, |frames'|)
    requires origin' == if Plans(m.geometry, p, |frames'|) == [] then origin
                        else DropTarget(RetainFrom(m.geometry, p'), origin, |frames'|)
    ensures InStep(m, seen + samples, pending', frames', p', r, origin')
  {
    FramesStayInStep(m, seen, waiting, frames, samples);
    StepsStayInStep(m, frames, p, st, Arrived(m, waiting + samples), r);
    TrimmingOnce(m.geometry, p, origin, |frames|, |Arrived(m, waiting + samples)|);
  }

  lemma {:induction false} FramesStayInStep<S, F, E>(m: Model<S, F, E>, seen: seq<S>, waiting: seq<S>, frames: seq<F>,
                                                     samples: seq<S>)
    requires FramesInStep(m, seen, waiting, frames)
    ensures FramesInStep(m, seen + samples, Rest(waiting + samples, m.samplesPerBlock),
                         frames + Arrived(m, waiting + samples))
  {
    ArrivedComposes(m, seen, samples);
  }

  lemma {:induction false} StepsStayInStep<S, F, E>(m: Model<S, F, E>, frames: seq<F>, p: Position, st: StreamState<E>,
                                                    more: seq<F>, r: StreamState<E>)
    requires StepsInStep(m, frames, p, st)
    requires var steps := Plans(m.geometry, ORIGIN, |frames|) + Plans(m.geometry, p, |frames + more|);
             Within(steps, |frames + more|) && r == SteppedAll(m, frames + more, steps)
    ensures StepsInStep(m, frames + more, Landing(m.geometry, p, |frames + more|), r)
  {
    OfferSplits(m.geometry, ORIGIN, |frames|, |frames + more|);
  }

  lemma {:induction false} ArrivedComposes<S, F, E>(m: Model<S, F, E>, seen: seq<S>, samples: seq<S>)
    requires m.Usable()
    ensures var waiting := Rest(seen, m.samplesPerBlock);
            && Arrived(m, seen + samples) == Arrived(m, seen) + Arrived(m, waiting + samples)
            && Rest(seen + samples, m.samplesPerBlock) == Rest(waiting + samples, m.samplesPerBlock)
  {
    var n := m.samplesPerBlock;
    CuttingComposes(seen, samples, n);
    FeaturisedAppend(m.featurise, Blocks(seen, n), Blocks(Rest(seen, n) + samples, n));
  }

  /** No step asks for a frame that was discarded or has not arrived. */
  lemma {:induction false} PlansFit(g: StreamingGeometry, p: Position, origin: nat, total: nat)
    requires g.Advances() && g.chunkFirst >= 1 && Reachable(p) && origin <= RetainFrom(g, p)
    ensures Sliceable(Plans(g, p, total), origin, total)
    ensures Plans(g, p, total) != [] ==> total > 0
  {
    PlansStayInBounds(g, p, total);
    var plans := Plans(g, p, total);
    assert forall i | 0 <= i < |plans| :: plans[i] in plans;
  }

  lemma {:induction false} SteppedOnce<S, F, E>(m: Model<S, F, E>, frames: seq<F>, plans: seq<ChunkPlan>,
                                                plan: ChunkPlan)
    requires Within(plans, |frames|) && plan.cacheStart <= plan.end <= |frames|
    ensures Within(plans + [plan], |frames|)
    ensures SteppedAll(m, frames, plans + [plan]) == Stepped(m, frames, SteppedAll(m, frames, plans), plan)
  {
    assert (plans + [plan])[..|plans|] == plans;
  }
}
