/** The streaming loop: from resampled audio, in whatever portions it arrives, to hypotheses. */
module Transcribe {
  import opened Sequences
  import opened Options
  import opened Words
  import opened Transcript
  import opened WordClocks
  import opened Schedule

  /** The neural parts, as functions: featurise a block of samples, and one encoder step from carried
      state, input frames, outputs to drop and whether to keep all outputs, to new state and text. */
  datatype Model<!S, !F, !E> = Model(geometry: StreamingGeometry, samplesPerBlock: nat,
                                     featurise: seq<S> -> seq<F>, zero: F, initial: E,
                                     encode: (E, seq<F>, nat, bool) -> (E, string))
  {
    /** What the loop relies on: blocks hold samples, chunks hold frames, and steps move forward. */
    predicate Usable() {
      samplesPerBlock >= 1 && geometry.Advances() && geometry.chunkFirst >= 1
    }
  }

  // ---------------------------------------------------------------- blocks

  function Blocks<S>(samples: seq<S>, n: nat): seq<seq<S>>
    requires n >= 1
    decreases |samples|
  {
    if |samples| >= n then [samples[..n]] + Blocks(samples[n..], n) else []
  }

  /** Samples still waiting for a full block. */
  function Rest<S>(samples: seq<S>, n: nat): seq<S>
    requires n >= 1
    decreases |samples|
  {
    if |samples| >= n then Rest(samples[n..], n) else samples
  }

  /** Cutting keeps every sample, in order. */
  lemma {:induction false} CuttingKeepsEverySample<S>(samples: seq<S>, n: nat)
    requires n >= 1
    ensures Flatten(Blocks(samples, n)) + Rest(samples, n) == samples
    decreases |samples|
  {
    if |samples| >= n {
      var head, tail := samples[..n], samples[n..];
      assert samples == head + tail;
      CuttingKeepsEverySample(tail, n);
      OneBlockMore(head, Blocks(tail, n), Rest(tail, n));
    }
  }

  lemma {:induction false} OneBlockMore<S>(head: seq<S>, tail: seq<seq<S>>, rest: seq<S>)
    ensures Flatten([head] + tail) + rest == head + (Flatten(tail) + rest)
  {
    assert ([head] + tail)[1..] == tail;
    assert head + Flatten(tail) + rest == head + (Flatten(tail) + rest);
  }

  /** Every block is full and what remains is not. */
  lemma {:induction false} BlocksAreFull<S>(samples: seq<S>, n: nat)
    requires n >= 1
    ensures forall i | 0 <= i < |Blocks(samples, n)| :: |Blocks(samples, n)[i]| == n
    ensures |Rest(samples, n)| < n
    decreases |samples|
  {
    if |samples| >= n {
      BlocksAreFull(samples[n..], n);
    }
  }

  /** Cutting what has arrived and then the remainder with what follows is cutting it all at once. */
  lemma {:induction false} CuttingComposes<S>(a: seq<S>, b: seq<S>, n: nat)
    requires n >= 1
    ensures Blocks(a + b, n) == Blocks(a, n) + Blocks(Rest(a, n) + b, n)
    ensures Rest(a + b, n) == Rest(Rest(a, n) + b, n)
    decreases |a|
  {
    if |a| >= n {
      assert (a + b)[..n] == a[..n] && (a + b)[n..] == a[n..] + b;
      CuttingComposes(a[n..], b, n);
    }
  }

  function Featurised<S, F>(featurise: seq<S> -> seq<F>, blocks: seq<seq<S>>): seq<F> {
    if blocks == [] then [] else featurise(blocks[0]) + Featurised(featurise, blocks[1..])
  }

  lemma {:induction false} FeaturisedAppend<S, F>(featurise: seq<S> -> seq<F>, a: seq<seq<S>>, b: seq<seq<S>>)
    ensures Featurised(featurise, a + b) == Featurised(featurise, a) + Featurised(featurise, b)
  {
    if a == [] {
      assert [] + b == b;
    } else {
      assert (a + b)[1..] == a[1..] + b;
      FeaturisedAppend(featurise, a[1..], b);
    }
  }

  /** Features of the full blocks in what has arrived. */
  function Arrived<S, F, E>(m: Model<S, F, E>, samples: seq<S>): seq<F>
    requires m.Usable()
  {
    Featurised(m.featurise, Blocks(samples, m.samplesPerBlock))
  }

  /** Features of everything, the short last block included. */
  function Everything<S, F, E>(m: Model<S, F, E>, samples: seq<S>): seq<F>
    requires m.Usable()
  {
    var rest := Rest(samples, m.samplesPerBlock);
    if rest == [] then Arrived(m, samples) else Arrived(m, samples) + m.featurise(rest)
  }

  // ---------------------------------------------------------------- encoder steps

  /** A text the loop yielded, and the step it came from. */
  datatype Emitted = Emitted(text: string, plan: ChunkPlan, isFinal: bool)

  datatype StreamState<E> = StreamState(encoder: E, text: string, lastPlan: Option<ChunkPlan>,
                                        lastEmitted: string, emitted: seq<Emitted>)

  function Start<S, F, E>(m: Model<S, F, E>): StreamState<E> { StreamState(m.initial, "", None, "", []) }

  /** What the encoder is given for a step: zeros for the history that does not exist, then the frames. */
  function Input<S, F, E>(m: Model<S, F, E>, frames: seq<F>, plan: ChunkPlan): seq<F>
    requires plan.cacheStart <= plan.end <= |frames|
  {
    seq(plan.zeroPad, _ => m.zero) + frames[plan.cacheStart..plan.end]
  }

  function Encoded<S, F, E>(m: Model<S, F, E>, frames: seq<F>, st: StreamState<E>, plan: ChunkPlan, keepAll: bool)
    : StreamState<E>
    requires plan.cacheStart <= plan.end <= |frames|
  {
    var (encoder, text) := m.encode(st.encoder, Input(m, frames, plan), plan.dropExtra, keepAll);
    st.(encoder := encoder, text := text, lastPlan := Some(plan))
  }

  /** A step within the session: a text that is neither empty nor the last one yielded is yielded. */
  function Stepped<S, F, E>(m: Model<S, F, E>, frames: seq<F>, st: StreamState<E>, plan: ChunkPlan): StreamState<E>
    requires plan.cacheStart <= plan.end <= |frames|
  {
    var next := Encoded(m, frames, st, plan, false);
    if next.text != "" && next.text != next.lastEmitted then
      next.(lastEmitted := next.text, emitted := next.emitted + [Emitted(next.text, plan, false)])
    else next
  }

  ghost predicate Within(plans: seq<ChunkPlan>, available: nat) {
    forall i | 0 <= i < |plans| :: plans[i].cacheStart <= plans[i].end <= available
  }

  /** A run of steps over a buffer that never forgets. */
  ghost function SteppedAll<S, F, E>(m: Model<S, F, E>, frames: seq<F>, plans: seq<ChunkPlan>): StreamState<E>
    requires Within(plans, |frames|)
  {
    if plans == [] then Start(m)
    else Stepped(m, frames, SteppedAll(m, frames, plans[..|plans| - 1]), plans[|plans| - 1])
  }

  /** Frames that arrive later do not change what earlier steps see. */
  lemma {:induction false} LaterFramesDoNotMatter<S, F, E>(m: Model<S, F, E>, frames: seq<F>, more: seq<F>,
                                                           plans: seq<ChunkPlan>)
    requires Within(plans, |frames|)
    ensures Within(plans, |frames + more|)
    ensures SteppedAll(m, frames + more, plans) == SteppedAll(m, frames, plans)
    decreases |plans|
  {
    if plans != [] {
      var last := plans[|plans| - 1];
      LaterFramesDoNotMatter(m, frames, more, plans[..|plans| - 1]);
      assert (frames + more)[last.cacheStart..last.end] == frames[last.cacheStart..last.end];
    }
  }

  lemma {:induction false} PlansWithin(g: StreamingGeometry, p: Position, available: nat)
    requires g.Advances() && Reachable(p)
    ensures Within(Plans(g, p, available), available)
  {
    PlansStayInBounds(g, p, available);
    var plans := Plans(g, p, available);
    assert forall i | 0 <= i < |plans| :: plans[i] in plans;
  }

  /** Where the session ends, as a function of the samples alone. */
  ghost function EndState<S, F, E>(m: Model<S, F, E>, samples: seq<S>): StreamState<E>
    requires m.Usable()
  {
    var g, arrived, frames := m.geometry, Arrived(m, samples), Everything(m, samples);
    PlansWithin(g, ORIGIN, |arrived|);
    Finish(m, frames, SteppedAll(m, arrived, Plans(g, ORIGIN, |arrived|)),
           Flush(g, Landing(g, ORIGIN, |arrived|), |frames|))
  }

  /** The texts the session yields. */
  ghost function Texts<S, F, E>(m: Model<S, F, E>, samples: seq<S>): seq<Emitted>
    requires m.Usable()
  {
    EndState(m, samples).emitted
  }

  /** The end of the stream: the short last step if there is one, then the final hypothesis. */
  function Finish<S, F, E>(m: Model<S, F, E>, frames: seq<F>, st: StreamState<E>, flush: Option<ChunkPlan>)
    : StreamState<E>
    requires flush.Some? ==> flush.value.cacheStart <= flush.value.end <= |frames|
  {
    WithFinal(if flush.Some? then Encoded(m, frames, st, flush.value, true) else st)
  }

  /** The last text again, as the final hypothesis, if there is one. */
  function WithFinal<E>(last: StreamState<E>): StreamState<E> {
    if last.text != "" && last.lastPlan.Some? then
      last.(emitted := last.emitted + [Emitted(last.text, last.lastPlan.value, true)])
    else last
  }

  // ---------------------------------------------------------------- hypotheses

  /** Seconds of audio up to a frame: 10 ms each. */
  function AudioTime(frame: nat): real { frame as real / 100.0 }

  /** The word clock after stamping the texts one by one. */
  function Stamps(c: ClockState, emitted: seq<Emitted>): (r: ClockState)
    requires c.Valid()
    ensures r.Valid()
  {
    if emitted == [] then c
    else
      var x := emitted[|emitted| - 1];
      Stamped(Stamps(c, emitted[..|emitted| - 1]), Tokenise(x.text), AudioTime(x.plan.end))
  }

  /** A text as the n-th hypothesis, once the clock has stamped it. */
  function HypothesisOf(x: Emitted, n: nat, wall: nat -> real, stamped: ClockState): Hypothesis
    requires stamped.Valid()
  {
    Hypothesis(x.text, x.isFinal, 0.0, AudioTime(x.plan.end), wall(n), n, Some(Timings(stamped)))
  }

  /** The texts as the hypotheses they are yielded as, by an adapter whose clock and counter stand at `c` and
      `seqNo`; `wall` gives the wall clock reading at each number. */
  function Hypotheses(c: ClockState, seqNo: nat, wall: nat -> real, emitted: seq<Emitted>): (hyps: seq<Hypothesis>)
    requires c.Valid()
    ensures |hyps| == |emitted|
  {
    if emitted == [] then []
    else
      Hypotheses(c, seqNo, wall, emitted[..|emitted| - 1])
      + [HypothesisOf(emitted[|emitted| - 1], seqNo + |emitted|, wall, Stamps(c, emitted))]
  }

  lemma {:induction false} HypothesesAppend(c: ClockState, seqNo: nat,
                                            wall: nat -> real, emitted: seq<Emitted>, x: Emitted)
    requires c.Valid()
    ensures Stamps(c, emitted + [x]) == Stamped(Stamps(c, emitted), Tokenise(x.text), AudioTime(x.plan.end))
    ensures Hypotheses(c, seqNo, wall, emitted + [x])
         == Hypotheses(c, seqNo, wall, emitted)
            + [HypothesisOf(x, seqNo + |emitted| + 1, wall, Stamps(c, emitted + [x]))]
  {
    assert (emitted + [x])[..|emitted|] == emitted;
  }

  /** The calls of `stamp` those texts made. */
  function Calls(emitted: seq<Emitted>): seq<Call> {
    seq(|emitted|, i requires 0 <= i < |emitted| => Call(Tokenise(emitted[i].text), AudioTime(emitted[i].plan.end)))
  }

  lemma {:induction false} StampsAreClockFrom(c: ClockState, emitted: seq<Emitted>)
    requires c.Valid()
    ensures Stamps(c, emitted) == ClockFrom(c, Calls(emitted))
  {
    if emitted != [] {
      var init := emitted[..|emitted| - 1];
      StampsAreClockFrom(c, init);
      assert Calls(emitted)[..|init|] == Calls(init);
    }
  }

  lemma {:induction false} HypothesesPrefix(c: ClockState, seqNo: nat, wall: nat -> real, emitted: seq<Emitted>, n: nat)
    requires c.Valid() && n <= |emitted|
    ensures Hypotheses(c, seqNo, wall, emitted)[..n] == Hypotheses(c, seqNo, wall, emitted[..n])
    decreases |emitted|
  {
    if n < |emitted| {
      HypothesesPrefix(c, seqNo, wall, emitted[..|emitted| - 1], n);
      assert emitted[..|emitted| - 1][..n] == emitted[..n];
    } else {
      assert emitted[..n] == emitted;
    }
  }

  /** Each hypothesis carries the stamps of the clock over everything the session yielded so far. */
  lemma {:induction false} HypothesisAt(c: ClockState, seqNo: nat, wall: nat -> real, emitted: seq<Emitted>, k: nat)
    requires c.Valid() && k < |emitted|
    ensures Hypotheses(c, seqNo, wall, emitted)[k]
         == HypothesisOf(emitted[k], seqNo + k + 1, wall, ClockFrom(c, Calls(emitted[..k + 1])))
  {
    var texts := emitted[..k + 1];
    HypothesesPrefix(c, seqNo, wall, emitted, k + 1);
    LastHypothesis(c, seqNo, wall, texts);
    PrefixAt(Hypotheses(c, seqNo, wall, emitted), Hypotheses(c, seqNo, wall, texts), k);
  }

  lemma {:induction false} LastHypothesis(c: ClockState, seqNo: nat, wall: nat -> real, texts: seq<Emitted>)
    requires c.Valid() && texts != []
    ensures Hypotheses(c, seqNo, wall, texts)[|texts| - 1]
         == HypothesisOf(texts[|texts| - 1], seqNo + |texts|, wall, ClockFrom(c, Calls(texts)))
  {
    StampsAreClockFrom(c, texts);
  }
}
