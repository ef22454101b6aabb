/** What a streaming session yields, step by step: the encoder's state threaded through the steps, which of the
    texts become hypotheses, and what those hypotheses say. */
module StreamingTrace {
  import opened Options
  import opened Sequences
  import opened Words
  import opened WordClocks
  import opened Schedule
  import opened Transcribe

  /** One encoder step: from the state before it and the frames it is due, zeros first where history is missing,
      to the state after it and the text. */
  ghost predicate StepRan<S, F, E>(m: Model<S, F, E>, everything: seq<F>, plan: ChunkPlan, keepAll: bool, before: E,
                                   after: E, text: string)
  {
    && plan.cacheStart <= plan.end <= |everything|
    && m.encode(before, seq(plan.zeroPad, _ => m.zero) + everything[plan.cacheStart..plan.end], plan.dropExtra,
                keepAll) == (after, text)
  }

  /** The state goes from step to step; all outputs are kept only from step `flush` on. */
  ghost predicate Threaded<S, F, E>(m: Model<S, F, E>, everything: seq<F>, plans: seq<ChunkPlan>, flush: nat,
                                    states: seq<E>, texts: seq<string>)
  {
    && |texts| == |plans| && |states| == |plans| + 1 && states[0] == m.initial
    && forall i | 0 <= i < |plans| ::
         StepRan(m, everything, plans[i], i >= flush, states[i], states[i + 1], texts[i])
  }

  /** The last text before step k that was not empty, or nothing. */
  function LastSaid(texts: seq<string>, k: nat): string
    requires k <= |texts|
  {
    if k == 0 then "" else if texts[k - 1] != "" then texts[k - 1] else LastSaid(texts, k - 1)
  }

  /** Step k says something, and something else than was said last. */
  predicate IsNews(texts: seq<string>, k: nat)
    requires k < |texts|
  {
    texts[k] != "" && texts[k] != LastSaid(texts, k)
  }

  /** The steps that bring news among the first n, in order. */
  ghost predicate AreNews(texts: seq<string>, n: nat, steps: seq<nat>) {
    && n <= |texts|
    && (forall a, b | 0 <= a < b < |steps| :: steps[a] < steps[b])
    && (forall k: nat :: k in steps <==> k < n && IsNews(texts, k))
  }

  /** Each of these steps' texts, with its own plan, as an interim. */
  predicate AreInterims(emitted: seq<Emitted>, plans: seq<ChunkPlan>, texts: seq<string>, steps: seq<nat>) {
    && |emitted| == |steps| && |texts| == |plans|
    && forall a | 0 <= a < |steps| ::
         steps[a] < |plans| && emitted[a] == Emitted(texts[steps[a]], plans[steps[a]], false)
  }

  lemma {:induction false} LastSaidEarlier(texts: seq<string>, text: string, k: nat)
    requires k <= |texts|
    ensures LastSaid(texts + [text], k) == LastSaid(texts, k)
  {
    if k > 0 {
      LastSaidEarlier(texts, text, k - 1);
    }
  }

  /** One step more: whether it brings news does not change which earlier ones did. */
  lemma {:induction false} NewsGrows(texts: seq<string>, text: string, steps: seq<nat>)
    requires AreNews(texts, |texts|, steps)
    ensures var news := text != "" && text != LastSaid(texts, |texts|);
            AreNews(texts + [text], |texts| + 1, if news then steps + [|texts|] else steps)
  {
    var longer := texts + [text];
    forall k: nat | k <= |texts|
      ensures LastSaid(longer, k) == LastSaid(texts, k)
    {
      LastSaidEarlier(texts, text, k);
    }
    forall k: nat
      ensures k in steps + [|texts|] <==> k in steps || k == |texts|
    {
    }
    assert forall a | 0 <= a < |steps| :: steps[a] in steps;
  }

  lemma {:induction false} ThreadGrows<S, F, E>(m: Model<S, F, E>, everything: seq<F>, plans: seq<ChunkPlan>,
                                                flush: nat, states: seq<E>, texts: seq<string>, plan: ChunkPlan,
                                                after: E, text: string)
    requires Threaded(m, everything, plans, flush, states, texts)
    requires StepRan(m, everything, plan, |plans| >= flush, states[|plans|], after, text)
    ensures Threaded(m, everything, plans + [plan], flush, states + [after], texts + [text])
  {
  }

  lemma {:induction false} InterimsGrow(emitted: seq<Emitted>, plans: seq<ChunkPlan>, texts: seq<string>,
                                        steps: seq<nat>, plan: ChunkPlan, text: string)
    requires AreInterims(emitted, plans, texts, steps)
    ensures AreInterims(emitted, plans + [plan], texts + [text], steps)
    ensures AreInterims(emitted + [Emitted(text, plan, false)], plans + [plan], texts + [text], steps + [|plans|])
  {
  }

  /** A session that ran these steps: the state threaded, and the texts yielded those that bring news. */
  ghost predicate Traced<S, F, E>(m: Model<S, F, E>, frames: seq<F>, plans: seq<ChunkPlan>, flush: nat,
                                  st: StreamState<E>, states: seq<E>, texts: seq<string>, steps: seq<nat>)
  {
    && Threaded(m, frames, plans, flush, states, texts) && AreNews(texts, |plans|, steps)
    && st.encoder == states[|plans|]
    && st.text == (if plans == [] then "" else texts[|plans| - 1])
    && st.lastPlan == (if plans == [] then None else Some(plans[|plans| - 1]))
    && st.lastEmitted == LastSaid(texts, |texts|)
    && AreInterims(st.emitted, plans, texts, steps)
  }

  lemma {:induction false} TraceGrows<S, F, E>(m: Model<S, F, E>, frames: seq<F>, plans: seq<ChunkPlan>, flush: nat,
                                               st: StreamState<E>, states: seq<E>, texts: seq<string>, steps: seq<nat>,
                                               plan: ChunkPlan)
    returns (states': seq<E>, texts': seq<string>, steps': seq<nat>)
    requires Traced(m, frames, plans, flush, st, states, texts, steps) && |plans| < flush
    requires plan.cacheStart <= plan.end <= |frames|
    ensures Traced(m, frames, plans + [plan], flush, Stepped(m, frames, st, plan), states', texts', steps')
  {
    var st' := Stepped(m, frames, st, plan);
    StepAlone(m, frames, st, plan);
    states', texts' := states + [st'.encoder], texts + [st'.text];
    ThreadGrows(m, frames, plans, flush, states, texts, plan, st'.encoder, st'.text);
    NewsGrows(texts, st'.text, steps);
    InterimsGrow(st.emitted, plans, texts, steps, plan, st'.text);
    LastSaidGrows(texts, st'.text);
    steps' := if st'.text != "" && st'.text != st.lastEmitted then steps + [|plans|] else steps;
  }

  /** What one step of the session does. */
  lemma {:induction false} StepAlone<S, F, E>(m: Model<S, F, E>, frames: seq<F>, st: StreamState<E>, plan: ChunkPlan)
    requires plan.cacheStart <= plan.end <= |frames|
    ensures var st' := Stepped(m, frames, st, plan);
            var news := st'.text != "" && st'.text != st.lastEmitted;
            && StepRan(m, frames, plan, false, st.encoder, st'.encoder, st'.text)
            && st'.lastPlan == Some(plan)
            && st'.lastEmitted == (if news then st'.text else st.lastEmitted)
            && st'.emitted == if news then st.emitted + [Emitted(st'.text, plan, false)] else st.emitted
  {
  }

  lemma {:induction false} LastSaidGrows(texts: seq<string>, text: string)
    ensures LastSaid(texts + [text], |texts| + 1) == if text != "" then text else LastSaid(texts, |texts|)
  {
    LastSaidEarlier(texts, text, |texts|);
  }

  lemma {:induction false} StepsAreTraced<S, F, E>(m: Model<S, F, E>, frames: seq<F>, plans: seq<ChunkPlan>, flush: nat)
    returns (states: seq<E>, texts: seq<string>, steps: seq<nat>)
    requires Within(plans, |frames|) && |plans| <= flush
    ensures Traced(m, frames, plans, flush, SteppedAll(m, frames, plans), states, texts, steps)
  {
    if plans == [] {
      states, texts, steps := [m.initial], [], [];
    } else {
      var init, plan := plans[..|plans| - 1], plans[|plans| - 1];
      states, texts, steps := StepsAreTraced(m, frames, init, flush);
      states, texts, steps :=
        TraceGrows(m, frames, init, flush, SteppedAll(m, frames, init), states, texts, steps, plan);
      assert plans == init + [plan];
    }
  }

  // ---------------------------------------------------------------- the whole session

  /** The texts a session of these steps yields: the news among the steps before the flush, as interims, and at the
      end the last text once more, as the final. */
  ghost predicate YieldsNews(plans: seq<ChunkPlan>, flush: nat, texts: seq<string>, steps: seq<nat>,
                             yielded: seq<Emitted>)
  {
    && |texts| == |plans| && AreNews(texts, flush, steps)
    && var interims, ends := |steps|, plans != [] && texts[|plans| - 1] != "";
       && |yielded| == interims + (if ends then 1 else 0)
       && AreInterims(yielded[..interims], plans, texts, steps)
       && (ends ==> yielded[interims] == Emitted(texts[|plans| - 1], plans[|plans| - 1], true))
  }

  /** What a session yields, step by step. The last step is the flush exactly when frames were left over, and it
      alone keeps all outputs. */
  lemma {:induction false} SessionYields<S, F, E>(m: Model<S, F, E>, samples: seq<S>)
    returns (states: seq<E>, texts: seq<string>, steps: seq<nat>)
    requires m.Usable()
    ensures var g, offered, everything := m.geometry, |Arrived(m, samples)|, Everything(m, samples);
            var plans, flush := SessionPlans(g, offered, |everything|), |Plans(g, ORIGIN, offered)|;
            && Threaded(m, everything, plans, flush, states, texts)
            && YieldsNews(plans, flush, texts, steps, Texts(m, samples))
  {
    var g, offered, everything := m.geometry, |Arrived(m, samples)|, Everything(m, samples);
    var plans := Plans(g, ORIGIN, offered);
    LastBlockDoesNotMatter(m, samples);
    var st := SteppedAll(m, everything, plans);
    states, texts, steps := StepsAreTraced(m, everything, plans, |plans|);
    var flush := Flush(g, Landing(g, ORIGIN, offered), |everything|);
    if flush.Some? {
      states, texts := FlushIsTraced(m, everything, plans, st, states, texts, steps, flush.value);
      FinalIsLast(plans + [flush.value], |plans|, texts, steps, Encoded(m, everything, st, flush.value, true));
    } else {
      FinalIsLast(plans, |plans|, texts, steps, st);
      assert plans + [] == plans;
    }
  }

  lemma {:induction false} FinalIsLast<E>(plans: seq<ChunkPlan>, flush: nat, texts: seq<string>, steps: seq<nat>,
                                          last: StreamState<E>)
    requires |texts| == |plans| && AreNews(texts, flush, steps) && AreInterims(last.emitted, plans, texts, steps)
    requires last.text == if plans == [] then "" else texts[|plans| - 1]
    requires last.lastPlan == if plans == [] then None else Some(plans[|plans| - 1])
    ensures YieldsNews(plans, flush, texts, steps, WithFinal(last).emitted)
  {
    assert WithFinal(last).emitted[..|steps|] == last.emitted;
  }

  /** The steps of the full blocks see the same frames whether or not the last short block is there. */
  lemma {:induction false} LastBlockDoesNotMatter<S, F, E>(m: Model<S, F, E>, samples: seq<S>)
    requires m.Usable()
    ensures var arrived, everything := Arrived(m, samples), Everything(m, samples);
            var plans := Plans(m.geometry, ORIGIN, |arrived|);
            && |arrived| <= |everything| && Within(plans, |arrived|) && Within(plans, |everything|)
            && SteppedAll(m, everything, plans) == SteppedAll(m, arrived, plans)
  {
    var arrived, everything := Arrived(m, samples), Everything(m, samples);
    var more := everything[|arrived|..];
    PlansWithin(m.geometry, ORIGIN, |arrived|);
    assert everything == arrived + more;
    LaterFramesDoNotMatter(m, arrived, more, Plans(m.geometry, ORIGIN, |arrived|));
  }

  lemma {:induction false} FlushIsTraced<S, F, E>(m: Model<S, F, E>, frames: seq<F>, plans: seq<ChunkPlan>,
                                                  st: StreamState<E>, states: seq<E>, texts: seq<string>,
                                                  steps: seq<nat>, plan: ChunkPlan)
    returns (states': seq<E>, texts': seq<string>)
    requires Traced(m, frames, plans, |plans|, st, states, texts, steps)
    requires plan.cacheStart <= plan.end <= |frames|
    ensures var last := Encoded(m, frames, st, plan, true);
            && Threaded(m, frames, plans + [plan], |plans|, states', texts') && AreNews(texts', |plans|, steps)
            && AreInterims(st.emitted, plans + [plan], texts', steps)
            && last.text == texts'[|plans|] && last.lastPlan == Some(plan) && last.emitted == st.emitted
  {
    var last := Encoded(m, frames, st, plan, true);
    ThreadGrows(m, frames, plans, |plans|, states, texts, plan, last.encoder, last.text);
    InterimsGrow(st.emitted, plans, texts, steps, plan, last.text);
    states', texts' := states + [last.encoder], texts + [last.text];
    forall k: nat | k <= |texts|
      ensures LastSaid(texts', k) == LastSaid(texts, k)
    {
      LastSaidEarlier(texts, last.text, k);
    }
  }

  /** The frames are the features of the samples cut into blocks, the last one short if need be. */
  lemma {:induction false} FramesAreThoseOfTheBlocks<S, F, E>(m: Model<S, F, E>, samples: seq<S>)
    returns (blocks: seq<seq<S>>)
    requires m.Usable()
    ensures Flatten(blocks) == samples
    ensures forall i | 0 <= i < |blocks| ::
              && blocks[i] != [] && |blocks[i]| <= m.samplesPerBlock
              && (i < |blocks| - 1 ==> |blocks[i]| == m.samplesPerBlock)
    ensures Everything(m, samples) == Flatten(seq(|blocks|, i requires 0 <= i < |blocks| => m.featurise(blocks[i])))
  {
    var n := m.samplesPerBlock;
    var full, rest := Blocks(samples, n), Rest(samples, n);
    CuttingKeepsEverySample(samples, n);
    BlocksAreFull(samples, n);
    blocks := if rest == [] then full else full + [rest];
    FeaturisedIsFlattened(m.featurise, blocks);
    if rest != [] {
      FlattenAppend(full, [rest]);
      FeaturisedAppend(m.featurise, full, [rest]);
      assert Flatten([rest]) == rest + Flatten([rest][1..]) == rest;
      assert Featurised(m.featurise, [rest]) == m.featurise(rest) + Featurised(m.featurise, [rest][1..]);
    }
  }

  lemma {:induction false} FeaturisedIsFlattened<S, F>(featurise: seq<S> -> seq<F>, blocks: seq<seq<S>>)
    ensures Featurised(featurise, blocks)
         == Flatten(seq(|blocks|, i requires 0 <= i < |blocks| => featurise(blocks[i])))
  {
    if blocks != [] {
      var rest := blocks[1..];
      FeaturisedIsFlattened(featurise, rest);
      assert seq(|blocks|, i requires 0 <= i < |blocks| => featurise(blocks[i]))[1..]
          == seq(|rest|, i requires 0 <= i < |rest| => featurise(rest[i]));
    }
  }

  /** What the k-th hypothesis of a session says: its text, ten milliseconds of audio for each frame its step reached,
      the next number, and its own words in order, each with a stamp. */
  lemma {:induction false} HypothesisSays(c: ClockState, seqNo: nat, wall: nat -> real, emitted: seq<Emitted>, k: nat)
    requires c.Valid() && k < |emitted|
    ensures var hyp := Hypotheses(c, seqNo, wall, emitted)[k];
            && hyp.text == emitted[k].text && hyp.isFinal == emitted[k].isFinal
            && hyp.tAudioStart == 0.0 && hyp.tAudioEnd * 100.0 == emitted[k].plan.end as real
            && hyp.seqNo == seqNo + k + 1 && hyp.tWall == wall(hyp.seqNo)
            && hyp.words.Some?
            && |hyp.words.value| == |Tokenise(hyp.text)|
            && forall i | 0 <= i < |hyp.words.value| :: hyp.words.value[i].word == Tokenise(hyp.text)[i]
  {
    HypothesisAt(c, seqNo, wall, emitted, k);
    assert emitted[..k + 1][k] == emitted[k];
  }
}
