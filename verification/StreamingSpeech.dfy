/** From audio samples to spoken words: the streaming adapter's hypotheses through the phrase chunker. */
module StreamingSpeech {
  import opened Words
  import opened WordClocks
  import opened Transcribe
  import opened Chunker
  import Runs = ChunkerRuns
  import Revision = ChunkerRevision

  /** The transcript the encoder has settled on when the stream is over. */
  ghost function FinalText<S, F, E>(m: Model<S, F, E>, samples: seq<S>): string
    requires m.Usable()
  {
    EndState(m, samples).text
  }

  /** Each text yielded adds words to the one before it and takes none back. */
  predicate TextsAppend(emitted: seq<Emitted>) {
    forall i | 0 < i < |emitted| :: Tokenise(emitted[i - 1].text) <= Tokenise(emitted[i].text)
  }

  /** A session that ends with a transcript yields it, as its last text and its final. */
  lemma {:induction false} FinalTextIsYielded<S, F, E>(m: Model<S, F, E>, samples: seq<S>)
    requires m.Usable() && FinalText(m, samples) != ""
    ensures var texts := Texts(m, samples);
            texts != [] && texts[|texts| - 1].text == FinalText(m, samples) && texts[|texts| - 1].isFinal
  {
  }

  /** However the audio was portioned, whatever the chunker's settings, and wherever ticks and flushes fell: a
      streaming session whose texts only append has spoken its final transcript, word for word. */
  lemma {:induction false} StreamingSessionSpeaksFinalText<S, F, E>(
      m: Model<S, F, E>, samples: seq<S>, clock: ClockState, seqNo: nat, wall: nat -> real,
      c: Settings, events: seq<Runs.Event>)
    requires m.Usable() && FinalText(m, samples) != "" && TextsAppend(Texts(m, samples))
    requires clock.Valid() && c.Usable()
    requires Runs.After(c, events).heard == Hypotheses(clock, seqNo, wall, Texts(m, samples))
    ensures var chunks := Runs.After(c, events).chunks;
            && Runs.Spoken(chunks) == Tokenise(FinalText(m, samples))
            && Join(Revision.Texts(chunks)) == Join(Tokenise(FinalText(m, samples)))
  {
    var texts, heard := Texts(m, samples), Runs.After(c, events).heard;
    FinalTextIsYielded(m, samples);
    forall k | 0 <= k < |texts|
      ensures heard[k].text == texts[k].text && heard[k].isFinal == texts[k].isFinal
    {
      HypothesisAt(clock, seqNo, wall, texts, k);
    }
    Revision.FinalTranscriptIsSpoken(c, events);
  }
}
