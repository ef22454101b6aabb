/** What a speech backend reports: one revisable transcript hypothesis. */
module Transcript {
  import opened Options

  /** Audio position of one word. */
  datatype WordTiming = WordTiming(word: string, tAudioStart: real, tAudioEnd: real)

  datatype Hypothesis = Hypothesis(text: string, isFinal: bool, tAudioStart: real, tAudioEnd: real,
                                   tWall: real, seqNo: nat, words: Option<seq<WordTiming>>)
}
