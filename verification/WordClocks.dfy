/** Word stamping: each transcript word carries the audio position of the step that first produced it. */
module WordClocks {
  import opened Sequences
  import opened Words
  import opened Transcript

  datatype ClockState = ClockState(words: seq<string>, ends: seq<real>)
  {
    predicate Valid() { |words| == |ends| }
  }

  const UNSET := ClockState([], [])

  /** Length of the common prefix. */
  function Shared(a: seq<string>, b: seq<string>): (n: nat)
    ensures n <= |a| && n <= |b|
  {
    if a == [] || b == [] || a[0] != b[0] then 0 else 1 + Shared(a[1..], b[1..])
  }

  /** The clock after `stamp`: shared words keep their ends, the rest get the present one. */
  function Stamped(c: ClockState, words: seq<string>, audioEnd: real): (r: ClockState)
    requires c.Valid()
    ensures r.Valid()
  {
    var shared := Shared(c.words, words);
    ClockState(words, c.ends[..shared] + Repeat(audioEnd, |words| - shared))
  }

  function Timings(c: ClockState): seq<WordTiming>
    requires c.Valid()
  {
    seq(|c.words|, i requires 0 <= i < |c.words| =>
      WordTiming(c.words[i], if i == 0 then 0.0 else c.ends[i - 1], c.ends[i]))
  }

  lemma {:induction false} SharedIsCommonPrefix(a: seq<string>, b: seq<string>)
    ensures var n := Shared(a, b);
            && a[..n] == b[..n]
            && (n < |a| && n < |b| ==> a[n] != b[n])
  {
    if a != [] && b != [] && a[0] == b[0] {
      SharedIsCommonPrefix(a[1..], b[1..]);
      var n := Shared(a[1..], b[1..]);
      assert a[..n + 1] == [a[0]] + a[1..][..n];
      assert b[..n + 1] == [b[0]] + b[1..][..n];
    }
  }

  class WordClock {
    var words: seq<string>
    var ends: seq<real>

    function State(): ClockState
      reads this
    {
      ClockState(words, ends)
    }

    constructor ()
      ensures State() == UNSET
    {
      words, ends := [], [];
    }

    method Stamp(text: string, audioEnd: real) returns (timings: seq<WordTiming>)
      requires State().Valid()
      modifies this
      ensures State() == Stamped(old(State()), Tokenise(text), audioEnd)
      ensures timings == Timings(State())
    {
      var spoken := Tokenise(text);
      var shared := 0;
      while shared < |words| && shared < |spoken|
        invariant shared <= Shared(words, spoken)
        invariant shared + Shared(words[shared..], spoken[shared..]) == Shared(words, spoken)
        decreases |words| - shared
      {
        if words[shared] != spoken[shared] {
          break;
        }
        assert words[shared..][1..] == words[shared + 1..] && spoken[shared..][1..] == spoken[shared + 1..];
        shared := shared + 1;
      }
      SharedIsCommonPrefix(words, spoken);
      assert shared == Shared(words, spoken);
      words, ends := words[..shared], ends[..shared];
      for i := shared to |spoken|
        invariant words == spoken[..i]
        invariant ends == old(ends)[..shared] + Repeat(audioEnd, i - shared)
      {
        words := words + [spoken[i]];
        ends := ends + [audioEnd];
      }
      assert words == spoken;
      assert State() == Stamped(old(State()), spoken, audioEnd);
      timings := Spans();
    }

    /** The last loop of `stamp`: each word starts where the one before it ends. */
    method Spans() returns (timings: seq<WordTiming>)
      requires State().Valid()
      ensures timings == Timings(State())
    {
      timings := [];
      var previous := 0.0;
      for i := 0 to |words|
        invariant previous == if i == 0 then 0.0 else ends[i - 1]
        invariant timings == Timings(State())[..i]
      {
        timings := timings + [WordTiming(words[i], previous, ends[i])];
        previous := ends[i];
      }
    }
  }

  // ---------------------------------------------------------------- the clock over its whole history

  /** One call of `stamp`. */
  datatype Call = Call(words: seq<string>, audioEnd: real)

  /** The clock after these calls, from where it stood. */
  function ClockFrom(c: ClockState, calls: seq<Call>): (r: ClockState)
    requires c.Valid()
    ensures r.Valid() && r.words == (if calls == [] then c.words else calls[|calls| - 1].words)
  {
    if calls == [] then c
    else
      var last := calls[|calls| - 1];
      Stamped(ClockFrom(c, calls[..|calls| - 1]), last.words, last.audioEnd)
  }

  /** A new clock after these calls. */
  function ClockAfter(calls: seq<Call>): (c: ClockState)
    ensures c.Valid() && c.words == (if calls == [] then [] else calls[|calls| - 1].words)
  {
    ClockFrom(UNSET, calls)
  }

  /** Both transcripts have a word at position i, and agree on everything through it. */
  predicate SharesThrough(a: seq<string>, b: seq<string>, i: nat) {
    i < |a| && i < |b| && a[..i + 1] == b[..i + 1]
  }

  /** First call of the latest unbroken run of calls that share the prefix through word i. */
  function RunStart(calls: seq<Call>, i: nat): (k: nat)
    requires calls != []
    ensures k < |calls|
  {
    var n := |calls| - 1;
    if n > 0 && SharesThrough(calls[n - 1].words, calls[n].words, i) then RunStart(calls[..n], i) else n
  }

  lemma {:induction false} RunStartIsFirst(calls: seq<Call>, i: nat)
    requires calls != [] && i < |calls[|calls| - 1].words|
    ensures var k, last := RunStart(calls, i), calls[|calls| - 1].words;
            && (forall j | k <= j < |calls| :: SharesThrough(calls[j].words, last, i))
            && (k > 0 ==> !SharesThrough(calls[k - 1].words, last, i))
  {
    var n := |calls| - 1;
    if n > 0 && SharesThrough(calls[n - 1].words, calls[n].words, i) {
      RunStartIsFirst(calls[..n], i);
      forall j | RunStart(calls, i) <= j < |calls|
        ensures SharesThrough(calls[j].words, calls[n].words, i)
      {
        if j < n { assert SharesThrough(calls[..n][j].words, calls[n - 1].words, i); }
      }
    }
  }

  lemma {:induction false} SharedThroughIff(a: seq<string>, b: seq<string>, i: nat)
    ensures i < Shared(a, b) <==> SharesThrough(a, b, i)
  {
    SharedIsCommonPrefix(a, b);
    var n := Shared(a, b);
    if i < n {
      assert a[..i + 1] == a[..n][..i + 1] && b[..i + 1] == b[..n][..i + 1];
    }
    if SharesThrough(a, b, i) {
      forall k | 0 <= k <= i
        ensures a[k] == b[k]
      {
        assert a[k] == a[..i + 1][k] && b[k] == b[..i + 1][k];
      }
    }
  }

  /** A word is dated to the first call of the latest unbroken run in which it, and every word before it,
      stood as it stands now. */
  lemma {:induction false} EndIsRunStart(calls: seq<Call>, i: nat)
    requires calls != [] && i < |calls[|calls| - 1].words|
    ensures ClockAfter(calls).ends[i] == calls[RunStart(calls, i)].audioEnd
  {
    var n := |calls| - 1;
    var earlier := calls[..n];
    StampedEnd(ClockAfter(earlier), calls[n].words, calls[n].audioEnd, i);
    if n > 0 && SharesThrough(calls[n - 1].words, calls[n].words, i) {
      assert earlier[n - 1] == calls[n - 1];
      EndIsRunStart(earlier, i);
    }
  }

  /** What stamping makes of one end. */
  lemma {:induction false} StampedEnd(c: ClockState, words: seq<string>, audioEnd: real, i: nat)
    requires c.Valid() && i < |words|
    ensures Stamped(c, words, audioEnd).ends[i] == if SharesThrough(c.words, words, i) then c.ends[i] else audioEnd
  {
    SharedThroughIff(c.words, words, i);
  }

  /** Audio only moves forward from one call to the next. */
  predicate Forward(calls: seq<Call>) {
    forall j, k | 0 <= j <= k < |calls| :: calls[j].audioEnd <= calls[k].audioEnd
  }

  predicate Nondecreasing(s: seq<real>) { forall i, j | 0 <= i <= j < |s| :: s[i] <= s[j] }

  predicate AtMost(s: seq<real>, bound: real) { forall i | 0 <= i < |s| :: s[i] <= bound }

  lemma {:induction false} StampKeepsOrder(c: ClockState, words: seq<string>, audioEnd: real)
    requires c.Valid() && Nondecreasing(c.ends) && AtMost(c.ends, audioEnd)
    ensures var r := Stamped(c, words, audioEnd); Nondecreasing(r.ends) && AtMost(r.ends, audioEnd)
  {
  }

  /** A clock whose word ends are in order, and not beyond the audio of the first call, keeps them so. */
  lemma {:induction false} EndsStayInOrder(c: ClockState, calls: seq<Call>)
    requires c.Valid() && calls != [] && Forward(calls)
    requires Nondecreasing(c.ends) && AtMost(c.ends, calls[0].audioEnd)
    ensures Nondecreasing(ClockFrom(c, calls).ends)
    ensures AtMost(ClockFrom(c, calls).ends, calls[|calls| - 1].audioEnd)
  {
    var n := |calls| - 1;
    if n > 0 {
      EndsStayInOrder(c, calls[..n]);
      assert calls[..n][n - 1].audioEnd <= calls[n].audioEnd;
    }
    StampKeepsOrder(ClockFrom(c, calls[..n]), calls[n].words, calls[n].audioEnd);
  }

  /** Word ends never decrease along the transcript, and none lies beyond the audio of the latest call. */
  lemma {:induction false} EndsNondecreasing(calls: seq<Call>)
    requires calls != [] && Forward(calls)
    ensures Nondecreasing(ClockAfter(calls).ends)
    ensures AtMost(ClockAfter(calls).ends, calls[|calls| - 1].audioEnd)
  {
    EndsStayInOrder(UNSET, calls);
  }

  /** One more call never dates the word at a position earlier than it was dated before. */
  lemma {:induction false} EndsMoveForward(calls: seq<Call>, i: nat)
    requires calls != [] && Forward(calls)
    requires i < |ClockAfter(calls[..|calls| - 1]).ends| && i < |ClockAfter(calls).ends|
    ensures ClockAfter(calls[..|calls| - 1]).ends[i] <= ClockAfter(calls).ends[i]
  {
    var n := |calls| - 1;
    if n > 0 {
      EndsNondecreasing(calls[..n]);
      assert calls[n - 1].audioEnd <= calls[n].audioEnd;
    }
  }

  /** What is handed out names each word of the latest transcript, in order, with its end. */
  lemma {:induction false} TimingsNameWords(calls: seq<Call>)
    requires calls != []
    ensures var ts, words := Timings(ClockAfter(calls)), calls[|calls| - 1].words;
            && |ts| == |words|
            && forall i | 0 <= i < |ts| ::
                 ts[i].word == words[i] && ts[i].tAudioEnd == calls[RunStart(calls, i)].audioEnd
  {
    var ts, words := Timings(ClockAfter(calls)), calls[|calls| - 1].words;
    forall i | 0 <= i < |ts|
      ensures ts[i].word == words[i] && ts[i].tAudioEnd == calls[RunStart(calls, i)].audioEnd
    {
      EndIsRunStart(calls, i);
    }
  }

  /** The spans handed out are contiguous from zero and, when audio moves forward from zero, ordered. */
  lemma {:induction false} TimingsTile(calls: seq<Call>)
    requires Forward(calls) && forall c | c in calls :: c.audioEnd >= 0.0
    ensures var ts := Timings(ClockAfter(calls));
            && (ts != [] ==> ts[0].tAudioStart == 0.0)
            && (forall i | 0 < i < |ts| :: ts[i].tAudioStart == ts[i - 1].tAudioEnd)
            && (forall i | 0 <= i < |ts| :: ts[i].tAudioStart <= ts[i].tAudioEnd)
  {
    var c := ClockAfter(calls);
    if c.words != [] {
      EndsNondecreasing(calls);
      EndIsRunStart(calls, 0);
      assert calls[RunStart(calls, 0)] in calls;
    }
  }
}
