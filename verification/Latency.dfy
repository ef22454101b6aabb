/** Glass-to-glass latency: traces opened and closed once each, a capped window of samples, percentiles. */
module Latency {
  import opened Options
  import opened Durations

  datatype Stage = Committed | Translated | FirstAudio | Published

  /** A phrase in one language. */
  datatype Key = Key(chunkId: nat, language: string)

  datatype Trace = Trace(key: Key, audioEndWall: real, marks: map<Stage, real>)

  /** The first mark of a stage wins. */
  function MarkOnce(t: Trace, stage: Stage, wall: real): Trace {
    if stage in t.marks then t else t.(marks := t.marks[stage := wall])
  }

  function GlassToGlass(t: Trace): Option<real> {
    if Published in t.marks then Some(t.marks[Published] - t.audioEndWall) else None
  }

  /** The time between two marks, if both were made. */
  function Between(t: Trace, a: Stage, b: Stage): Option<real> {
    if a in t.marks && b in t.marks then Some(t.marks[b] - t.marks[a]) else None
  }

  function Entry(name: string, seconds: Option<real>): seq<(string, real)> {
    if seconds.Some? then [(name, seconds.value)] else []
  }

  /** Per-stage durations, missing stages omitted. */
  function Breakdown(t: Trace): seq<(string, real)> {
    Entry("chunker", if Committed in t.marks then Some(t.marks[Committed] - t.audioEndWall) else None)
    + Entry("translate", Between(t, Committed, Translated))
    + Entry("tts", Between(t, Translated, FirstAudio))
    + Entry("publish", Between(t, FirstAudio, Published))
  }

  function Sum(parts: seq<(string, real)>): real {
    if parts == [] then 0.0 else parts[0].1 + Sum(parts[1..])
  }

  /** When every stage was marked, the stages account for the whole of the latency. */
  lemma {:induction false} StagesSumToLatency(t: Trace)
    requires forall s: Stage :: s in t.marks
    ensures GlassToGlass(t) == Some(Sum(Breakdown(t)))
  {
    var m := t.marks;
    assert Committed in m && Translated in m && FirstAudio in m && Published in m;
    var b0 := Entry("chunker", Some(m[Committed] - t.audioEndWall));
    var b1 := Entry("translate", Between(t, Committed, Translated));
    var b2 := Entry("tts", Between(t, Translated, FirstAudio));
    var b3 := Entry("publish", Between(t, FirstAudio, Published));
    SumOfParts(b0, b1, b2, b3);
    assert Breakdown(t) == b0 + b1 + b2 + b3;
  }

  /** Each stage is named for the two moments it lies between, and is there exactly when both were marked. */
  lemma {:induction false} BreakdownNamesStages(t: Trace, name: string, seconds: real)
    ensures (name, seconds) in Breakdown(t) <==>
            || (name == "chunker" && Committed in t.marks && seconds == t.marks[Committed] - t.audioEndWall)
            || (name == "translate" && Committed in t.marks && Translated in t.marks
                && seconds == t.marks[Translated] - t.marks[Committed])
            || (name == "tts" && Translated in t.marks && FirstAudio in t.marks
                && seconds == t.marks[FirstAudio] - t.marks[Translated])
            || (name == "publish" && FirstAudio in t.marks && Published in t.marks
                && seconds == t.marks[Published] - t.marks[FirstAudio])
  {
  }

  lemma {:induction false} SumAppend(a: seq<(string, real)>, b: seq<(string, real)>)
    ensures Sum(a + b) == Sum(a) + Sum(b)
  {
    if a == [] {
      assert [] + b == b;
    } else {
      assert (a + b)[1..] == a[1..] + b;
      SumAppend(a[1..], b);
    }
  }

  lemma {:induction false} SumOfOne(a: seq<(string, real)>)
    requires |a| == 1
    ensures Sum(a) == a[0].1
  {
    assert a[1..] == [];
  }

  lemma {:induction false} SumOfParts(a: seq<(string, real)>, b: seq<(string, real)>, c: seq<(string, real)>,
                                      d: seq<(string, real)>)
    requires |a| == |b| == |c| == |d| == 1
    ensures Sum(a + b + c + d) == a[0].1 + b[0].1 + c[0].1 + d[0].1
  {
    SumAppend(a + b + c, d);
    SumAppend(a + b, c);
    SumAppend(a, b);
    SumOfOne(a);
    SumOfOne(b);
    SumOfOne(c);
    SumOfOne(d);
  }

  // ---------------------------------------------------------------- the recorder

  datatype Recorder = Recorder(epoch: Option<real>, open: map<Key, Trace>, samples: map<string, seq<real>>,
                               breaches: nat)

  const NO_TRACES := Recorder(None, map[], map[], 0)

  function Samples(r: Recorder, language: string): seq<real> {
    if language in r.samples then r.samples[language] else []
  }

  /** Appending to a list that keeps its last `cap` entries. */
  function Appended(cap: nat, target: seq<real>, value: real): seq<real> {
    var longer := target + [value];
    if |longer| > cap then longer[|longer| - cap..] else longer
  }

  /** The clock is anchored by the first frame and never again. */
  function Anchored(r: Recorder, tAudio: real, tWall: real): Recorder {
    if r.epoch.None? then r.(epoch := Some(tWall - tAudio)) else r
  }

  function Opened(r: Recorder, key: Key, tAudioEnd: real): Recorder
    requires r.epoch.Some?
  {
    r.(open := r.open[key := Trace(key, r.epoch.value + tAudioEnd, map[])])
  }

  /** A mark for an unknown phrase is ignored; the Published mark closes its trace. */
  function Marked(cap: nat, slo: real, r: Recorder, key: Key, stage: Stage, wall: real): Recorder {
    if key !in r.open then r
    else
      var t := MarkOnce(r.open[key], stage, wall);
      if stage != Published then r.(open := r.open[key := t])
      else
        var g := t.marks[Published] - t.audioEndWall;
        r.(open := r.open - {key},
           samples := r.samples[key.language := Appended(cap, Samples(r, key.language), g)],
           breaches := r.breaches + if g > slo then 1 else 0)
  }

  class LatencyRecorder {
    const sloSeconds: real
    const sampleCap: nat
    var epoch: Option<real>
    var open: map<Key, Trace>
    var g2g: map<string, seq<real>>
    var stages: map<(string, string), seq<real>>
    var breaches: nat

    function State(): Recorder
      reads this
    {
      Recorder(epoch, open, g2g, breaches)
    }

    /** Every open trace is filed under its own key and not yet published. */
    predicate Valid()
      reads this
    {
      forall k | k in open :: open[k].key == k && Published !in open[k].marks
    }

    constructor (sloSeconds: real, sampleCap: nat)
      ensures Valid() && State() == NO_TRACES && stages == map[]
      ensures this.sloSeconds == sloSeconds && this.sampleCap == sampleCap
    {
      this.sloSeconds, this.sampleCap := sloSeconds, sampleCap;
      epoch, open, g2g, stages, breaches := None, map[], map[], map[], 0;
    }

    method Anchor(tAudio: real, tWall: real)
      requires Valid()
      modifies this`epoch
      ensures Valid() && State() == Anchored(old(State()), tAudio, tWall)
    {
      if epoch.None? {
        epoch := Some(tWall - tAudio);
      }
    }

    /** Before the first frame there is no clock, and nothing is opened. */
    method OpenChunk(key: Key, tAudioEnd: real) returns (ok: bool)
      requires Valid()
      modifies this`open
      ensures Valid() && ok == epoch.Some?
      ensures State() == if ok then Opened(old(State()), key, tAudioEnd) else old(State())
    {
      if epoch.None? {
        return false;
      }
      open := open[key := Trace(key, epoch.value + tAudioEnd, map[])];
      ok := true;
    }

    method Mark(key: Key, stage: Stage, wall: real)
      requires Valid()
      modifies this
      ensures Valid() && State() == Marked(sampleCap, sloSeconds, old(State()), key, stage, wall)
      ensures var t := if key in old(open) && stage == Published
                       then Breakdown(MarkOnce(old(open)[key], stage, wall)) else [];
              stages == StagesAfter(sampleCap, old(stages), key.language, t)
    {
      if key !in open {
        return;
      }
      var trace := MarkOnce(open[key], stage, wall);
      open := open[key := trace];
      if stage == Published {
        CloseTrace(trace);
      }
    }

    method CloseTrace(trace: Trace)
      requires Published in trace.marks && trace.key in open
      requires forall k | k in open && k != trace.key :: open[k].key == k && Published !in open[k].marks
      modifies this
      ensures Valid() && epoch == old(epoch) && open == old(open) - {trace.key}
      ensures var g := trace.marks[Published] - trace.audioEndWall;
              && g2g == old(g2g)[trace.key.language :=
                                   Appended(sampleCap, Samples(old(State()), trace.key.language), g)]
              && breaches == old(breaches) + if g > sloSeconds then 1 else 0
      ensures stages == StagesAfter(sampleCap, old(stages), trace.key.language, Breakdown(trace))
    {
      var language, g := trace.key.language, trace.marks[Published] - trace.audioEndWall;
      var target := if language in g2g then g2g[language] else [];
      g2g := g2g[language := Appended(sampleCap, target, g)];
      AppendStages(language, Breakdown(trace));
      if g > sloSeconds {
        breaches := breaches + 1;
      }
      open := open - {trace.key};
    }

    /** The loop of `_close` over the breakdown. */
    method AppendStages(language: string, parts: seq<(string, real)>)
      modifies this`stages
      ensures stages == StagesAfter(sampleCap, old(stages), language, parts)
    {
      ghost var all := StagesAfter(sampleCap, stages, language, parts);
      for i := 0 to |parts|
        invariant StagesAfter(sampleCap, stages, language, parts[i..]) == all
      {
        var slot := (language, parts[i].0);
        var samples := if slot in stages then stages[slot] else [];
        assert parts[i..][0] == parts[i] && parts[i..][1..] == parts[i + 1..];
        stages := stages[slot := Appended(sampleCap, samples, parts[i].1)];
      }
    }
  }

  /** Each stage duration goes to its own capped list. */
  function StagesAfter(cap: nat, stages: map<(string, string), seq<real>>, language: string, parts: seq<(string, real)>)
    : map<(string, string), seq<real>>
    decreases |parts|
  {
    if parts == [] then stages
    else
      var slot := (language, parts[0].0);
      var samples := if slot in stages then stages[slot] else [];
      StagesAfter(cap, stages[slot := Appended(cap, samples, parts[0].1)], language, parts[1..])
  }

  predicate NamesDiffer(parts: seq<(string, real)>) {
    forall i, j | 0 <= i < j < |parts| :: parts[i].0 != parts[j].0
  }

  /** Each part joins the capped list of its own language and stage, and every other list stays as it was. */
  lemma {:induction false} StagesAfterEach(cap: nat, stages: map<(string, string), seq<real>>, language: string,
                                           parts: seq<(string, real)>)
    requires NamesDiffer(parts)
    ensures var after := StagesAfter(cap, stages, language, parts);
            && (forall i | 0 <= i < |parts| ::
                  && (language, parts[i].0) in after
                  && after[(language, parts[i].0)]
                     == Appended(cap, if (language, parts[i].0) in stages then stages[(language, parts[i].0)] else [],
                                 parts[i].1))
            && (forall slot | slot in stages
                    && (slot.0 != language || forall i | 0 <= i < |parts| :: parts[i].0 != slot.1) ::
                  slot in after && after[slot] == stages[slot])
    decreases |parts|
  {
    if parts != [] {
      var slot := (language, parts[0].0);
      var next := stages[slot := Appended(cap, if slot in stages then stages[slot] else [], parts[0].1)];
      StagesAfterEach(cap, next, language, parts[1..]);
      assert forall i | 1 <= i < |parts| :: parts[i] == parts[1..][i - 1];
    }
  }

  /** A closed trace files each of its stages under its language and the stage's name, and nothing else moves. */
  lemma {:induction false} StagesAreFiled(cap: nat, stages: map<(string, string), seq<real>>, t: Trace, name: string,
                                          seconds: real)
    requires (name, seconds) in Breakdown(t)
    ensures var slot, after := (t.key.language, name), StagesAfter(cap, stages, t.key.language, Breakdown(t));
            slot in after && after[slot] == Appended(cap, if slot in stages then stages[slot] else [], seconds)
    ensures forall slot | slot in stages && slot.0 != t.key.language ::
              var after := StagesAfter(cap, stages, t.key.language, Breakdown(t));
              slot in after && after[slot] == stages[slot]
  {
    var parts := Breakdown(t);
    BreakdownNamesDiffer(t);
    StagesAfterEach(cap, stages, t.key.language, parts);
    var i :| 0 <= i < |parts| && parts[i] == (name, seconds);
    assert StagesAfter(cap, stages, t.key.language, parts)[(t.key.language, parts[i].0)]
           == Appended(cap, if (t.key.language, name) in stages then stages[(t.key.language, name)] else [], seconds);
  }

  lemma {:induction false} BreakdownNamesDiffer(t: Trace)
    ensures NamesDiffer(Breakdown(t))
  {
  }

  // ---------------------------------------------------------------- accounting over a run

  datatype Event =
    | Anchor(tAudio: real, tWall: real)
    | Open(key: Key, tAudioEnd: real)
    | Mark(key: Key, stage: Stage, wall: real)

  datatype Closing = Closing(key: Key, seconds: real)

  datatype History = History(recorder: Recorder, begun: set<Key>, closed: seq<Closing>)

  /** Phrase and language pairs are opened at most once, as the session's increasing ids make them. */
  predicate Possible(h: History, e: Event) {
    match e
    case Anchor(_, _) => true
    case Open(key, _) => h.recorder.epoch.Some? && key !in h.begun
    case Mark(_, _, _) => true
  }

  function Step(cap: nat, slo: real, h: History, e: Event): History
    requires Possible(h, e)
  {
    match e
    case Anchor(tAudio, tWall) => h.(recorder := Anchored(h.recorder, tAudio, tWall))
    case Open(key, t) => h.(recorder := Opened(h.recorder, key, t), begun := h.begun + {key})
    case Mark(key, stage, wall) =>
      h.(recorder := Marked(cap, slo, h.recorder, key, stage, wall),
         closed := if key in h.recorder.open && stage == Published
                   then h.closed + [Closing(key, MarkOnce(h.recorder.open[key], stage, wall).marks[Published]
                                                 - h.recorder.open[key].audioEndWall)]
                   else h.closed)
  }

  predicate IsRun(cap: nat, slo: real, h: History, events: seq<Event>, h': History)
    decreases |events|
  {
    if events == [] then h == h'
    else Possible(h, events[0]) && IsRun(cap, slo, Step(cap, slo, h, events[0]), events[1..], h')
  }

  /** The latencies closed for a language, in closing order. */
  function ClosedFor(closed: seq<Closing>, language: string): seq<real> {
    if closed == [] then []
    else
      var last := closed[|closed| - 1];
      ClosedFor(closed[..|closed| - 1], language) + if last.key.language == language then [last.seconds] else []
  }

  function Latest(cap: nat, s: seq<real>): seq<real> { if |s| <= cap then s else s[|s| - cap..] }

  predicate Distinct(closed: seq<Closing>) {
    forall i, j | 0 <= i < j < |closed| :: closed[i].key != closed[j].key
  }

  ghost predicate IsClosed(closed: seq<Closing>, key: Key) {
    exists i :: 0 <= i < |closed| && closed[i].key == key
  }

  ghost predicate Inv(cap: nat, h: History) {
    && (forall k: Key :: k in h.begun <==> k in h.recorder.open || IsClosed(h.closed, k))
    && (forall k: Key :: !(k in h.recorder.open && IsClosed(h.closed, k)))
    && Distinct(h.closed)
    && |h.begun| == |h.closed| + |h.recorder.open|
    && (forall l: string :: Samples(h.recorder, l) == Latest(cap, ClosedFor(h.closed, l)))
  }

  /** A new recorder, its clock not yet anchored. */
  const NOTHING_YET := History(NO_TRACES, {}, [])

  lemma {:induction false} FreshIsAccounted(cap: nat)
    ensures Inv(cap, NOTHING_YET)
  {
  }

  lemma {:induction false} ClosedAppend(closed: seq<Closing>, c: Closing)
    ensures forall k: Key :: IsClosed(closed + [c], k) <==> IsClosed(closed, k) || k == c.key
    ensures forall l: string ::
              ClosedFor(closed + [c], l) == ClosedFor(closed, l) + if c.key.language == l then [c.seconds] else []
  {
    var longer := closed + [c];
    assert longer[..|closed|] == closed;
    assert longer[|closed|] == c;
    forall k: Key
      ensures IsClosed(longer, k) <==> IsClosed(closed, k) || k == c.key
    {
      if IsClosed(closed, k) {
        var i :| 0 <= i < |closed| && closed[i].key == k;
        assert longer[i].key == k;
      }
    }
  }

  lemma {:induction false} OpenKeepsInv(cap: nat, slo: real, h: History, key: Key, tAudioEnd: real)
    requires Inv(cap, h) && Possible(h, Open(key, tAudioEnd))
    ensures Inv(cap, Step(cap, slo, h, Open(key, tAudioEnd)))
  {
    var h' := Step(cap, slo, h, Open(key, tAudioEnd));
    assert h'.recorder.open.Keys == h.recorder.open.Keys + {key};
  }

  lemma {:induction false} MarkKeepsInv(cap: nat, slo: real, h: History, key: Key, stage: Stage, wall: real)
    requires Inv(cap, h)
    ensures Inv(cap, Step(cap, slo, h, Mark(key, stage, wall)))
  {
    var h' := Step(cap, slo, h, Mark(key, stage, wall));
    if key in h.recorder.open {
      if stage != Published {
        assert h'.recorder.open.Keys == h.recorder.open.Keys;
      } else {
        ClosingKeepsInv(cap, h, h', h'.closed[|h.closed|]);
      }
    }
  }

  lemma {:induction false} ClosingKeepsInv(cap: nat, h: History, h': History, c: Closing)
    requires Inv(cap, h) && c.key in h.recorder.open
    requires h'.begun == h.begun && h'.closed == h.closed + [c]
    requires h'.recorder.open == h.recorder.open - {c.key}
    requires h'.recorder.samples
          == h.recorder.samples[c.key.language := Appended(cap, Samples(h.recorder, c.key.language), c.seconds)]
    ensures Inv(cap, h')
  {
    assert h'.recorder.open.Keys == h.recorder.open.Keys - {c.key};
    ClosedAppend(h.closed, c);
    ClosingKeepsSamples(cap, h, h', c.key);
  }

  lemma {:induction false} AppendedIsLatest(cap: nat, before: seq<real>, g: real)
    ensures Appended(cap, Latest(cap, before), g) == Latest(cap, before + [g])
  {
  }

  lemma {:induction false} ClosingKeepsSamples(cap: nat, h: History, h': History, key: Key)
    requires forall l: string :: Samples(h.recorder, l) == Latest(cap, ClosedFor(h.closed, l))
    requires |h'.closed| == |h.closed| + 1 && h'.closed[|h.closed|].key == key
    requires var g := h'.closed[|h.closed|].seconds;
             && h'.recorder.samples
                == h.recorder.samples[key.language := Appended(cap, Samples(h.recorder, key.language), g)]
             && forall l: string ::
                  ClosedFor(h'.closed, l) == ClosedFor(h.closed, l) + if key.language == l then [g] else []
    ensures forall l: string :: Samples(h'.recorder, l) == Latest(cap, ClosedFor(h'.closed, l))
  {
    forall l: string
      ensures Samples(h'.recorder, l) == Latest(cap, ClosedFor(h'.closed, l))
    {
      var before := ClosedFor(h.closed, l);
      if l == key.language {
        AppendedIsLatest(cap, before, h'.closed[|h.closed|].seconds);
      } else {
        assert ClosedFor(h'.closed, l) == before + [] == before;
      }
    }
  }

  lemma {:induction false} RunKeepsInv(cap: nat, slo: real, h: History, events: seq<Event>, h': History)
    requires Inv(cap, h) && IsRun(cap, slo, h, events, h')
    ensures Inv(cap, h')
    decreases |events|
  {
    if events != [] {
      match events[0] {
        case Anchor(_, _) =>
        case Open(key, t) => OpenKeepsInv(cap, slo, h, key, t);
        case Mark(key, stage, wall) => MarkKeepsInv(cap, slo, h, key, stage, wall);
      }
      RunKeepsInv(cap, slo, Step(cap, slo, h, events[0]), events[1..], h');
    }
  }

  /** Over every run of a recorder: traces opened are traces closed plus traces open, each closes at most
      once, and the samples kept for a language are exactly its last `cap` closings, in closing order. */
  lemma {:induction false} EveryRunIsAccounted(cap: nat, slo: real, events: seq<Event>, h: History)
    requires IsRun(cap, slo, NOTHING_YET, events, h)
    ensures |h.begun| == |h.closed| + |h.recorder.open| && Distinct(h.closed)
    ensures forall k: Key :: k in h.begun <==> k in h.recorder.open || IsClosed(h.closed, k)
    ensures forall l: string :: Samples(h.recorder, l) == Latest(cap, ClosedFor(h.closed, l))
  {
    FreshIsAccounted(cap);
    RunKeepsInv(cap, slo, NOTHING_YET, events, h);
  }

  // ---------------------------------------------------------------- percentiles

  predicate Ascending(s: seq<real>) { forall i, j | 0 <= i <= j < |s| :: s[i] <= s[j] }

  function Insert(x: real, s: seq<real>): seq<real> {
    if s == [] || x <= s[0] then [x] + s else [s[0]] + Insert(x, s[1..])
  }

  function Sorted(values: seq<real>): seq<real> {
    if values == [] then [] else Insert(values[0], Sorted(values[1..]))
  }

  lemma {:induction false} InsertKeepsAll(x: real, s: seq<real>)
    ensures multiset(Insert(x, s)) == multiset(s) + multiset{x}
  {
    if s != [] && s[0] < x {
      InsertKeepsAll(x, s[1..]);
      assert s == [s[0]] + s[1..];
    }
  }

  lemma {:induction false} InsertSorts(x: real, s: seq<real>)
    requires Ascending(s)
    ensures Ascending(Insert(x, s))
    ensures |Insert(x, s)| == |s| + 1 && Insert(x, s)[0] == if s == [] || x <= s[0] then x else s[0]
  {
    if s != [] && s[0] < x {
      InsertSorts(x, s[1..]);
    }
  }

  lemma {:induction false} SortedSorts(values: seq<real>)
    ensures Ascending(Sorted(values)) && multiset(Sorted(values)) == multiset(values)
    ensures |Sorted(values)| == |values|
  {
    if values != [] {
      SortedSorts(values[1..]);
      InsertSorts(values[0], Sorted(values[1..]));
      InsertKeepsAll(values[0], Sorted(values[1..]));
      assert values == [values[0]] + values[1..];
    }
  }

  function Blend(a: real, b: real, t: real): real { a + (b - a) * t }

  /** Reading between two neighbours of an ascending list, at a fractional index. */
  function At(s: seq<real>, k: real): real
    requires s != [] && 0.0 <= k <= (|s| - 1) as real
  {
    var lo := k.Floor;
    var hi := if lo + 1 < |s| - 1 then lo + 1 else |s| - 1;
    Blend(s[lo], s[hi], k - lo as real)
  }

  /** The fractional index of a percentile is `pct` of the way to the last entry. */
  function Percentile(values: seq<real>, pct: real): real
    requires 0.0 <= pct <= 1.0
  {
    if values == [] then 0.0
    else
      SortedSorts(values);
      IndexInRange(|values| - 1, pct, pct);
      At(Sorted(values), Times(|values| - 1, pct))
  }

  lemma {:induction false} IndexInRange(n: nat, p: real, q: real)
    requires 0.0 <= p <= q <= 1.0
    ensures 0.0 <= Times(n, p) <= Times(n, q) <= n as real
  {
    if n > 0 {
      IndexInRange(n - 1, p, q);
    }
  }

  lemma {:induction false} BlendMonotone(a: real, b: real, t: real, u: real)
    requires a <= b && 0.0 <= t <= u <= 1.0
    ensures a <= Blend(a, b, t) <= Blend(a, b, u) <= b
  {
    var d := b - a;
    Product(d, t);
    Product(d, u - t);
    Product(d, 1.0 - u);
    assert d * (u - t) == d * u - d * t && d * (1.0 - u) == d - d * u;
  }

  lemma {:induction false} Product(a: real, b: real)
    requires a >= 0.0 && b >= 0.0
    ensures a * b >= 0.0
  {
  }

  /** A reading lies between the two entries around it. */
  lemma {:induction false} AtIsBetween(s: seq<real>, k: real)
    requires s != [] && 0.0 <= k <= (|s| - 1) as real && Ascending(s)
    ensures s[k.Floor] <= At(s, k)
    ensures At(s, k) <= s[if k.Floor + 1 < |s| - 1 then k.Floor + 1 else |s| - 1]
  {
    var lo := k.Floor;
    var hi := if lo + 1 < |s| - 1 then lo + 1 else |s| - 1;
    BlendMonotone(s[lo], s[hi], k - lo as real, k - lo as real);
  }

  lemma {:induction false} AtInRange(s: seq<real>, k: real)
    requires s != [] && 0.0 <= k <= (|s| - 1) as real && Ascending(s)
    ensures s[0] <= At(s, k) <= s[|s| - 1]
  {
    AtIsBetween(s, k);
  }

  lemma {:induction false} AtMonotone(s: seq<real>, k: real, l: real)
    requires s != [] && 0.0 <= k <= l <= (|s| - 1) as real && Ascending(s)
    ensures At(s, k) <= At(s, l)
  {
    if k.Floor == l.Floor {
      var lo := k.Floor;
      var hi := if lo + 1 < |s| - 1 then lo + 1 else |s| - 1;
      BlendMonotone(s[lo], s[hi], k - lo as real, l - lo as real);
    } else {
      AtIsBetween(s, k);
      AtIsBetween(s, l);
    }
  }

  /** Percentiles rise with the percentage and lie between the smallest and the largest sample. */
  lemma {:induction false} PercentileMonotone(values: seq<real>, p: real, q: real)
    requires 0.0 <= p <= q <= 1.0 && values != []
    ensures Sorted(values) != []
    ensures Sorted(values)[0] <= Percentile(values, p) <= Percentile(values, q) <= Sorted(values)[|Sorted(values)| - 1]
  {
    SortedSorts(values);
    var s, n := Sorted(values), |values| - 1;
    IndexInRange(n, p, q);
    AtMonotone(s, Times(n, p), Times(n, q));
    AtInRange(s, Times(n, p));
    AtInRange(s, Times(n, q));
  }

  /** Between the i-th smallest sample and the next, a percentile lies as far along as its rank does. */
  lemma {:induction false} PercentileInterpolates(values: seq<real>, i: nat, t: real, pct: real)
    requires i + 1 < |values| && 0.0 <= t <= 1.0 && 0.0 <= pct <= 1.0
    requires pct * (|values| - 1) as real == i as real + t
    ensures |Sorted(values)| == |values| && multiset(Sorted(values)) == multiset(values) && Ascending(Sorted(values))
    ensures Percentile(values, pct) == Sorted(values)[i] + (Sorted(values)[i + 1] - Sorted(values)[i]) * t
  {
    Rank(|values| - 1, pct, i as real + t);
    InterpolatesAtRank(values, i, t, pct);
  }

  lemma {:induction false} InterpolatesAtRank(values: seq<real>, i: nat, t: real, pct: real)
    requires i + 1 < |values| && 0.0 <= t <= 1.0 && 0.0 <= pct <= 1.0
    requires Times(|values| - 1, pct) == i as real + t
    ensures |Sorted(values)| == |values| && multiset(Sorted(values)) == multiset(values) && Ascending(Sorted(values))
    ensures Percentile(values, pct) == Sorted(values)[i] + (Sorted(values)[i + 1] - Sorted(values)[i]) * t
  {
    SortedSorts(values);
    AtInterpolates(Sorted(values), i, t);
  }

  lemma {:induction false} Rank(n: nat, pct: real, rank: real)
    requires pct * n as real == rank
    ensures Times(n, pct) == rank
  {
    TimesIsProduct(n, pct);
  }

  lemma {:induction false} AtInterpolates(s: seq<real>, i: nat, t: real)
    requires i + 1 < |s| && 0.0 <= t <= 1.0
    ensures At(s, i as real + t) == s[i] + (s[i + 1] - s[i]) * t
  {
    if t < 1.0 {
      assert (i as real + t).Floor == i;
    } else {
      assert (i as real + t).Floor == i + 1;
      assert Blend(s[i + 1], s[if i + 2 < |s| - 1 then i + 2 else |s| - 1], 0.0) == s[i + 1];
    }
  }

  /** `max` of the samples, and 0 for none, as `stats` reports it. */
  function Worst(values: seq<real>): real {
    if values == [] then 0.0
    else if |values| == 1 then values[0]
    else Max(values[0], Worst(values[1..]))
  }

  lemma {:induction false} WorstIsMax(values: seq<real>)
    requires values != []
    ensures Worst(values) in values
    ensures forall v | v in values :: v <= Worst(values)
  {
    if |values| > 1 {
      WorstIsMax(values[1..]);
      assert values == [values[0]] + values[1..];
    }
  }

  /** What `stats` reports is in order, with or without samples: p50 <= p95 <= p99 <= worst. */
  lemma {:induction false} StatsAreOrdered(values: seq<real>)
    ensures Percentile(values, 0.50) <= Percentile(values, 0.95) <= Percentile(values, 0.99) <= Worst(values)
  {
    if values != [] {
      PercentileMonotone(values, 0.50, 0.95);
      PercentileMonotone(values, 0.95, 0.99);
      SortedSorts(values);
      var last := Sorted(values)[|values| - 1];
      assert last in multiset(Sorted(values));
      assert last in values;
      WorstIsMax(values);
    }
  }
}
