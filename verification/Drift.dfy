/** Playout drift: how fast the next phrase is spoken, and when one is dropped. */
module Drift {
  import opened Options
  import opened Sequences
  import opened Durations

  datatype DriftPolicy = DriftPolicy(comfortableS: real, speedupAtS: real, skipAtS: real, maxSpeed: real)
  {
    /** What `__post_init__` insists on. */
    predicate Valid() {
      && comfortableS < speedupAtS < skipAtS
      && maxSpeed >= 1.0
      && skipAtS - speedupAtS >= 0.5
    }
  }

  const DEFAULT_POLICY := DriftPolicy(0.5, 1.5, 6.0, 1.3)

  /** Overrides for languages with measurements of their own. */
  const MEASURED: map<string, DriftPolicy> := map["ar" := DriftPolicy(0.4, 1.0, 6.0, 1.3)]

  datatype LanguageDrift = LanguageDrift(queueDepthS: real, peakDepthS: real, skippedPhrases: nat,
                                         skippedSeconds: real, speedupPhrases: nat)

  const AT_REST := LanguageDrift(0.0, 0.0, 0, 0.0, 0)

  function Observed(d: LanguageDrift, depth: real): LanguageDrift {
    d.(queueDepthS := Max(0.0, depth), peakDepthS := Max(d.peakDepthS, Max(0.0, depth)))
  }

  /** How far up the ramp a depth is, from 0 at the speed-up threshold to 1 at the skip threshold. */
  function Ramp(p: DriftPolicy, depth: real): real
    requires p.Valid()
  {
    var fraction := (depth - p.speedupAtS) / (p.skipAtS - p.speedupAtS);
    if fraction < 1.0 then fraction else 1.0
  }

  function Scale(r: real, k: real): real { r * k }

  /** The speaking rate for a queue depth, before it is rounded. */
  function Speed(p: DriftPolicy, depth: real): real
    requires p.Valid()
  {
    if depth <= p.speedupAtS then 1.0 else 1.0 + Scale(Ramp(p, depth), p.maxSpeed - 1.0)
  }

  /** Rounding to three decimals, ties to the even one. */
  function Rounded(x: real): real {
    var below := (x * 1000.0).Floor;
    var rest := x * 1000.0 - below as real;
    (if rest < 0.5 || (rest == 0.5 && below % 2 == 0) then below else below + 1) as real / 1000.0
  }

  predicate SkipDue(p: DriftPolicy, depth: real) { depth >= p.skipAtS }

  class DriftController {
    const defaultPolicy: DriftPolicy
    const policies: map<string, DriftPolicy>
    var state: map<string, LanguageDrift>

    ghost predicate Valid()
      reads this
    {
      && defaultPolicy.Valid()
      && (forall l | l in policies :: policies[l].Valid())
    }

    /** For each language of the session an explicit policy comes first, then a measured one, then the default. */
    constructor (languages: set<string>, defaultPolicy: Option<DriftPolicy>, overrides: map<string, DriftPolicy>)
      requires defaultPolicy.Some? ==> defaultPolicy.value.Valid()
      requires forall l | l in overrides :: overrides[l].Valid()
      ensures Valid() && state == map l | l in languages :: AT_REST
      ensures this.defaultPolicy == if defaultPolicy.Some? then defaultPolicy.value else DEFAULT_POLICY
      ensures forall l | l in languages && l in overrides :: PolicyFor(l) == overrides[l]
      ensures forall l | l in languages && l !in overrides && l in MEASURED :: PolicyFor(l) == MEASURED[l]
      ensures forall l | l in languages && l !in overrides && l !in MEASURED :: PolicyFor(l) == this.defaultPolicy
      ensures forall l | l !in languages :: PolicyFor(l) == this.defaultPolicy
    {
      var fallback := if defaultPolicy.Some? then defaultPolicy.value else DEFAULT_POLICY;
      this.defaultPolicy := fallback;
      policies := map l | l in languages ::
        if l in overrides then overrides[l] else if l in MEASURED then MEASURED[l] else fallback;
      state := map l | l in languages :: AT_REST;
    }

    function PolicyFor(language: string): DriftPolicy {
      if language in policies then policies[language] else defaultPolicy
    }

    /** A language with no drift state is left alone. */
    method Observe(language: string, depth: real)
      requires Valid()
      modifies this
      ensures Valid()
      ensures state == if language in old(state) then old(state)[language := Observed(old(state)[language], depth)]
                       else old(state)
    {
      if language !in state {
        return;
      }
      state := state[language := Observed(state[language], depth)];
    }

    method SpeedFor(language: string) returns (speed: real)
      requires Valid()
      modifies this
      ensures Valid()
      ensures language !in old(state) ==> speed == 1.0 && state == old(state)
      ensures language in old(state) ==>
                var d, p := old(state)[language], PolicyFor(language);
                && speed == Rounded(Speed(p, d.queueDepthS))
                && state == if d.queueDepthS <= p.speedupAtS then old(state)
                            else old(state)[language := d.(speedupPhrases := d.speedupPhrases + 1)]
    {
      if language !in state {
        return 1.0;
      }
      var d, policy := state[language], PolicyFor(language);
      var depth := d.queueDepthS;
      if depth <= policy.speedupAtS {
        RoundingIsClose(1.0, 1.0);
        return 1.0;
      }
      var span := policy.skipAtS - policy.speedupAtS;
      var fraction := (depth - policy.speedupAtS) / span;
      if fraction > 1.0 {
        fraction := 1.0;
      }
      speed := 1.0 + fraction * (policy.maxSpeed - 1.0);
      assert speed == Speed(policy, depth);
      speed := Rounded(speed);
      state := state[language := d.(speedupPhrases := d.speedupPhrases + 1)];
    }

    method ShouldSkip(language: string) returns (skip: bool)
      requires Valid()
      ensures skip <==> language in state && SkipDue(PolicyFor(language), state[language].queueDepthS)
    {
      if language !in state {
        return false;
      }
      skip := state[language].queueDepthS >= PolicyFor(language).skipAtS;
    }

    method NoteSkipped(language: string, seconds: real)
      requires Valid()
      modifies this
      ensures Valid()
      ensures language !in old(state) ==> state == old(state)
      ensures language in old(state) ==>
                var d := old(state)[language];
                state == old(state)[language := d.(skippedPhrases := d.skippedPhrases + 1,
                                                   skippedSeconds := d.skippedSeconds + seconds)]
    {
      if language !in state {
        return;
      }
      var d := state[language];
      state := state[language := d.(skippedPhrases := d.skippedPhrases + 1,
                                    skippedSeconds := d.skippedSeconds + seconds)];
    }
  }

  // ---------------------------------------------------------------- the ramp

  lemma {:induction false} ScaleMonotone(a: real, b: real, k: real)
    requires a <= b && k >= 0.0
    ensures Scale(a, k) <= Scale(b, k)
  {
  }

  lemma {:induction false} SignOfProduct(x: real, k: real)
    requires k > 0.0
    ensures x * k >= 0.0 <==> x >= 0.0
  {
  }

  lemma {:induction false} DivideMonotone(a: real, b: real, span: real)
    requires a <= b && span > 0.0
    ensures a / span <= b / span
  {
    var q, r := a / span, b / span;
    assert q * span == a && r * span == b;
    assert (r - q) * span == r * span - q * span;
    SignOfProduct(r - q, span);
  }

  lemma {:induction false} QuotientAgainstOne(a: real, b: real)
    requires a > 0.0 && b > 0.0
    ensures a / b > 0.0
    ensures a / b >= 1.0 <==> a >= b
  {
    DivideMonotone(0.0, a, b);
    assert 0.0 / b == 0.0 && b / b == 1.0;
    if a >= b { DivideMonotone(b, a, b); } else { DivideMonotone(a, b, b); }
    var q := a / b;
    assert q * b == a;
  }

  lemma {:induction false} RampRange(p: DriftPolicy, depth: real)
    requires p.Valid() && depth > p.speedupAtS
    ensures 0.0 < Ramp(p, depth) <= 1.0
    ensures SkipDue(p, depth) <==> Ramp(p, depth) == 1.0
  {
    QuotientAgainstOne(depth - p.speedupAtS, p.skipAtS - p.speedupAtS);
  }

  lemma {:induction false} RampMonotone(p: DriftPolicy, shallow: real, deep: real)
    requires p.Valid() && p.speedupAtS < shallow <= deep
    ensures Ramp(p, shallow) <= Ramp(p, deep)
  {
    DivideMonotone(shallow - p.speedupAtS, deep - p.speedupAtS, p.skipAtS - p.speedupAtS);
  }

  lemma {:induction false} Scaled(r: real, k: real)
    requires 0.0 < r <= 1.0 && k >= 0.0
    ensures 0.0 <= Scale(r, k) <= k
    ensures Scale(r, k) > 0.0 <==> k > 0.0
    ensures r == 1.0 ==> Scale(r, k) == k
  {
    ScaleMonotone(0.0, r, k);
    ScaleMonotone(r, 1.0, k);
  }

  /** Speed stays between 1 and max_speed, is at max_speed whenever a skip is due, and is above 1 exactly
      past the speed-up threshold. */
  lemma {:induction false} SpeedRange(p: DriftPolicy, depth: real)
    requires p.Valid()
    ensures 1.0 <= Speed(p, depth) <= p.maxSpeed
    ensures SkipDue(p, depth) ==> Speed(p, depth) == p.maxSpeed
    ensures Speed(p, depth) > 1.0 <==> depth > p.speedupAtS && p.maxSpeed > 1.0
  {
    if depth > p.speedupAtS {
      RampRange(p, depth);
      Scaled(Ramp(p, depth), p.maxSpeed - 1.0);
    }
  }

  /** A deeper queue is never spoken more slowly. */
  lemma {:induction false} SpeedMonotone(p: DriftPolicy, shallow: real, deep: real)
    requires p.Valid() && shallow <= deep
    ensures Speed(p, shallow) <= Speed(p, deep)
  {
    SpeedRange(p, deep);
    if shallow > p.speedupAtS {
      RampMonotone(p, shallow, deep);
      ScaleMonotone(Ramp(p, shallow), Ramp(p, deep), p.maxSpeed - 1.0);
    }
  }

  /** Between the two thresholds speed lies on the straight line from 1 to max_speed, ends included: no step at
      either threshold, and equal steps in depth make equal steps in speed. */
  lemma {:induction false} SpeedIsLinear(p: DriftPolicy, depth: real)
    requires p.Valid() && p.speedupAtS <= depth <= p.skipAtS
    ensures (Speed(p, depth) - 1.0) * (p.skipAtS - p.speedupAtS) == (depth - p.speedupAtS) * (p.maxSpeed - 1.0)
  {
    var span, above, k := p.skipAtS - p.speedupAtS, depth - p.speedupAtS, p.maxSpeed - 1.0;
    if depth > p.speedupAtS {
      RampRange(p, depth);
      var q := above / span;
      assert q * span == above;
      assert Speed(p, depth) - 1.0 == q * k by {
        RampIsFraction(p, depth);
      }
      Reorder(q, k, span);
    } else {
      assert Speed(p, depth) - 1.0 == 0.0 && above == 0.0;
    }
  }

  lemma {:induction false} RampIsFraction(p: DriftPolicy, depth: real)
    requires p.Valid() && p.speedupAtS < depth <= p.skipAtS
    ensures Ramp(p, depth) == (depth - p.speedupAtS) / (p.skipAtS - p.speedupAtS)
  {
    QuotientAgainstOne(depth - p.speedupAtS, p.skipAtS - p.speedupAtS);
  }

  lemma {:induction false} Reorder(q: real, k: real, span: real)
    ensures (q * k) * span == (q * span) * k
  {
  }

  lemma {:induction false} EqualSteps(p: DriftPolicy, a: real, b: real, c: real, d: real)
    requires p.Valid() && p.speedupAtS <= a <= p.skipAtS && p.speedupAtS <= b <= p.skipAtS
    requires p.speedupAtS <= c <= p.skipAtS && p.speedupAtS <= d <= p.skipAtS && b - a == d - c
    ensures Speed(p, b) - Speed(p, a) == Speed(p, d) - Speed(p, c)
  {
    var x := StepOnLine(p, a, b, b - a);
    var y := StepOnLine(p, c, d, b - a);
    Cancel(x, y, p.skipAtS - p.speedupAtS);
  }

  lemma {:induction false} StepOnLine(p: DriftPolicy, a: real, b: real, step: real) returns (x: real)
    requires p.Valid() && p.speedupAtS <= a <= p.skipAtS && p.speedupAtS <= b <= p.skipAtS && b - a == step
    ensures x == Speed(p, b) - Speed(p, a)
    ensures Scale(x, p.skipAtS - p.speedupAtS) == Scale(step, p.maxSpeed - 1.0)
  {
    x := Speed(p, b) - Speed(p, a);
    SpeedIsLinear(p, a);
    SpeedIsLinear(p, b);
    Distribute(Speed(p, b) - 1.0, Speed(p, a) - 1.0, p.skipAtS - p.speedupAtS);
    Distribute(b - p.speedupAtS, a - p.speedupAtS, p.maxSpeed - 1.0);
  }

  lemma {:induction false} Distribute(x: real, y: real, k: real)
    ensures (x - y) * k == x * k - y * k
  {
  }

  lemma {:induction false} Cancel(x: real, y: real, span: real)
    requires span > 0.0 && Scale(x, span) == Scale(y, span)
    ensures x == y
  {
    SignOfProduct(x - y, span);
    SignOfProduct(y - x, span);
    Distribute(x, y, span);
    Distribute(y, x, span);
  }

  /** The measured policy for Arabic corrects sooner and never harder: at every depth it speaks at least as fast as
      the default, faster exactly between its own threshold and the common ceiling. */
  lemma {:induction false} ArabicSpeedsUpSooner(depth: real)
    ensures MEASURED["ar"].Valid() && DEFAULT_POLICY.Valid()
    ensures Speed(DEFAULT_POLICY, depth) <= Speed(MEASURED["ar"], depth)
    ensures Speed(DEFAULT_POLICY, depth) < Speed(MEASURED["ar"], depth) <==> 1.0 < depth < 6.0
  {
    var sooner, usual := MEASURED["ar"], DEFAULT_POLICY;
    if 1.0 < depth < 6.0 {
      SpeedIsLinear(sooner, depth);
      if 1.5 <= depth {
        SpeedIsLinear(usual, depth);
      }
    } else if depth >= 6.0 {
      SpeedRange(sooner, depth);
      SpeedRange(usual, depth);
    }
  }

  /** Rounding moves a speed by at most half a thousandth, keeps the order of speeds, and leaves those with
      three decimals alone. */
  lemma {:induction false} RoundingIsClose(x: real, y: real)
    requires x <= y
    ensures x - 0.0005 <= Rounded(x) <= x + 0.0005
    ensures Rounded(x) <= Rounded(y)
    ensures (x * 1000.0).Floor as real == x * 1000.0 ==> Rounded(x) == x
  {
    var below := (x * 1000.0).Floor;
    assert x * 1000.0 - below as real < 1.0;
    assert below <= (y * 1000.0).Floor;
  }

  /** What lies exactly between two thousandths goes to the even one. */
  lemma {:induction false} TiesGoToEven(x: real, n: int)
    requires x * 1000.0 == n as real + 0.5
    ensures Rounded(x) * 1000.0 == (if n % 2 == 0 then n else n + 1) as real
  {
    assert (x * 1000.0).Floor == n;
  }

  /** The speed handed to synthesis: never below normal, never above max_speed rounded the same way, which it
      reaches whenever a skip is due; and a deeper queue is never spoken more slowly. */
  lemma {:induction false} SpokenSpeedRange(p: DriftPolicy, shallow: real, deep: real)
    requires p.Valid() && shallow <= deep
    ensures 1.0 <= Rounded(Speed(p, shallow)) <= Rounded(Speed(p, deep)) <= Rounded(p.maxSpeed)
    ensures SkipDue(p, deep) ==> Rounded(Speed(p, deep)) == Rounded(p.maxSpeed)
  {
    SpeedRange(p, shallow);
    SpeedRange(p, deep);
    SpeedMonotone(p, shallow, deep);
    RoundingIsClose(1.0, Speed(p, shallow));
    RoundingIsClose(Speed(p, shallow), Speed(p, deep));
    RoundingIsClose(Speed(p, deep), p.maxSpeed);
  }

  // ---------------------------------------------------------------- the playout queue over a run

  /** One language's playout queue: seconds waiting, and seconds of the phrase in hand still to be pushed. */
  datatype Playout = Playout(depth: real, rest: real, speaking: bool)

  datatype PlayEvent =
    | Play(seconds: real)   // audio is played out, as much of it as there is
    | Begin(length: real)   // the worker observes the queue and speaks a phrase or skips it
    | Push(seconds: real)   // a piece of the phrase is handed to the room
    | End                   // the phrase is over

  predicate Possible(longest: real, q: Playout, e: PlayEvent) {
    match e
    case Play(x) => x >= 0.0
    case Begin(length) => !q.speaking && 0.0 <= length <= longest
    case Push(x) => q.speaking && 0.0 <= x <= q.rest
    case End => q.speaking
  }

  function Played(p: DriftPolicy, q: Playout, e: PlayEvent): Playout {
    match e
    case Play(x) => q.(depth := Max(0.0, q.depth - x))
    case Begin(length) =>
      if SkipDue(p, Observed(AT_REST, q.depth).queueDepthS) then q else q.(rest := length, speaking := true)
    case Push(x) => q.(depth := q.depth + x, rest := q.rest - x)
    case End => q.(rest := 0.0, speaking := false)
  }

  const SILENT := Playout(0.0, 0.0, false)

  predicate PlayRun(p: DriftPolicy, longest: real, q: Playout, events: seq<PlayEvent>, q': Playout)
    decreases |events|
  {
    if events == [] then q == q'
    else Possible(longest, q, events[0]) && PlayRun(p, longest, Played(p, q, events[0]), events[1..], q')
  }

  predicate Shallow(p: DriftPolicy, longest: real, q: Playout) {
    0.0 <= q.rest && 0.0 <= q.depth && q.depth + q.rest < p.skipAtS + longest && (!q.speaking ==> q.rest == 0.0)
  }

  /** However playback and speech interleave, the queue stays below the skip threshold plus the longest
      phrase; so a piece of a phrase no longer than what the room's buffer has beyond that threshold always
      fits, and pushing it never blocks. */
  lemma {:induction false} QueueStaysShallow(p: DriftPolicy, longest: real, q: Playout, events: seq<PlayEvent>,
                                             q': Playout, capacity: real)
    requires longest >= 0.0 && Shallow(p, longest, q) && PlayRun(p, longest, q, events, q')
    ensures Shallow(p, longest, q') && q'.depth < p.skipAtS + longest
    ensures longest <= capacity - p.skipAtS ==>
              forall x: real :: Possible(longest, q', Push(x)) ==> q'.depth + x < capacity
    decreases |events|
  {
    if events != [] {
      QueueStaysShallow(p, longest, Played(p, q, events[0]), events[1..], q', capacity);
    }
  }

  /** A session starts with a silent queue, so every run of it is within the bound. */
  lemma {:induction false} SilentIsShallow(p: DriftPolicy, longest: real)
    requires longest >= 0.0 && p.skipAtS > 0.0
    ensures Shallow(p, longest, SILENT)
  {
  }

  lemma {:induction false} RunsCompose(p: DriftPolicy, longest: real, a: Playout, first: seq<PlayEvent>, b: Playout,
                                       second: seq<PlayEvent>, c: Playout)
    requires PlayRun(p, longest, a, first, b) && PlayRun(p, longest, b, second, c)
    ensures PlayRun(p, longest, a, first + second, c)
    decreases |first|
  {
    if first == [] {
      assert first + second == second;
    } else {
      TailAppend(first, second);
      RunsCompose(p, longest, Played(p, a, first[0]), first[1..], b, second, c);
    }
  }

  lemma {:induction false} OneEvent(p: DriftPolicy, longest: real, q: Playout, e: PlayEvent)
    requires Possible(longest, q, e)
    ensures PlayRun(p, longest, q, [e], Played(p, q, e))
  {
    assert [e][1..] == [];
  }

  /** A phrase spoken in one piece onto a queue below the skip threshold. */
  lemma {:induction false} PhraseIsPossible(p: DriftPolicy, longest: real, depth: real, length: real)
    requires 0.0 <= depth < p.skipAtS && 0.0 <= length <= longest
    ensures PlayRun(p, longest, Playout(depth, 0.0, false), [Begin(length)], Playout(depth, length, true))
    ensures PlayRun(p, longest, Playout(depth, 0.0, false), [Begin(length)] + [Push(length)] + [End],
                    Playout(depth + length, 0.0, false))
  {
    var q0, q1, q2 := Playout(depth, 0.0, false), Playout(depth, length, true), Playout(depth + length, 0.0, true);
    OneEvent(p, longest, q0, Begin(length));
    OneEvent(p, longest, q1, Push(length));
    OneEvent(p, longest, q2, End);
    RunsCompose(p, longest, q0, [Begin(length)], q1, [Push(length)], q2);
    RunsCompose(p, longest, q0, [Begin(length)] + [Push(length)], q2, [End], Playout(depth + length, 0.0, false));
  }

  /** Any depth below the skip threshold can come about. */
  lemma {:induction false} DepthIsReachable(p: DriftPolicy, longest: real, depth: real, n: nat)
    returns (events: seq<PlayEvent>)
    requires longest > 0.0 && 0.0 <= depth < p.skipAtS && depth <= Times(n, longest)
    ensures PlayRun(p, longest, SILENT, events, Playout(depth, 0.0, false))
    decreases n
  {
    if depth <= longest {
      PhraseIsPossible(p, longest, 0.0, depth);
      events := [Begin(depth)] + [Push(depth)] + [End];
    } else {
      var before := DepthIsReachable(p, longest, depth - longest, n - 1);
      PhraseIsPossible(p, longest, depth - longest, longest);
      RunsCompose(p, longest, SILENT, before, Playout(depth - longest, 0.0, false),
                  [Begin(longest)] + [Push(longest)] + [End], Playout(depth, 0.0, false));
      events := before + ([Begin(longest)] + [Push(longest)] + [End]);
    }
  }

  lemma {:induction false} EnoughPhrases(depth: real, longest: real) returns (n: nat)
    requires longest > 0.0 && depth >= 0.0
    ensures depth <= Times(n, longest)
  {
    var q := depth / longest;
    assert q * longest == depth;
    n := q.Floor + 1;
    TimesIsProduct(n, longest);
    ScaleMonotone(q, n as real, longest);
  }

  /** No push of any run blocks. */
  ghost predicate NeverBlocks(p: DriftPolicy, longest: real, capacity: real) {
    forall events: seq<PlayEvent>, q: Playout, x: real ::
      PlayRun(p, longest, SILENT, events, q) && Possible(longest, q, Push(x)) ==> q.depth + x < capacity
  }

  /** The room to spare is exactly this: pushes never reach the buffer's end, in any run, if and only if the
      longest phrase fits between the skip threshold and that end. */
  lemma {:induction false} NeverBlocksIff(p: DriftPolicy, longest: real, capacity: real)
    requires longest > 0.0 && p.skipAtS > 0.0
    ensures NeverBlocks(p, longest, capacity) <==> longest <= capacity - p.skipAtS
  {
    if longest <= capacity - p.skipAtS {
      forall events: seq<PlayEvent>, q: Playout, x: real |
        PlayRun(p, longest, SILENT, events, q) && Possible(longest, q, Push(x))
        ensures q.depth + x < capacity
      {
        SilentIsShallow(p, longest);
        QueueStaysShallow(p, longest, SILENT, events, q, capacity);
      }
    } else {
      var spare := longest - (capacity - p.skipAtS);
      var depth := if spare < p.skipAtS then p.skipAtS - spare / 2.0 else p.skipAtS / 2.0;
      var n := EnoughPhrases(depth, longest);
      var before := DepthIsReachable(p, longest, depth, n);
      PhraseIsPossible(p, longest, depth, longest);
      RunsCompose(p, longest, SILENT, before, Playout(depth, 0.0, false), [Begin(longest)],
                  Playout(depth, longest, true));
      assert Possible(longest, Playout(depth, longest, true), Push(longest)) && depth + longest >= capacity;
    }
  }
}
