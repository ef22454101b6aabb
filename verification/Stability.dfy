/** Prefix stability (LocalAgreement-n): a prefix is stable once the last n hypotheses agree on it.

    `Tracker` and the functions on it say what the state is after each call; the class below them
    is the program, and its methods are proved to follow those functions. */
module Stability {
  import opened Options
  import opened Words
  import opened Transcript

  type Normaliser = string -> string

  datatype Tracker = Tracker(window: seq<seq<string>>, surface: seq<string>, firstSeen: map<nat, real>,
                             committed: nat, contradicted: bool)

  const FRESH := Tracker([], [], map[], 0, false)

  datatype Prefix = Prefix(tokens: seq<string>, firstSeenWall: real)

  function Normalised(normalise: Normaliser, tokens: seq<string>): seq<string> {
    seq(|tokens|, i requires 0 <= i < |tokens| => normalise(tokens[i]))
  }

  /** Appending to a deque of bounded length. */
  function Push<T>(n: nat, window: seq<T>, entry: T): seq<T> {
    var longer := window + [entry];
    if |longer| > n then longer[|longer| - n..] else longer
  }

  function PushTimes<T>(n: nat, window: seq<T>, entry: T, times: nat): seq<T>
    decreases times
  {
    if times == 0 then window else PushTimes(n, Push(n, window, entry), entry, times - 1)
  }

  function Shortest(window: seq<seq<string>>): (m: nat)
    requires window != []
    ensures forall i | 0 <= i < |window| :: m <= |window[i]|
  {
    if |window| == 1 then |window[0]|
    else
      var rest := Shortest(window[1..]);
      assert forall i | 1 <= i < |window| :: window[i] == window[1..][i - 1];
      if |window[0]| < rest then |window[0]| else rest
  }

  predicate AgreeAt(window: seq<seq<string>>, i: nat) {
    && (forall k | 0 <= k < |window| :: i < |window[k]|)
    && (forall k | 0 <= k < |window| :: window[k][i] == window[0][i])
  }

  /** Scan up from position i while every hypothesis in the window has the same token there. */
  function AgreedFrom(window: seq<seq<string>>, i: nat): (a: nat)
    requires window != []
    ensures a >= i
    decreases |window[0]| - i
  {
    if AgreeAt(window, i) then AgreedFrom(window, i + 1) else i
  }

  /** Length of the prefix common to a full window. */
  function Agreed(n: nat, window: seq<seq<string>>): nat {
    if |window| < n || window == [] then 0 else AgreedFrom(window, 0)
  }

  /** Whether `_detect_contradiction` raises the flag for this hypothesis. */
  predicate Detects(t: Tracker, normalised: seq<string>) {
    t.committed > 0 &&
    (|normalised| < t.committed ||
     (var previous := if t.window == [] then [] else t.window[|t.window| - 1];
      t.committed <= |previous| && normalised[..t.committed] != previous[..t.committed]))
  }

  /** The tracker after `add(hyp)`. */
  function Added(n: nat, normalise: Normaliser, t: Tracker, hyp: Hypothesis): Tracker {
    var surface := Tokenise(hyp.text);
    var normalised := Normalised(normalise, surface);
    var window := PushTimes(n, t.window, normalised, if hyp.isFinal then n else 1);
    var agreed := Agreed(n, window);
    t.(window := window, surface := surface,
       contradicted := t.contradicted || Detects(t, normalised),
       firstSeen := if agreed in t.firstSeen then t.firstSeen else t.firstSeen[agreed := hyp.tWall])
  }

  /** The agreed prefix beyond what is committed. */
  function Stable(n: nat, t: Tracker): Option<Prefix> {
    var agreed := Agreed(n, t.window);
    var end := if agreed <= |t.surface| then agreed else |t.surface|;
    if agreed <= t.committed || end <= t.committed then None
    else Some(Prefix(t.surface[t.committed..end],
                           if agreed in t.firstSeen then t.firstSeen[agreed] else 0.0))
  }

  // ---------------------------------------------------------------- what the agreed length means

  predicate AgreeOnPrefix(window: seq<seq<string>>, k: nat) {
    && (forall i | 0 <= i < |window| :: k <= |window[i]|)
    && (forall i | 0 <= i < |window| :: window[i][..k] == window[0][..k])
  }

  lemma {:induction false} PrefixAgreesAtEachPosition(window: seq<seq<string>>, k: nat, i: nat)
    requires AgreeOnPrefix(window, k) && i < k
    ensures AgreeAt(window, i)
    ensures AgreeOnPrefix(window, i)
  {
    forall h | 0 <= h < |window|
      ensures window[h][i] == window[0][i] && window[h][..i] == window[0][..i]
    {
      assert window[h][i] == window[h][..k][i] && window[h][..i] == window[h][..k][..i];
      assert window[0][i] == window[0][..k][i] && window[0][..i] == window[0][..k][..i];
    }
  }

  lemma {:induction false} PositionExtendsPrefix(window: seq<seq<string>>, i: nat)
    requires AgreeOnPrefix(window, i) && AgreeAt(window, i)
    ensures AgreeOnPrefix(window, i + 1)
  {
    forall h | 0 <= h < |window|
      ensures window[h][..i + 1] == window[0][..i + 1]
    {
      assert window[h][..i + 1] == window[h][..i] + [window[h][i]];
      assert window[0][..i + 1] == window[0][..i] + [window[0][i]];
    }
  }

  lemma {:induction false} AgreedFromIff(window: seq<seq<string>>, i: nat, k: nat)
    requires window != [] && AgreeOnPrefix(window, i)
    ensures k <= AgreedFrom(window, i) <==> AgreeOnPrefix(window, k)
    decreases |window[0]| - i
  {
    if AgreeAt(window, i) {
      PositionExtendsPrefix(window, i);
      AgreedFromIff(window, i + 1, k);
    } else if k < i {
      PrefixAgreesAtEachPosition(window, i, k);
    } else if AgreeOnPrefix(window, k) && i < k {
      PrefixAgreesAtEachPosition(window, k, i);
    }
  }

  /** LocalAgreement-n: a prefix counts as agreed exactly when the window is full and every hypothesis
      in it starts with that prefix. */
  lemma {:induction false} AgreedIff(n: nat, window: seq<seq<string>>, k: nat)
    requires n >= 1
    ensures k <= Agreed(n, window) <==> k == 0 || (|window| >= n && AgreeOnPrefix(window, k))
  {
    if window != [] {
      AgreedFromIff(window, 0, k);
    }
  }

  // ---------------------------------------------------------------- the program

  class StabilityTracker {
    const n: nat
    const normalise: Normaliser
    var window: seq<seq<string>>
    var latestSurface: seq<string>
    var prefixFirstSeen: map<nat, real>
    var committed: nat
    var contradicted: bool

    function State(): Tracker
      reads this
    {
      Tracker(window, latestSurface, prefixFirstSeen, committed, contradicted)
    }

    constructor (agreementN: nat, normalise: Normaliser)
      requires agreementN >= 1
      ensures n == agreementN && this.normalise == normalise && State() == FRESH
    {
      n, this.normalise := agreementN, normalise;
      window, latestSurface, prefixFirstSeen, committed, contradicted := [], [], map[], 0, false;
    }

    /** An agreement window below 1 is refused. */
    static method Create(agreementN: int, normalise: Normaliser) returns (t: StabilityTracker?)
      ensures t == null <==> agreementN < 1
      ensures t != null ==> fresh(t) && t.n == agreementN && t.normalise == normalise && t.State() == FRESH
    {
      if agreementN < 1 {
        return null;
      }
      t := new StabilityTracker(agreementN, normalise);
    }

    method ResetContradiction() returns (was: bool)
      modifies this`contradicted
      ensures was == old(contradicted) && !contradicted
    {
      was := contradicted;
      contradicted := false;
    }

    method Add(hyp: Hypothesis)
      requires n >= 1
      modifies this
      ensures State() == Added(n, normalise, old(State()), hyp)
    {
      var surface := Tokenise(hyp.text);
      var normalised := Normalised(normalise, surface);
      DetectContradiction(normalised);
      latestSurface := surface;
      if hyp.isFinal {
        for i := 0 to n
          invariant PushTimes(n, old(window), normalised, n) == PushTimes(n, window, normalised, n - i)
          invariant latestSurface == surface && committed == old(committed)
          invariant prefixFirstSeen == old(prefixFirstSeen)
          invariant contradicted == (old(contradicted) || Detects(old(State()), normalised))
        {
          window := Push(n, window, normalised);
        }
      } else {
        assert PushTimes(n, window, normalised, 1) == Push(n, window, normalised);
        window := Push(n, window, normalised);
      }
      RecordFirstSeen(hyp.tWall);
    }

    method DetectContradiction(normalised: seq<string>)
      modifies this`contradicted
      ensures contradicted == (old(contradicted) || Detects(old(State()), normalised))
    {
      if committed == 0 {
        return;
      }
      if |normalised| < committed {
        contradicted := true;
        return;
      }
      var previous := if window == [] then [] else window[|window| - 1];
      if |previous| < committed {
        return;
      }
      if normalised[..committed] != previous[..committed] {
        contradicted := true;
      }
    }

    method RecordFirstSeen(tWall: real)
      requires n >= 1
      modifies this`prefixFirstSeen
      ensures var agreed := Agreed(n, window);
              prefixFirstSeen == if agreed in old(prefixFirstSeen) then old(prefixFirstSeen)
                                 else old(prefixFirstSeen)[agreed := tWall]
    {
      var length := AgreedLength();
      if length !in prefixFirstSeen {
        prefixFirstSeen := prefixFirstSeen[length := tWall];
      }
    }

    method AgreedLength() returns (agreed: nat)
      requires n >= 1
      ensures agreed == Agreed(n, window)
    {
      if |window| < n {
        return 0;
      }
      var shortest := Shortest(window);
      agreed := 0;
      for i := 0 to shortest
        invariant agreed == i
        invariant AgreedFrom(window, 0) == AgreedFrom(window, i)
      {
        if AgreeAt(window, i) {
          agreed := i + 1;
        } else {
          return;
        }
      }
      ShortestStopsAgreement(window);
    }

    method StablePrefix() returns (prefix: Option<Prefix>)
      requires n >= 1
      ensures prefix == Stable(n, State())
    {
      var agreed := AgreedLength();
      if agreed <= committed {
        return None;
      }
      var end := if agreed <= |latestSurface| then agreed else |latestSurface|;
      if end <= committed {
        return None;
      }
      var tokens := latestSurface[committed..end];
      prefix := Some(Prefix(tokens, if agreed in prefixFirstSeen then prefixFirstSeen[agreed] else 0.0));
    }

    method Commit(tokenCount: nat)
      modifies this`committed
      ensures committed == old(committed) + tokenCount
    {
      committed := committed + tokenCount;
    }
  }

  /** The shortest hypothesis ends the scan. */
  lemma {:induction false} ShortestStopsAgreement(window: seq<seq<string>>)
    requires window != []
    ensures !AgreeAt(window, Shortest(window))
  {
    var i := ShortestAt(window);
    assert |window[i]| == Shortest(window);
  }

  lemma {:induction false} ShortestAt(window: seq<seq<string>>) returns (i: nat)
    requires window != []
    ensures i < |window| && |window[i]| == Shortest(window)
  {
    if |window| == 1 || |window[0]| < Shortest(window[1..]) {
      i := 0;
    } else {
      i := ShortestAt(window[1..]);
      i := i + 1;
    }
  }
}
