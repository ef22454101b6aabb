/** Which feature frames form each encoder step, in absolute frame indices. */
module Schedule {
  import opened Options

  /** The encoder's streaming configuration: first step, then every step after. */
  datatype StreamingGeometry = StreamingGeometry(chunkFirst: nat, chunk: nat, shiftFirst: nat, shift: nat,
                                                 cacheFirst: nat, cache: nat, dropExtra: nat)
  {
    /** `offer` ends only when every step moves the cursor. */
    predicate Advances() { shiftFirst >= 1 && shift >= 1 }
  }

  datatype ChunkPlan = ChunkPlan(step: nat, start: nat, end: nat, cacheStart: nat, zeroPad: nat, dropExtra: nat)
  {
    predicate Valid() { cacheStart <= start <= end }

    /** Frames handed to the encoder, history and padding included. */
    function Width(): nat
      requires Valid()
    {
      zeroPad + (start - cacheStart) + (end - start)
    }

    predicate Covers(frame: nat) { start <= frame < end }
  }

  /** Where a schedule stands. */
  datatype Position = Position(step: nat, cursor: nat)

  const ORIGIN := Position(0, 0)

  function Chunk(g: StreamingGeometry, step: nat): nat { if step == 0 then g.chunkFirst else g.chunk }
  function Shift(g: StreamingGeometry, step: nat): nat { if step == 0 then g.shiftFirst else g.shift }
  function Cache(g: StreamingGeometry, step: nat): nat { if step == 0 then g.cacheFirst else g.cache }
  function Drop(g: StreamingGeometry, step: nat): nat { if step == 0 then 0 else g.dropExtra }

  function Min(a: nat, b: nat): nat { if a <= b then a else b }

  /** The step that begins at a position and ends at a given frame. */
  function PlanTo(g: StreamingGeometry, p: Position, end: nat): ChunkPlan {
    var cache := Cache(g, p.step);
    var history := Min(cache, p.cursor);
    ChunkPlan(p.step, p.cursor, end, p.cursor - history, cache - history, Drop(g, p.step))
  }

  function Next(g: StreamingGeometry, p: Position): Position {
    Position(p.step + 1, p.cursor + Shift(g, p.step))
  }

  predicate Runnable(g: StreamingGeometry, p: Position, available: nat) {
    p.cursor + Chunk(g, p.step) <= available
  }

  /** The steps `offer` returns when `available` frames have arrived. */
  function Plans(g: StreamingGeometry, p: Position, available: nat): seq<ChunkPlan>
    requires g.Advances()
    decreases if p.cursor <= available then available - p.cursor + 1 else 0
  {
    if Runnable(g, p, available) then
      [PlanTo(g, p, p.cursor + Chunk(g, p.step))] + Plans(g, Next(g, p), available)
    else []
  }

  /** Where `offer` leaves the schedule. */
  function Landing(g: StreamingGeometry, p: Position, available: nat): Position
    requires g.Advances()
    decreases if p.cursor <= available then available - p.cursor + 1 else 0
  {
    if Runnable(g, p, available) then Landing(g, Next(g, p), available) else p
  }

  /** The final short step, if anything is left over. */
  function Flush(g: StreamingGeometry, p: Position, available: nat): Option<ChunkPlan> {
    if available <= p.cursor then None else Some(PlanTo(g, p, available))
  }

  /** Oldest frame the next step could still need. */
  function RetainFrom(g: StreamingGeometry, p: Position): nat {
    if p.cursor >= Cache(g, p.step) then p.cursor - Cache(g, p.step) else 0
  }

  /** With `done` already returned, offering on from a position gives `target` in all. */
  predicate OffersOn(g: StreamingGeometry, p: Position, available: nat, done: seq<ChunkPlan>, target: seq<ChunkPlan>,
                     landing: Position)
    requires g.Advances()
  {
    done + Plans(g, p, available) == target && Landing(g, p, available) == landing
  }

  lemma {:induction false} OfferOnce(g: StreamingGeometry, p: Position, available: nat, done: seq<ChunkPlan>,
                                     target: seq<ChunkPlan>, landing: Position)
    requires g.Advances() && OffersOn(g, p, available, done, target, landing) && Runnable(g, p, available)
    ensures OffersOn(g, Next(g, p), available, done + [PlanTo(g, p, p.cursor + Chunk(g, p.step))], target, landing)
  {
    var first, rest := PlanTo(g, p, p.cursor + Chunk(g, p.step)), Plans(g, Next(g, p), available);
    assert done + ([first] + rest) == done + [first] + rest;
  }

  class ChunkSchedule {
    const geometry: StreamingGeometry
    var step: nat
    var cursor: nat

    function At(): Position
      reads this
    {
      Position(step, cursor)
    }

    constructor (geometry: StreamingGeometry)
      ensures this.geometry == geometry && At() == ORIGIN
    {
      this.geometry := geometry;
      step, cursor := 0, 0;
    }

    method Offer(available: nat) returns (plans: seq<ChunkPlan>)
      requires geometry.Advances()
      modifies this
      ensures plans == Plans(geometry, old(At()), available)
      ensures At() == Landing(geometry, old(At()), available)
    {
      plans := [];
      ghost var target, landing := Plans(geometry, At(), available), Landing(geometry, At(), available);
      while true
        invariant OffersOn(geometry, At(), available, plans, target, landing)
        decreases if cursor <= available then available - cursor + 1 else 0
      {
        var chunk, shift, cache, drop :=
          Chunk(geometry, step), Shift(geometry, step), Cache(geometry, step), Drop(geometry, step);
        var end := cursor + chunk;
        if end > available {
          return;
        }
        var cacheFrames := Min(cache, cursor);
        var plan := ChunkPlan(step, cursor, end, cursor - cacheFrames, cache - cacheFrames, drop);
        OfferOnce(geometry, At(), available, plans, target, landing);
        plans := plans + [plan];
        cursor := cursor + shift;
        step := step + 1;
      }
    }

    method FlushRest(available: nat) returns (plan: Option<ChunkPlan>)
      modifies this
      ensures plan == Flush(geometry, old(At()), available)
      ensures At() == if plan.None? then old(At()) else Position(old(step) + 1, available)
    {
      if available <= cursor {
        return None;
      }
      var cache, drop := Cache(geometry, step), Drop(geometry, step);
      var cacheFrames := Min(cache, cursor);
      plan := Some(ChunkPlan(step, cursor, available, cursor - cacheFrames, cache - cacheFrames, drop));
      cursor := available;
      step := step + 1;
    }

    function Retain(): nat
      reads this
    {
      RetainFrom(geometry, At())
    }
  }

  // ---------------------------------------------------------------- delivery independence

  /** Offering part of the audio first changes neither the steps nor where the schedule ends up. */
  lemma {:induction false} OfferSplits(g: StreamingGeometry, p: Position, first: nat, total: nat)
    requires g.Advances() && first <= total
    ensures Plans(g, p, total) == Plans(g, p, first) + Plans(g, Landing(g, p, first), total)
    ensures Landing(g, p, total) == Landing(g, Landing(g, p, first), total)
    decreases if p.cursor <= total then total - p.cursor + 1 else 0
  {
    if Runnable(g, p, first) {
      OfferSplits(g, Next(g, p), first, total);
    }
  }

  /** The steps returned by a sequence of offers, together. */
  function Trickle(g: StreamingGeometry, p: Position, offers: seq<nat>): seq<ChunkPlan>
    requires g.Advances()
    decreases |offers|
  {
    if offers == [] then []
    else Plans(g, p, offers[0]) + Trickle(g, Landing(g, p, offers[0]), offers[1..])
  }

  function TrickleLanding(g: StreamingGeometry, p: Position, offers: seq<nat>): Position
    requires g.Advances()
    decreases |offers|
  {
    if offers == [] then p else TrickleLanding(g, Landing(g, p, offers[0]), offers[1..])
  }

  predicate Nondecreasing(s: seq<nat>) { forall i, j | 0 <= i <= j < |s| :: s[i] <= s[j] }

  /** A trickle gives the same steps, and leaves the same state, as one burst of the total. */
  lemma {:induction false} TrickleIsBurst(g: StreamingGeometry, p: Position, offers: seq<nat>)
    requires g.Advances() && offers != [] && Nondecreasing(offers)
    ensures Trickle(g, p, offers) == Plans(g, p, offers[|offers| - 1])
    ensures TrickleLanding(g, p, offers) == Landing(g, p, offers[|offers| - 1])
    decreases |offers|
  {
    var landing := Landing(g, p, offers[0]);
    if |offers| > 1 {
      TrickleIsBurst(g, landing, offers[1..]);
      OfferSplits(g, p, offers[0], offers[|offers| - 1]);
    } else {
      assert Trickle(g, landing, offers[1..]) == [];
    }
  }

  // ---------------------------------------------------------------- what the steps cover

  /** The steps from a position on, when `offered` frames arrive in whole blocks and `total` in all. */
  function PlansFrom(g: StreamingGeometry, p: Position, offered: nat, total: nat): seq<ChunkPlan>
    requires g.Advances() && offered <= total
  {
    var flush := Flush(g, Landing(g, p, offered), total);
    Plans(g, p, offered) + if flush.Some? then [flush.value] else []
  }

  /** Every step of a session. */
  function SessionPlans(g: StreamingGeometry, offered: nat, total: nat): seq<ChunkPlan>
    requires g.Advances() && offered <= total
  {
    PlansFrom(g, ORIGIN, offered, total)
  }

  /** A position a schedule can be in: only the first step starts at frame 0. */
  predicate Reachable(p: Position) { p.step == 0 <==> p.cursor == 0 }

  /** Steps run in order, lie within what has arrived, hand the encoder a history filled to the cache size,
      and never reach back past what the schedule told the buffer to keep. */
  lemma {:induction false} PlansStayInBounds(g: StreamingGeometry, p: Position, available: nat)
    requires g.Advances() && Reachable(p)
    ensures Reachable(Landing(g, p, available)) && !Runnable(g, Landing(g, p, available), available)
    ensures RetainFrom(g, p) <= RetainFrom(g, Landing(g, p, available))
    ensures forall plan | plan in Plans(g, p, available) ::
              && plan.Valid() && plan.end <= available && RetainFrom(g, p) <= plan.cacheStart
              && plan.Width() == Cache(g, plan.step) + Chunk(g, plan.step)
    decreases if p.cursor <= available then available - p.cursor + 1 else 0
  {
    if Runnable(g, p, available) {
      PlansStayInBounds(g, Next(g, p), available);
    }
  }

  /** With shifts no larger than chunks the steps leave no gap: every frame up to the final cursor is in one. */
  lemma {:induction false} PlansLeaveNoGap(g: StreamingGeometry, p: Position, available: nat, frame: nat)
    requires g.Advances() && g.shiftFirst <= g.chunkFirst && g.shift <= g.chunk
    requires p.cursor <= frame < Landing(g, p, available).cursor
    ensures exists plan | plan in Plans(g, p, available) :: plan.Covers(frame)
    decreases if p.cursor <= available then available - p.cursor + 1 else 0
  {
    var first := PlanTo(g, p, p.cursor + Chunk(g, p.step));
    if frame < first.end {
      assert first in Plans(g, p, available) && first.Covers(frame);
    } else {
      PlansLeaveNoGap(g, Next(g, p), available, frame);
    }
  }

  /** The steps of a session, with the flush, cover every frame that arrived. */
  lemma {:induction false} SessionCoversEveryFrame(g: StreamingGeometry, offered: nat, total: nat, frame: nat)
    requires g.Advances() && g.shiftFirst <= g.chunkFirst && g.shift <= g.chunk
    requires frame < total && offered <= total
    ensures exists plan | plan in SessionPlans(g, offered, total) :: plan.Covers(frame)
  {
    var landing := Landing(g, ORIGIN, offered);
    if frame < landing.cursor {
      PlansLeaveNoGap(g, ORIGIN, offered, frame);
      var plan :| plan in Plans(g, ORIGIN, offered) && plan.Covers(frame);
      assert plan in SessionPlans(g, offered, total);
    } else {
      var flush := PlanTo(g, landing, total);
      assert SessionPlans(g, offered, total)[|Plans(g, ORIGIN, offered)|] == flush && flush.Covers(frame);
    }
  }

  predicate Covered(plans: seq<ChunkPlan>, frame: nat) { exists plan | plan in plans :: plan.Covers(frame) }

  /** A frame that the k-th step from a position stops just short of. */
  function GapFrame(g: StreamingGeometry, p: Position, k: nat): nat
    decreases k
  {
    if k == 0 then p.cursor + g.chunk else GapFrame(g, Next(g, p), k - 1)
  }

  lemma {:induction false} LaterStepsStartLater(g: StreamingGeometry, p: Position, available: nat)
    requires g.Advances()
    ensures forall plan | plan in Plans(g, p, available) :: p.cursor <= plan.start
    ensures p.cursor <= Landing(g, p, available).cursor
    decreases if p.cursor <= available then available - p.cursor + 1 else 0
  {
    if Runnable(g, p, available) {
      LaterStepsStartLater(g, Next(g, p), available);
    }
  }

  lemma {:induction false} WideShiftSkips(g: StreamingGeometry, p: Position, k: nat)
    requires g.Advances() && g.chunk < g.shift && p.step > 0
    ensures var frame := GapFrame(g, p, k);
            && p.cursor + k <= frame
            && !Covered(Plans(g, p, frame + 1), frame)
            && frame + 1 <= Landing(g, p, frame + 1).cursor
    decreases k
  {
    var frame := GapFrame(g, p, k);
    if k == 0 {
      LaterStepsStartLater(g, Next(g, p), frame + 1);
    } else {
      WideShiftSkips(g, Next(g, p), k - 1);
    }
    assert Plans(g, p, frame + 1)
        == [PlanTo(g, p, p.cursor + Chunk(g, p.step))] + Plans(g, Next(g, p), frame + 1);
  }

  /** Every frame of every session is presented to the encoder exactly when no shift exceeds its chunk. */
  lemma {:induction false} CoverageIff(g: StreamingGeometry)
    requires g.Advances()
    ensures (forall offered: nat, total: nat, frame: nat | offered <= total && frame < total ::
               Covered(SessionPlans(g, offered, total), frame))
            <==> g.shiftFirst <= g.chunkFirst && g.shift <= g.chunk
  {
    var second := Next(g, ORIGIN);
    if g.shiftFirst > g.chunkFirst {
      var frame, total := g.chunkFirst, g.chunkFirst + 1;
      LaterStepsStartLater(g, second, total);
      assert Plans(g, ORIGIN, total) == [PlanTo(g, ORIGIN, g.chunkFirst)] + Plans(g, second, total);
      assert !Covered(SessionPlans(g, total, total), frame);
    } else if g.shift > g.chunk {
      var frame := GapFrame(g, second, g.chunkFirst);
      WideShiftSkips(g, second, g.chunkFirst);
      assert Plans(g, ORIGIN, frame + 1) == [PlanTo(g, ORIGIN, g.chunkFirst)] + Plans(g, second, frame + 1);
      assert !Covered(SessionPlans(g, frame + 1, frame + 1), frame);
    } else {
      forall offered: nat, total: nat, frame: nat | offered <= total && frame < total
        ensures Covered(SessionPlans(g, offered, total), frame)
      {
        SessionCoversEveryFrame(g, offered, total, frame);
      }
    }
  }

  /** How many steps present a frame as new audio. */
  function TimesNew(plans: seq<ChunkPlan>, frame: nat): nat {
    if plans == [] then 0 else (if plans[0].Covers(frame) then 1 else 0) + TimesNew(plans[1..], frame)
  }

  lemma {:induction false} TimesNewAppend(a: seq<ChunkPlan>, b: seq<ChunkPlan>, frame: nat)
    ensures TimesNew(a + b, frame) == TimesNew(a, frame) + TimesNew(b, frame)
  {
    if a == [] {
      assert [] + b == b;
    } else {
      assert (a + b)[1..] == a[1..] + b;
      TimesNewAppend(a[1..], b, frame);
    }
  }

  lemma {:induction false} PlansPartition(g: StreamingGeometry, p: Position, available: nat, frame: nat)
    requires g.Advances() && g.shiftFirst == g.chunkFirst && g.shift == g.chunk
    ensures TimesNew(Plans(g, p, available), frame)
         == if p.cursor <= frame < Landing(g, p, available).cursor then 1 else 0
    ensures p.cursor <= Landing(g, p, available).cursor
    decreases if p.cursor <= available then available - p.cursor + 1 else 0
  {
    if Runnable(g, p, available) {
      var first := PlanTo(g, p, p.cursor + Chunk(g, p.step));
      PlansPartition(g, Next(g, p), available, frame);
      assert Plans(g, p, available)[1..] == Plans(g, Next(g, p), available);
      assert Plans(g, p, available)[0] == first;
    }
  }

  /** When shift equals chunk, every frame of a session is new exactly once. */
  lemma {:induction false} EachFrameIsNewOnce(g: StreamingGeometry, offered: nat, total: nat, frame: nat)
    requires g.Advances() && g.shiftFirst == g.chunkFirst && g.shift == g.chunk
    requires frame < total && offered <= total
    ensures TimesNew(SessionPlans(g, offered, total), frame) == 1
  {
    var landing := Landing(g, ORIGIN, offered);
    PlansPartition(g, ORIGIN, offered, frame);
    var flush := Flush(g, landing, total);
    if flush.Some? {
      TimesNewAppend(Plans(g, ORIGIN, offered), [flush.value], frame);
      assert TimesNew([flush.value], frame) == if flush.value.Covers(frame) then 1 else 0 by {
        assert [flush.value][1..] == [];
      }
    } else {
      assert SessionPlans(g, offered, total) == Plans(g, ORIGIN, offered);
    }
  }

  lemma {:induction false} CoveredIsNew(plans: seq<ChunkPlan>, frame: nat)
    ensures Covered(plans, frame) <==> TimesNew(plans, frame) >= 1
  {
    if plans != [] {
      CoveredIsNew(plans[1..], frame);
      assert plans == [plans[0]] + plans[1..];
    }
  }

  lemma {:induction false} PlansFromStep(g: StreamingGeometry, p: Position, total: nat, frame: nat)
    requires g.Advances() && Runnable(g, p, total)
    ensures TimesNew(PlansFrom(g, p, total, total), frame)
         == (if PlanTo(g, p, p.cursor + Chunk(g, p.step)).Covers(frame) then 1 else 0)
            + TimesNew(PlansFrom(g, Next(g, p), total, total), frame)
  {
    var first, rest := PlanTo(g, p, p.cursor + Chunk(g, p.step)), PlansFrom(g, Next(g, p), total, total);
    assert PlansFrom(g, p, total, total) == [first] + rest;
    assert ([first] + rest)[1..] == rest;
  }

  /** The frame a position stands at is covered by its own step or by the flush. */
  lemma {:induction false} CursorIsNew(g: StreamingGeometry, p: Position, total: nat)
    requires g.Advances() && Chunk(g, p.step) >= 1 && p.cursor < total
    ensures TimesNew(PlansFrom(g, p, total, total), p.cursor) >= 1
  {
    if Runnable(g, p, total) {
      PlansFromStep(g, p, total, p.cursor);
    } else {
      assert PlansFrom(g, p, total, total) == [PlanTo(g, p, total)];
    }
  }

  /** A first shift short of its chunk, or a later one, presents the frame it moves to twice. */
  lemma {:induction false} ShortShiftRepeats(g: StreamingGeometry)
    requires g.Advances() && g.shiftFirst <= g.chunkFirst && g.shift <= g.chunk
    requires g.shiftFirst < g.chunkFirst || g.shift < g.chunk
    ensures exists offered: nat, total: nat, frame: nat ::
              offered <= total && frame < total && TimesNew(SessionPlans(g, offered, total), frame) >= 2
  {
    var second := Next(g, ORIGIN);
    if g.shiftFirst < g.chunkFirst {
      var total := g.chunkFirst;
      PlansFromStep(g, ORIGIN, total, second.cursor);
      CursorIsNew(g, second, total);
      assert TimesNew(SessionPlans(g, total, total), second.cursor) >= 2;
    } else {
      var third, total := Next(g, second), g.shiftFirst + g.chunk;
      PlansFromStep(g, ORIGIN, total, third.cursor);
      PlansFromStep(g, second, total, third.cursor);
      CursorIsNew(g, third, total);
      assert TimesNew(SessionPlans(g, total, total), third.cursor) >= 2;
    }
  }

  /** Every frame of every session is new to the encoder exactly once if and only if each shift equals its
      chunk: a longer shift skips frames, a shorter one repeats them. */
  lemma {:induction false} EachFrameIsNewOnceIff(g: StreamingGeometry)
    requires g.Advances()
    ensures (forall offered: nat, total: nat, frame: nat | offered <= total && frame < total ::
               TimesNew(SessionPlans(g, offered, total), frame) == 1)
            <==> g.shiftFirst == g.chunkFirst && g.shift == g.chunk
  {
    if g.shiftFirst == g.chunkFirst && g.shift == g.chunk {
      forall offered: nat, total: nat, frame: nat | offered <= total && frame < total
        ensures TimesNew(SessionPlans(g, offered, total), frame) == 1
      {
        EachFrameIsNewOnce(g, offered, total, frame);
      }
    } else if g.shiftFirst <= g.chunkFirst && g.shift <= g.chunk {
      ShortShiftRepeats(g);
    } else {
      CoverageIff(g);
      var offered: nat, total: nat, frame: nat :|
        offered <= total && frame < total && !Covered(SessionPlans(g, offered, total), frame);
      CoveredIsNew(SessionPlans(g, offered, total), frame);
    }
  }

  // ---------------------------------------------------------------- the shape of each step

  /** What a step hands the encoder beside its new frames. The first has no history: zeros in its place, and no
      output of theirs to drop. Every later one has the frames just before it, as many as the cache holds, with
      zeros only for frames from before the session, and drops the outputs that belong to its history. */
  predicate WellFed(g: StreamingGeometry, plan: ChunkPlan) {
    if plan.start == 0 then plan.cacheStart == 0 && plan.zeroPad == g.cacheFirst && plan.dropExtra == 0
    else
      && plan.cacheStart <= plan.start && plan.zeroPad + (plan.start - plan.cacheStart) == g.cache
      && (plan.zeroPad > 0 ==> plan.cacheStart == 0 && plan.start < g.cache)
      && plan.dropExtra == g.dropExtra
  }

  /** Numbered from n on and starting at frame `start`, each step one shift after the one before it. */
  predicate InStride(g: StreamingGeometry, plans: seq<ChunkPlan>, n: nat, start: nat) {
    && (plans != [] ==> plans[0].start == start)
    && (forall i | 0 <= i < |plans| :: plans[i].step == n + i)
    && (forall i, j | 0 <= i < |plans| && i < j < |plans| && j == i + 1 ::
          plans[j].start == plans[i].start + if plans[i].start == 0 then g.shiftFirst else g.shift)
  }

  /** Each of the first n steps takes in exactly one chunk, and the one after them, the flush, what is left. */
  predicate FullThenRest(g: StreamingGeometry, plans: seq<ChunkPlan>, n: nat, offered: nat, total: nat) {
    && n <= |plans| <= n + 1
    && (forall i | 0 <= i < n ::
          && plans[i].end <= offered
          && plans[i].end == plans[i].start + if plans[i].start == 0 then g.chunkFirst else g.chunk)
    && (|plans| == n + 1 ==> plans[n].start < plans[n].end == total)
  }

  lemma {:induction false} StepIsWellFed(g: StreamingGeometry, p: Position, end: nat)
    requires Reachable(p) && p.cursor <= end
    ensures WellFed(g, PlanTo(g, p, end))
  {
  }

  predicate Shaped(g: StreamingGeometry, plans: seq<ChunkPlan>, n: nat, p: Position, offered: nat, total: nat) {
    && InStride(g, plans, p.step, p.cursor)
    && FullThenRest(g, plans, n, offered, total)
    && forall i | 0 <= i < |plans| :: WellFed(g, plans[i])
  }

  lemma {:induction false} RestIsShaped(g: StreamingGeometry, p: Position, offered: nat, total: nat)
    requires g.Advances() && Reachable(p) && offered <= total && !Runnable(g, p, offered)
    ensures Shaped(g, PlansFrom(g, p, offered, total), 0, p, offered, total)
  {
    if p.cursor < total {
      StepIsWellFed(g, p, total);
    }
  }

  lemma {:induction false} PlansFromAreShaped(g: StreamingGeometry, p: Position, offered: nat, total: nat)
    requires g.Advances() && Reachable(p) && offered <= total
    ensures Shaped(g, PlansFrom(g, p, offered, total), |Plans(g, p, offered)|, p, offered, total)
    decreases if p.cursor <= offered then offered - p.cursor + 1 else 0
  {
    if Runnable(g, p, offered) {
      var first, rest := PlanTo(g, p, p.cursor + Chunk(g, p.step)), PlansFrom(g, Next(g, p), offered, total);
      PlansFromAreShaped(g, Next(g, p), offered, total);
      StepIsWellFed(g, p, first.end);
      ShapesPrepend(g, p, first, rest, |Plans(g, Next(g, p), offered)|, offered, total);
      FirstAndRest(g, p, offered, total);
    } else {
      RestIsShaped(g, p, offered, total);
    }
  }

  lemma {:induction false} FirstAndRest(g: StreamingGeometry, p: Position, offered: nat, total: nat)
    requires g.Advances() && offered <= total && Runnable(g, p, offered)
    ensures PlansFrom(g, p, offered, total)
         == [PlanTo(g, p, p.cursor + Chunk(g, p.step))] + PlansFrom(g, Next(g, p), offered, total)
    ensures |Plans(g, p, offered)| == |Plans(g, Next(g, p), offered)| + 1
  {
  }

  lemma {:induction false} ShapesPrepend(g: StreamingGeometry, p: Position, first: ChunkPlan, rest: seq<ChunkPlan>,
                                         n: nat, offered: nat, total: nat)
    requires Reachable(p) && Shaped(g, rest, n, Next(g, p), offered, total)
    requires first.step == p.step && first.start == p.cursor && WellFed(g, first)
    requires first.end == p.cursor + Chunk(g, p.step) <= offered
    ensures Shaped(g, [first] + rest, n + 1, p, offered, total)
  {
  }

  /** Every step of every session, the flush included: numbered from 0, one shift apart, of one chunk each until
      the flush takes the rest, and fed as it should be. */
  lemma {:induction false} SessionPlansAreShaped(g: StreamingGeometry, offered: nat, total: nat)
    requires g.Advances() && offered <= total
    ensures var plans := SessionPlans(g, offered, total);
            && InStride(g, plans, 0, 0)
            && FullThenRest(g, plans, |Plans(g, ORIGIN, offered)|, offered, total)
            && forall i | 0 <= i < |plans| :: WellFed(g, plans[i])
  {
    PlansFromAreShaped(g, ORIGIN, offered, total);
  }

  // ---------------------------------------------------------------- the order of step ends

  predicate EndsInOrder(plans: seq<ChunkPlan>) {
    forall i, j | 0 <= i <= j < |plans| :: plans[i].end <= plans[j].end
  }

  lemma {:induction false} LaterPlansEndLater(g: StreamingGeometry, p: Position, available: nat)
    requires g.Advances() && p.step > 0
    ensures EndsInOrder(Plans(g, p, available))
    ensures forall plan | plan in Plans(g, p, available) :: p.cursor + g.chunk <= plan.end
    decreases if p.cursor <= available then available - p.cursor + 1 else 0
  {
    if Runnable(g, p, available) {
      LaterPlansEndLater(g, Next(g, p), available);
      var rest := Plans(g, Next(g, p), available);
      assert forall i | 0 <= i < |rest| :: rest[i] in rest;
    }
  }

  lemma {:induction false} AllPlansEndInOrder(g: StreamingGeometry, offered: nat, total: nat)
    requires g.Advances() && offered <= total && g.chunkFirst <= g.shiftFirst + g.chunk
    ensures EndsInOrder(SessionPlans(g, offered, total))
  {
    var plans := Plans(g, ORIGIN, offered);
    PlansStayInBounds(g, ORIGIN, offered);
    if plans != [] {
      LaterPlansEndLater(g, Next(g, ORIGIN), offered);
      var rest := Plans(g, Next(g, ORIGIN), offered);
      assert forall i | 0 <= i < |rest| :: rest[i] in rest;
    }
    assert forall i | 0 <= i < |plans| :: plans[i] in plans;
  }

  /** Step ends never move backwards, in any session, exactly when the first chunk does not outreach the
      second step. */
  lemma {:induction false} EndsInOrderIff(g: StreamingGeometry)
    requires g.Advances()
    ensures (forall offered: nat, total: nat | offered <= total :: EndsInOrder(SessionPlans(g, offered, total)))
            <==> g.chunkFirst <= g.shiftFirst + g.chunk
  {
    if g.chunkFirst <= g.shiftFirst + g.chunk {
      forall offered: nat, total: nat | offered <= total
        ensures EndsInOrder(SessionPlans(g, offered, total))
      {
        AllPlansEndInOrder(g, offered, total);
      }
    } else {
      var total := g.chunkFirst;
      var second := Next(g, ORIGIN);
      assert Plans(g, ORIGIN, total) == [PlanTo(g, ORIGIN, total)] + Plans(g, second, total);
      assert Plans(g, second, total)[0].end == g.shiftFirst + g.chunk;
      var plans := SessionPlans(g, total, total);
      assert plans[0].end == g.chunkFirst && plans[1].end == g.shiftFirst + g.chunk;
      assert !EndsInOrder(plans);
    }
  }
}
