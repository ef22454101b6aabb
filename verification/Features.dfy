/** A window over the feature stream that forgets its head, addressed by absolute frame. */
module Features {
  import opened Options

  datatype FrameError = Discarded | NotArrived | NothingYet
  datatype Result<T> = Ok(value: T) | Err(error: FrameError)

  /** Absolute-to-local bookkeeping. */
  class FrameWindow {
    var origin: nat
    var total: nat

    predicate Valid()
      reads this
    {
      origin <= total
    }

    constructor ()
      ensures origin == 0 && total == 0
    {
      origin, total := 0, 0;
    }

    /** A negative count is refused and changes nothing. */
    method Extend(count: int) returns (ok: bool)
      requires Valid()
      modifies this
      ensures Valid() && origin == old(origin)
      ensures ok == (count >= 0)
      ensures total == if ok then old(total) + count else old(total)
    {
      ok := count >= 0;
      if ok {
        total := total + count;
      }
    }

    /** Offsets of an absolute range, or which way it falls outside what is held. Whether the range runs forward
        is not looked at, so the second offset may be negative. */
    method Local(start: nat, end: nat) returns (r: Result<(nat, int)>)
      requires Valid()
      ensures start < origin ==> r == Err(Discarded)
      ensures origin <= start && total < end ==> r == Err(NotArrived)
      ensures origin <= start && end <= total ==> r == Ok((start - origin, end - origin))
    {
      if start < origin {
        return Err(Discarded);
      }
      if end > total {
        return Err(NotArrived);
      }
      return Ok((start - origin, end - origin));
    }

    method DropBefore(absolute: nat) returns (dropped: nat)
      requires Valid()
      modifies this
      ensures Valid() && total == old(total)
      ensures origin == DropTarget(absolute, old(origin), total) && dropped == origin - old(origin)
    {
      var target := DropTarget(absolute, origin, total);
      dropped := target - origin;
      origin := target;
    }
  }

  /** Dropping is clamped to what is held. */
  function DropTarget(absolute: nat, origin: nat, total: nat): (t: nat)
    ensures origin <= total ==> origin <= t <= total
    ensures t <= absolute || t <= origin
  {
    var wanted := if absolute > origin then absolute else origin;
    if wanted < total then wanted else total
  }

  /** `frames[lo:hi]` for an offset that is not negative and one that may be, counting from the end if so. */
  function Sliced<F>(frames: seq<F>, lo: nat, hi: int): seq<F> {
    var stop := if hi >= 0 then hi else |frames| + hi;
    var clamped := if stop <= |frames| then stop else |frames|;
    if lo < clamped then frames[lo..clamped] else []
  }

  /** The buffer the encoder is fed from. `everything` is what a buffer that never forgets would hold. */
  class FeatureBuffer<F> {
    var frames: Option<seq<F>>
    const window: FrameWindow
    ghost var everything: seq<F>

    ghost predicate Valid()
      reads this, window
    {
      && window.Valid()
      && window.total == |everything|
      && (frames.None? ==> everything == [] && window.origin == 0)
      && (frames.Some? ==> frames.value == everything[window.origin..])
    }

    constructor ()
      ensures Valid() && fresh(window) && everything == [] && window.origin == 0
    {
      frames, everything := None, [];
      window := new FrameWindow();
    }

    function Available(): nat
      reads this, window
    {
      window.total
    }

    method Append(features: seq<F>)
      requires Valid()
      modifies this, window
      ensures Valid() && everything == old(everything) + features && window.origin == old(window.origin)
    {
      frames := Some(if frames.None? then features else frames.value + features);
      var ok := window.Extend(|features|);
      everything := everything + features;
    }

    /** The requested frames exactly as a buffer that never forgets would give them, or an error when they
        were discarded, have not arrived, or nothing was ever appended. A range that runs backwards gives nothing,
        unless it runs back past the window: then the offset counts from the end, and what comes back is whatever
        stands between the start and that many frames before the newest. */
    method Slice(start: nat, end: nat) returns (r: Result<seq<F>>)
      requires Valid()
      ensures start < window.origin ==> r == Err(Discarded)
      ensures window.origin <= start && |everything| < end ==> r == Err(NotArrived)
      ensures window.origin <= start && end <= |everything| && frames.None? ==> r == Err(NothingYet)
      ensures window.origin <= start <= end <= |everything| && frames.Some? ==> r == Ok(everything[start..end])
      ensures window.origin <= end < start && end <= |everything| && frames.Some? ==> r == Ok([])
      ensures end < window.origin <= start && frames.Some? ==>
                var stop := |everything| - (window.origin - end);
                r == Ok(if start < stop then everything[start..stop] else [])
    {
      var offsets := window.Local(start, end);
      if offsets.Err? {
        return Err(offsets.error);
      }
      if frames.None? {
        return Err(NothingYet);
      }
      var (lo, hi) := offsets.value;
      r := Ok(Sliced(frames.value, lo, hi));
      if start <= end {
        assert frames.value[lo..hi] == everything[start..end];
      } else if hi < 0 && lo < |frames.value| + hi {
        assert frames.value[lo..|frames.value| + hi] == everything[start..|everything| + hi];
      }
    }

    method DiscardBefore(absolute: nat)
      requires Valid()
      modifies this, window
      ensures Valid() && everything == old(everything) && frames.Some? == old(frames.Some?)
      ensures window.origin == DropTarget(absolute, old(window.origin), |everything|)
    {
      var dropped := window.DropBefore(absolute);
      if dropped > 0 && frames.Some? {
        frames := Some(frames.value[dropped..]);
      }
    }
  }
}
