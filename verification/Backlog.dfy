/** The backlog guard between the room and the speech recogniser: what one call does to its state.

    A producer pushes frames, a consumer drains them, and when the gap between the two reaches
    `maxLag` the oldest frames are dropped until at most `recoverTo` is left. Seconds are reals. */
module Backlog {
  import opened Options
  import opened Durations

  type Seconds = r: real | r >= 0.0 witness 0.0

  /** A block of audio. Its samples matter here only through how long they last. */
  datatype AudioFrame = AudioFrame(tAudio: real, duration: Seconds, tWall: real)

  datatype Config = Config(maxLag: real, recoverTo: real, warnLag: real)
  {
    predicate Valid() { recoverTo < maxLag }
  }

  datatype BacklogStats = BacklogStats(framesIn: nat, framesOut: nat, framesDropped: nat,
                                       secondsDropped: real, shedEvents: nat, peakLag: real)

  /** Where the drain generator is suspended: at a yield (or before its first one), in
      `await arrived.wait()`, or returned. */
  datatype Consumer = Running | Waiting | Finished

  datatype GuardState = GuardState(buffer: seq<AudioFrame>, newestAudio: real, warned: bool,
                                   arrived: bool, closed: bool, consumer: Consumer, stats: BacklogStats)

  const EMPTY := GuardState([], 0.0, false, false, false, Running, BacklogStats(0, 0, 0, 0.0, 0, 0.0))

  /** Audio time between the newest frame received and the oldest one buffered. */
  function Lag(buffer: seq<AudioFrame>, newestAudio: real): real {
    if buffer == [] then 0.0 else Max(0.0, newestAudio - buffer[0].tAudio)
  }

  datatype Shed = Shed(kept: seq<AudioFrame>, seconds: real)

  /** Drop from the front while the lag exceeds the target, always leaving the newest frame. */
  function ShedDown(buffer: seq<AudioFrame>, newestAudio: real, recoverTo: real): (shed: Shed)
    ensures |shed.kept| <= |buffer|
  {
    if |buffer| > 1 && Lag(buffer, newestAudio) > recoverTo then
      var rest := ShedDown(buffer[1..], newestAudio, recoverTo);
      Shed(rest.kept, buffer[0].duration + rest.seconds)
    else
      Shed(buffer, 0.0)
  }

  /** What is left after a push whose lag is `lag`: everything below the threshold. */
  function ShedIfBehind(c: Config, buffer: seq<AudioFrame>, newestAudio: real): (shed: Shed)
    ensures |shed.kept| <= |buffer|
  {
    if Lag(buffer, newestAudio) < c.maxLag then Shed(buffer, 0.0)
    else ShedDown(buffer, newestAudio, c.recoverTo)
  }

  /** The state after `push(f)`. */
  function Pushed(c: Config, s: GuardState, f: AudioFrame): GuardState {
    var buffer, newest := s.buffer + [f], f.tAudio + f.duration;
    var lag, shed := Lag(buffer, newest), ShedIfBehind(c, buffer, newest);
    var dropped := |buffer| - |shed.kept|;
    s.(buffer := shed.kept, newestAudio := newest, arrived := true,
       warned := lag >= c.warnLag,
       stats := s.stats.(framesIn := s.stats.framesIn + 1,
                         peakLag := Max(s.stats.peakLag, lag),
                         framesDropped := s.stats.framesDropped + dropped,
                         secondsDropped := s.stats.secondsDropped + shed.seconds,
                         shedEvents := s.stats.shedEvents + if dropped > 0 then 1 else 0))
  }

  function ClosedDown(s: GuardState): GuardState { s.(closed := true, arrived := true) }

  /** The drain generator runs from one suspension to the next; the event loop resumes it when its
      consumer asks for a frame, or, while it waits, once the event is set. */
  predicate CanResume(s: GuardState) { s.consumer.Running? || (s.consumer.Waiting? && s.arrived) }

  function Resumed(s: GuardState): GuardState {
    if s.buffer != [] then
      s.(buffer := s.buffer[1..], consumer := Running, stats := s.stats.(framesOut := s.stats.framesOut + 1))
    else if s.closed then s.(consumer := Finished)
    else s.(arrived := false, consumer := Waiting)
  }

  class BacklogGuard {
    const config: Config
    var stats: BacklogStats
    var buffer: seq<AudioFrame>
    var arrived: bool
    var closed: bool
    var newestAudio: real
    var warned: bool
    var consumer: Consumer

    function State(): GuardState
      reads this
    {
      GuardState(buffer, newestAudio, warned, arrived, closed, consumer, stats)
    }

    constructor (config: Config)
      requires config.Valid()
      ensures this.config == config && State() == EMPTY
    {
      this.config := config;
      stats := BacklogStats(0, 0, 0, 0.0, 0, 0.0);
      buffer, arrived, closed := [], false, false;
      newestAudio, warned, consumer := 0.0, false, Running;
    }

    /** A recovery target at or above the threshold is refused. */
    static method Create(config: Config) returns (g: BacklogGuard?)
      ensures g == null <==> config.recoverTo >= config.maxLag
      ensures g != null ==> fresh(g) && g.config == config && g.State() == EMPTY
    {
      if config.recoverTo >= config.maxLag {
        return null;
      }
      g := new BacklogGuard(config);
    }

    function LagSeconds(): real
      reads this
    {
      Lag(buffer, newestAudio)
    }

    method Push(frame: AudioFrame)
      modifies this
      ensures State() == Pushed(config, old(State()), frame)
    {
      stats := stats.(framesIn := stats.framesIn + 1);
      newestAudio := frame.tAudio + frame.duration;
      buffer := buffer + [frame];
      ShedWhenBehind();
      arrived := true;
    }

    /** `_shed_if_behind`. */
    method ShedWhenBehind()
      modifies this
      ensures closed == old(closed) && arrived == old(arrived) && consumer == old(consumer)
      ensures newestAudio == old(newestAudio)
      ensures warned <==> old(LagSeconds()) >= config.warnLag
      ensures var shed := ShedIfBehind(config, old(buffer), newestAudio);
              && buffer == shed.kept && |buffer| <= |old(buffer)|
              && var dropped := |old(buffer)| - |buffer|;
              stats == old(stats).(peakLag := Max(old(stats.peakLag), old(LagSeconds())),
                                   framesDropped := old(stats.framesDropped) + dropped,
                                   secondsDropped := old(stats.secondsDropped) + shed.seconds,
                                   shedEvents := old(stats.shedEvents) + if dropped > 0 then 1 else 0)
    {
      var lag := LagSeconds();
      stats := stats.(peakLag := Max(stats.peakLag, lag));
      if lag >= config.warnLag && !warned {
        warned := true;
      } else if lag < config.warnLag {
        warned := false;
      }
      if lag < config.maxLag {
        return;
      }
      var dropped, seconds := 0, 0.0;
      while |buffer| > 1 && LagSeconds() > config.recoverTo
        invariant |buffer| + dropped == |old(buffer)| && (dropped == 0 ==> seconds == 0.0)
        invariant ShedDown(old(buffer), newestAudio, config.recoverTo).kept
               == ShedDown(buffer, newestAudio, config.recoverTo).kept
        invariant ShedDown(old(buffer), newestAudio, config.recoverTo).seconds
               == seconds + ShedDown(buffer, newestAudio, config.recoverTo).seconds
        invariant closed == old(closed) && arrived == old(arrived) && consumer == old(consumer)
        invariant newestAudio == old(newestAudio) && (warned <==> lag >= config.warnLag)
        invariant stats == old(stats).(peakLag := Max(old(stats.peakLag), lag))
        decreases |buffer|
      {
        var frame := buffer[0];
        buffer := buffer[1..];
        dropped := dropped + 1;
        seconds := seconds + frame.duration;
      }
      if dropped == 0 {
        return;
      }
      stats := stats.(framesDropped := stats.framesDropped + dropped,
                      secondsDropped := stats.secondsDropped + seconds,
                      shedEvents := stats.shedEvents + 1);
    }

    method Close()
      modifies this
      ensures State() == ClosedDown(old(State()))
    {
      closed := true;
      arrived := true;
    }

    /** One run of `drain` from a suspension to the next; the frame it yields, if it yields. */
    method Resume() returns (yielded: Option<AudioFrame>)
      requires CanResume(State())
      modifies this
      ensures State() == Resumed(old(State()))
      ensures yielded == if old(buffer) != [] then Some(old(buffer)[0]) else None
    {
      if buffer != [] {
        stats := stats.(framesOut := stats.framesOut + 1);
        yielded := Some(buffer[0]);
        buffer := buffer[1..];
        consumer := Running;
        return;
      }
      yielded := None;
      if closed {
        consumer := Finished;
        return;
      }
      arrived := false;
      consumer := Waiting;
    }
  }
}
