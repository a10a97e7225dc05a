/** The restart and configuration rules of the Rust capture worker
    (src/core_bpm/audio.rs): the crash-rate limiter that stops restarting
    after too many crashes in a short time, the choice of the sample rate
    closest to the requested one, the clamp of the requested buffer size
    and the number of 100 ms sleeps a retry waits. Instants are whole
    milliseconds; the device queries and the stream itself are outside the
    model. */
module CaptureWorker {
  import opened Common

  /** Largest value of a Rust `u64`. */
  const U64_MAX: int := 0xFFFF_FFFF_FFFF_FFFF

  /** `Instant::duration_since`, which saturates at zero when `earlier` is
      in fact later. */
  function Elapsed(earlier: nat, later: nat): nat
  {
    if later >= earlier then later - earlier else 0
  }

  /** Number of crash instants the deque keeps: `max_restarts`, but at
      least the one just pushed. */
  function Kept(maxRestarts: nat): nat
  {
    Max(maxRestarts, 1)
  }

  /** The limiter's verdict on a window of the most recent crashes. */
  predicate TooManyCrashes(window: seq<nat>, maxRestarts: nat, timeWindow: nat)
  {
    |window| == maxRestarts && |window| > 0 && Elapsed(window[0], window[|window| - 1]) < timeWindow
  }

  /** Over the whole crash history, the limiter stops exactly when there
      have been at least `max_restarts` crashes and the latest
      `max_restarts` of them span less than the time window. */
  lemma StopIffBurst(crashes: seq<nat>, maxRestarts: nat, timeWindow: nat)
    requires |crashes| > 0
    ensures TooManyCrashes(Suffix(crashes, Kept(maxRestarts)), maxRestarts, timeWindow)
        <==> && maxRestarts >= 1
             && |crashes| >= maxRestarts
             && Elapsed(crashes[|crashes| - maxRestarts], crashes[|crashes| - 1]) < timeWindow
  {
    var w := Suffix(crashes, Kept(maxRestarts));
    if maxRestarts >= 1 && |crashes| >= maxRestarts {
      assert |w| == maxRestarts;
      assert w[0] == crashes[|crashes| - maxRestarts];
      assert w[|w| - 1] == crashes[|crashes| - 1];
    }
  }

  class AudioWorker {
    const maxRestarts: nat
    const timeWindow: nat
    const retryDelay: nat
    /** The instants of the latest crashes, oldest first. */
    var crashTimestamps: seq<nat>
    /** Every crash instant reported so far. */
    ghost var crashes: seq<nat>

    ghost predicate Valid()
      reads this
    {
      crashTimestamps == Suffix(crashes, Kept(maxRestarts))
    }

    constructor(maxRestarts: nat, timeWindow: nat, retryDelay: nat)
      ensures Valid()
      ensures this.maxRestarts == maxRestarts && this.timeWindow == timeWindow
      ensures this.retryDelay == retryDelay
      ensures crashTimestamps == [] && crashes == []
    {
      this.maxRestarts := maxRestarts;
      this.timeWindow := timeWindow;
      this.retryDelay := retryDelay;
      crashTimestamps := [];
      crashes := [];
    }

    /** `should_stop_restarting`, called at instant `now` after a crash:
        once the deque holds `max_restarts` instants the oldest one is
        dropped, `now` is pushed, and the answer is yes when the deque is
        full and spans less than the time window. */
    method ShouldStopRestarting(now: nat) returns (stop: bool)
      requires Valid()
      modifies this
      ensures Valid()
      ensures crashes == old(crashes) + [now]
      ensures crashTimestamps ==
                (if |old(crashTimestamps)| >= maxRestarts && |old(crashTimestamps)| > 0
                 then old(crashTimestamps)[1..] else old(crashTimestamps)) + [now]
      ensures |crashTimestamps| <= Kept(maxRestarts)
      ensures stop == TooManyCrashes(crashTimestamps, maxRestarts, timeWindow)
    {
      SuffixSnoc(crashes, now, Kept(maxRestarts));
      if |crashTimestamps| >= maxRestarts && |crashTimestamps| > 0 {
        crashTimestamps := crashTimestamps[1..];
      }
      crashTimestamps := crashTimestamps + [now];
      crashes := crashes + [now];
      stop := false;
      if |crashTimestamps| == maxRestarts {
        var first := crashTimestamps[0];
        var last := crashTimestamps[|crashTimestamps| - 1];
        if Elapsed(first, last) < timeWindow {
          stop := true;
        }
      }
    }

    /** The retry wait of `run`: `retry_delay` is slept off in steps of
        100 ms, checking for a stop request after each. */
    method RetrySteps() returns (steps: nat)
      requires retryDelay + 99 <= U64_MAX
      ensures steps * 100 >= retryDelay
      ensures steps == 0 || (steps - 1) * 100 < retryDelay
    {
      steps := (retryDelay + 99) / 100;
    }
  }

  /** One supported input configuration: its inclusive sample-rate range. */
  datatype RateRange = RateRange(minRate: U32, maxRate: U32)

  predicate Contains(c: RateRange, rate: U32)
  {
    c.minRate <= rate <= c.maxRate
  }

  /** Distance between two rates. */
  function Dist(a: U32, b: U32): U32
  {
    if a < b then b - a else a - b
  }

  /** Of the two ends of `c`, the one nearer to `target`, the lower end on
      a tie. */
  function NearerEnd(c: RateRange, target: U32): U32
  {
    if Dist(target, c.minRate) <= Dist(target, c.maxRate) then c.minRate else c.maxRate
  }

  /** Both ends of `c` are at least `d` away from `target`. */
  predicate EndsAtLeast(c: RateRange, target: U32, d: int)
  {
    Dist(target, c.minRate) >= d && Dist(target, c.maxRate) >= d
  }

  datatype ConfigError = NoSupportedConfig

  /** The configuration loop of `initialize_stream`: the first range that
      contains `target` is taken at `target`; failing that, the range end
      at the smallest distance, the earliest one on a tie, as the
      comparisons are strict. The result is the chosen configuration's
      position and the rate. */
  method SelectRate(configs: seq<RateRange>, target: U32)
    returns (r: Result<(nat, U32), ConfigError>)
    ensures (exists k :: 0 <= k < |configs| && Contains(configs[k], target)) ==>
              && r.Ok? && r.value.1 == target && r.value.0 < |configs|
              && Contains(configs[r.value.0], target)
              && forall k :: 0 <= k < r.value.0 ==> !Contains(configs[k], target)
    ensures (forall k :: 0 <= k < |configs| ==> !Contains(configs[k], target)) ==>
              && (r.Err? <==> forall j :: 0 <= j < |configs| ==> EndsAtLeast(configs[j], target, U32_MAX))
              && (r.Ok? ==>
                    var (k, rate) := r.value;
                    && k < |configs|
                    && rate == NearerEnd(configs[k], target)
                    && (forall j :: 0 <= j < |configs| ==> EndsAtLeast(configs[j], target, Dist(target, rate)))
                    && (forall j :: 0 <= j < k ==> EndsAtLeast(configs[j], target, Dist(target, rate) + 1)))
  {
    var best: Option<nat> := None;
    var minDiff: U32 := U32_MAX;
    var selected := target;
    var i := 0;
    while i < |configs|
      invariant 0 <= i <= |configs|
      invariant forall k :: 0 <= k < i ==> !Contains(configs[k], target)
      invariant forall j :: 0 <= j < i ==> EndsAtLeast(configs[j], target, minDiff)
      invariant best.None? ==> minDiff == U32_MAX
      invariant best.Some? ==>
                  && best.value < i
                  && selected == NearerEnd(configs[best.value], target)
                  && Dist(target, selected) == minDiff < U32_MAX
                  && forall j :: 0 <= j < best.value ==> EndsAtLeast(configs[j], target, minDiff + 1)
    {
      var c := configs[i];
      if Contains(c, target) {
        return Ok((i, target));
      }
      var diffMin := Dist(target, c.minRate);
      if diffMin < minDiff {
        minDiff := diffMin;
        best := Some(i);
        selected := c.minRate;
      }
      var diffMax := Dist(target, c.maxRate);
      if diffMax < minDiff {
        minDiff := diffMax;
        best := Some(i);
        selected := c.maxRate;
      }
      i := i + 1;
    }
    match best
    case None =>
      r := Err(NoSupportedConfig);
    case Some(k) =>
      r := Ok((k, selected));
  }

  /** How the stream's buffer size is requested. */
  datatype BufferSize = Default | Fixed(frames: U32)

  /** The buffer-size choice of `initialize_stream`. `requestedFrames` is the
      frame count of the configured buffer duration at the selected rate
      (`None` when no duration is configured); `range` is the device's
      supported frame range when it reports one. `u32::clamp` panics when
      the range is inverted. */
  function ChooseBufferSize(requestedFrames: Option<U32>, range: Option<(U32, U32)>): (b: BufferSize)
    requires range.Some? ==> range.value.0 <= range.value.1
    ensures requestedFrames.None? <==> b == Default
    ensures requestedFrames.Some? && range.None? ==> b == Fixed(requestedFrames.value)
    ensures requestedFrames.Some? && range.Some? ==>
              && b.Fixed?
              && range.value.0 <= b.frames <= range.value.1
              && (range.value.0 <= requestedFrames.value <= range.value.1 ==> b.frames == requestedFrames.value)
              && forall v: U32 :: range.value.0 <= v <= range.value.1 ==>
                   Dist(b.frames, requestedFrames.value) <= Dist(v, requestedFrames.value)
  {
    match requestedFrames
    case None => Default
    case Some(n) =>
      match range
      case None => Fixed(n)
      case Some((lo, hi)) => Fixed(if n < lo then lo else if n > hi then hi else n)
  }
}
