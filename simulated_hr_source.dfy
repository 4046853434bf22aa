/**
 * The synthetic heart-rate source: one tick of its generator loop. The sine value,
 * the uniform noise and the Gaussian draw are inputs; the running heart rate, the
 * phase `t` and the RR history are the generator's state.
 */
module SimulatedHrSource {
  import opened Wrappers
  import opened Samples
  import opened Numeric

  /** `SimMode`: the physiological scenario the simulator follows. */
  datatype SimMode = Calm | Normal | Stressed | Recovery

  const HistorySize: nat := 30
  const MinHrBpm: real := 45.0
  const MaxHrBpm: real := 130.0
  const MinRrMs: int := 350
  const MaxRrMs: int := 1400

  /** `targetHr`: the resting rate each scenario drifts toward. */
  function TargetHr(mode: SimMode): (r: int)
    ensures 58 <= r <= 95
  {
    match mode
    case Calm => 58
    case Normal => 72
    case Stressed => 95
    case Recovery => 75
  }

  /** The breathing-wave amplitude of each scenario. */
  function Amplitude(mode: SimMode): (a: real)
    ensures 0.0 < a <= 2.5
  {
    match mode
    case Calm => 2.5
    case Normal => 1.8
    case Stressed => 0.9
    case Recovery => 1.4
  }

  /** `hr += (hrTarget - hr) * 0.05`: a step of 5% toward the target. */
  function Approach(hr: real, target: real): (r: real)
    ensures hr <= target ==> hr <= r <= target
    ensures target <= hr ==> target <= r <= hr
    ensures (r - target) == 0.95 * (hr - target)
  {
    hr + (target - hr) * 0.05
  }

  /** The smoothed heart rate after `n` steps toward a fixed target. */
  function Drift(hr: real, target: real, n: nat): real
    decreases n
  {
    if n == 0 then hr else Approach(Drift(hr, target, n - 1), target)
  }

  /**
   * However many ticks run in one mode, the smoothed rate never overshoots the target
   * nor moves away from it: it stays between where it started and the target.
   */
  lemma {:induction false} DriftStaysBetween(hr: real, target: real, n: nat)
    ensures hr <= target ==> hr <= Drift(hr, target, n) <= target
    ensures target <= hr ==> target <= Drift(hr, target, n) <= hr
    decreases n
  {
    if n > 0 {
      DriftStaysBetween(hr, target, n - 1);
    }
  }

  /** `hrToRrMs`: the RR interval matching a heart rate, truncated to whole ms. */
  function HrToRrMs(hr: real): (rr: int)
    requires MinHrBpm <= hr <= MaxHrBpm
    ensures 461 <= rr <= 1333
  {
    var q := 60000.0 / hr;
    assert q * hr == 60000.0;
    assert q >= 461.0;
    assert q < 1334.0;
    TruncToInt(q)
  }

  /** `addLast` followed by one `removeFirst` when the history is over its size. */
  function SlideHistory(history: seq<int>, rr: int): (r: seq<int>)
    ensures |history| < HistorySize ==> r == history + [rr]
    ensures |history| >= HistorySize ==> r == history[1..] + [rr]
    ensures |history| <= HistorySize ==> |r| <= HistorySize
    ensures r != [] && r[|r| - 1] == rr
    ensures r == (history + [rr])[|history| + 1 - |r|..]
  {
    var grown := history + [rr];
    if |grown| > HistorySize then grown[1..] else grown
  }

  /** The generator's state between ticks. */
  class HrGenerator {
    /** The smoothed heart rate `hr`. */
    var hr: real
    /** The wave phase `t`, one step per tick. */
    var t: real
    /** `rrHistory`: the most recent RR intervals, oldest first. */
    var rrHistory: seq<int>

    ghost predicate Valid()
      reads this
    {
      && |rrHistory| <= HistorySize
      && forall i :: 0 <= i < |rrHistory| ==> MinRrMs <= rrHistory[i] <= MaxRrMs
    }

    constructor ()
      ensures Valid()
      ensures hr == 72.0 && t == 0.0 && rrHistory == []
    {
      hr, t, rrHistory := 72.0, 0.0, [];
    }

    /**
     * One loop iteration: drift toward the mode's target, add the breathing wave and
     * noise, clamp, derive the jittered RR interval, slide the history and emit.
     * `sinValue` is `sin(t * 0.12)`, `noise` the uniform draw and `gaussian` the normal draw.
     */
    method Tick(mode: SimMode, sinValue: real, noise: real, gaussian: real, nowMs: int)
      returns (sample: BiometricSample)
      requires Valid()
      modifies this
      ensures Valid()
      ensures hr == Approach(old(hr), TargetHr(mode) as real)
      ensures t == old(t) + 1.0
      ensures |rrHistory| >= 1 && MinRrMs <= rrHistory[|rrHistory| - 1] <= MaxRrMs
      ensures rrHistory == SlideHistory(old(rrHistory), rrHistory[|rrHistory| - 1])
      ensures var hrNow := ClampReal(hr + sinValue * Amplitude(mode) + noise, MinHrBpm, MaxHrBpm);
        && rrHistory[|rrHistory| - 1] == ClampInt(HrToRrMs(hrNow) + TruncToInt(gaussian * 10.0), MinRrMs, MaxRrMs)
        && sample.hrBpm == Some(TruncToInt(hrNow))
      ensures sample.tsMs == nowMs && sample.source == Simulated && sample.rrMs == rrHistory
      ensures sample.hrBpm.Some? && 45 <= sample.hrBpm.value <= 130
    {
      hr := Approach(hr, TargetHr(mode) as real);
      var breathingWave := sinValue * Amplitude(mode);
      var hrNow := ClampReal(hr + breathingWave + noise, MinHrBpm, MaxHrBpm);
      var rrBase := HrToRrMs(hrNow);
      var rrJitter := TruncToInt(gaussian * 10.0);
      var rr := ClampInt(rrBase + rrJitter, MinRrMs, MaxRrMs);

      rrHistory := rrHistory + [rr];
      if |rrHistory| > HistorySize {
        rrHistory := rrHistory[1..];
      }

      var hrBpm := TruncToInt(hrNow);
      sample := BiometricSample(nowMs, Some(hrBpm), rrHistory, Simulated);
      t := t + 1.0;
    }
  }

  /**
   * Thirty-one ticks in one mode, with any sine values and random draws: the history
   * fills to exactly thirty intervals, all in range, and the smoothed rate has drifted
   * toward the mode's target without passing it.
   */
  method HistoryScenario(g: HrGenerator, mode: SimMode, sines: seq<real>, noises: seq<real>, gaussians: seq<real>)
    requires g.Valid()
    requires |sines| >= 31 && |noises| >= 31 && |gaussians| >= 31
    modifies g
    ensures g.Valid() && |g.rrHistory| == HistorySize
    ensures g.hr == Drift(old(g.hr), TargetHr(mode) as real, 31)
    ensures old(g.hr) <= TargetHr(mode) as real ==> old(g.hr) <= g.hr <= TargetHr(mode) as real
    ensures TargetHr(mode) as real <= old(g.hr) ==> TargetHr(mode) as real <= g.hr <= old(g.hr)
  {
    var target := TargetHr(mode) as real;
    var n := 0;
    while n < 31
      invariant n <= 31 && g.Valid()
      invariant |g.rrHistory| >= if n < HistorySize then n else HistorySize
      invariant g.hr == Drift(old(g.hr), target, n)
    {
      var s := g.Tick(mode, sines[n], noises[n], gaussians[n], n * 800);
      n := n + 1;
    }
    DriftStaysBetween(old(g.hr), target, 31);
  }
}
