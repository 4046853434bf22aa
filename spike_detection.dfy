/** Sustained-stress detection over a rolling window of scores, with hysteresis and a cooldown. */
module SpikeDetection {
  import opened Wrappers
  import opened Numeric
  import opened Samples

  // The detector's constructor defaults, which is how the application builds it.
  const TriggerThreshold: int := 75
  const MinSamplesAbove: nat := 3
  const CooldownMs: int := 60000
  const MaxWindow: nat := 12

  /** Why a result was produced; the source renders this as a diagnostic string. */
  datatype SpikeReason = Cooldown | Evaluated(score: int, baseline: real, delta: real)

  datatype SpikeResult = SpikeResult(shouldTriggerBreathing: bool, confidence: real, reason: SpikeReason)

  /** The window after `addLast(score)` and dropping the oldest entries down to `MaxWindow`. */
  function PushWindow(window: seq<int>, score: int): (w: seq<int>)
    ensures |w| == if |window| + 1 <= MaxWindow then |window| + 1 else MaxWindow
    ensures w[|w| - 1] == score
    ensures w == (window + [score])[|window| + 1 - |w|..]
  {
    var full := window + [score];
    if |full| > MaxWindow then full[|full| - MaxWindow..] else full
  }

  /** `takeLast(n)`. */
  function TakeLast(s: seq<int>, n: nat): (r: seq<int>)
    ensures |r| == if |s| <= n then |s| else n
    ensures r == s[|s| - |r|..]
  {
    if |s| <= n then s else s[|s| - n..]
  }

  /** `dropLast(n)`. */
  function DropLast(s: seq<int>, n: nat): (r: seq<int>)
    ensures |r| == if |s| <= n then 0 else |s| - n
    ensures r == s[..|r|]
  {
    if |s| <= n then [] else s[..|s| - n]
  }

  /** How many entries are at least `t`. */
  function CountAtLeast(s: seq<int>, t: int): (c: nat)
    ensures c <= |s|
    ensures c == |s| <==> forall i :: 0 <= i < |s| ==> s[i] >= t
    decreases |s|
  {
    if s == [] then 0
    else CountAtLeast(s[..|s| - 1], t) + (if s[|s| - 1] >= t then 1 else 0)
  }

  function Sum(s: seq<int>): int
    decreases |s|
  {
    if s == [] then 0 else Sum(s[..|s| - 1]) + s[|s| - 1]
  }

  /** `averageOrNull()`: null on an empty list. */
  function AverageOrNull(s: seq<int>): (r: Option<real>)
    ensures r.None? <==> s == []
  {
    if s == [] then None else Some(Sum(s) as real / |s| as real)
  }

  /** The average of the window without its last three entries, or the score itself. */
  function Baseline(window: seq<int>, score: int): (b: real)
    ensures |window| <= 3 ==> b == score as real
  {
    AverageOrNull(DropLast(window, 3)).GetOr(score as real)
  }

  /** 0.7 weight on how many recent scores are high, 0.3 on the rise over the baseline. */
  function Confidence(aboveCount: nat, delta: real): (c: real)
    ensures 0.0 <= c <= 1.0
    ensures c <= 0.7 * (aboveCount as real / MinSamplesAbove as real) + 0.3
    ensures delta <= 0.0 ==> c <= 0.7
  {
    ClampReal(aboveCount as real / MinSamplesAbove as real, 0.0, 1.0) * 0.7
      + ClampReal(delta / 25.0, 0.0, 1.0) * 0.3
  }

  /**
   * What `onNewState` returns for the already updated window, the current score and time,
   * and the time of the previous trigger.
   */
  function Judge(window: seq<int>, score: int, now: int, lastTriggerAt: int): (r: SpikeResult)
    ensures now - lastTriggerAt < CooldownMs ==> r == SpikeResult(false, 0.0, Cooldown)
    ensures 0.0 <= r.confidence <= 1.0
  {
    if now - lastTriggerAt < CooldownMs then SpikeResult(false, 0.0, Cooldown)
    else
      var aboveCount := CountAtLeast(TakeLast(window, MinSamplesAbove), TriggerThreshold);
      var baseline := Baseline(window, score);
      var delta := score as real - baseline;
      var confidence := Confidence(aboveCount, delta);
      var shouldTrigger := aboveCount >= MinSamplesAbove && confidence >= 0.75;
      SpikeResult(shouldTrigger, confidence, Evaluated(score, baseline, delta))
  }

  /**
   * Hysteresis: a trigger happens exactly outside the cooldown, when the last three
   * scores are all at or above the threshold and the score rose at least 25/6 over the
   * baseline (the rise that lifts the confidence to 0.75).
   */
  lemma JudgeTriggers(window: seq<int>, score: int, now: int, lastTriggerAt: int)
    ensures Judge(window, score, now, lastTriggerAt).shouldTriggerBreathing <==>
              && now - lastTriggerAt >= CooldownMs
              && |window| >= MinSamplesAbove
              && (forall i :: |window| - MinSamplesAbove <= i < |window| ==> window[i] >= TriggerThreshold)
              && score as real - Baseline(window, score) >= 25.0 / 6.0
  {
    if now - lastTriggerAt >= CooldownMs {
      var last := TakeLast(window, MinSamplesAbove);
      var aboveCount := CountAtLeast(last, TriggerThreshold);
      if |window| >= MinSamplesAbove {
        assert forall i :: |window| - MinSamplesAbove <= i < |window| ==>
          window[i] == last[i - (|window| - MinSamplesAbove)];
      }
    }
  }

  /** With at most three scores there is no baseline yet: confidence stays at or below 0.7 and nothing triggers. */
  lemma ShortWindowNeverTriggers(window: seq<int>, score: int, now: int, lastTriggerAt: int)
    requires |window| <= 3
    ensures Judge(window, score, now, lastTriggerAt).confidence <= 0.7
    ensures !Judge(window, score, now, lastTriggerAt).shouldTriggerBreathing
  {
  }

  /** `StressSpikeDetector`: the rolling window and the time of the last trigger. */
  class StressSpikeDetector {
    var window: seq<int>
    var lastTriggerAt: int

    ghost predicate Valid()
      reads this
    {
      |window| <= MaxWindow
    }

    constructor ()
      ensures Valid() && window == [] && lastTriggerAt == 0
    {
      window := [];
      lastTriggerAt := 0;
    }

    /** `onNewState`: the window is always updated; the cooldown starts only on a trigger. */
    method OnNewState(state: StressState) returns (result: SpikeResult)
      requires Valid()
      modifies this
      ensures Valid()
      ensures window == PushWindow(old(window), state.stress0to100)
      ensures result == Judge(window, state.stress0to100, state.tsMs, old(lastTriggerAt))
      ensures lastTriggerAt == if result.shouldTriggerBreathing then state.tsMs else old(lastTriggerAt)
    {
      var now := state.tsMs;
      var score := state.stress0to100;

      ghost var full := window + [score];
      window := window + [score];
      while |window| > MaxWindow
        modifies this`window
        invariant |window| <= |full| && window == full[|full| - |window|..]
        invariant |window| < |full| ==> |window| >= MaxWindow
        decreases |window|
      {
        window := window[1..];
      }
      assert window == PushWindow(old(window), score);

      if now - lastTriggerAt < CooldownMs {
        return SpikeResult(false, 0.0, Cooldown);
      }

      var aboveCount := CountAtLeast(TakeLast(window, MinSamplesAbove), TriggerThreshold);
      var baseline := AverageOrNull(DropLast(window, 3)).GetOr(score as real);
      var delta := score as real - baseline;
      var confidence := Confidence(aboveCount, delta);
      var shouldTrigger := aboveCount >= MinSamplesAbove && confidence >= 0.75;
      if shouldTrigger {
        lastTriggerAt := now;
      }
      result := SpikeResult(shouldTrigger, confidence, Evaluated(score, baseline, delta));
      assert baseline == Baseline(window, score);
    }
  }

  lemma {:induction false} SumOfConstant(s: seq<int>, c: int)
    requires forall i :: 0 <= i < |s| ==> s[i] == c
    ensures Sum(s) == |s| * c
    decreases |s|
  {
    if s != [] {
      SumOfConstant(s[..|s| - 1], c);
    }
  }

  /** A new detector is cooling down for the first minute of timestamps. */
  lemma FreshDetectorCoolsDown(window: seq<int>, score: int, now: int)
    requires now < CooldownMs
    ensures Judge(window, score, now, 0) == SpikeResult(false, 0.0, Cooldown)
  {
  }

  /** Three 90s after nine 20s trigger; the same scores within a minute of that trigger do not. */
  lemma SpikeExample()
    ensures Judge([20, 20, 20, 20, 20, 20, 20, 20, 20, 90, 90, 90], 90, 100000, 0).shouldTriggerBreathing
    ensures Judge([20, 20, 20, 20, 20, 20, 20, 20, 20, 90, 90, 90], 90, 130000, 100000)
              == SpikeResult(false, 0.0, Cooldown)
  {
    var w := [20, 20, 20, 20, 20, 20, 20, 20, 20, 90, 90, 90];
    var rest := DropLast(w, 3);
    assert rest == [20, 20, 20, 20, 20, 20, 20, 20, 20];
    SumOfConstant(rest, 20);
    assert Baseline(w, 90) == 20.0;
  }
}
