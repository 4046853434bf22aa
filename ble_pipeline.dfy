/** One raw sample in, one derived stress state out. */
module BlePipeline {
  import opened Wrappers
  import opened Samples
  import Hrv
  import Stress

  /** `BlePipeline.process`. */
  function Process(sample: BiometricSample, sqrt: real -> real): (s: StressState)
    ensures s.tsMs == sample.tsMs && s.hrBpm == sample.hrBpm && s.source == sample.source
    ensures s.rmssd == Hrv.RmssdOf(sample.rrMs, sqrt)
    ensures (s.stress0to100, s.confidence0to1) == Stress.Score(sample.hrBpm, s.rmssd)
    ensures 0 <= s.stress0to100 <= 100 && 0.0 <= s.confidence0to1 <= 1.0
    ensures s.confidence0to1 == 0.9 <==> |sample.rrMs| >= 3
    ensures |sample.rrMs| < 3 ==> s.rmssd.None? && s.confidence0to1 <= 0.45
  {
    var rmssd := Hrv.RmssdOf(sample.rrMs, sqrt);
    var (stress, conf) := Stress.Score(sample.hrBpm, rmssd);
    StressState(sample.tsMs, sample.hrBpm, rmssd, stress, conf, sample.source)
  }

  /** The initial live state is exactly what an empty BLE sample at time 0 derives to. */
  lemma InitialIsNoSignal(sqrt: real -> real)
    ensures Process(BiometricSample(0, None, [], Ble), sqrt) == InitialState()
  {
  }
}
