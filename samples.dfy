/** The values that flow through the biometric pipeline. */
module Samples {
  import opened Wrappers

  /** Which kind of wearable produced a sample. */
  datatype WearableSourceType = Ble | Simulated

  /** One raw reading: heart rate and the recent beat-to-beat (RR) intervals in ms. */
  datatype BiometricSample = BiometricSample(
    tsMs: int,
    hrBpm: Option<int>,
    rrMs: seq<int>,
    source: WearableSourceType)

  /** The derived stress estimate published as the live state. */
  datatype StressState = StressState(
    tsMs: int,
    hrBpm: Option<int>,
    rmssd: Option<real>,
    stress0to100: int,
    confidence0to1: real,
    source: WearableSourceType)

  /** The state shown before any sample has been processed. */
  function InitialState(): (s: StressState)
    ensures s.hrBpm.None? && s.rmssd.None? && s.stress0to100 == 0 && s.confidence0to1 == 0.0
    ensures s.tsMs == 0 && s.source == Ble
  {
    StressState(0, None, None, 0, 0.0, Ble)
  }

  /** The projection of a derived state that is buffered for upload. */
  datatype SimSample = SimSample(
    tsMs: int,
    hrBpm: Option<int>,
    rmssd: Option<real>,
    stress0to100: Option<int>)

  function ToSimSample(s: StressState): (r: SimSample)
    ensures r.tsMs == s.tsMs && r.hrBpm == s.hrBpm && r.rmssd == s.rmssd
    ensures r.stress0to100 == Some(s.stress0to100)
  {
    SimSample(s.tsMs, s.hrBpm, s.rmssd, Some(s.stress0to100))
  }
}
