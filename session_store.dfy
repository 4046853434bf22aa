/**
 * `StressStore`: session gating, source routing, the per-sample handler, the two sample
 * buffers and the session summary. Each method is one atomic step, as the store's mutex
 * and single collector make them.
 */
module SessionStore {
  import opened Wrappers
  import opened Samples
  import BlePipeline
  import SpikeDetection

  /** `SourceMode`: which source(s) feed the pipeline. */
  datatype SourceMode = BleOnly | SimOnly | BothMerge | AutoPreferBle

  /** A simulated sample is let through when BLE has been silent for more than this. */
  const BleSilenceMs: int := 3000

  /** The spike detector is consulted only this long after the session started. */
  const SpikeWarmupMs: int := 10000

  /**
   * Whether the combined stream carries `sample` under `mode`, where `lastBleTs` is the
   * timestamp of the last BLE sample seen by the auto-prefer filter (0 for none).
   */
  predicate Forwards(mode: SourceMode, lastBleTs: int, sample: BiometricSample)
  {
    match mode
    case BleOnly => sample.source == Ble
    case SimOnly => sample.source == Simulated
    case BothMerge => true
    case AutoPreferBle =>
      sample.source == Ble || lastBleTs == 0 || sample.tsMs - lastBleTs > BleSilenceMs
  }

  /** Routing seen per source: BLE goes through unless the mode is simulation-only. */
  lemma ForwardsBySource(mode: SourceMode, lastBleTs: int, sample: BiometricSample)
    ensures sample.source == Ble ==> (Forwards(mode, lastBleTs, sample) <==> mode != SimOnly)
    ensures sample.source == Simulated ==>
              (Forwards(mode, lastBleTs, sample) <==>
                 || mode == SimOnly || mode == BothMerge
                 || (mode == AutoPreferBle && (lastBleTs == 0 || sample.tsMs - lastBleTs > BleSilenceMs)))
  {
  }

  /** A simulated sample 2000 ms after the last BLE sample is dropped; one 3001 ms after is kept. */
  lemma AutoPreferExample(hr: Option<int>, rr: seq<int>)
    ensures !Forwards(AutoPreferBle, 50000, BiometricSample(52000, hr, rr, Simulated))
    ensures Forwards(AutoPreferBle, 50000, BiometricSample(53001, hr, rr, Simulated))
  {
  }

  // ---------------------------------------------------------------------------
  // Session summary

  /** `mapNotNull { it.hrBpm?.toDouble() }`. */
  function HrValues(s: seq<SimSample>): (r: seq<real>)
    ensures |r| <= |s|
    ensures r == [] <==> forall i :: 0 <= i < |s| ==> s[i].hrBpm.None?
    decreases |s|
  {
    if s == [] then []
    else HrValues(s[..|s| - 1]) + (if s[|s| - 1].hrBpm.Some? then [s[|s| - 1].hrBpm.value as real] else [])
  }

  /** `mapNotNull { it.stress0to100?.toDouble() }`. */
  function StressValues(s: seq<SimSample>): (r: seq<real>)
    ensures |r| <= |s|
    ensures r == [] <==> forall i :: 0 <= i < |s| ==> s[i].stress0to100.None?
    decreases |s|
  {
    if s == [] then []
    else
      var last := s[|s| - 1];
      StressValues(s[..|s| - 1]) + (if last.stress0to100.Some? then [last.stress0to100.value as real] else [])
  }

  /** `mapNotNull { it.rmssd }`. */
  function RmssdValues(s: seq<SimSample>): (r: seq<real>)
    ensures |r| <= |s|
    ensures r == [] <==> forall i :: 0 <= i < |s| ==> s[i].rmssd.None?
    decreases |s|
  {
    if s == [] then []
    else RmssdValues(s[..|s| - 1]) + (if s[|s| - 1].rmssd.Some? then [s[|s| - 1].rmssd.value] else [])
  }

  function SumReal(xs: seq<real>): real
    decreases |xs|
  {
    if xs == [] then 0.0 else SumReal(xs[..|xs| - 1]) + xs[|xs| - 1]
  }

  /** `avg`: the arithmetic mean, 0 for an empty list. */
  function Mean(xs: seq<real>): (m: real)
    ensures xs == [] ==> m == 0.0
    ensures xs != [] ==> m * |xs| as real == SumReal(xs)
  {
    if xs == [] then 0.0 else SumReal(xs) / |xs| as real
  }

  /** `maxOrNull() ?: 0.0`. */
  function MaxOrZero(xs: seq<real>): (m: real)
    ensures xs == [] ==> m == 0.0
    ensures xs != [] ==> m in xs && forall i :: 0 <= i < |xs| ==> xs[i] <= m
    decreases |xs|
  {
    if xs == [] then 0.0
    else if |xs| == 1 then xs[0]
    else
      var rest := MaxOrZero(xs[..|xs| - 1]);
      if xs[|xs| - 1] > rest then xs[|xs| - 1] else rest
  }

  lemma {:induction false} SumRealBounds(xs: seq<real>, lo: real, hi: real)
    requires forall i :: 0 <= i < |xs| ==> lo <= xs[i] <= hi
    ensures |xs| as real * lo <= SumReal(xs) <= |xs| as real * hi
    decreases |xs|
  {
    if xs != [] {
      SumRealBounds(xs[..|xs| - 1], lo, hi);
    }
  }

  /** A mean lies between any bounds of its values. */
  lemma MeanBounds(xs: seq<real>, lo: real, hi: real)
    requires xs != []
    requires forall i :: 0 <= i < |xs| ==> lo <= xs[i] <= hi
    ensures lo <= Mean(xs) <= hi
  {
    SumRealBounds(xs, lo, hi);
    var n := |xs| as real;
    assert SumReal(xs) / n >= lo by { assert SumReal(xs) >= n * lo; }
    assert SumReal(xs) / n <= hi by { assert SumReal(xs) <= n * hi; }
  }

  /** `sessionSummaryForApi`: an empty map for an empty session, else the four statistics. */
  function Summary(samples: seq<SimSample>): (r: map<string, real>)
    ensures samples == [] <==> r == map[]
    ensures samples != [] ==> r.Keys == {"avgHr", "avgStress", "avgRmssd", "maxStress"}
    ensures samples != [] ==> r["maxStress"] == MaxOrZero(StressValues(samples))
    ensures samples != [] ==>
              && r["avgHr"] == Mean(HrValues(samples))
              && r["avgStress"] == Mean(StressValues(samples))
              && r["avgRmssd"] == Mean(RmssdValues(samples))
  {
    if samples == [] then map[]
    else
      var hr := HrValues(samples);
      var stress := StressValues(samples);
      var rmssd := RmssdValues(samples);
      var r := map["avgHr" := Mean(hr), "avgStress" := Mean(stress), "avgRmssd" := Mean(rmssd),
                   "maxStress" := MaxOrZero(stress)];
      assert "avgHr" in r;
      r
  }

  /** The stress statistics: no stress values give zeros, otherwise min <= average <= maximum. */
  lemma {:induction false} SummaryStress(samples: seq<SimSample>)
    requires samples != []
    ensures var r := Summary(samples);
      && (StressValues(samples) == [] ==> r["avgStress"] == 0.0 && r["maxStress"] == 0.0)
      && (forall i :: 0 <= i < |StressValues(samples)| ==> StressValues(samples)[i] <= r["maxStress"])
      && r["avgStress"] <= r["maxStress"]
  {
    var stress := StressValues(samples);
    if stress != [] {
      var m := MaxOrZero(stress);
      MeanUpper(stress, m);
    }
  }

  /** An average of the summary: 0 with no values, otherwise between their least and greatest. */
  lemma AverageWithin(xs: seq<real>)
    ensures xs == [] ==> Mean(xs) == 0.0
    ensures xs != [] ==> MinOf(xs) <= Mean(xs) <= MaxOrZero(xs)
  {
    if xs != [] {
      MeanBounds(xs, MinOf(xs), MaxOrZero(xs));
    }
  }

  /**
   * The three averages of the summary: each is the mean of the non-null values of its
   * field, 0 when every sample lacks that field, and otherwise lies between the least
   * and the greatest of those values.
   */
  lemma SummaryAverages(samples: seq<SimSample>)
    requires samples != []
    ensures var r := Summary(samples); var hr := HrValues(samples);
      && (hr == [] ==> r["avgHr"] == 0.0)
      && (hr != [] ==> MinOf(hr) <= r["avgHr"] <= MaxOrZero(hr))
    ensures var r := Summary(samples); var stress := StressValues(samples);
      && (stress == [] ==> r["avgStress"] == 0.0)
      && (stress != [] ==> MinOf(stress) <= r["avgStress"] <= MaxOrZero(stress))
    ensures var r := Summary(samples); var rmssd := RmssdValues(samples);
      && (rmssd == [] ==> r["avgRmssd"] == 0.0)
      && (rmssd != [] ==> MinOf(rmssd) <= r["avgRmssd"] <= MaxOrZero(rmssd))
  {
    AverageWithin(HrValues(samples));
    AverageWithin(StressValues(samples));
    AverageWithin(RmssdValues(samples));
  }

  lemma MeanUpper(xs: seq<real>, hi: real)
    requires xs != []
    requires forall i :: 0 <= i < |xs| ==> xs[i] <= hi
    ensures Mean(xs) <= hi
  {
    var lo := MinOf(xs);
    MeanBounds(xs, lo, hi);
  }

  function MinOf(xs: seq<real>): (m: real)
    requires xs != []
    ensures forall i :: 0 <= i < |xs| ==> m <= xs[i]
    decreases |xs|
  {
    if |xs| == 1 then xs[0]
    else
      var rest := MinOf(xs[..|xs| - 1]);
      if xs[|xs| - 1] < rest then xs[|xs| - 1] else rest
  }

  // ---------------------------------------------------------------------------
  // The store

  /** Appending the same sample to the log and to a suffix of it keeps a suffix. */
  lemma SuffixExtends(log: seq<SimSample>, tail: seq<SimSample>, x: SimSample)
    requires |tail| <= |log| && tail == log[|log| - |tail|..]
    ensures |tail + [x]| <= |log + [x]| && tail + [x] == (log + [x])[|log + [x]| - |tail + [x]|..]
  {
  }

  class StressStore {
    /** The live state (`state` flow): overwritten by every processed sample. */
    var state: StressState
    var isRunning: bool
    var isLoggedIn: bool
    var isAppOpened: bool
    var sessionStartedAtMs: int
    var sessionSamples: seq<SimSample>
    var pendingSamples: seq<SimSample>
    /** The current value of the mode flow. */
    var mode: SourceMode
    /** The auto-prefer filter's last BLE timestamp; 0 when none has been seen. */
    var lastBleTs: int
    const spikeDetector: SpikeDetection.StressSpikeDetector

    /** The pending buffer is always the most recent part of the session log. */
    ghost predicate Valid()
      reads this, spikeDetector
    {
      && spikeDetector.Valid()
      && |pendingSamples| <= |sessionSamples|
      && pendingSamples == sessionSamples[|sessionSamples| - |pendingSamples|..]
    }

    constructor (detector: SpikeDetection.StressSpikeDetector, initialMode: SourceMode)
      requires detector.Valid()
      ensures Valid() && spikeDetector == detector
      ensures state == InitialState() && !isRunning && !isLoggedIn && !isAppOpened
      ensures sessionStartedAtMs == 0 && sessionSamples == [] && pendingSamples == []
      ensures mode == initialMode && lastBleTs == 0
    {
      state := InitialState();
      isRunning, isLoggedIn, isAppOpened := false, false, false;
      sessionStartedAtMs := 0;
      sessionSamples, pendingSamples := [], [];
      mode, lastBleTs := initialMode, 0;
      spikeDetector := detector;
    }

    method SetLoggedIn(value: bool)
      modifies this`isLoggedIn
      ensures isLoggedIn == value
    {
      isLoggedIn := value;
    }

    method SetAppOpened(value: bool)
      modifies this`isAppOpened
      ensures isAppOpened == value
    {
      isAppOpened := value;
    }

    /**
     * A new mode value re-subscribes the combined stream, which builds a fresh
     * auto-prefer filter whose last BLE timestamp starts at 0. Setting the same
     * value emits nothing.
     */
    method SetMode(m: SourceMode)
      modifies this`mode, this`lastBleTs
      ensures mode == m
      ensures lastBleTs == if m == old(mode) then old(lastBleTs) else 0
    {
      if m != mode {
        mode := m;
        lastBleTs := 0;
      }
    }

    /**
     * `tryStart`: a no-op while running, logged out or with the app not opened;
     * otherwise starts a session at `nowMs` with both buffers empty and a fresh
     * subscription to the combined stream.
     */
    method TryStart(nowMs: int)
      requires Valid()
      modifies this`isRunning, this`sessionStartedAtMs, this`sessionSamples, this`pendingSamples, this`lastBleTs
      ensures Valid()
      ensures old(isRunning) || !isLoggedIn || !isAppOpened ==> unchanged(this)
      ensures !old(isRunning) && isLoggedIn && isAppOpened ==>
                && isRunning && sessionStartedAtMs == nowMs
                && sessionSamples == [] && pendingSamples == [] && lastBleTs == 0
    {
      if isRunning { return; }
      if !isLoggedIn { return; }
      if !isAppOpened { return; }
      isRunning := true;
      sessionStartedAtMs := nowMs;
      sessionSamples := [];
      pendingSamples := [];
      lastBleTs := 0;
    }

    /** `stopSession`: stops collecting and keeps both buffers for a final drain and summary. */
    method StopSession()
      modifies this`isRunning
      ensures !isRunning
    {
      isRunning := false;
    }

    /**
     * One sample arriving from a source while a session collects: routing, then the
     * collect body (live state, both buffers, and after the warm-up the spike detector).
     * `triggered` is the breathing event the handler emits.
     */
    method OnSample(sample: BiometricSample, nowMs: int, sqrt: real -> real)
      returns (forwarded: bool, triggered: bool)
      requires Valid()
      modifies this`state, this`sessionSamples, this`pendingSamples, this`lastBleTs, spikeDetector
      ensures Valid()
      ensures !isRunning ==> !forwarded && !triggered && unchanged(this) && unchanged(spikeDetector)
      ensures isRunning ==> forwarded == Forwards(mode, old(lastBleTs), sample)
      ensures lastBleTs ==
                if isRunning && mode == AutoPreferBle && sample.source == Ble then sample.tsMs else old(lastBleTs)
      ensures !forwarded ==>
                && !triggered && unchanged(spikeDetector)
                && state == old(state) && sessionSamples == old(sessionSamples) && pendingSamples == old(pendingSamples)
      ensures forwarded ==>
                && state == BlePipeline.Process(sample, sqrt)
                && sessionSamples == old(sessionSamples) + [ToSimSample(state)]
                && pendingSamples == old(pendingSamples) + [ToSimSample(state)]
      ensures forwarded && nowMs - sessionStartedAtMs < SpikeWarmupMs ==> !triggered && unchanged(spikeDetector)
      ensures forwarded && nowMs - sessionStartedAtMs >= SpikeWarmupMs ==>
                && spikeDetector.window == SpikeDetection.PushWindow(old(spikeDetector.window), state.stress0to100)
                && triggered == SpikeDetection.Judge(spikeDetector.window, state.stress0to100, state.tsMs,
                                                      old(spikeDetector.lastTriggerAt)).shouldTriggerBreathing
                && spikeDetector.lastTriggerAt == if triggered then state.tsMs else old(spikeDetector.lastTriggerAt)
    {
      if !isRunning {
        return false, false;
      }
      forwarded := Forwards(mode, lastBleTs, sample);
      if mode == AutoPreferBle && sample.source == Ble {
        lastBleTs := sample.tsMs;
      }
      triggered := false;
      if !forwarded {
        return;
      }

      var newState := BlePipeline.Process(sample, sqrt);
      state := newState;
      var simSample := ToSimSample(newState);
      SuffixExtends(sessionSamples, pendingSamples, simSample);
      sessionSamples := sessionSamples + [simSample];
      pendingSamples := pendingSamples + [simSample];

      if nowMs - sessionStartedAtMs < SpikeWarmupMs {
        return;
      }
      var spike := spikeDetector.OnNewState(newState);
      triggered := spike.shouldTriggerBreathing;
    }

    /** `drainPendingSamples`: everything appended since the last drain, in order; the log is untouched. */
    method DrainPendingSamples() returns (out: seq<SimSample>)
      requires Valid()
      modifies this`pendingSamples
      ensures Valid()
      ensures out == old(pendingSamples) && pendingSamples == []
      ensures out == sessionSamples[|sessionSamples| - |out|..]
    {
      if pendingSamples == [] {
        return [];
      }
      out := pendingSamples;
      pendingSamples := [];
    }

    /** `sessionSummaryForApi`, over the whole session log. */
    function SessionSummaryForApi(): (r: map<string, real>)
      reads this
      ensures sessionSamples == [] <==> r == map[]
      ensures r == Summary(sessionSamples)
      ensures sessionSamples != [] ==> r.Keys == {"avgHr", "avgStress", "avgRmssd", "maxStress"}
    {
      Summary(sessionSamples)
    }
  }
}
