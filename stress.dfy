/** Stress score and confidence from RMSSD, falling back to heart rate. */
module Stress {
  import opened Wrappers
  import opened Numeric

  /**
   * `Stress.score`: RMSSD first (confidence 0.9), else heart rate (0.45), else no signal.
   * The result is the pair (score, confidence).
   */
  function Score(hr: Option<int>, rmssd: Option<real>): (r: (int, real))
    ensures 0 <= r.0 <= 100
    ensures rmssd.Some? ==> r.1 == 0.9
    ensures rmssd.Some? && rmssd.value <= 10.0 ==> r.0 == 100
    ensures rmssd.Some? && rmssd.value >= 120.0 ==> r.0 == 0
    ensures rmssd.None? && hr.Some? ==> r.1 == 0.45
    ensures rmssd.None? && hr.Some? && hr.value <= 50 ==> r.0 == 0
    ensures rmssd.None? && hr.Some? && hr.value >= 150 ==> r.0 == 100
    ensures rmssd.None? && hr.Some? && 50 <= hr.value <= 150 ==> r.0 == hr.value - 50
    ensures rmssd.None? && hr.None? ==> r == (0, 0.0)
  {
    if rmssd.Some? then
      var clamped := ClampReal(rmssd.value, 10.0, 120.0);
      var stress := ClampInt(TruncToInt((120.0 - clamped) / 110.0 * 100.0), 0, 100);
      (stress, 0.9)
    else if hr.Some? then
      var clamped := ClampInt(hr.value, 50, 150);
      var stress := ClampInt(TruncToInt((clamped - 50) as real / 100.0 * 100.0), 0, 100);
      (stress, 0.45)
    else
      (0, 0.0)
  }

  /** On the RMSSD path the score does not depend on heart rate. */
  lemma RmssdIgnoresHeartRate(hr1: Option<int>, hr2: Option<int>, rmssd: real)
    ensures Score(hr1, Some(rmssd)) == Score(hr2, Some(rmssd))
  {
  }

  /** More variability never means more stress. */
  lemma ScoreAntitoneInRmssd(hr: Option<int>, a: real, b: real)
    requires a <= b
    ensures Score(hr, Some(b)).0 <= Score(hr, Some(a)).0
  {
    var ca := ClampReal(a, 10.0, 120.0);
    var cb := ClampReal(b, 10.0, 120.0);
    assert ca <= cb;
    var xa := (120.0 - ca) / 110.0 * 100.0;
    var xb := (120.0 - cb) / 110.0 * 100.0;
    assert xb <= xa;
  }

  /** A higher heart rate never means less stress on the fallback path. */
  lemma ScoreMonotoneInHeartRate(a: int, b: int)
    requires a <= b
    ensures Score(Some(a), None).0 <= Score(Some(b), None).0
  {
  }
}
