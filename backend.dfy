/**
 * The pure helpers of the Python back end (`backend.py`): bearer-token extraction,
 * username normalisation and its length check, error-code selection, and the
 * hour/day bucketing of stored samples. The clock and time zone are parameters.
 */
module Backend {
  import opened Wrappers
  import opened Text
  import opened Numeric

  /** An `HTTPException`: status code and detail. */
  datatype HttpError = HttpError(status: int, detail: string)

  // ---------------------------------------------------------------------------
  // Substrings

  predicate StartsWith(s: string, prefix: string) {
    |prefix| <= |s| && s[..|prefix|] == prefix
  }

  /** Python `k in s` for strings. */
  predicate Contains(s: string, k: string)
    decreases |s|
  {
    StartsWith(s, k) || (s != [] && Contains(s[1..], k))
  }

  /** Python `s.replace(pat, "")`: every non-overlapping occurrence, scanned left to right, removed. */
  function RemoveAll(s: string, pat: string): (r: string)
    requires pat != []
    ensures |r| <= |s|
    ensures !Contains(s, pat) ==> r == s
    decreases |s|
  {
    if |s| < |pat| then s
    else if StartsWith(s, pat) then RemoveAll(s[|pat|..], pat)
    else [s[0]] + RemoveAll(s[1..], pat)
  }

  // ---------------------------------------------------------------------------
  // require_token

  const BearerPrefix: string := "Bearer "

  /** `require_token`: the bearer token of an `Authorization` header, or 401. */
  function RequireToken(authorization: Option<string>): (r: Result<string, HttpError>)
    ensures r.Failure? <==> authorization.None? || !StartsWith(authorization.value, BearerPrefix)
    ensures r.Failure? ==> r.error == HttpError(401, "Missing Bearer token")
    ensures r.Success? ==> |r.value| <= |authorization.value| - |BearerPrefix|
  {
    if authorization.None? || authorization.value == [] || !StartsWith(authorization.value, BearerPrefix) then
      Failure(HttpError(401, "Missing Bearer token"))
    else
      var s := authorization.value;
      assert RemoveAll(s, BearerPrefix) == RemoveAll(s[|BearerPrefix|..], BearerPrefix);
      Success(Trim(RemoveAll(s, BearerPrefix)))
  }

  /** A header built from a clean token gives that token back. */
  lemma RequireTokenRoundTrip(t: string)
    requires !Contains(t, BearerPrefix)
    requires t != [] ==> !IsWhitespace(t[0]) && !IsWhitespace(t[|t| - 1])
    ensures RequireToken(Some(BearerPrefix + t)) == Success(t)
  {
    var h := BearerPrefix + t;
    assert h[..|BearerPrefix|] == BearerPrefix;
    assert h[|BearerPrefix|..] == t;
    assert RemoveAll(h, BearerPrefix) == t;
    TrimNoEdges(t);
  }

  // ---------------------------------------------------------------------------
  // normalize_username

  /** Python `str.lower()` on one ASCII character. */
  function LowerChar(c: char): (l: char)
    ensures 'A' <= c <= 'Z' ==> 'a' <= l <= 'z' && l as int == c as int + 32
    ensures !('A' <= c <= 'Z') ==> l == c
  {
    if 'A' <= c <= 'Z' then (c as int + 32) as char else c
  }

  function Lower(s: string): (r: string)
    ensures |r| == |s| && forall i :: 0 <= i < |s| ==> r[i] == LowerChar(s[i])
  {
    seq(|s|, i requires 0 <= i < |s| => LowerChar(s[i]))
  }

  /** The class `[a-z0-9._-]`. */
  predicate UsernameChar(c: char) {
    ('a' <= c <= 'z') || ('0' <= c <= '9') || c == '.' || c == '_' || c == '-'
  }

  /** `re.sub(r"[^a-z0-9._-]", "", s)`: keep the allowed characters, in order. */
  function KeepUsernameChars(s: string): (r: string)
    ensures |r| <= |s|
    ensures forall i :: 0 <= i < |r| ==> UsernameChar(r[i])
    decreases |s|
  {
    if s == [] then []
    else (if UsernameChar(s[0]) then [s[0]] else []) + KeepUsernameChars(s[1..])
  }

  /** `normalize_username`: strip, lower-case, drop every character outside `[a-z0-9._-]`. */
  function NormalizeUsername(u: string): (r: string)
    ensures |r| <= |u|
    ensures forall i :: 0 <= i < |r| ==> UsernameChar(r[i])
  {
    KeepUsernameChars(Lower(Trim(u)))
  }

  lemma {:induction false} KeepAppend(a: string, b: string)
    ensures KeepUsernameChars(a + b) == KeepUsernameChars(a) + KeepUsernameChars(b)
    decreases |a|
  {
    if a == [] {
      assert a + b == b;
    } else {
      assert (a + b)[0] == a[0];
      assert (a + b)[1..] == a[1..] + b;
      KeepAppend(a[1..], b);
    }
  }

  /** No whitespace character, lower-cased, is an allowed username character. */
  lemma WhitespaceDropped(c: char)
    requires IsWhitespace(c)
    ensures LowerChar(c) == c && !UsernameChar(c)
    ensures KeepUsernameChars([LowerChar(c)]) == []
  {
    assert [c][1..] == [];
  }

  lemma {:induction false} KeepAllAllowed(s: string)
    requires forall i :: 0 <= i < |s| ==> UsernameChar(s[i])
    ensures KeepUsernameChars(s) == s
    decreases |s|
  {
    if s != [] {
      KeepAllAllowed(s[1..]);
    }
  }

  /** Whitespace is never kept, so stripping before filtering changes nothing. */
  lemma {:induction false} KeepLowerTrimStart(s: string)
    ensures KeepUsernameChars(Lower(TrimStart(s))) == KeepUsernameChars(Lower(s))
    decreases |s|
  {
    if s != [] && IsWhitespace(s[0]) {
      var rest := s[1..];
      assert TrimStart(s) == TrimStart(rest);
      KeepLowerTrimStart(rest);
      LowerCons(s[0], rest);
      assert s == [s[0]] + rest;
      KeepAppend([LowerChar(s[0])], Lower(rest));
      WhitespaceDropped(s[0]);
    }
  }

  lemma LowerCons(c: char, s: string)
    ensures Lower([c] + s) == [LowerChar(c)] + Lower(s)
  {
  }

  lemma LowerSnoc(s: string, c: char)
    ensures Lower(s + [c]) == Lower(s) + [LowerChar(c)]
  {
  }

  lemma {:induction false} KeepLowerTrimEnd(s: string)
    ensures KeepUsernameChars(Lower(TrimEnd(s))) == KeepUsernameChars(Lower(s))
    decreases |s|
  {
    if s != [] && IsWhitespace(s[|s| - 1]) {
      var init := s[..|s| - 1];
      assert TrimEnd(s) == TrimEnd(init);
      KeepLowerTrimEnd(init);
      assert s == init + [s[|s| - 1]];
      LowerSnoc(init, s[|s| - 1]);
      KeepAppend(Lower(init), [LowerChar(s[|s| - 1])]);
      WhitespaceDropped(s[|s| - 1]);
    }
  }

  /** On ASCII input the result is the lower-cased input with every other character removed, in order. */
  lemma NormalizeIsFilterOfLower(u: string)
    ensures NormalizeUsername(u) == KeepUsernameChars(Lower(u))
  {
    KeepLowerTrimStart(u);
    KeepLowerTrimEnd(TrimStart(u));
  }

  /** Normalising a normalised name gives it back. */
  lemma NormalizeIdempotent(u: string)
    ensures NormalizeUsername(NormalizeUsername(u)) == NormalizeUsername(u)
  {
    var r := NormalizeUsername(u);
    if r != [] {
      AllowedNotWhitespace(r[0]);
      AllowedNotWhitespace(r[|r| - 1]);
    }
    TrimNoEdges(r);
    LowerOfAllowed(r);
    KeepAllAllowed(r);
  }

  lemma LowerOfAllowed(s: string)
    requires forall i :: 0 <= i < |s| ==> UsernameChar(s[i])
    ensures Lower(s) == s
  {
    forall i | 0 <= i < |s| ensures Lower(s)[i] == s[i] {
      assert UsernameChar(s[i]);
    }
  }

  lemma AllowedNotWhitespace(c: char)
    requires UsernameChar(c)
    ensures !IsWhitespace(c)
  {
  }

  // ---------------------------------------------------------------------------
  // Username checks

  /** Shortest accepted normalised username. */
  const MinUsernameLength: nat := 3

  /**
   * The username checks of `signup`: missing or blank gives 400 USERNAME_REQUIRED,
   * a normalised form shorter than 3 gives 400 INVALID_USERNAME; otherwise the
   * stripped name and its normalised form.
   */
  function CheckSignupUsername(username: Option<string>): (r: Result<(string, string), HttpError>)
    ensures r == Failure(HttpError(400, "USERNAME_REQUIRED")) <==> username.None? || IsBlank(username.value)
    ensures r.Success? ==>
              && r.value.0 == Trim(username.value) && r.value.1 == NormalizeUsername(username.value)
              && |r.value.1| >= MinUsernameLength
    ensures r.Failure? && r.error.detail != "USERNAME_REQUIRED" ==> r.error == HttpError(400, "INVALID_USERNAME")
  {
    if username.None? || username.value == [] || IsBlank(username.value) then
      Failure(HttpError(400, "USERNAME_REQUIRED"))
    else
      var raw := Trim(username.value);
      var norm := NormalizeUsername(raw);
      NormalizeAfterTrim(username.value);
      if |norm| < MinUsernameLength then Failure(HttpError(400, "INVALID_USERNAME"))
      else Success((raw, norm))
  }

  lemma NormalizeAfterTrim(u: string)
    ensures NormalizeUsername(Trim(u)) == NormalizeUsername(u)
  {
    NormalizeIsFilterOfLower(u);
    NormalizeIsFilterOfLower(Trim(u));
    KeepLowerTrimStart(u);
    KeepLowerTrimEnd(TrimStart(u));
  }

  /** The username check of `put_profile`: only the normalised length is checked. */
  function CheckProfileUsername(username: string): (r: Result<(string, string), HttpError>)
    ensures r.Failure? <==> |NormalizeUsername(username)| < MinUsernameLength
    ensures r.Failure? ==> r.error == HttpError(400, "INVALID_USERNAME")
  {
    var raw := Trim(username);
    var norm := NormalizeUsername(raw);
    NormalizeAfterTrim(username);
    if |norm| < MinUsernameLength then Failure(HttpError(400, "INVALID_USERNAME"))
    else Success((raw, norm))
  }

  /** A present username passes `signup`'s checks exactly when its normalised form has 3 or more characters. */
  lemma {:induction false} SignupAcceptsExactly(u: string)
    ensures CheckSignupUsername(Some(u)).Success? <==> |NormalizeUsername(u)| >= MinUsernameLength
  {
    if IsBlank(u) {
      NormalizeIsFilterOfLower(u);
      BlankKeepsNothing(u);
    }
  }

  lemma {:induction false} BlankKeepsNothing(s: string)
    requires IsBlank(s)
    ensures KeepUsernameChars(Lower(s)) == []
    decreases |s|
  {
    if s != [] {
      BlankKeepsNothing(s[1..]);
      assert s == [s[0]] + s[1..];
      LowerCons(s[0], s[1..]);
      KeepAppend([LowerChar(s[0])], Lower(s[1..]));
      WhitespaceDropped(s[0]);
    }
  }

  // ---------------------------------------------------------------------------
  // _pretty_pyrebase_error

  const ErrorCodes: seq<string> :=
    ["EMAIL_EXISTS", "EMAIL_NOT_FOUND", "INVALID_PASSWORD", "USER_DISABLED", "WEAK_PASSWORD"]

  /** The index, from `from` on, of the first code that occurs in `s`. */
  function FirstContained(s: string, codes: seq<string>, from: nat): (r: Option<nat>)
    requires from <= |codes|
    ensures r.Some? ==> from <= r.value < |codes| && Contains(s, codes[r.value])
    ensures r.Some? ==> forall j :: from <= j < r.value ==> !Contains(s, codes[j])
    ensures r.None? ==> forall j :: from <= j < |codes| ==> !Contains(s, codes[j])
    decreases |codes| - from
  {
    if from == |codes| then None
    else if Contains(s, codes[from]) then Some(from)
    else FirstContained(s, codes, from + 1)
  }

  /** `_pretty_pyrebase_error`: the first known code, in list order, found in the message. */
  function PrettyError(message: string): (r: string)
    ensures r == "Auth/DB error" <==> forall j :: 0 <= j < |ErrorCodes| ==> !Contains(message, ErrorCodes[j])
    ensures r != "Auth/DB error" ==>
              exists k :: 0 <= k < |ErrorCodes| && r == ErrorCodes[k] && Contains(message, r)
                && forall j :: 0 <= j < k ==> !Contains(message, ErrorCodes[j])
  {
    match FirstContained(message, ErrorCodes, 0)
    case Some(k) => ErrorCodes[k]
    case None => "Auth/DB error"
  }

  // ---------------------------------------------------------------------------
  // Chart bucketing

  /** A stored sample as the back end reads it: either field may be missing. */
  datatype StoredSample = StoredSample(tsMs: Option<int>, stress0to100: Option<int>)

  /** The stress values, in order, of the complete samples whose timestamp `slotOf` maps to `b`. */
  function BucketValues(samples: seq<StoredSample>, slotOf: int -> Option<int>, b: int): (vs: seq<int>)
    ensures |vs| <= |samples|
    decreases |samples|
  {
    if samples == [] then []
    else
      var init := samples[..|samples| - 1];
      var s := samples[|samples| - 1];
      BucketValues(init, slotOf, b)
        + (if s.tsMs.Some? && s.stress0to100.Some? && slotOf(s.tsMs.value) == Some(b)
           then [s.stress0to100.value] else [])
  }

  function SumInt(xs: seq<int>): int
    decreases |xs|
  {
    if xs == [] then 0 else SumInt(xs[..|xs| - 1]) + xs[|xs| - 1]
  }

  /** `int(sum(arr) / len(arr)) if arr else 0`. */
  function TruncMean(xs: seq<int>): int {
    if xs == [] then 0 else TruncToInt(SumInt(xs) as real / |xs| as real)
  }

  lemma {:induction false} SumIntBounds(xs: seq<int>, lo: int, hi: int)
    requires forall i :: 0 <= i < |xs| ==> lo <= xs[i] <= hi
    ensures |xs| * lo <= SumInt(xs) <= |xs| * hi
    decreases |xs|
  {
    if xs != [] {
      var n := |xs| - 1;
      SumIntBounds(xs[..n], lo, hi);
      assert SumInt(xs) == SumInt(xs[..n]) + xs[n];
      assert n * lo + lo == (n + 1) * lo;
      assert n * hi + hi == (n + 1) * hi;
    }
  }

  lemma DivBetween(total: real, n: real, lo: real, hi: real)
    requires n > 0.0 && n * lo <= total <= n * hi
    ensures lo <= total / n <= hi
  {
    var q := total / n;
    assert q * n == total;
  }

  /** The truncated mean of non-negative values lies between their bounds. */
  lemma TruncMeanBounds(xs: seq<int>, lo: int, hi: int)
    requires 0 <= lo
    requires forall i :: 0 <= i < |xs| ==> lo <= xs[i] <= hi
    ensures xs == [] ==> TruncMean(xs) == 0
    ensures xs != [] ==> lo <= TruncMean(xs) <= hi
  {
    if xs != [] {
      SumIntBounds(xs, lo, hi);
      MeanBetween(SumInt(xs), |xs|, lo, hi);
      TruncBetween(SumInt(xs) as real / |xs| as real, lo, hi);
    }
  }

  /** Integer bounds on a total carry over to its real quotient. */
  lemma MeanBetween(total: int, n: nat, lo: int, hi: int)
    requires n > 0 && n * lo <= total <= n * hi
    ensures lo as real <= total as real / n as real <= hi as real
  {
    IntProductAsReal(n, lo);
    IntProductAsReal(n, hi);
    DivBetween(total as real, n as real, lo as real, hi as real);
  }

  /** Truncating a non-negative value between two integers stays between them. */
  lemma TruncBetween(q: real, lo: int, hi: int)
    requires 0 <= lo && lo as real <= q <= hi as real
    ensures lo <= TruncToInt(q) <= hi
  {
  }

  lemma IntProductAsReal(a: int, b: int)
    ensures (a * b) as real == a as real * b as real
  {
  }

  /** A complete sample always lands in the bucket its timestamp maps to. */
  lemma {:induction false} SampleInItsBucket(samples: seq<StoredSample>, slotOf: int -> Option<int>, i: nat)
    requires i < |samples|
    requires samples[i].tsMs.Some? && samples[i].stress0to100.Some?
    requires slotOf(samples[i].tsMs.value).Some?
    ensures samples[i].stress0to100.value in BucketValues(samples, slotOf, slotOf(samples[i].tsMs.value).value)
    decreases |samples|
  {
    var b := slotOf(samples[i].tsMs.value).value;
    if i < |samples| - 1 {
      SampleInItsBucket(samples[..|samples| - 1], slotOf, i);
    }
  }

  /** Stored stress scores in [0, hi] give every bucket average in [0, hi]. */
  lemma {:induction false} BucketMeanWithin(samples: seq<StoredSample>, slotOf: int -> Option<int>, b: int, hi: int)
    requires 0 <= hi
    requires forall i :: 0 <= i < |samples| && samples[i].stress0to100.Some? ==>
               0 <= samples[i].stress0to100.value <= hi
    ensures 0 <= TruncMean(BucketValues(samples, slotOf, b)) <= hi
  {
    BucketValuesWithin(samples, slotOf, b, hi);
    TruncMeanBounds(BucketValues(samples, slotOf, b), 0, hi);
  }

  lemma {:induction false} BucketValuesWithin(samples: seq<StoredSample>, slotOf: int -> Option<int>, b: int, hi: int)
    requires forall i :: 0 <= i < |samples| && samples[i].stress0to100.Some? ==>
               0 <= samples[i].stress0to100.value <= hi
    ensures forall j :: 0 <= j < |BucketValues(samples, slotOf, b)| ==> 0 <= BucketValues(samples, slotOf, b)[j] <= hi
    decreases |samples|
  {
    if samples != [] {
      var init := samples[..|samples| - 1];
      BucketValuesWithin(init, slotOf, b, hi);
      var last := samples[|samples| - 1];
      var tail := if last.tsMs.Some? && last.stress0to100.Some? && slotOf(last.tsMs.value) == Some(b)
                  then [last.stress0to100.value] else [];
      assert BucketValues(samples, slotOf, b) == BucketValues(init, slotOf, b) + tail;
    }
  }

  /** Every slot `slotOf` assigns is a bucket index below `count`. */
  ghost predicate SlotsBelow(slotOf: int -> Option<int>, count: nat) {
    forall t :: slotOf(t).Some? ==> 0 <= slotOf(t).value < count
  }

  lemma SlotBelow(slotOf: int -> Option<int>, count: nat, t: int)
    requires SlotsBelow(slotOf, count)
    ensures slotOf(t).Some? ==> 0 <= slotOf(t).value < count
  {
  }

  /**
   * The two loops of the `_bucket_*` functions: append each complete sample's stress to
   * the bucket of its timestamp (a sample whose timestamp maps to no bucket is dropped),
   * then average each bucket.
   */
  method BucketAverages(samples: seq<StoredSample>, count: nat, slotOf: int -> Option<int>)
    returns (out: seq<int>)
    requires SlotsBelow(slotOf, count)
    ensures |out| == count
    ensures forall b :: 0 <= b < count ==> out[b] == TruncMean(BucketValues(samples, slotOf, b))
  {
    var buckets: seq<seq<int>> := seq(count, _ => []);
    var i := 0;
    while i < |samples|
      invariant 0 <= i <= |samples|
      invariant |buckets| == count
      invariant forall b :: 0 <= b < count ==> buckets[b] == BucketValues(samples[..i], slotOf, b)
    {
      var s := samples[i];
      assert samples[..i + 1][..i] == samples[..i];
      if s.tsMs.Some? && s.stress0to100.Some? {
        var slot := slotOf(s.tsMs.value);
        SlotBelow(slotOf, count, s.tsMs.value);
        if slot.Some? {
          var b := slot.value;
          buckets := buckets[b := buckets[b] + [s.stress0to100.value]];
        }
      }
      i := i + 1;
    }
    assert samples[..|samples|] == samples;

    out := [];
    var b := 0;
    while b < count
      invariant 0 <= b <= count
      invariant |out| == b
      invariant forall k :: 0 <= k < b ==> out[k] == TruncMean(BucketValues(samples, slotOf, k))
    {
      out := out + [TruncMean(buckets[b])];
      b := b + 1;
    }
  }

  /**
   * The local hour of a timestamp, clamped to 0..23 (`max(0, min(23, hour))`). `hourOf`
   * is `time.localtime(ts / 1000).tm_hour`, or `None` where `time.localtime` raises; such
   * a sample is skipped.
   */
  function HourSlot(hourOf: int -> Option<int>): (slot: int -> Option<int>)
    ensures forall t :: slot(t).Some? <==> hourOf(t).Some?
    ensures forall t :: slot(t).Some? ==> 0 <= slot(t).value <= 23
    ensures forall t :: hourOf(t).Some? && 0 <= hourOf(t).value <= 23 ==> slot(t).value == hourOf(t).value
    ensures forall t :: hourOf(t).Some? && hourOf(t).value < 0 ==> slot(t).value == 0
    ensures forall t :: hourOf(t).Some? && hourOf(t).value > 23 ==> slot(t).value == 23
  {
    t =>
      match hourOf(t)
      case None => None
      case Some(h) => Some(if 23 < h then 23 else if h < 0 then 0 else h)
  }

  /** Days since the epoch of a millisecond timestamp (`(ts / 1000.0) // 86400`). */
  function EpochDay(tsMs: int): int {
    tsMs / 86400000
  }

  /** The weekly slot: 6 for today down to 0 for six days ago, nothing for other days. */
  function DaySlot(nowDay: int): (slot: int -> Option<int>)
    ensures forall t :: slot(t).Some? <==> 0 <= nowDay - EpochDay(t) <= 6
    ensures forall t :: slot(t).Some? ==> slot(t).value == 6 - (nowDay - EpochDay(t))
  {
    t => var diff := nowDay - EpochDay(t); if 0 <= diff <= 6 then Some(6 - diff) else None
  }

  /** `_bucket_daily_by_hour`: 24 truncated hourly means, 0 for an empty hour. */
  method BucketDailyByHour(samples: seq<StoredSample>, hourOf: int -> Option<int>) returns (out: seq<int>)
    ensures |out| == 24
    ensures forall h :: 0 <= h < 24 ==> out[h] == TruncMean(BucketValues(samples, HourSlot(hourOf), h))
  {
    out := BucketAverages(samples, 24, HourSlot(hourOf));
  }

  /** `_bucket_weekly_by_day`: 7 truncated daily means, oldest day first, 0 for an empty day. */
  method BucketWeeklyByDay(samples: seq<StoredSample>, nowDay: int) returns (out: seq<int>)
    ensures |out| == 7
    ensures forall d :: 0 <= d < 7 ==> out[d] == TruncMean(BucketValues(samples, DaySlot(nowDay), d))
  {
    out := BucketAverages(samples, 7, DaySlot(nowDay));
  }
}
