/**
 * The chart part of `AppGraph`: the daily (24 hours) and weekly (7 days) stress charts,
 * refreshed from the backend only for an authenticated user.
 */
module AppGraph {
  import opened Wrappers
  import Auth

  const DailySize: nat := 24
  const WeeklySize: nat := 7

  /** `ChartsResponse`: the backend's chart lists, of any length. */
  datatype ChartsResponse = ChartsResponse(
    userId: string,
    simId: Option<string>,
    dailyStressByHour: seq<int>,
    weeklyStressByDay: seq<int>)

  /** `take(size)` then pad with zeros up to `size`. */
  function Normalize(list: seq<int>, size: nat): (r: seq<int>)
    ensures |r| == size
    ensures forall i :: 0 <= i < size && i < |list| ==> r[i] == list[i]
    ensures forall i :: |list| <= i < size ==> r[i] == 0
  {
    var taken := if |list| <= size then list else list[..size];
    if |taken| == size then taken else taken + seq(size - |taken|, _ => 0)
  }

  /** A list of the right length is kept as is, and normalising twice is normalising once. */
  lemma NormalizeIdempotent(list: seq<int>, size: nat)
    ensures |list| == size ==> Normalize(list, size) == list
    ensures Normalize(Normalize(list, size), size) == Normalize(list, size)
  {
    var once := Normalize(list, size);
    assert Normalize(once, size) == once;
  }

  function Zeros(n: nat): (r: seq<int>)
    ensures |r| == n && forall i :: 0 <= i < n ==> r[i] == 0
  {
    seq(n, _ => 0)
  }

  class Charts {
    var dailyChart: seq<int>
    var weeklyChart: seq<int>

    ghost predicate Valid()
      reads this
    {
      |dailyChart| == DailySize && |weeklyChart| == WeeklySize
    }

    /** Both charts start as all zeros. */
    constructor ()
      ensures Valid() && dailyChart == Zeros(DailySize) && weeklyChart == Zeros(WeeklySize)
    {
      dailyChart := Zeros(DailySize);
      weeklyChart := Zeros(WeeklySize);
    }

    /**
     * `refreshChartsIfLoggedIn`: nothing unless authenticated; then the charts are
     * fetched with the session's access token, and a failed fetch leaves them as they were.
     */
    method RefreshChartsIfLoggedIn(auth: Auth.AuthState, fetch: string -> Option<ChartsResponse>)
      requires Valid()
      modifies this
      ensures Valid()
      ensures !auth.Authenticated? ==> unchanged(this)
      ensures auth.Authenticated? && fetch(auth.accessToken).None? ==> unchanged(this)
      ensures auth.Authenticated? && fetch(auth.accessToken).Some? ==>
                var res := fetch(auth.accessToken).value;
                && dailyChart == Normalize(res.dailyStressByHour, DailySize)
                && weeklyChart == Normalize(res.weeklyStressByDay, WeeklySize)
    {
      if !auth.Authenticated? {
        return;
      }
      var response := fetch(auth.accessToken);
      if response.None? {
        return;
      }
      var res := response.value;
      dailyChart := Normalize(res.dailyStressByHour, DailySize);
      weeklyChart := Normalize(res.weeklyStressByDay, WeeklySize);
    }
  }
}
