/**
 * The 4-7-8 breathing exercise screen: the phase schedule over a 19-second cycle, the
 * `m:ss` timer text and the pause-able countdown.
 */
module Breathing {
  import opened Numeric

  const InhaleSeconds: int := 4
  const HoldSeconds: int := 7
  const ExhaleSeconds: int := 8
  const CycleLen: int := 19

  const Inhale: string := "Inhale…"
  const Hold: string := "Hold…"
  const Exhale: string := "Exhale…"

  /** `instructionFor`: seconds 0..3 inhale, 4..10 hold, the rest exhale. */
  function InstructionFor(secondInCycle: int): (r: string)
    ensures r == Inhale || r == Hold || r == Exhale
    ensures r == Inhale <==> secondInCycle < InhaleSeconds
    ensures r == Hold <==> InhaleSeconds <= secondInCycle < InhaleSeconds + HoldSeconds
  {
    if secondInCycle < 4 then Inhale
    else if secondInCycle < 11 then Hold
    else Exhale
  }

  /** `secInCycle`: Kotlin's `%` of the elapsed seconds by the cycle length. */
  function SecInCycle(totalSeconds: int, remainingSec: int): (r: int)
    ensures remainingSec <= totalSeconds ==> 0 <= r < CycleLen
    ensures remainingSec <= totalSeconds ==> r == (totalSeconds - remainingSec) % CycleLen
  {
    KotlinRem(totalSeconds - remainingSec, CycleLen)
  }

  /** How many of the seconds 0..k-1 show `instruction`. */
  function SecondsShowing(instruction: string, k: nat): nat
    decreases k
  {
    if k == 0 then 0
    else SecondsShowing(instruction, k - 1) + (if InstructionFor(k - 1) == instruction then 1 else 0)
  }

  lemma {:induction false} SecondsShowingCounts(k: nat)
    ensures SecondsShowing(Inhale, k) == if k < 4 then k else 4
    ensures SecondsShowing(Hold, k) == if k < 4 then 0 else if k < 11 then k - 4 else 7
    ensures SecondsShowing(Exhale, k) == if k < 11 then 0 else k - 11
    decreases k
  {
    if k > 0 {
      SecondsShowingCounts(k - 1);
    }
  }

  /** One cycle shows 4 inhale, 7 hold and 8 exhale seconds. */
  lemma CyclePhases()
    ensures SecondsShowing(Inhale, CycleLen as nat) == InhaleSeconds
    ensures SecondsShowing(Hold, CycleLen as nat) == HoldSeconds
    ensures SecondsShowing(Exhale, CycleLen as nat) == ExhaleSeconds
  {
    SecondsShowingCounts(19);
  }

  // ---------------------------------------------------------------------------
  // The m:ss timer text

  function DigitChar(d: int): (c: char)
    requires 0 <= d < 10
    ensures '0' <= c <= '9'
  {
    ('0' as int + d) as char
  }

  /** `Int.toString()` of a non-negative number. */
  function Decimal(n: nat): (s: string)
    ensures |s| >= 1 && forall i :: 0 <= i < |s| ==> '0' <= s[i] <= '9'
    ensures n < 10 <==> |s| == 1
    decreases n
  {
    if n < 10 then [DigitChar(n)] else Decimal(n / 10) + [DigitChar(n % 10)]
  }

  /** Reads a string of decimal digits back as a number. */
  function ParseDecimal(s: string): nat
    requires forall i :: 0 <= i < |s| ==> '0' <= s[i] <= '9'
    decreases |s|
  {
    if s == [] then 0 else ParseDecimal(s[..|s| - 1]) * 10 + (s[|s| - 1] as int - '0' as int)
  }

  lemma {:induction false} DecimalRoundTrip(n: nat)
    ensures ParseDecimal(Decimal(n)) == n
    decreases n
  {
    if n >= 10 {
      DecimalRoundTrip(n / 10);
      var s := Decimal(n);
      assert s[..|s| - 1] == Decimal(n / 10);
    }
  }

  /** `padStart(2, '0')`. */
  function PadStart2(s: string): (r: string)
    ensures |s| >= 2 ==> r == s
    ensures |s| < 2 ==> |r| == 2 && r == seq(2 - |s|, _ => '0') + s
  {
    if |s| >= 2 then s else seq(2 - |s|, _ => '0') + s
  }

  /** `fmt`: minutes, a colon, and two-digit seconds of `max(0, sec)`. */
  function Fmt(sec: int): (r: string)
    ensures sec <= 0 ==> r == "0:00"
    ensures |r| >= 4 && r[|r| - 3] == ':'
  {
    var s := if sec < 0 then 0 else sec;
    var m := s / 60;
    var rest := s % 60;
    PaddedRoundTrip(rest);
    ZeroText();
    Decimal(m) + ":" + PadStart2(Decimal(rest))
  }

  /** Zero minutes and zero seconds are written "0" and "00". */
  lemma ZeroText()
    ensures Decimal(0) == "0" && PadStart2(Decimal(0)) == "00"
  {
    assert PadStart2(Decimal(0)) == ['0'] + "0";
  }

  /** Splits an `m:ss` text back into minutes and seconds. */
  function ParseClock(clock: string): (ms: (nat, nat))
    requires |clock| >= 4
    requires forall i :: 0 <= i < |clock| && i != |clock| - 3 ==> '0' <= clock[i] <= '9'
  {
    (ParseDecimal(clock[..|clock| - 3]), ParseDecimal(clock[|clock| - 2..]))
  }

  /** An `m:ss` text built from digit strings splits back into its two parts. */
  lemma ClockParts(mm: string, ss: string)
    requires |mm| >= 1 && forall i :: 0 <= i < |mm| ==> '0' <= mm[i] <= '9'
    requires |ss| == 2 && forall i :: 0 <= i < 2 ==> '0' <= ss[i] <= '9'
    ensures var clock := mm + ":" + ss;
      && |clock| >= 4
      && (forall i :: 0 <= i < |clock| && i != |clock| - 3 ==> '0' <= clock[i] <= '9')
      && ParseClock(clock) == (ParseDecimal(mm), ParseDecimal(ss))
  {
    var clock := mm + ":" + ss;
    assert clock[..|clock| - 3] == mm;
    assert clock[|clock| - 2..] == ss;
    forall i | 0 <= i < |clock| && i != |clock| - 3 ensures '0' <= clock[i] <= '9' {
      if i < |mm| { assert clock[i] == mm[i]; } else { assert clock[i] == ss[i - |mm| - 1]; }
    }
  }

  /** Minutes and seconds below 60, written as `m:ss`, read back unchanged. */
  lemma ClockRoundTrip(m: nat, r: nat)
    requires r < 60
    ensures var clock := Decimal(m) + ":" + PadStart2(Decimal(r));
      && |clock| >= 4
      && (forall i :: 0 <= i < |clock| && i != |clock| - 3 ==> '0' <= clock[i] <= '9')
      && ParseClock(clock) == (m, r)
  {
    PaddedRoundTrip(r);
    DecimalRoundTrip(m);
    ClockParts(Decimal(m), PadStart2(Decimal(r)));
  }

  /** The text reads back as minutes and seconds that make up `max(0, sec)`, seconds below 60. */
  lemma FmtRoundTrip(sec: int)
    ensures forall i :: 0 <= i < |Fmt(sec)| && i != |Fmt(sec)| - 3 ==> '0' <= Fmt(sec)[i] <= '9'
    ensures ParseClock(Fmt(sec)).1 < 60
    ensures ParseClock(Fmt(sec)).0 * 60 + ParseClock(Fmt(sec)).1 == if sec < 0 then 0 else sec
  {
    var s := if sec < 0 then 0 else sec;
    MinutesSeconds(s);
    ClockRoundTrip(s / 60, s % 60);
    assert Fmt(sec) == Decimal(s / 60) + ":" + PadStart2(Decimal(s % 60));
  }

  lemma MinutesSeconds(s: nat)
    ensures 0 <= s % 60 < 60 && (s / 60) * 60 + s % 60 == s
  {
  }

  lemma PaddedRoundTrip(n: nat)
    requires n < 100
    ensures var ss := PadStart2(Decimal(n));
      |ss| == 2 && (forall i :: 0 <= i < 2 ==> '0' <= ss[i] <= '9') && ParseDecimal(ss) == n
  {
    DecimalRoundTrip(n);
    var d := Decimal(n);
    if n < 10 {
      var ss := PadStart2(d);
      assert ss == ['0'] + d;
      assert ss[..1] == ['0'];
      assert ParseDecimal(ss[..1]) == 0;
      assert ParseDecimal(ss) == ParseDecimal(d);
    } else {
      assert |Decimal(n / 10)| == 1;
    }
  }

  // ---------------------------------------------------------------------------
  // The countdown

  class BreathingTimer {
    const totalSeconds: int
    var remainingSec: int
    var running: bool

    ghost predicate Valid()
      reads this
    {
      && remainingSec <= totalSeconds
      && (remainingSec < 0 ==> remainingSec == totalSeconds)
    }

    /** The screen opens running, with the whole duration left. */
    constructor (total: int)
      ensures Valid() && totalSeconds == total && remainingSec == total && running
    {
      totalSeconds := total;
      remainingSec := total;
      running := true;
    }

    /** The instruction shown for the current remaining time. */
    function Instruction(): (r: string)
      requires Valid()
      reads this
      ensures r == InstructionFor((totalSeconds - remainingSec) % CycleLen)
    {
      InstructionFor(SecInCycle(totalSeconds, remainingSec))
    }

    /** The pause/resume tap. */
    method ToggleRunning()
      requires Valid()
      modifies this`running
      ensures Valid() && running == !old(running)
    {
      running := !running;
    }

    /**
     * The countdown effect given `seconds` one-second delays: decrement while running
     * and above zero, then stop the timer once nothing is left.
     */
    method Countdown(seconds: nat)
      requires Valid()
      modifies this`remainingSec, this`running
      ensures Valid()
      ensures old(running) && old(remainingSec) > 0 ==>
                remainingSec == old(remainingSec) - (if seconds < old(remainingSec) then seconds else old(remainingSec))
      ensures !old(running) || old(remainingSec) <= 0 ==> remainingSec == old(remainingSec)
      ensures running == (old(running) && remainingSec > 0)
      ensures totalSeconds >= 0 ==> remainingSec >= 0
    {
      var elapsed := 0;
      while running && remainingSec > 0 && elapsed < seconds
        invariant 0 <= elapsed <= seconds
        invariant running == old(running)
        invariant remainingSec <= totalSeconds
        invariant old(running) && old(remainingSec) > 0 ==> remainingSec == old(remainingSec) - elapsed && remainingSec >= 0
        invariant !old(running) || old(remainingSec) <= 0 ==> remainingSec == old(remainingSec) && elapsed == 0
        decreases seconds - elapsed
      {
        remainingSec := remainingSec - 1;
        elapsed := elapsed + 1;
      }
      if remainingSec <= 0 {
        running := false;
      }
    }
  }
}
