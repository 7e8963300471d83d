/** The countdown presenter: a `timeLeft` state that a one-second interval lowers by one
    while it is positive, and the `mm:ss` rendering of it. Each elapsed second is an
    explicit `Tick` step; real time is not modelled. */
module Countdown {
  import opened Wrappers
  import opened Js

  /** The `seconds` prop when the caller gives none. */
  const DefaultSeconds: int := 900

  // ---------------------------------------------------------------------------
  // formatTime

  /** `formatTime(s)`: `Math.floor(s / 60)` and `s % 60`, each written in decimal and padded
      on the left with zeros to two characters, joined by a colon. (Dafny's `/` by the
      positive 60 rounds down, as `Math.floor` does; JavaScript's `%` truncates.) */
  function FormatTime(s: int): (r: string)
    ensures |r| >= 5
    ensures s >= 0 ==> r[|r| - 3] == ':'
  {
    var secs: nat := if s >= 0 then s % 60 else 0;
    NatToStringLength(secs);
    PadStart(IntToString(s / 60), 2, '0') + ":" + PadStart(IntToString(TruncRem(s, 60)), 2, '0')
  }

  /** Reads an `mm:ss` string back: everything before the last three characters is the
      minute field, the last two the second field. */
  function ParseTime(f: string): Option<(nat, nat)>
  {
    if |f| >= 3 && f[|f| - 3] == ':' && IsDigits(f[..|f| - 3]) && IsDigits(f[|f| - 2..]) then
      Some((DecimalValue(f[..|f| - 3]), DecimalValue(f[|f| - 2..])))
    else None
  }

  /** For a non-negative time the minute field is the padded numeral of `s / 60` and the
      second field is exactly two characters. */
  lemma FormatTimeFields(s: int)
    requires s >= 0
    ensures var f := FormatTime(s);
      |f| == |PadStart(NatToString(s / 60), 2, '0')| + 3 &&
      f[..|f| - 3] == PadStart(NatToString(s / 60), 2, '0') &&
      f[|f| - 3] == ':' &&
      f[|f| - 2..] == PadStart(NatToString(s % 60), 2, '0')
  {
    NatToStringLength(s % 60);
  }

  /** Reading the rendering back gives minutes `m` and seconds `c` with `c < 60` and
      `60 * m + c == s`. */
  lemma FormatTimeRoundTrip(s: int)
    requires s >= 0
    ensures ParseTime(FormatTime(s)).Some?
    ensures var (m, c) := ParseTime(FormatTime(s)).value; c < 60 && 60 * m + c == s
  {
    FormatTimeFields(s);
    var f := FormatTime(s);
    var m, c := s / 60, s % 60;
    PaddedValue(m, 2);
    PaddedValue(c, 2);
    assert DecimalValue(f[..|f| - 3]) == m;
    assert DecimalValue(f[|f| - 2..]) == c;
    assert ParseTime(f) == Some((m, c));
    assert 60 * m + c == s;
  }

  /** Below 100 the padded numeral is exactly two digits. */
  lemma PaddedTwoDigits(n: nat)
    requires n < 100
    ensures var p := PadStart(NatToString(n), 2, '0'); |p| == 2 && IsDigit(p[0]) && IsDigit(p[1])
  {
    NatToStringLength(n);
    PaddedValue(n, 2);
  }

  /** Below 100 minutes the rendering is five characters: two digits, a colon, two digits. */
  lemma FormatTimeShape(s: int)
    requires 0 <= s < 6000
    ensures var f := FormatTime(s);
      |f| == 5 && f[2] == ':' && IsDigit(f[0]) && IsDigit(f[1]) && IsDigit(f[3]) && IsDigit(f[4])
  {
    FormatTimeFields(s);
    var f := FormatTime(s);
    var mm := PadStart(NatToString(s / 60), 2, '0');
    var ss := PadStart(NatToString(s % 60), 2, '0');
    PaddedTwoDigits(s / 60);
    PaddedTwoDigits(s % 60);
    assert |f| == 5;
    assert f[..2] == mm && f[3..] == ss;
    assert f[0] == mm[0] && f[1] == mm[1] && f[3] == ss[0] && f[4] == ss[1];
  }

  /** `padStart` never truncates: from 100 minutes on the minute field has three or more
      digits and the rendering is longer than five characters. */
  lemma FormatTimeWideMinutes(s: int)
    requires s >= 6000
    ensures var f := FormatTime(s);
      |f| > 5 && f[..|f| - 3] == NatToString(s / 60) && |f[..|f| - 3]| >= 3
  {
    FormatTimeFields(s);
    NatToStringLength(s / 60);
  }

  // ---------------------------------------------------------------------------
  // The ticking state

  /** What one elapsed second does to `timeLeft`: an interval is armed only while
      `timeLeft > 0`, and when it fires it lowers `timeLeft` by one. */
  function TickStep(t: int): (r: int)
    ensures r <= t && t - r <= 1
    ensures t >= 0 ==> r >= 0
    ensures r < t <==> t > 0
  {
    if t <= 0 then t else t - 1
  }

  /** `timeLeft` after `k` seconds. */
  function AfterTicks(t: int, k: nat): (r: int)
    ensures r <= t && t - r <= k
    ensures t >= 0 ==> r >= 0
  {
    if k == 0 then t else AfterTicks(TickStep(t), k - 1)
  }

  /** What the component renders: nothing once `timeLeft <= 0`, else the formatted time. */
  function Display(t: int): (r: Option<string>)
    ensures r.Some? <==> t > 0
  {
    if t <= 0 then None else Some(FormatTime(t))
  }

  /** From a start `n >= 0`, after `k` seconds the counter is `n - k` until it reaches 0, and
      then stays at 0: it never goes below 0. */
  lemma {:induction false} CountsDownToZero(n: nat, k: nat)
    ensures AfterTicks(n, k) == if k <= n then n - k else 0
  {
    if k > 0 {
      CountsDownToZero(TickStep(n), k - 1);
    }
  }

  /** A start at or below 0 arms no interval, so the counter never moves. */
  lemma {:induction false} NonPositiveStartStays(t: int, k: nat)
    requires t <= 0
    ensures AfterTicks(t, k) == t
  {
    if k > 0 {
      NonPositiveStartStays(t, k - 1);
    }
  }

  /** From a positive start `n` the time is shown for the first `n` states and after exactly
      `n` seconds the component renders nothing. */
  lemma ShownUntilZero(n: nat, k: nat)
    ensures k < n ==> Display(AfterTicks(n, k)) == Some(FormatTime(n - k))
    ensures k >= n ==> Display(AfterTicks(n, k)) == None
  {
    CountsDownToZero(n, k);
  }

  /** The `CountdownTimer` component's state. */
  class CountdownTimer {
    var timeLeft: int

    /** `useState(seconds)` with `seconds` defaulting to 900. */
    constructor (seconds: Option<int>)
      ensures timeLeft == seconds.GetOr(DefaultSeconds)
    {
      timeLeft := seconds.GetOr(DefaultSeconds);
    }

    /** An interval is armed exactly while `timeLeft > 0`. */
    predicate Ticking()
      reads this
    {
      timeLeft > 0
    }

    /** One second elapses: the armed interval, if any, runs `setTimeLeft(prev => prev - 1)`;
        the effect then clears it and arms a fresh one for the new value. */
    method Tick()
      modifies this
      ensures timeLeft == TickStep(old(timeLeft))
      ensures old(Ticking()) ==> timeLeft == old(timeLeft) - 1
      ensures !old(Ticking()) ==> timeLeft == old(timeLeft)
    {
      if timeLeft > 0 {
        timeLeft := timeLeft - 1;
      }
    }

    /** The rendered output. */
    function View(): (r: Option<string>)
      reads this
      ensures r.Some? <==> Ticking()
    {
      Display(timeLeft)
    }
  }
}
