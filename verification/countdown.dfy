/** The delivery countdown: the time left until a target instant, shown as
    hours, minutes and seconds of the current day (whole days are dropped). */
module Countdown {
  import opened Values
  import opened JsString

  const MsPerSecond := 1000
  const MsPerMinute := 60 * 1000
  const MsPerHour := 60 * 60 * 1000
  const MsPerDay := 24 * 60 * 60 * 1000

  datatype TimeLeft = TimeLeft(days: int, hours: int, minutes: int, seconds: int)

  const Zero := TimeLeft(0, 0, 0, 0)

  /** `calculateTimeLeft` for a target instant in epoch milliseconds (`Null`
      when the target date does not parse, so the difference is `NaN`) and the
      current instant. */
  function CalculateTimeLeft(target: Maybe<int>, now: int): (r: TimeLeft)
    ensures target.Null? || target.value - now <= 0 ==> r == Zero
    ensures r.days == 0
    ensures 0 <= r.hours < 24 && 0 <= r.minutes < 60 && 0 <= r.seconds < 60
    ensures target.Some? && target.value - now > 0 ==>
              var diff := target.value - now;
              r.hours * MsPerHour + r.minutes * MsPerMinute + r.seconds * MsPerSecond
                == diff % MsPerDay - diff % MsPerSecond
  {
    if target.Null? then Zero
    else
      var difference := target.value - now;
      if difference > 0 then
        var totalHours := difference / MsPerHour;
        var hours := totalHours % 24;
        var minutes := (difference % MsPerHour) / MsPerMinute;
        var seconds := (difference % MsPerMinute) / MsPerSecond;
        DecomposeDay(difference);
        TimeLeft(0, hours, minutes, seconds)
      else Zero
  }

  /** The hours, minutes and seconds of a positive difference add up to the
      part of it within the current day, rounded down to whole seconds. */
  lemma DecomposeDay(diff: int)
    requires diff > 0
    ensures (diff / MsPerHour) % 24 * MsPerHour
            + (diff % MsPerHour) / MsPerMinute * MsPerMinute
            + (diff % MsPerMinute) / MsPerSecond * MsPerSecond
            == diff % MsPerDay - diff % MsPerSecond
  {
    var h, restH := diff / MsPerHour, diff % MsPerHour;
    var m, restM := restH / MsPerMinute, restH % MsPerMinute;
    var sec, restS := restM / MsPerSecond, restM % MsPerSecond;
    DivModUnique(diff, MsPerDay, h / 24, (h % 24) * MsPerHour + restH);
    DivModUnique(diff, MsPerMinute, h * 60 + m, restM);
    DivModUnique(diff, MsPerSecond, (h * 60 + m) * 60 + sec, restS);
  }

  /** Euclidean division is determined by its quotient and remainder. */
  lemma DivModUnique(x: int, d: int, q: int, r: int)
    requires d > 0 && x == q * d + r && 0 <= r < d
    ensures x / d == q && x % d == r
  {
    var q', r' := x / d, x % d;
    assert (q' - q) * d == q' * d - q * d;
    if q' > q {
      AtLeastOnce(q' - q, d);
      assert false;
    } else if q' < q {
      AtLeastOnce(q - q', d);
      assert false;
    }
  }

  /** A positive multiple of a positive number is at least that number. */
  lemma {:induction false} AtLeastOnce(k: int, d: int)
    requires k >= 1 && d > 0
    ensures k * d >= d
    decreases k
  {
    if k > 1 {
      AtLeastOnce(k - 1, d);
      assert k * d == (k - 1) * d + d;
    }
  }

  /** One second later, a countdown that had more than a second left within
      the day shows one second less. */
  lemma TicksDown(target: int, now: int)
    requires target - now > MsPerSecond
    requires (target - now) % MsPerDay >= MsPerSecond
    ensures var before := CalculateTimeLeft(Some(target), now);
            var after := CalculateTimeLeft(Some(target), now + MsPerSecond);
            Seconds(after) == Seconds(before) - 1
  {
    var d := target - now;
    var d' := d - MsPerSecond;
    assert target - (now + MsPerSecond) == d';
    assert d' % MsPerSecond == d % MsPerSecond by {
      assert d == d' + MsPerSecond;
    }
    assert d' % MsPerDay == d % MsPerDay - MsPerSecond by {
      assert d == (d / MsPerDay) * MsPerDay + d % MsPerDay;
      assert d' == (d / MsPerDay) * MsPerDay + (d % MsPerDay - MsPerSecond);
    }
    var b := Seconds(CalculateTimeLeft(Some(target), now));
    var a := Seconds(CalculateTimeLeft(Some(target), now + MsPerSecond));
    ShownMs(target, now);
    ShownMs(target, now + MsPerSecond);
    assert a * MsPerSecond == b * MsPerSecond - MsPerSecond;
    assert (a - b + 1) * MsPerSecond == 0;
  }

  /** The displayed time of a positive difference, in milliseconds. */
  lemma ShownMs(target: int, now: int)
    requires target - now > 0
    ensures Seconds(CalculateTimeLeft(Some(target), now)) * MsPerSecond
            == (target - now) % MsPerDay - (target - now) % MsPerSecond
  {
    SecondsInMs(CalculateTimeLeft(Some(target), now));
  }

  lemma SecondsInMs(t: TimeLeft)
    ensures Seconds(t) * MsPerSecond == t.hours * MsPerHour + t.minutes * MsPerMinute + t.seconds * MsPerSecond
  {
  }

  /** The displayed time as a number of seconds. */
  function Seconds(t: TimeLeft): int {
    t.hours * 3600 + t.minutes * 60 + t.seconds
  }

  /** `formatTime`: `String(n).padStart(2, '0')`. */
  function FormatTime(n: nat): (r: string)
    ensures AllDigits(r)
    ensures |r| == if n < 10 then 2 else |NatToDecimal(n)|
    ensures DecimalValue(r) == n
  {
    var s := NatToDecimal(n);
    DecimalRoundTrip(n);
    if |s| < 2 then
      PadZeroValue(s);
      "0" + s
    else s
  }

  /** A leading zero does not change the value of a numeral. */
  lemma {:induction false} PadZeroValue(s: string)
    requires AllDigits(s)
    ensures AllDigits("0" + s) && DecimalValue("0" + s) == DecimalValue(s)
    decreases |s|
  {
    var t := "0" + s;
    if s != [] {
      assert t[..|t| - 1] == "0" + s[..|s| - 1];
      PadZeroValue(s[..|s| - 1]);
    } else {
      assert t == "0";
    }
  }

  /** Every field of a countdown is shown as exactly two digits. */
  lemma DisplayedFieldsTwoDigits(target: Maybe<int>, now: int)
    ensures var t := CalculateTimeLeft(target, now);
            |FormatTime(t.hours)| == 2 && |FormatTime(t.minutes)| == 2 && |FormatTime(t.seconds)| == 2
  {
    var t := CalculateTimeLeft(target, now);
    TwoDigitsBelowHundred(t.hours);
    TwoDigitsBelowHundred(t.minutes);
    TwoDigitsBelowHundred(t.seconds);
  }

  /** Numbers below one hundred print with at most two digits. */
  lemma TwoDigitsBelowHundred(n: nat)
    requires n < 100
    ensures |FormatTime(n)| == 2
  {
    if n >= 10 {
      assert NatToDecimal(n) == NatToDecimal(n / 10) + [DigitChar(n % 10)];
    }
  }
}
