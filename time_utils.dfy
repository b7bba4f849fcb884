/**
 * The server's time formatting helpers (`TimeUtils::format_duration` and
 * `TimeUtils::relative_time`). The clock is not modelled: `relative_time`
 * takes the whole seconds elapsed since the given moment.
 */
module TimeUtils {
  import opened Strings

  const SecondsPerMinute: nat := 60
  const SecondsPerHour: nat := 3600
  const SecondsPerDay: nat := 86400

  /**
   * Rust's `/` on signed integers, which truncates toward zero: the
   * remainder `a - q * b` has the sign of `a` and is smaller than `b`.
   */
  function TruncDiv(a: int, b: int): (q: int)
    requires b > 0
    ensures a >= 0 ==> 0 <= a - q * b < b
    ensures a < 0 ==> -b < a - q * b <= 0
  {
    if a >= 0 then a / b else -((-a) / b)
  }

  /** `format_duration(seconds)`: days and hours, or hours and minutes, or minutes. */
  function FormatDuration(seconds: nat): string
  {
    var days := seconds / SecondsPerDay;
    var hours := (seconds % SecondsPerDay) / SecondsPerHour;
    var minutes := (seconds % SecondsPerHour) / SecondsPerMinute;
    if days > 0 then NatToString(days) + "天" + NatToString(hours) + "小时"
    else if hours > 0 then NatToString(hours) + "小时" + NatToString(minutes) + "分钟"
    else NatToString(minutes) + "分钟"
  }

  /** The hours and minutes that `format_duration` computes stay below 24 and 60. */
  lemma DurationComponentBounds(seconds: nat)
    ensures (seconds % SecondsPerDay) / SecondsPerHour < 24
    ensures (seconds % SecondsPerHour) / SecondsPerMinute < 60
  {
  }

  /**
   * The components are the mixed-radix digits of the duration: written as
   * `d` days, `h < 24` hours, `m < 60` minutes and `r < 60` seconds, the
   * output names `d` and `h`, or `h` and `m`, or `m`, and drops `r`.
   */
  lemma FormatDurationOfParts(d: nat, h: nat, m: nat, r: nat)
    requires h < 24 && m < 60 && r < 60
    ensures var s := d * SecondsPerDay + h * SecondsPerHour + m * SecondsPerMinute + r;
      FormatDuration(s) ==
        if d > 0 then NatToString(d) + "天" + NatToString(h) + "小时"
        else if h > 0 then NatToString(h) + "小时" + NatToString(m) + "分钟"
        else NatToString(m) + "分钟"
  {
    DurationParts(d, h, m, r);
  }

  /** The three quotients `format_duration` computes recover the days, hours and minutes. */
  lemma DurationParts(d: nat, h: nat, m: nat, r: nat)
    requires h < 24 && m < 60 && r < 60
    ensures var s := d * SecondsPerDay + h * SecondsPerHour + m * SecondsPerMinute + r;
      && s / SecondsPerDay == d
      && (s % SecondsPerDay) / SecondsPerHour == h
      && (s % SecondsPerHour) / SecondsPerMinute == m
  {
    var u := m * 60 + r;
    var t := h * 3600 + u;
    var s := d * 86400 + t;
    DivModUnique(s, 86400, d, t);
    DivModUnique(t, 3600, h, u);
    DivModUnique(s, 3600, d * 24 + h, u);
    DivModUnique(u, 60, m, r);
  }

  /** Euclidean division has one quotient and one remainder. */
  lemma DivModUnique(a: int, b: int, q: int, r: int)
    requires b > 0 && 0 <= r < b && a == q * b + r
    ensures a / b == q && a % b == r
  {
    var q', r' := a / b, a % b;
    assert a == q' * b + r';
    if q > q' {
      assert (q - q') * b == q * b - q' * b;
      MulAtLeast(q - q', b);
      assert false;
    } else if q < q' {
      assert (q' - q) * b == q' * b - q * b;
      MulAtLeast(q' - q, b);
      assert false;
    }
  }

  lemma MulAtLeast(k: int, b: int)
    requires k >= 1 && b > 0
    ensures k * b >= b
  {
  }

  /** Less than a minute formats as zero minutes. */
  lemma FormatDurationUnderAMinute(seconds: nat)
    requires seconds < 60
    ensures FormatDuration(seconds) == "0分钟"
  {
    assert NatToString(0) == "0";
  }

  /** `relative_time`, given `diff`, the whole seconds from the moment to now (negative in the future). */
  function RelativeTime(diff: int): string
  {
    var days := TruncDiv(diff, SecondsPerDay);
    var hours := TruncDiv(diff, SecondsPerHour);
    var minutes := TruncDiv(diff, SecondsPerMinute);
    if days > 0 then NatToString(days) + "天前"
    else if hours > 0 then NatToString(hours) + "小时前"
    else if minutes > 0 then NatToString(minutes) + "分钟前"
    else "刚刚"
  }

  /**
   * The largest whole unit that fits is named: a day or more gives days, an
   * hour or more gives hours, a minute or more gives minutes; anything under a
   * minute, the future included, is "just now".
   */
  lemma RelativeTimeCases(diff: int)
    ensures diff >= SecondsPerDay ==> RelativeTime(diff) == NatToString(diff / SecondsPerDay) + "天前"
    ensures SecondsPerHour <= diff < SecondsPerDay ==>
      RelativeTime(diff) == NatToString(diff / SecondsPerHour) + "小时前"
    ensures SecondsPerMinute <= diff < SecondsPerHour ==>
      RelativeTime(diff) == NatToString(diff / SecondsPerMinute) + "分钟前"
    ensures RelativeTime(diff) == "刚刚" <==> diff < SecondsPerMinute
  {
    if diff >= 60 {
      var r := RelativeTime(diff);
      assert IsDigit(r[0]);
      assert r != "刚刚" by {
        assert !IsDigit("刚刚"[0]);
      }
    }
  }
}
