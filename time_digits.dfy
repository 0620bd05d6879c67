/** Turning a corrected instant into the six displayed digits HH MM SS and
    the AM/PM badge. Instants are integer milliseconds since the epoch. */
module TimeDigits {

  const MsPerSecond: int := 1000
  const MsPerMinute: int := 60_000
  const MsPerHour: int := 3_600_000
  const MsPerDay: int := 86_400_000

  /** `getUTCHours` of the date whose time value is `t`: the hour of the day,
      counted with floor division so instants before the epoch work too. */
  function UtcHours(t: int): (h: int)
    ensures 0 <= h < 24
  {
    (t / MsPerHour) % 24
  }

  /** `getUTCMinutes`. */
  function UtcMinutes(t: int): (m: int)
    ensures 0 <= m < 60
  {
    (t / MsPerMinute) % 60
  }

  /** `getUTCSeconds`. */
  function UtcSeconds(t: int): (s: int)
    ensures 0 <= s < 60
  {
    (t / MsPerSecond) % 60
  }

  /** 12-hour folding `(h % 12) || 12`: midnight and noon read 12. */
  function Fold12(h: int): (r: int)
    requires 0 <= h < 24
    ensures 1 <= r <= 12
    ensures r % 12 == h % 12
  {
    if h % 12 == 0 then 12 else h % 12
  }

  /** `getTimeDigits(ms)` with `gmtOffset * 3600000` passed as `zoneMs`:
      tens and ones of the hour, the minute and the second of `ms + zoneMs`. */
  function GetTimeDigits(ms: int, zoneMs: int, use12h: bool): (r: seq<int>)
    ensures |r| == 6
    ensures forall i :: 0 <= i < |r| ==> 0 <= r[i] <= 9
    ensures !use12h ==> 10 * r[0] + r[1] == UtcHours(ms + zoneMs)
    ensures use12h ==> 10 * r[0] + r[1] == Fold12(UtcHours(ms + zoneMs))
    ensures 10 * r[2] + r[3] == UtcMinutes(ms + zoneMs)
    ensures 10 * r[4] + r[5] == UtcSeconds(ms + zoneMs)
  {
    var t := ms + zoneMs;
    var h := if use12h then Fold12(UtcHours(t)) else UtcHours(t);
    var m := UtcMinutes(t);
    var s := UtcSeconds(t);
    [h / 10, h % 10, m / 10, m % 10, s / 10, s % 10]
  }

  /** The two-digit hour reads 0..23 in 24-hour mode and 1..12 in 12-hour
      mode; minutes and seconds read 0..59. */
  lemma DisplayRanges(ms: int, zoneMs: int, use12h: bool)
    ensures var r := GetTimeDigits(ms, zoneMs, use12h);
      && (!use12h ==> 0 <= 10 * r[0] + r[1] <= 23)
      && (use12h ==> 1 <= 10 * r[0] + r[1] <= 12)
      && 0 <= 10 * r[2] + r[3] <= 59
      && 0 <= 10 * r[4] + r[5] <= 59
  {
  }

  /** Reading the 24-hour digits back as hours, minutes and seconds gives the
      time of day of `ms + zoneMs` to the second. */
  lemma DigitsSpellTimeOfDay(ms: int, zoneMs: int)
    ensures var r := GetTimeDigits(ms, zoneMs, false);
      var t := ms + zoneMs;
      t % MsPerDay ==
        (10 * r[0] + r[1]) * MsPerHour + (10 * r[2] + r[3]) * MsPerMinute
        + (10 * r[4] + r[5]) * MsPerSecond + t % MsPerSecond
  {
    var t := ms + zoneMs;
    var sec := t / MsPerSecond;
    var min := sec / 60;
    var hour := min / 60;
    assert t == sec * 1000 + t % 1000;
    assert sec == min * 60 + sec % 60;
    assert min == hour * 60 + min % 60;
    assert hour == (hour / 24) * 24 + hour % 24;
    assert t / MsPerMinute == min;
    assert t / MsPerHour == hour;
    var day := hour / 24;
    assert t == day * MsPerDay + (hour % 24) * MsPerHour + (min % 60) * MsPerMinute
      + (sec % 60) * MsPerSecond + t % MsPerSecond;
    assert t % MsPerDay == (hour % 24) * MsPerHour + (min % 60) * MsPerMinute
      + (sec % 60) * MsPerSecond + t % MsPerSecond;
  }

  /** The AM/PM indicator; hidden in 24-hour mode. */
  datatype Badge = Hidden | AM | PM

  /** The badge `tick` shows for the same shifted instant. */
  function AmPm(ms: int, zoneMs: int, use12h: bool): (b: Badge)
    ensures b == Hidden <==> !use12h
    ensures use12h ==> (b == AM <==> UtcHours(ms + zoneMs) < 12)
  {
    if !use12h then Hidden
    else if UtcHours(ms + zoneMs) < 12 then AM
    else PM
  }

  /** In 12-hour mode the two hour digits together with the badge determine
      the 24-hour hour: nothing is lost by folding. */
  lemma TwelveHourReadingIsFaithful(ms: int, zoneMs: int)
    ensures var r := GetTimeDigits(ms, zoneMs, true);
      var pm := AmPm(ms, zoneMs, true) == PM;
      (10 * r[0] + r[1]) % 12 + (if pm then 12 else 0) == UtcHours(ms + zoneMs)
  {
  }

  /** 14:05:09 UTC with offset 0 in 24-hour mode reads 1 4 0 5 0 9. */
  lemma Example24Hour()
    ensures GetTimeDigits(14 * MsPerHour + 5 * MsPerMinute + 9 * MsPerSecond, 0, false)
      == [1, 4, 0, 5, 0, 9]
  {
  }

  /** The same instant in 12-hour mode reads 0 2 0 5 0 9 with PM. */
  lemma Example12Hour()
    ensures GetTimeDigits(14 * MsPerHour + 5 * MsPerMinute + 9 * MsPerSecond, 0, true)
      == [0, 2, 0, 5, 0, 9]
    ensures AmPm(14 * MsPerHour + 5 * MsPerMinute + 9 * MsPerSecond, 0, true) == PM
  {
  }

  /** Midnight in 12-hour mode reads 12 with AM. */
  lemma ExampleMidnight12Hour()
    ensures GetTimeDigits(0, 0, true)[..2] == [1, 2]
    ensures AmPm(0, 0, true) == AM
  {
  }

  /** One millisecond before the epoch, shifted by +5:30, is 05:29:59. */
  lemma ExampleBeforeEpochWithHalfHourZone()
    ensures GetTimeDigits(-1, 5 * MsPerHour + 30 * MsPerMinute, false) == [0, 5, 2, 9, 5, 9]
  {
  }
}
