/** Relative-time labels. Two variants exist: the following and activity pages
    bucket by whole minutes first, the explore page by whole hours first.
    The input is `now - created` in milliseconds; `Math.floor` of a quotient
    by a positive divisor is Dafny's `/` (which rounds toward minus infinity
    for positive divisors), so future timestamps (negative differences) fall
    in the first bucket. The locale date of the last bucket is an opaque
    string supplied by the caller. */
module TimeAgo {
  import opened JsString

  const MinuteMs: int := 1000 * 60
  const HourMs: int := 1000 * 60 * 60
  const DayMs: int := HourMs * 24

  datatype Ago = JustNow | MinutesAgo(minutes: int) | HoursAgo(hours: int) | DaysAgo(days: int) | OlderThanAWeek

  /** The minutes-first bucketing of the following and activity pages. */
  function BucketByMinutes(diffMs: int): Ago
  {
    var minutes := diffMs / MinuteMs;
    if minutes < 1 then JustNow
    else if minutes < 60 then MinutesAgo(minutes)
    else
      var hours := minutes / 60;
      if hours < 24 then HoursAgo(hours)
      else
        var days := hours / 24;
        if days < 7 then DaysAgo(days) else OlderThanAWeek
  }

  /** The hours-first bucketing of the explore page. */
  function BucketByHours(diffMs: int): Ago
  {
    var hours := diffMs / HourMs;
    if hours < 1 then JustNow
    else if hours < 24 then HoursAgo(hours)
    else
      var days := hours / 24;
      if days < 7 then DaysAgo(days) else OlderThanAWeek
  }

  /** Floor of a floor is the floor of the combined quotient. */
  lemma FloorTwice(x: int, a: int, b: int)
    requires a > 0 && b > 0
    ensures (x / a) / b == x / (a * b)
  {
    var q, r := x / a, x % a;
    var q2, r2 := q / b, q % b;
    Regroup(q, a, r, q2, b, r2);
    RemainderBound(r2, a, r, b);
    DivUnique(x, a * b, q2, r2 * a + r);
  }

  lemma Regroup(q: int, a: int, r: int, q2: int, b: int, r2: int)
    requires q == q2 * b + r2
    ensures q * a + r == q2 * (a * b) + (r2 * a + r)
  {
    assert q * a == q2 * b * a + r2 * a;
  }

  lemma RemainderBound(r2: int, a: int, r: int, b: int)
    requires 0 <= r2 < b && 0 <= r < a
    ensures 0 <= r2 * a + r < a * b
  {
    assert (b - (r2 + 1)) * a >= 0;
    assert (b - (r2 + 1)) * a == a * b - r2 * a - a;
  }

  lemma DivUnique(x: int, d: int, q: int, r: int)
    requires d > 0 && 0 <= r < d && x == q * d + r
    ensures x / d == q
  {
    var q0 := x / d;
    var r0 := x % d;
    assert x == q0 * d + r0;
    if q0 < q {
      assert (q - q0) * d == r0 - r;
      MulAtLeast(q - q0, d);
    } else if q0 > q {
      assert (q0 - q) * d == r - r0;
      MulAtLeast(q0 - q, d);
    }
  }

  lemma {:induction false} MulAtLeast(k: int, d: int)
    requires k >= 1 && d > 0
    ensures k * d >= d
    decreases k
  {
    if k > 1 {
      MulAtLeast(k - 1, d);
      assert k * d == (k - 1) * d + d;
    }
  }

  /** What each label means for the elapsed time `d`: under a minute (or in
      the future), N whole minutes under an hour, N whole hours under a day,
      N whole days under a week, otherwise the date. */
  lemma BucketByMinutesMeaning(d: int)
    ensures BucketByMinutes(d) == JustNow <==> d < MinuteMs
    ensures BucketByMinutes(d).MinutesAgo? ==> (
      var n := BucketByMinutes(d).minutes; 1 <= n < 60 && n * MinuteMs <= d < (n + 1) * MinuteMs)
    ensures BucketByMinutes(d).HoursAgo? ==> (
      var n := BucketByMinutes(d).hours; 1 <= n < 24 && n * HourMs <= d < (n + 1) * HourMs)
    ensures BucketByMinutes(d).DaysAgo? ==> (
      var n := BucketByMinutes(d).days; 1 <= n < 7 && n * DayMs <= d < (n + 1) * DayMs)
    ensures BucketByMinutes(d) == OlderThanAWeek <==> d >= 7 * DayMs
  {
    FloorTwice(d, MinuteMs, 60);
    FloorTwice(d, HourMs, 24);
    FloorTwice(d / MinuteMs, 60, 24);
  }

  /** The explore variant: under an hour is "just now", then N whole hours,
      then N whole days, then the date. */
  lemma BucketByHoursMeaning(d: int)
    ensures BucketByHours(d) == JustNow <==> d < HourMs
    ensures !BucketByHours(d).MinutesAgo?
    ensures BucketByHours(d).HoursAgo? ==> (
      var n := BucketByHours(d).hours; 1 <= n < 24 && n * HourMs <= d < (n + 1) * HourMs)
    ensures BucketByHours(d).DaysAgo? ==> (
      var n := BucketByHours(d).days; 1 <= n < 7 && n * DayMs <= d < (n + 1) * DayMs)
    ensures BucketByHours(d) == OlderThanAWeek <==> d >= 7 * DayMs
  {
    FloorTwice(d, HourMs, 24);
  }

  /** The two variants agree from one hour on; below it the explore page
      says "just now" where the others count minutes. */
  lemma VariantsAgreeFromOneHour(d: int)
    ensures d >= HourMs ==> BucketByHours(d) == BucketByMinutes(d)
    ensures d < HourMs ==> BucketByHours(d) == JustNow
    ensures MinuteMs <= d < HourMs ==> BucketByMinutes(d).MinutesAgo?
  {
    FloorTwice(d, MinuteMs, 60);
  }

  /** The label text; `localeDate` is `date.toLocaleDateString("vi-VN")`. */
  function AgoText(a: Ago, localeDate: string): string
  {
    match a
    case JustNow => "Vừa xong"
    case MinutesAgo(n) => IntToString(n) + " phút trước"
    case HoursAgo(n) => IntToString(n) + " giờ trước"
    case DaysAgo(n) => IntToString(n) + " ngày trước"
    case OlderThanAWeek => localeDate
  }

  /** `formatTimeAgo` of the following and activity pages. */
  function FormatTimeAgo(diffMs: int, localeDate: string): string
  {
    AgoText(BucketByMinutes(diffMs), localeDate)
  }

  /** `formatTimeAgo` of the explore page. */
  function FormatTimeAgoHours(diffMs: int, localeDate: string): string
  {
    AgoText(BucketByHours(diffMs), localeDate)
  }

  /** Only the first bucket reads "Vừa xong" (given a locale date that does
      not), so the following and activity pages print it exactly for
      differences under a minute. */
  lemma FormatTimeAgoJustNow(d: int, localeDate: string)
    requires localeDate != "Vừa xong"
    ensures FormatTimeAgo(d, localeDate) == "Vừa xong" <==> d < MinuteMs
  {
    BucketByMinutesMeaning(d);
    CountLabelNotJustNow(BucketByMinutes(d), localeDate);
  }

  /** The explore page prints "Vừa xong" exactly for differences under an hour. */
  lemma FormatTimeAgoHoursJustNow(d: int, localeDate: string)
    requires localeDate != "Vừa xong"
    ensures FormatTimeAgoHours(d, localeDate) == "Vừa xong" <==> d < HourMs
  {
    BucketByHoursMeaning(d);
    CountLabelNotJustNow(BucketByHours(d), localeDate);
  }

  lemma CountLabelNotJustNow(a: Ago, localeDate: string)
    requires localeDate != "Vừa xong"
    ensures AgoText(a, localeDate) == "Vừa xong" <==> a == JustNow
  {
    match a
    case MinutesAgo(n) =>
      assert |AgoText(a, localeDate)| >= 1 + |" phút trước"|;
    case HoursAgo(n) =>
      assert |AgoText(a, localeDate)| >= 1 + |" giờ trước"|;
    case DaysAgo(n) =>
      assert |AgoText(a, localeDate)| >= 1 + |" ngày trước"|;
    case _ =>
  }
}
