/**
 * Instants as JavaScript's `Date` sees them, with the time zone fixed to UTC:
 * the day number, the day of the week and the ISO-8601 text of
 * `Date.prototype.toISOString`.
 */
module Time {

  const SECOND_MS: int := 1000
  const MINUTE_MS: int := 60 * SECOND_MS
  const HOUR_MS: int := 60 * MINUTE_MS
  const DAY_MS: int := 24 * HOUR_MS

  /** Days since 1970-01-01 (floor division: instants before the epoch fall on negative days). */
  function DayNumber(t: int): int {
    t / DAY_MS
  }

  /** `getDay()`: 0 for Sunday through 6 for Saturday; 1970-01-01 was a Thursday. */
  function DayOfWeek(t: int): (d: int)
    ensures 0 <= d < 7
  {
    (DayNumber(t) + 4) % 7
  }

  datatype Civil = Civil(year: int, month: int, day: int)

  /**
   * The proleptic Gregorian date of a day number (H. Hinnant's days-to-civil
   * algorithm, written with floor division).
   */
  function CivilFromDays(days: int): (c: Civil)
    ensures 1 <= c.month <= 12 && 1 <= c.day <= 31
  {
    var z := days + 719468;
    var era := z / 146097;
    var doe := z - era * 146097;
    var yoe := (doe - doe / 1460 + doe / 36524 - doe / 146096) / 365;
    var doy := doe - (365 * yoe + yoe / 4 - yoe / 100);
    var mp := (5 * doy + 2) / 153;
    var d := doy - (153 * mp + 2) / 5 + 1;
    var m := if mp < 10 then mp + 3 else mp - 9;
    Civil(yoe + era * 400 + (if m <= 2 then 1 else 0), m, d)
  }

  function DigitChar(d: int): char
    requires 0 <= d < 10
  {
    "0123456789"[d]
  }

  /** The decimal digits of `n`, without leading zeros. */
  function Digits(n: nat): (s: string)
    ensures |s| >= 1
  {
    if n < 10 then [DigitChar(n)] else Digits(n / 10) + [DigitChar(n % 10)]
  }

  /** `n` in decimal, left-padded with zeros to at least `width` characters. */
  function Pad(n: nat, width: nat): (s: string)
    ensures |s| >= width
  {
    var d := Digits(n);
    if |d| >= width then d else seq(width - |d|, _ => '0') + d
  }

  /** The year as `toISOString` writes it: four digits, or a sign and six digits outside 0..9999. */
  function YearText(y: int): (s: string)
    ensures |s| >= 4
  {
    if 0 <= y <= 9999 then Pad(y, 4)
    else if y < 0 then "-" + Pad(-y, 6)
    else "+" + Pad(y, 6)
  }

  /** `YYYY-MM-DD` for a day number. */
  function DateText(days: int): (s: string)
    ensures |s| >= 10
  {
    var c := CivilFromDays(days);
    YearText(c.year) + "-" + Pad(c.month, 2) + "-" + Pad(c.day, 2)
  }

  /** `YYYY-MM-DD` followed by `THH`: the part of the ISO text that names the hour. */
  function HourText(t: int): (s: string)
    ensures |s| >= 13
  {
    DateText(DayNumber(t)) + "T" + Pad(t % DAY_MS / HOUR_MS, 2)
  }

  /** `:mm:ss.sssZ`: the part of the ISO text after the hour, for the milliseconds since midnight. */
  function MinuteText(ms: nat): (s: string)
    ensures |s| >= 11
  {
    ":" + Pad(ms % HOUR_MS / MINUTE_MS, 2) + ":" + Pad(ms % MINUTE_MS / SECOND_MS, 2) + "." + Pad(ms % SECOND_MS, 3) + "Z"
  }

  /** `Date.prototype.toISOString`: `YYYY-MM-DDTHH:mm:ss.sssZ`. */
  function IsoString(t: int): (s: string)
    ensures |s| >= 24
    ensures s[..13] == HourText(t)[..13]
    ensures s[..10] == DateText(DayNumber(t))[..10]
  {
    var hour := HourText(t);
    var rest := MinuteText(t % DAY_MS);
    assert (hour + rest)[..13] == hour[..13];
    assert hour[..10] == DateText(DayNumber(t))[..10];
    hour + rest
  }
}
