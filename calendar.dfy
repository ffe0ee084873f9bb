/**
  Calendar days as integers: day 0 is 1970-01-01 and consecutive days differ
  by one, so `day + timedelta(days=1)` is `day + 1`. The proleptic Gregorian
  civil date of a day number is needed only to print ISO labels and month keys.
 */
module Calendar {
  import opened PyStr

  datatype CivilDate = CivilDate(year: int, month: int, day: int)

  /** Civil date of a day number (Howard Hinnant's days-to-civil algorithm; `/` is floor division here). */
  function CivilFromDays(z0: int): CivilDate {
    var z := z0 + 719468;
    var era := z / 146097;
    var doe := z - era * 146097;
    var yoe := (doe - doe / 1460 + doe / 36524 - doe / 146096) / 365;
    var doy := doe - (365 * yoe + yoe / 4 - yoe / 100);
    var mp := (5 * doy + 2) / 153;
    var d := doy - (153 * mp + 2) / 5 + 1;
    var m := if mp < 10 then mp + 3 else mp - 9;
    CivilDate(yoe + era * 400 + (if m <= 2 then 1 else 0), m, d)
  }

  /** `n` printed in at least `width` digits, zero-filled on the left, with '-' in front when negative. */
  function ZeroPad(n: int, width: nat): string {
    var digits := NatDecimal(if n < 0 then -n else n);
    var sign := if n < 0 then "-" else "";
    var fill := width - |sign| - |digits|;
    sign + seq(if fill > 0 then fill else 0, _ => '0') + digits
  }

  /** `f"{n:02d}"`. */
  function TwoDigits(n: int): string {
    ZeroPad(n, 2)
  }

  /** `day.strftime("%Y-%m")`, the key of a monthly archive. */
  function MonthKey(day: int): string {
    var c := CivilFromDays(day);
    ZeroPad(c.year, 4) + "-" + TwoDigits(c.month)
  }

  /** `day.isoformat()` and `day.strftime("%Y-%m-%d")`. */
  function IsoDate(day: int): string {
    MonthKey(day) + "-" + TwoDigits(CivilFromDays(day).day)
  }

  /** The days from `start` to `end` inclusive, in order. */
  function Days(start: int, end: int): (days: seq<int>)
    ensures |days| == if start <= end then end - start + 1 else 0
    ensures forall i :: 0 <= i < |days| ==> days[i] == start + i
    decreases end - start
  {
    if start > end then [] else [start] + Days(start + 1, end)
  }

  /**
    `daterange(start, end)` of both pull_relay_data.py (a generator) and
    validate_data.py (a list): step one day at a time while `day <= end`.
   */
  method DateRange(start: int, end: int) returns (days: seq<int>)
    ensures days == Days(start, end)
    ensures |days| == if start <= end then end - start + 1 else 0
    ensures forall i :: 0 <= i < |days| ==> days[i] == start + i
  {
    days := [];
    var day := start;
    while day <= end
      invariant days + Days(day, end) == Days(start, end)
      decreases end - day
    {
      assert Days(day, end) == [day] + Days(day + 1, end);
      days := days + [day];
      day := day + 1;
    }
  }
}
