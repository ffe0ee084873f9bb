/**
  Times of day. A timestamp is an integer count of seconds since
  1970-01-01T00:00:00 UTC, so its UTC calendar day is `t / 86400` and its
  clock reading is `t % 86400` (both floor operations, as Dafny's are).
  `HH:MM` strings are read as data-check.py's `parse_hhmm` and
  onionoo_to_csv.py's `--sample-time` handling both read them.
 */
module Clock {
  import opened Wrappers
  import opened PyStr
  import opened Calendar

  const SecondsPerDay := 86400

  /** The UTC calendar day of a timestamp (`ts.dt.date`). */
  function Day(t: int): int {
    t / SecondsPerDay
  }

  predicate ValidClock(h: int, m: int, s: int) {
    0 <= h < 24 && 0 <= m < 60 && 0 <= s < 60
  }

  /** `t.hour * 3600 + t.minute * 60 + t.second`. */
  function SecondsSinceMidnight(h: int, m: int, s: int): (r: int)
    ensures ValidClock(h, m, s) ==> 0 <= r < SecondsPerDay
  {
    h * 3600 + m * 60 + s
  }

  /** The (hour, minute, second) fields of a timestamp in UTC. */
  function ClockOf(t: int): (c: (int, int, int))
    ensures ValidClock(c.0, c.1, c.2)
  {
    var r := t % SecondsPerDay;
    (r / 3600, r % 3600 / 60, r % 60)
  }

  /** Minute of the day of a timestamp: what `strftime("%H:%M")` shows. */
  function MinuteOfDay(t: int): (m: int)
    ensures 0 <= m < 1440
  {
    t % SecondsPerDay / 60
  }

  /** `strftime("%H:%M")` of a clock reading. */
  function FormatHhmm(h: int, m: int): string {
    TwoDigits(h) + ":" + TwoDigits(m)
  }

  /**
    `hh, mm = s.split(":")` then `int()` of each and the range check:
    None stands for the ValueError raised by a wrong number of pieces, a
    piece `int()` rejects, or a field out of range.
   */
  function ParseHhmm(s: string): (r: Option<(int, int)>)
    ensures r.Some? ==> 0 <= r.value.0 < 24 && 0 <= r.value.1 < 60
  {
    var parts := SplitOn(s, ':');
    if |parts| != 2 then None
    else
      match (ParseInt(parts[0]), ParseInt(parts[1]))
      case (Some(h), Some(m)) =>
        if 0 <= h < 24 && 0 <= m < 60 then Some((h, m)) else None
      case _ => None
  }

  /** The clock fields of a timestamp add back up to its offset into the day. */
  lemma {:induction false} SecondsOfClock(t: int)
    ensures SecondsSinceMidnight(ClockOf(t).0, ClockOf(t).1, ClockOf(t).2) == t % SecondsPerDay
  {
    var r := t % SecondsPerDay;
    assert r == r / 3600 * 3600 + r % 3600;
    assert r % 3600 == r % 3600 / 60 * 60 + r % 3600 % 60;
    assert r % 3600 % 60 == r % 60;
  }

  /** Valid clock fields are recovered from their seconds since midnight. */
  lemma {:induction false} ClockOfSeconds(h: int, m: int, s: int)
    requires ValidClock(h, m, s)
    ensures ClockOf(SecondsSinceMidnight(h, m, s)) == (h, m, s)
  {
    var r := SecondsSinceMidnight(h, m, s);
    assert r % SecondsPerDay == r;
    var q := m * 60 + s;
    assert 0 <= q < 3600 && r == h * 3600 + q;
    assert r / 3600 == h;
    assert r % 3600 == q;
    assert q / 60 == m && q % 60 == s;
    assert r % 60 == s;
  }

  /** `f"{n:02d}"` of a number below 100 is its tens digit then its units digit. */
  lemma {:induction false} TwoDigitsChars(n: int)
    requires 0 <= n < 100
    ensures TwoDigits(n) == [DigitChar(n / 10), DigitChar(n % 10)]
  {
    var hi, lo := DigitChar(n / 10), DigitChar(n % 10);
    if n < 10 {
      assert NatDecimal(n) == [lo];
    } else {
      assert NatDecimal(n / 10) == [hi];
      assert NatDecimal(n) == [hi, lo];
    }
  }

  /** One decimal digit reads back by `int()` as its value. */
  lemma {:induction false} DigitParse(a: nat)
    requires a < 10
    ensures ParseInt([DigitChar(a)]) == Some(a)
  {
    var s := [DigitChar(a)];
    assert IsDigitBody(s);
    NoUnderscoresUnchanged(s);
    assert DigitsValue(s) == a;
    DigitsAreNotSpace(s);
    ParseIntUnsigned(s, a);
  }

  /** Two decimal digits read back by `int()` as their value. */
  lemma {:induction false} DigitPairParse(a: nat, b: nat)
    requires a < 10 && b < 10
    ensures ParseInt([DigitChar(a), DigitChar(b)]) == Some(10 * a + b)
    ensures ':' !in [DigitChar(a), DigitChar(b)]
  {
    var hi, lo := DigitChar(a), DigitChar(b);
    var s := [hi, lo];
    assert IsDigitBody(s);
    NoUnderscoresUnchanged(s);
    assert s[..1] == [hi] && [hi][..0] == [];
    assert DigitsValue([hi]) == a;
    assert DigitsValue(s) == 10 * a + b;
    DigitsAreNotSpace(s);
    ParseIntUnsigned(s, 10 * a + b);
  }

  /** A two-digit field reads back as its number and holds no ':'. */
  lemma {:induction false} TwoDigitsParse(n: int)
    requires 0 <= n < 100
    ensures ParseInt(TwoDigits(n)) == Some(n)
    ensures ':' !in TwoDigits(n)
  {
    TwoDigitsChars(n);
    DigitPairParse(n / 10, n % 10);
    assert 10 * (n / 10) + n % 10 == n;
  }

  /** The two fields of a formatted clock reading split apart again at ':'. */
  lemma {:induction false} FormatSplits(a: string, b: string)
    requires ':' !in a && ':' !in b
    ensures SplitOn(a + ":" + b, ':') == [a, b]
  {
    assert forall i :: 0 <= i < |a| ==> a[i] != ':';
    assert forall i :: 0 <= i < |b| ==> b[i] != ':';
    var pieces := [a, b];
    assert pieces[1..] == [b];
    assert Join(pieces, ':') == a + ":" + b;
    JoinSplitOn(pieces, ':');
  }

  /**
    What `strftime("%H:%M")` prints, `parse_hhmm` reads back: this is why the
    `auto` baseline of data-check.py never raises.
   */
  lemma {:induction false} FormatParseRoundTrip(h: int, m: int)
    requires 0 <= h < 24 && 0 <= m < 60
    ensures ParseHhmm(FormatHhmm(h, m)) == Some((h, m))
  {
    var a, b := TwoDigits(h), TwoDigits(m);
    TwoDigitsParse(h);
    TwoDigitsParse(m);
    FormatSplits(a, b);
  }

  /**
    Two fields without ':' joined by ':': `parse_hhmm` returns the two numbers
    `int()` reads from them when both are in range, and raises otherwise.
   */
  lemma {:induction false} ParseHhmmFields(a: string, b: string)
    requires ':' !in a && ':' !in b
    ensures ParseHhmm(a + ":" + b) ==
      if ParseInt(a).Some? && ParseInt(b).Some? && 0 <= ParseInt(a).value < 24 && 0 <= ParseInt(b).value < 60
      then Some((ParseInt(a).value, ParseInt(b).value))
      else None
  {
    FormatSplits(a, b);
  }

  /** What `parse_hhmm` accepts is two fields without ':' joined by ':', read by `int()` as the hour and the minute. */
  lemma {:induction false} ParseHhmmShape(s: string)
    requires ParseHhmm(s).Some?
    ensures exists a, b ::
              && ':' !in a && ':' !in b && s == a + ":" + b
              && ParseInt(a) == Some(ParseHhmm(s).value.0) && ParseInt(b) == Some(ParseHhmm(s).value.1)
  {
    var parts := SplitOn(s, ':');
    SplitOnJoin(s, ':');
    var a, b := parts[0], parts[1];
    assert parts[1..] == [b];
    assert Join(parts, ':') == a + ":" + b;
    assert forall i :: 0 <= i < |a| ==> a[i] != ':';
    assert forall i :: 0 <= i < |b| ==> b[i] != ':';
  }

  /** Any number of fields other than two, joined by ':', raises. */
  lemma {:induction false} ParseHhmmFieldCount(fields: seq<string>)
    requires |fields| >= 1 && |fields| != 2
    requires forall k :: 0 <= k < |fields| ==> ':' !in fields[k]
    ensures ParseHhmm(Join(fields, ':')).None?
  {
    forall k, i | 0 <= k < |fields| && 0 <= i < |fields[k]| ensures fields[k][i] != ':' {
      assert ':' !in fields[k];
    }
    JoinSplitOn(fields, ':');
  }

  /** Fields need no zero padding: "7:5" reads as 07:05. */
  lemma {:induction false} UnpaddedFields(h: nat, m: nat)
    requires h < 10 && m < 10
    ensures ParseHhmm([DigitChar(h)] + ":" + [DigitChar(m)]) == Some((h, m))
  {
    var a, b := [DigitChar(h)], [DigitChar(m)];
    assert ':' !in a && ':' !in b;
    DigitParse(h);
    DigitParse(m);
    ParseHhmmFields(a, b);
  }

  /** Seconds are not accepted: "07:05:00" raises. */
  lemma {:induction false} SecondsExample()
    ensures ParseHhmm("07:05:00").None?
  {
    var fields := ["07", "05", "00"];
    assert Join(fields, ':') == "07:05:00";
    ParseHhmmFieldCount(fields);
  }
}
