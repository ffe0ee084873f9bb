/**
  data-check.py: a health check of a per-relay daily bandwidth table. It
  insists on three columns, counts nulls, negative readings and repeated
  (fingerprint, date) keys, measures how far each sample's time of day lies
  from a baseline, and concludes with the list of problems found.
 */
module DataCheck {
  import opened Wrappers
  import opened Clock
  import opened Frames

  /** An `advertised_bw` cell as `read_csv` leaves it: empty, a number, or text that is not a number. */
  datatype BwCell = NoValue | Number(v: real) | Text

  /**
    One row after loading: the fingerprint (None when empty), the `date`
    as a day number (None when empty or unreadable), the `advertised_bw`
    cell, and the `timestamp` in seconds (None when it is NaT).
   */
  datatype DRow = DRow(fingerprint: Option<string>, date: Option<int>, bandwidth: BwCell, timestamp: Option<int>)

  /** The input: no such path, a file `read_csv` rejects, or its columns and rows. */
  datatype DFile = NotFound | Unreadable | Loaded(columns: set<string>, rows: seq<DRow>)

  const Required: set<string> := {"date", "fingerprint", "advertised_bw"}

  function DayOf(t: Option<int>): Option<int> {
    if t.Some? then Some(Day(t.value)) else None
  }

  /** `load_csv`: without a `date` column but with `timestamp`, each row's date is its timestamp's UTC day. */
  function LoadCsv(columns: set<string>, rows: seq<DRow>): (r: (set<string>, seq<DRow>))
    ensures r.0 == if "timestamp" in columns then columns + {"date"} else columns
    ensures |r.1| == |rows|
    ensures "date" !in columns && "timestamp" in columns ==>
      forall i :: 0 <= i < |rows| ==> r.1[i] == rows[i].(date := DayOf(rows[i].timestamp))
    ensures "date" in columns || "timestamp" !in columns ==> r.1 == rows
  {
    if "date" !in columns && "timestamp" in columns then
      (columns + {"date"}, seq(|rows|, i requires 0 <= i < |rows| => rows[i].(date := DayOf(rows[i].timestamp))))
    else (columns, rows)
  }

  // ---------------------------------------------------------------------
  // Counts of the data-quality section

  function NullFingerprints(rows: seq<DRow>): (n: nat)
    ensures n == 0 <==> forall i :: 0 <= i < |rows| ==> rows[i].fingerprint.Some?
  {
    if |rows| == 0 then 0
    else (if rows[0].fingerprint.None? then 1 else 0) + NullFingerprints(rows[1..])
  }

  function NullBandwidths(rows: seq<DRow>): (n: nat)
    ensures n == 0 <==> forall i :: 0 <= i < |rows| ==> !rows[i].bandwidth.NoValue?
  {
    if |rows| == 0 then 0
    else (if rows[0].bandwidth.NoValue? then 1 else 0) + NullBandwidths(rows[1..])
  }

  /** The column has a numeric dtype: no cell holds text. */
  predicate NumericColumn(rows: seq<DRow>) {
    forall i :: 0 <= i < |rows| ==> !rows[i].bandwidth.Text?
  }

  function NegativeBandwidths(rows: seq<DRow>): (n: nat)
    ensures n == 0 <==> forall i :: 0 <= i < |rows| && rows[i].bandwidth.Number? ==> rows[i].bandwidth.v >= 0.0
  {
    if |rows| == 0 then 0
    else (if rows[0].bandwidth.Number? && rows[0].bandwidth.v < 0.0 then 1 else 0) + NegativeBandwidths(rows[1..])
  }

  function DupKeys(rows: seq<DRow>): (keys: seq<(Option<string>, Option<int>)>)
    ensures |keys| == |rows| && forall i :: 0 <= i < |rows| ==> keys[i] == (rows[i].fingerprint, rows[i].date)
  {
    if |rows| == 0 then [] else [(rows[0].fingerprint, rows[0].date)] + DupKeys(rows[1..])
  }

  /** `df.duplicated(subset=["fingerprint", "date"]).sum()`. */
  function Duplicates(rows: seq<DRow>): nat {
    DuplicateCount(DupKeys(rows))
  }

  // ---------------------------------------------------------------------
  // The conclusion

  const Labels: seq<string> := ["null fingerprints", "null advertised_bw", "negative advertised_bw", "duplicate (fingerprint,date) keys"]

  /** Which of the four problems the table has, in `Labels` order; negatives count only in a numeric column. */
  function Flags(rows: seq<DRow>): seq<bool> {
    [NullFingerprints(rows) > 0, NullBandwidths(rows) > 0,
     NumericColumn(rows) && NegativeBandwidths(rows) > 0, Duplicates(rows) > 0]
  }

  /** Position of a label in `Labels` (4 for any other string). */
  function Rank(text: string): (r: nat)
    ensures r <= |Labels| && (r < |Labels| ==> text == Labels[r])
  {
    if text == Labels[0] then 0
    else if text == Labels[1] then 1
    else if text == Labels[2] then 2
    else if text == Labels[3] then 3
    else 4
  }

  lemma {:induction false} LabelRanks()
    ensures forall j :: 0 <= j < |Labels| ==> Rank(Labels[j]) == j
  {
    assert Rank(Labels[0]) == 0 && Rank(Labels[1]) == 1 && Rank(Labels[2]) == 2 && Rank(Labels[3]) == 3;
  }

  /** `p` names exactly the problems the table has, each once, in `Labels` order. */
  predicate ListsProblems(p: seq<string>, rows: seq<DRow>) {
    && (forall k :: 0 <= k < |Labels| ==> (Labels[k] in p <==> Flags(rows)[k]))
    && (forall i :: 0 <= i < |p| ==> Rank(p[i]) < |Labels|)
    && (forall i, j :: 0 <= i < j < |p| ==> Rank(p[i]) < Rank(p[j]))
  }

  /** The labels of the flagged problems among the first `k`, in order. */
  function Chosen(flags: seq<bool>, k: nat): seq<string>
    requires k <= |flags| == |Labels|
  {
    if k == 0 then [] else Chosen(flags, k - 1) + (if flags[k - 1] then [Labels[k - 1]] else [])
  }

  /** The flagged labels among the first `k`, and no others, are chosen. */
  lemma {:induction false} ChosenMembers(flags: seq<bool>, k: nat)
    requires k <= |flags| == |Labels|
    ensures forall j :: 0 <= j < |Labels| ==> (Labels[j] in Chosen(flags, k) <==> j < k && flags[j])
  {
    LabelRanks();
    if k > 0 {
      ChosenMembers(flags, k - 1);
      var before := Chosen(flags, k - 1);
      var c := Chosen(flags, k);
      forall j | 0 <= j < |Labels| ensures Labels[j] in c <==> j < k && flags[j] {
        if Labels[j] in c {
          var i :| 0 <= i < |c| && c[i] == Labels[j];
          if i >= |before| { assert c[i] == Labels[k - 1]; }
          else { assert before[i] == Labels[j]; }
        }
        if j < k - 1 && flags[j] {
          var i :| 0 <= i < |before| && before[i] == Labels[j];
          assert c[i] == Labels[j];
        }
        if j == k - 1 && flags[j] {
          assert c[|before|] == Labels[j];
        }
      }
    }
  }

  /** The chosen labels are among the first `k` and in strictly increasing `Labels` order. */
  lemma {:induction false} ChosenInOrder(flags: seq<bool>, k: nat)
    requires k <= |flags| == |Labels|
    ensures forall i :: 0 <= i < |Chosen(flags, k)| ==> Rank(Chosen(flags, k)[i]) < k
    ensures forall i, j :: 0 <= i < j < |Chosen(flags, k)| ==> Rank(Chosen(flags, k)[i]) < Rank(Chosen(flags, k)[j])
  {
    LabelRanks();
    if k > 0 {
      ChosenInOrder(flags, k - 1);
      var before := Chosen(flags, k - 1);
      var c := Chosen(flags, k);
      assert forall i :: 0 <= i < |before| ==> c[i] == before[i];
    }
  }

  /** The `problems` list of the conclusion, built by successive appends. */
  method Conclude(rows: seq<DRow>) returns (problems: seq<string>)
    ensures ListsProblems(problems, rows)
    ensures |problems| > 0 <==>
      NullFingerprints(rows) > 0 || NullBandwidths(rows) > 0 ||
      (NumericColumn(rows) && NegativeBandwidths(rows) > 0) || Duplicates(rows) > 0
  {
    ghost var flags := Flags(rows);
    problems := [];
    if NullFingerprints(rows) > 0 {
      problems := problems + [Labels[0]];
    }
    assert problems == Chosen(flags, 1);
    if NullBandwidths(rows) > 0 {
      problems := problems + [Labels[1]];
    }
    assert problems == Chosen(flags, 2);
    if NumericColumn(rows) && NegativeBandwidths(rows) > 0 {
      problems := problems + [Labels[2]];
    }
    assert problems == Chosen(flags, 3);
    if Duplicates(rows) > 0 {
      problems := problems + [Labels[3]];
    }
    assert problems == Chosen(flags, 4);
    ChosenAll(flags);
  }

  /** All four labels considered: the chosen ones are exactly the flagged ones, in order, and there are some exactly when a flag is set. */
  lemma {:induction false} ChosenAll(flags: seq<bool>)
    requires |flags| == |Labels|
    ensures forall k :: 0 <= k < |Labels| ==> (Labels[k] in Chosen(flags, 4) <==> flags[k])
    ensures forall i :: 0 <= i < |Chosen(flags, 4)| ==> Rank(Chosen(flags, 4)[i]) < |Labels|
    ensures forall i, j :: 0 <= i < j < |Chosen(flags, 4)| ==> Rank(Chosen(flags, 4)[i]) < Rank(Chosen(flags, 4)[j])
    ensures |Chosen(flags, 4)| > 0 <==> flags[0] || flags[1] || flags[2] || flags[3]
  {
    var p := Chosen(flags, 4);
    ChosenMembers(flags, 4);
    ChosenInOrder(flags, 4);
    var some := flags[0] || flags[1] || flags[2] || flags[3];
    if |p| > 0 {
      var r := Rank(p[0]);
      assert p[0] == Labels[r] && Labels[r] in p;
      assert flags[r];
    }
    if some {
      var j :| 0 <= j < 4 && flags[j];
      assert Labels[j] in p;
    }
  }

  // ---------------------------------------------------------------------
  // Time of day

  function Abs(x: int): nat { if x < 0 then -x else x }

  function Smallest(a: nat, b: nat, c: nat): (m: nat)
    ensures m <= a && m <= b && m <= c
    ensures m == a || m == b || m == c
  {
    if a <= b && a <= c then a else if b <= c then b else c
  }

  /**
    The offset of a sample at `ts` on calendar day `day` from the baseline
    `base` seconds after midnight: the distance to the nearest of that
    day's, the previous day's and the next day's baseline instant.
   */
  function Offset(ts: int, day: int, base: int): nat {
    var today := day * SecondsPerDay + base;
    Smallest(Abs(ts - today), Abs(ts - (today - SecondsPerDay)), Abs(ts - (today + SecondsPerDay)))
  }

  /** Number of occurrences of `m` in `ms`. */
  function Count(ms: seq<int>, m: int): nat {
    if |ms| == 0 then 0 else (if ms[0] == m then 1 else 0) + Count(ms[1..], m)
  }

  /** The most frequent of the minutes `0..top`; among equally frequent ones the earliest. */
  function ModeUpTo(ms: seq<int>, top: nat): (r: nat)
    ensures r <= top
    ensures forall x :: 0 <= x <= top ==> Count(ms, x) <= Count(ms, r)
    ensures forall x :: 0 <= x < r ==> Count(ms, x) < Count(ms, r)
  {
    if top == 0 then 0
    else
      var best := ModeUpTo(ms, top - 1);
      if Count(ms, top) > Count(ms, best) then top else best
  }

  /** Minute of the day of every non-null timestamp, in row order. */
  function Minutes(rows: seq<DRow>): (ms: seq<int>)
    ensures forall i :: 0 <= i < |ms| ==> 0 <= ms[i] < 1440
  {
    if |rows| == 0 then []
    else (if rows[0].timestamp.Some? then [MinuteOfDay(rows[0].timestamp.value)] else []) + Minutes(rows[1..])
  }

  /**
    `infer_baseline_hhmm`: the most common `HH:MM` reading, the smallest
    one on a tie (`mode()` sorts its answers), printed and parsed again.
   */
  function AutoBaseline(rows: seq<DRow>): Option<(int, int)> {
    var m := ModeUpTo(Minutes(rows), 1439);
    ParseHhmm(FormatHhmm(m / 60, m % 60))
  }

  /** The baseline decision: skip the report, raise, or use HH:MM. */
  datatype Baseline = Skip | Raise | Use(h: int, m: int)

  function ChooseBaseline(rows: seq<DRow>, baseline: string, baselineTime: Option<string>): (b: Baseline)
    ensures b.Use? ==> 0 <= b.h < 24 && 0 <= b.m < 60
  {
    if baseline == "midnight" then Use(0, 0)
    else if baseline == "time" then
      if baselineTime.None? || baselineTime.value == "" then Skip
      else match ParseHhmm(baselineTime.value)
        case None => Raise
        case Some(hm) => Use(hm.0, hm.1)
    else if baseline == "auto" then
      match AutoBaseline(rows)
      case None => Raise
      case Some(hm) => Use(hm.0, hm.1)
    else Skip
  }

  /** What `time_offset_stats` does: print nothing, raise, or report per-row offsets (None where NaT). */
  datatype TimeReport = Skipped | TimeCrashed | Offsets(baseSeconds: int, deltas: seq<Option<nat>>)

  /** The offset of one row; the day comes from `date` when that column exists. */
  function RowOffset(columns: set<string>, r: DRow, base: int): Option<nat> {
    var day := if "date" in columns then r.date else DayOf(r.timestamp);
    if r.timestamp.Some? && day.Some? then Some(Offset(r.timestamp.value, day.value, base)) else None
  }

  predicate AllNaT(rows: seq<DRow>) {
    forall i :: 0 <= i < |rows| ==> rows[i].timestamp.None?
  }

  /** `time_offset_stats`, up to the statistics it prints. */
  function TimeOffsets(columns: set<string>, rows: seq<DRow>, baseline: string, baselineTime: Option<string>): (t: TimeReport)
    ensures t.Offsets? ==> |t.deltas| == |rows| && 0 <= t.baseSeconds < SecondsPerDay
  {
    if "timestamp" !in columns || AllNaT(rows) then Skipped
    else match ChooseBaseline(rows, baseline, baselineTime)
      case Skip => Skipped
      case Raise => TimeCrashed
      case Use(h, m) =>
        var base := SecondsSinceMidnight(h, m, 0);
        Offsets(base, seq(|rows|, i requires 0 <= i < |rows| => RowOffset(columns, rows[i], base)))
  }

  /**
    For a sample taken on the day it is filed under, the offset is the
    distance on the 24-hour clock between its time of day and the baseline,
    so it never exceeds twelve hours.
   */
  lemma {:induction false} OffsetIsClockDistance(ts: int, day: int, base: int)
    requires Day(ts) == day && 0 <= base < SecondsPerDay
    ensures var d := Abs(ts % SecondsPerDay - base);
      Offset(ts, day, base) == if d <= SecondsPerDay - d then d else SecondsPerDay - d
    ensures Offset(ts, day, base) <= SecondsPerDay / 2
  {
    var x := ts % SecondsPerDay;
    assert ts == day * SecondsPerDay + x;
  }

  /** The anchors on the neighbouring days only ever shorten the same-day distance. */
  lemma {:induction false} OffsetAtMostSameDay(ts: int, day: int, base: int)
    ensures Offset(ts, day, base) <= Abs(ts - (day * SecondsPerDay + base))
    ensures Offset(ts, day, base) == Abs(ts - (day * SecondsPerDay + base)) ||
            Offset(ts, day, base) == Abs(ts - (day * SecondsPerDay + base - SecondsPerDay)) ||
            Offset(ts, day, base) == Abs(ts - (day * SecondsPerDay + base + SecondsPerDay))
  {
  }

  /** With a readable timestamp column, the `midnight` baseline always reports, against 0 s. */
  lemma {:induction false} MidnightBaseline(columns: set<string>, rows: seq<DRow>, baselineTime: Option<string>)
    requires "timestamp" in columns && !AllNaT(rows)
    ensures TimeOffsets(columns, rows, "midnight", baselineTime).Offsets?
    ensures TimeOffsets(columns, rows, "midnight", baselineTime).baseSeconds == 0
  {
  }

  /** An unknown baseline, or `time` with no baseline time, skips the report rather than failing. */
  lemma {:induction false} UnusableBaselineSkips(columns: set<string>, rows: seq<DRow>, baseline: string, baselineTime: Option<string>)
    requires baseline !in {"midnight", "time", "auto"} ||
      (baseline == "time" && (baselineTime.None? || baselineTime.value == ""))
    ensures TimeOffsets(columns, rows, baseline, baselineTime) == Skipped
  {
  }

  /** A given baseline time that `parse_hhmm` rejects raises, once there is a timestamp to measure. */
  lemma {:induction false} BadBaselineTimeRaises(columns: set<string>, rows: seq<DRow>, text: string)
    requires "timestamp" in columns && !AllNaT(rows)
    requires text != "" && ParseHhmm(text).None?
    ensures TimeOffsets(columns, rows, "time", Some(text)) == TimeCrashed
  {
  }

  /**
    The `auto` baseline never raises: it is the most common minute of the
    day among the timestamps (the earliest such minute on a tie), and the
    report measures against that minute.
   */
  lemma {:induction false} AutoBaselineIsMode(columns: set<string>, rows: seq<DRow>, baselineTime: Option<string>)
    requires "timestamp" in columns && !AllNaT(rows)
    ensures var ms := Minutes(rows);
      var m := ModeUpTo(ms, 1439);
      var t := TimeOffsets(columns, rows, "auto", baselineTime);
      && t.Offsets? && t.baseSeconds == 60 * m
      && (forall x :: 0 <= x < 1440 ==> Count(ms, x) <= Count(ms, m))
      && (forall x :: 0 <= x < m ==> Count(ms, x) < Count(ms, m))
  {
    AutoBaseSeconds(columns, rows, baselineTime);
  }

  lemma {:induction false} AutoBaseSeconds(columns: set<string>, rows: seq<DRow>, baselineTime: Option<string>)
    requires "timestamp" in columns && !AllNaT(rows)
    ensures var t := TimeOffsets(columns, rows, "auto", baselineTime);
      t.Offsets? && t.baseSeconds == 60 * ModeUpTo(Minutes(rows), 1439)
  {
    var m := ModeUpTo(Minutes(rows), 1439);
    AutoBaselineReadsBack(rows);
    assert ChooseBaseline(rows, "auto", baselineTime) == Use(m / 60, m % 60);
    UsedBaseline(columns, rows, "auto", baselineTime, m / 60, m % 60);
    MinuteSeconds(m);
  }

  /** A baseline that is used sets the report's base to its seconds since midnight. */
  lemma {:induction false} UsedBaseline(columns: set<string>, rows: seq<DRow>, baseline: string, baselineTime: Option<string>, h: int, m: int)
    requires "timestamp" in columns && !AllNaT(rows)
    requires ChooseBaseline(rows, baseline, baselineTime) == Use(h, m)
    ensures var t := TimeOffsets(columns, rows, baseline, baselineTime);
      t.Offsets? && t.baseSeconds == SecondsSinceMidnight(h, m, 0)
  {
  }

  lemma {:induction false} MinuteSeconds(m: int)
    requires 0 <= m
    ensures SecondsSinceMidnight(m / 60, m % 60, 0) == 60 * m
  {
    assert m == m / 60 * 60 + m % 60;
    assert (m / 60) * 3600 == (m / 60 * 60) * 60;
  }

  /** The printed mode parses back to its own hour and minute. */
  lemma {:induction false} AutoBaselineReadsBack(rows: seq<DRow>)
    ensures var m := ModeUpTo(Minutes(rows), 1439);
      AutoBaseline(rows) == Some((m / 60, m % 60))
  {
    var m := ModeUpTo(Minutes(rows), 1439);
    FormatParseRoundTrip(m / 60, m % 60);
  }

  // ---------------------------------------------------------------------
  // The script

  datatype Outcome = Exit(code: int) | Crashed | Concluded(problems: seq<string>, time: TimeReport)

  /** Everything before the report: the file exists, `read_csv` accepts it, and the required columns are there. */
  function Prepare(file: DFile): Result<(set<string>, seq<DRow>), Outcome> {
    match file
    case NotFound => Err(Exit(2))
    case Unreadable => Err(Crashed)
    case Loaded(columns, rows) =>
      var loaded := LoadCsv(columns, rows);
      if Required <= loaded.0 then Ok(loaded) else Err(Exit(2))
  }

  /**
    `main`: the time-of-day section runs before the conclusion, so a
    baseline time that does not parse ends the run with an uncaught error
    and no conclusion.
   */
  method HealthCheck(file: DFile, baseline: string, baselineTime: Option<string>) returns (outcome: Outcome)
    ensures Prepare(file).Err? ==> outcome == Prepare(file).error
    ensures Prepare(file).Ok? ==>
      var columns, rows := Prepare(file).value.0, Prepare(file).value.1;
      var time := TimeOffsets(columns, rows, baseline, baselineTime);
      && (time.TimeCrashed? ==> outcome == Crashed)
      && (!time.TimeCrashed? ==> outcome.Concluded? && outcome.time == time && ListsProblems(outcome.problems, rows))
  {
    var prepared := Prepare(file);
    if prepared.Err? {
      return prepared.error;
    }
    var columns, rows := prepared.value.0, prepared.value.1;
    var time := TimeOffsets(columns, rows, baseline, baselineTime);
    if time.TimeCrashed? {
      return Crashed;
    }
    var problems := Conclude(rows);
    return Concluded(problems, time);
  }

  /** The run stops with status 2 exactly when the file is absent or a required column is missing after loading. */
  lemma {:induction false} ExitsWithTwo(file: DFile)
    ensures Prepare(file) == Err(Exit(2)) <==>
      file.NotFound? || (file.Loaded? && !(Required <= LoadCsv(file.columns, file.rows).0))
  {
  }

  /**
    A table with `timestamp` but no `date` column still meets the date
    requirement: every row is dated by its timestamp's UTC day.
   */
  lemma {:induction false} DateFromTimestamp(columns: set<string>, rows: seq<DRow>)
    requires "date" !in columns && "timestamp" in columns
    requires "fingerprint" in columns && "advertised_bw" in columns
    ensures Prepare(Loaded(columns, rows)).Ok?
    ensures var loaded := Prepare(Loaded(columns, rows)).value.1;
      forall i :: 0 <= i < |rows| ==> loaded[i].date == DayOf(rows[i].timestamp)
  {
  }
}
