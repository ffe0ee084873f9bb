/**
  `validate_data.py`: the checks run, in order, on the panel CSV once pandas
  has read it. Each failed check ends the program through `die` (status 2);
  the first failing check decides the message. Cells are given as pandas
  leaves them after the conversions the script applies.
 */
module Validate {
  import opened Wrappers
  import opened Calendar
  import opened Frames

  /** A converted date or timestamp cell: missing (NaT), unparseable (the conversion raises), or a value. */
  datatype Cell<T> = Null | Malformed | Val(value: T)

  /**
    One data row: `date` as a day number, `fingerprint` (None for <NA>),
    `relay_bandwidth` after `to_numeric(errors="coerce")` (None for NaN),
    `timestamp` in seconds, and whether any further column of the row is empty.
   */
  datatype VRow = VRow(date: Cell<int>, fingerprint: Option<string>, bandwidth: Option<real>, timestamp: Cell<int>, otherNull: bool)

  /** The input file: absent (the hashing `open` raises), unreadable by `read_csv`, or its columns and rows. */
  datatype CsvFile = Missing | Unreadable | Parsed(columns: set<string>, rows: seq<VRow>)

  /** The message `die` is called with. */
  datatype Failure =
    | ReadFailed
    | MissingColumns(missing: seq<string>)
    | BadDate
    | BadTimestamp
    | NonNumeric(count: nat)
    | Negative(count: nat)
    | NullValues
    | Duplicates(count: nat)
    | Gaps(missingDays: seq<int>)
    | CountsVary
    | CommonMismatch
    | RowCountMismatch(rows: nat, expected: int)

  /** How the script ends: the summary, `die`, or an uncaught exception. */
  datatype Verdict =
    | Passed(days: nat, common: nat, rows: nat, zeros: nat, huge: nat)
    | Died(failure: Failure)
    | Crashed

  function ExitCode(v: Verdict): int {
    match v
    case Passed(_, _, _, _, _) => 0
    case Died(_) => 2
    case Crashed => 1
  }

  const Required: seq<string> := ["date", "fingerprint", "relay_bandwidth", "timestamp"]

  /** `[c for c in required if c not in df.columns]`. */
  function MissingOf(required: seq<string>, columns: set<string>): (missing: seq<string>)
    ensures forall c :: c in missing <==> c in required && c !in columns
    ensures missing == [] <==> forall c :: c in required ==> c in columns
  {
    if |required| == 0 then []
    else (if required[0] in columns then [] else [required[0]]) + MissingOf(required[1..], columns)
  }

  function NonNumericCount(rows: seq<VRow>): (count: nat)
    ensures count == 0 <==> forall i :: 0 <= i < |rows| ==> rows[i].bandwidth.Some?
  {
    assert forall i :: 0 < i < |rows| ==> rows[1..][i - 1] == rows[i];
    if |rows| == 0 then 0 else (if rows[0].bandwidth.None? then 1 else 0) + NonNumericCount(rows[1..])
  }

  function NegativeCount(rows: seq<VRow>): (count: nat)
    ensures count == 0 <==> forall i :: 0 <= i < |rows| && rows[i].bandwidth.Some? ==> rows[i].bandwidth.value >= 0.0
  {
    assert forall i :: 0 < i < |rows| ==> rows[1..][i - 1] == rows[i];
    if |rows| == 0 then 0
    else (if rows[0].bandwidth.Some? && rows[0].bandwidth.value < 0.0 then 1 else 0) + NegativeCount(rows[1..])
  }

  function ZeroCount(rows: seq<VRow>): nat {
    if |rows| == 0 then 0
    else (if rows[0].bandwidth == Some(0.0) then 1 else 0) + ZeroCount(rows[1..])
  }

  function HugeCount(rows: seq<VRow>): nat {
    if |rows| == 0 then 0
    else (if rows[0].bandwidth.Some? && rows[0].bandwidth.value > 1000000000.0 then 1 else 0) + HugeCount(rows[1..])
  }

  /** `df.isna().any().any()`. */
  predicate HasNull(r: VRow) {
    r.date.Null? || r.fingerprint.None? || r.bandwidth.None? || r.timestamp.Null? || r.otherNull
  }

  /** A row every check before the duplicate test has accepted. */
  predicate Clean(r: VRow) {
    r.date.Val? && r.fingerprint.Some? && r.bandwidth.Some? && r.bandwidth.value >= 0.0
    && r.timestamp.Val? && !r.otherNull
  }

  predicate AllClean(rows: seq<VRow>) {
    forall i :: 0 <= i < |rows| ==> Clean(rows[i])
  }

  /** The (date, fingerprint) key of a clean row: all the later checks look at. */
  function Key(r: VRow): (int, string)
    requires Clean(r)
  {
    (r.date.value, r.fingerprint.value)
  }

  function KeysOf(rows: seq<VRow>): (keys: seq<(int, string)>)
    requires AllClean(rows)
    ensures |keys| == |rows| && forall i :: 0 <= i < |rows| ==> keys[i] == Key(rows[i])
  {
    if |rows| == 0 then [] else [Key(rows[0])] + KeysOf(rows[1..])
  }

  /** `set(df["date"])`. */
  function DaysPresent(keys: seq<(int, string)>): set<int> {
    set i | 0 <= i < |keys| :: keys[i].0
  }

  function MinDay(keys: seq<(int, string)>): (d: int)
    requires |keys| > 0
    ensures d in DaysPresent(keys) && forall x :: x in DaysPresent(keys) ==> d <= x
  {
    if |keys| == 1 then keys[0].0
    else
      var m := MinDay(keys[1..]);
      DaysPresentCons(keys);
      if keys[0].0 <= m then keys[0].0 else m
  }

  function MaxDay(keys: seq<(int, string)>): (d: int)
    requires |keys| > 0
    ensures d in DaysPresent(keys) && forall x :: x in DaysPresent(keys) ==> x <= d
  {
    if |keys| == 1 then keys[0].0
    else
      var m := MaxDay(keys[1..]);
      DaysPresentCons(keys);
      if keys[0].0 >= m then keys[0].0 else m
  }

  lemma {:induction false} DaysPresentCons(keys: seq<(int, string)>)
    requires |keys| > 0
    ensures DaysPresent(keys) == {keys[0].0} + DaysPresent(keys[1..])
  {
    forall x | x in DaysPresent(keys) ensures x in {keys[0].0} + DaysPresent(keys[1..]) {
      var i :| 0 <= i < |keys| && keys[i].0 == x;
      if i > 0 { assert keys[1..][i - 1] == keys[i]; }
    }
    forall x | x in DaysPresent(keys[1..]) ensures x in DaysPresent(keys) {
      var i :| 0 <= i < |keys[1..]| && keys[1..][i].0 == x;
      assert keys[i + 1] == keys[1..][i];
    }
  }

  /** `[d for d in expected_days if d not in days_present]`. */
  function MissingDays(expected: seq<int>, present: set<int>): (missing: seq<int>)
    ensures forall d :: d in missing <==> d in expected && d !in present
  {
    if |expected| == 0 then []
    else (if expected[0] in present then [] else [expected[0]]) + MissingDays(expected[1..], present)
  }

  /** `by_day[d]`: the fingerprints of the rows dated `d`. */
  function ByDay(keys: seq<(int, string)>, d: int): set<string> {
    set i | 0 <= i < |keys| && keys[i].0 == d :: keys[i].1
  }

  function AllFingerprints(keys: seq<(int, string)>): set<string> {
    set i | 0 <= i < |keys| :: keys[i].1
  }

  /** `set.intersection(*by_day.values())`. */
  function Common(keys: seq<(int, string)>): set<string> {
    set fp | fp in AllFingerprints(keys) && forall d :: d in DaysPresent(keys) ==> fp in ByDay(keys, d)
  }

  /** `len(set(sizes.values())) != 1`, for a non-empty table. */
  predicate SizesVary(keys: seq<(int, string)>) {
    exists d1, d2 :: d1 in DaysPresent(keys) && d2 in DaysPresent(keys) && |ByDay(keys, d1)| != |ByDay(keys, d2)|
  }

  predicate SomeDayDiffers(keys: seq<(int, string)>) {
    exists d :: d in DaysPresent(keys) && ByDay(keys, d) != Common(keys)
  }

  /** The checks from the date range on, for a non-empty table without duplicates; `zeros` and `huge` are only reported. */
  function CheckCoverage(keys: seq<(int, string)>, zeros: nat, huge: nat): Verdict
    requires |keys| > 0
  {
    var expected := Days(MinDay(keys), MaxDay(keys));
    var present := DaysPresent(keys);
    if present != (set i | 0 <= i < |expected| :: expected[i]) then Died(Gaps(MissingDays(expected, present)))
    else if SizesVary(keys) then Died(CountsVary)
    else if SomeDayDiffers(keys) then Died(CommonMismatch)
    else if |keys| != |expected| * |Common(keys)| then Died(RowCountMismatch(|keys|, |expected| * |Common(keys)|))
    else Passed(|expected|, |Common(keys)|, |keys|, zeros, huge)
  }

  /** The checks after the null test: duplicates, then `min()` of the dates, which raises on an empty table. */
  function CheckKeys(keys: seq<(int, string)>, zeros: nat, huge: nat): Verdict {
    var dup := DuplicateCount(keys);
    if dup > 0 then Died(Duplicates(dup))
    else if |keys| == 0 then Crashed
    else CheckCoverage(keys, zeros, huge)
  }

  /** The checks before the duplicate test, in order: columns, dates, timestamps, non-numeric and negative bandwidths, nulls. */
  function EarlyFailure(columns: set<string>, rows: seq<VRow>): (f: Option<Failure>)
    ensures f.None? <==> (forall c :: c in Required ==> c in columns) && AllClean(rows)
  {
    var missing := MissingOf(Required, columns);
    if missing != [] then Some(MissingColumns(missing))
    else if exists i :: 0 <= i < |rows| && rows[i].date.Malformed? then Some(BadDate)
    else if exists i :: 0 <= i < |rows| && rows[i].timestamp.Malformed? then Some(BadTimestamp)
    else if NonNumericCount(rows) > 0 then Some(NonNumeric(NonNumericCount(rows)))
    else if NegativeCount(rows) > 0 then Some(Negative(NegativeCount(rows)))
    else if exists i :: 0 <= i < |rows| && HasNull(rows[i]) then Some(NullValues)
    else None
  }

  /** The checks of `main` on the table pandas read. */
  function CheckTable(columns: set<string>, rows: seq<VRow>): Verdict {
    match EarlyFailure(columns, rows)
    case Some(f) => Died(f)
    case None => CheckKeys(KeysOf(rows), ZeroCount(rows), HugeCount(rows))
  }

  /** `main` of `validate_data.py`. */
  function Check(file: CsvFile): Verdict {
    match file
    case Missing => Crashed
    case Unreadable => Died(ReadFailed)
    case Parsed(columns, rows) => CheckTable(columns, rows)
  }

  // ---------------------------------------------------------------------------
  // Properties

  predicate Covered(keys: seq<(int, string)>, d: int, fp: string) {
    exists i :: 0 <= i < |keys| && keys[i] == (d, fp)
  }

  /** The keys are every day from `lo` to `hi` paired with every fingerprint of `c`, and nothing else. */
  ghost predicate IsGrid(keys: seq<(int, string)>, lo: int, hi: int, c: set<string>) {
    (forall i :: 0 <= i < |keys| ==> lo <= keys[i].0 <= hi && keys[i].1 in c)
    && (forall d, fp :: lo <= d <= hi && fp in c ==> Covered(keys, d, fp))
  }

  /**
    A well-formed panel: the four columns, at least one row, no empty or
    unparseable cell, no negative bandwidth, no repeated (date, fingerprint),
    and the keys forming a full grid of consecutive days × one relay set.
   */
  ghost predicate IsPanel(columns: set<string>, rows: seq<VRow>) {
    (forall c :: c in Required ==> c in columns)
    && |rows| > 0 && AllClean(rows)
    && Distinct(KeysOf(rows))
    && exists lo, hi, c :: lo <= hi && IsGrid(KeysOf(rows), lo, hi, c)
  }

  /** On a grid whose relay set is not empty, the date range, the days present, each day's set and the common set are all determined. */
  lemma {:induction false} GridFacts(keys: seq<(int, string)>, lo: int, hi: int, c: set<string>)
    requires IsGrid(keys, lo, hi, c) && lo <= hi && |keys| > 0
    ensures MinDay(keys) == lo && MaxDay(keys) == hi
    ensures DaysPresent(keys) == set i | 0 <= i < |Days(lo, hi)| :: Days(lo, hi)[i]
    ensures forall d :: d in DaysPresent(keys) ==> ByDay(keys, d) == c
    ensures Common(keys) == c
  {
    var some := keys[0].1;
    assert some in c;
    var expected := Days(lo, hi);
    forall d | lo <= d <= hi ensures d in DaysPresent(keys) {
      assert Covered(keys, d, some);
    }
    forall d | d in DaysPresent(keys) ensures lo <= d <= hi {
      var i :| 0 <= i < |keys| && keys[i].0 == d;
    }
    assert lo in DaysPresent(keys) && hi in DaysPresent(keys);
    var present := DaysPresent(keys);
    assert present == set i | 0 <= i < |expected| :: expected[i] by {
      forall d | d in present ensures d in set i | 0 <= i < |expected| :: expected[i] {
        assert expected[d - lo] == d;
      }
    }
    forall d | d in present ensures ByDay(keys, d) == c {
      forall fp | fp in c ensures fp in ByDay(keys, d) {
        assert Covered(keys, d, fp);
      }
    }
    forall fp | fp in c ensures fp in AllFingerprints(keys) {
      assert Covered(keys, lo, fp);
    }
  }

  /** Distinct keys: the set of keys has one element per row. */
  lemma {:induction false} DistinctKeyCount(keys: seq<(int, string)>)
    requires Distinct(keys)
    ensures |set i | 0 <= i < |keys| :: keys[i]| == |keys|
    decreases |keys|
  {
    if |keys| > 0 {
      var n := |keys| - 1;
      var front := keys[..n];
      assert Distinct(front) by {
        forall i, j | 0 <= i < j < n ensures front[i] != front[j] {
          assert front[i] == keys[i] && front[j] == keys[j];
        }
      }
      DistinctKeyCount(front);
      var all := set i | 0 <= i < |keys| :: keys[i];
      var before := set i | 0 <= i < n :: front[i];
      assert all == before + {keys[n]} by {
        forall k | k in all ensures k in before + {keys[n]} {
          var i :| 0 <= i < |keys| && keys[i] == k;
          if i < n { assert front[i] == k; }
        }
      }
      assert keys[n] !in before;
    }
  }

  /** The keys of day `d` with every fingerprint of `c`. */
  function Line(d: int, c: set<string>): set<(int, string)> {
    set fp | fp in c :: (d, fp)
  }

  lemma {:induction false} LineCount(d: int, c: set<string>)
    ensures |Line(d, c)| == |c|
    decreases |c|
  {
    if c != {} {
      var x :| x in c;
      LineCount(d, c - {x});
      assert Line(d, c) == Line(d, c - {x}) + {(d, x)};
    }
  }

  function Grid(lo: int, hi: int, c: set<string>): set<(int, string)> {
    set d, fp | lo <= d <= hi && fp in c :: (d, fp)
  }

  lemma {:induction false} GridStep(n: int, c: int)
    ensures (n + 1) * c == n * c + c
  {
  }

  lemma {:induction false} GridCount(lo: int, hi: int, c: set<string>)
    requires lo <= hi + 1
    ensures |Grid(lo, hi, c)| == (hi - lo + 1) * |c|
    decreases hi - lo + 1
  {
    if lo <= hi {
      var before, last := Grid(lo, hi - 1, c), Line(hi, c);
      assert |Grid(lo, hi, c)| == |before| + |last| by {
        assert Grid(lo, hi, c) == before + last;
        assert before * last == {};
      }
      GridCount(lo, hi - 1, c);
      LineCount(hi, c);
      GridStep(hi - lo, |c|);
    } else {
      assert Grid(lo, hi, c) == {};
    }
  }

  /** Given no duplicates and a full grid, rows = days × |common|: the final check of the script can never fail. */
  lemma {:induction false} GridRowCount(keys: seq<(int, string)>, lo: int, hi: int, c: set<string>)
    requires Distinct(keys) && IsGrid(keys, lo, hi, c) && lo <= hi
    ensures |keys| == (hi - lo + 1) * |c|
  {
    DistinctKeyCount(keys);
    GridCount(lo, hi, c);
    var ks := set i | 0 <= i < |keys| :: keys[i];
    assert ks == Grid(lo, hi, c) by {
      forall k | k in Grid(lo, hi, c) ensures k in ks {
        assert Covered(keys, k.0, k.1);
      }
    }
  }

  /** A panel passes every check. */
  lemma {:induction false} PanelPasses(columns: set<string>, rows: seq<VRow>)
    requires IsPanel(columns, rows)
    ensures CheckTable(columns, rows).Passed?
  {
    var keys := KeysOf(rows);
    DuplicateCountZero(keys);
    var lo, hi, c :| lo <= hi && IsGrid(keys, lo, hi, c);
    GridFacts(keys, lo, hi, c);
    GridRowCount(keys, lo, hi, c);
    assert !SizesVary(keys);
    assert !SomeDayDiffers(keys);
  }

  /** What passing the key checks establishes. */
  lemma {:induction false} PassedKeys(keys: seq<(int, string)>, zeros: nat, huge: nat)
    requires CheckKeys(keys, zeros, huge).Passed?
    ensures Distinct(keys) && |keys| > 0
    ensures DaysPresent(keys) == set i | 0 <= i < |Days(MinDay(keys), MaxDay(keys))| :: Days(MinDay(keys), MaxDay(keys))[i]
    ensures !SomeDayDiffers(keys)
  {
    DuplicateCountZero(keys);
  }

  /** Gap-free days whose sets all equal the common set form a grid. */
  lemma {:induction false} CoverageGrid(keys: seq<(int, string)>)
    requires |keys| > 0
    requires DaysPresent(keys) == set i | 0 <= i < |Days(MinDay(keys), MaxDay(keys))| :: Days(MinDay(keys), MaxDay(keys))[i]
    requires !SomeDayDiffers(keys)
    ensures IsGrid(keys, MinDay(keys), MaxDay(keys), Common(keys))
  {
    var lo, hi, c := MinDay(keys), MaxDay(keys), Common(keys);
    var expected := Days(lo, hi);
    forall i | 0 <= i < |keys| ensures lo <= keys[i].0 <= hi && keys[i].1 in c {
      assert keys[i].0 in DaysPresent(keys);
      assert keys[i].1 in ByDay(keys, keys[i].0);
    }
    forall d, fp | lo <= d <= hi && fp in c ensures Covered(keys, d, fp) {
      assert expected[d - lo] == d;
      assert d in DaysPresent(keys);
      assert fp in ByDay(keys, d);
    }
  }

  /** The summary of a passed table: the days of its date range, the size of the common set and the row count. */
  lemma {:induction false} PassedSummary(columns: set<string>, rows: seq<VRow>)
    requires CheckTable(columns, rows).Passed?
    ensures AllClean(rows) && |rows| > 0
    ensures var keys, v := KeysOf(rows), CheckTable(columns, rows);
      v.days == |Days(MinDay(keys), MaxDay(keys))| && v.common == |Common(keys)| && v.rows == |rows|
  {
    var keys, zeros, huge := KeysOf(rows), ZeroCount(rows), HugeCount(rows);
    assert EarlyFailure(columns, rows).None?;
    assert CheckTable(columns, rows) == CheckKeys(keys, zeros, huge);
    KeysSummary(keys, zeros, huge);
  }

  /** The summary a passed key check reports. */
  lemma {:induction false} KeysSummary(keys: seq<(int, string)>, zeros: nat, huge: nat)
    requires CheckKeys(keys, zeros, huge).Passed?
    ensures |keys| > 0
    ensures var v := CheckKeys(keys, zeros, huge);
      v.days == |Days(MinDay(keys), MaxDay(keys))| && v.common == |Common(keys)| && v.rows == |keys|
  {
    assert CheckKeys(keys, zeros, huge) == CheckCoverage(keys, zeros, huge);
  }

  /** A panel on the grid `lo..hi` × `c` reports `hi - lo + 1` days, `|c|` common relays and all its rows. */
  lemma {:induction false} GridSummary(columns: set<string>, rows: seq<VRow>, lo: int, hi: int, c: set<string>)
    requires IsPanel(columns, rows) && lo <= hi && IsGrid(KeysOf(rows), lo, hi, c)
    ensures var v := CheckTable(columns, rows);
      v.Passed? && v.days == hi - lo + 1 && v.common == |c| && v.rows == |rows|
  {
    PanelPasses(columns, rows);
    GridFacts(KeysOf(rows), lo, hi, c);
    PassedSummary(columns, rows);
  }

  /** Whatever passes every check is a panel. */
  lemma {:induction false} PassedIsPanel(columns: set<string>, rows: seq<VRow>)
    requires CheckTable(columns, rows).Passed?
    ensures IsPanel(columns, rows)
  {
    var keys := KeysOf(rows);
    PassedKeys(keys, ZeroCount(rows), HugeCount(rows));
    CoverageGrid(keys);
    assert MinDay(keys) <= MaxDay(keys);
  }

  /** `validate_data.py` accepts a table exactly when it is a panel. */
  lemma {:induction false} CheckPassesIffPanel(columns: set<string>, rows: seq<VRow>)
    ensures CheckTable(columns, rows).Passed? <==> IsPanel(columns, rows)
  {
    if CheckTable(columns, rows).Passed? {
      PassedIsPanel(columns, rows);
    }
    if IsPanel(columns, rows) {
      PanelPasses(columns, rows);
    }
  }

  /** A verdict with the reported zero and huge counts erased. */
  function Erase(v: Verdict): Verdict {
    match v
    case Passed(days, common, rows, _, _) => Passed(days, common, rows, 0, 0)
    case _ => v
  }

  /** The rows agree in everything but the bandwidth values, which agree in being present and in sign. */
  predicate SameExceptBandwidth(rows: seq<VRow>, rows': seq<VRow>) {
    |rows| == |rows'| &&
    forall i :: 0 <= i < |rows| ==>
      && rows[i].(bandwidth := None) == rows'[i].(bandwidth := None)
      && rows[i].bandwidth.None? == rows'[i].bandwidth.None?
      && (rows[i].bandwidth.Some? ==> (rows[i].bandwidth.value < 0.0 <==> rows'[i].bandwidth.value < 0.0))
  }

  lemma {:induction false} SameCounts(rows: seq<VRow>, rows': seq<VRow>)
    requires SameExceptBandwidth(rows, rows')
    ensures NonNumericCount(rows) == NonNumericCount(rows')
    ensures NegativeCount(rows) == NegativeCount(rows')
    decreases |rows|
  {
    if |rows| > 0 {
      assert SameExceptBandwidth(rows[1..], rows'[1..]) by {
        forall i | 0 <= i < |rows| - 1 ensures rows[1..][i] == rows[i + 1] && rows'[1..][i] == rows'[i + 1] { }
      }
      SameCounts(rows[1..], rows'[1..]);
      assert rows[0].(bandwidth := None) == rows'[0].(bandwidth := None);
    }
  }

  /** The key checks look only at the keys; the two counts are only reported. */
  lemma {:induction false} KeyChecksIgnoreCounts(keys: seq<(int, string)>, zeros: nat, huge: nat, zeros': nat, huge': nat)
    ensures Erase(CheckKeys(keys, zeros, huge)) == Erase(CheckKeys(keys, zeros', huge'))
  {
  }

  lemma {:induction false} SameEarlyFailure(columns: set<string>, rows: seq<VRow>, rows': seq<VRow>)
    requires SameExceptBandwidth(rows, rows')
    ensures EarlyFailure(columns, rows) == EarlyFailure(columns, rows')
  {
    SameCounts(rows, rows');
    forall i | 0 <= i < |rows| ensures rows[i].date == rows'[i].date && rows[i].timestamp == rows'[i].timestamp
      && HasNull(rows[i]) == HasNull(rows'[i])
    {
      assert rows[i].(bandwidth := None) == rows'[i].(bandwidth := None);
    }
  }

  /**
    Zero and very large bandwidths only produce notes: changing the bandwidth
    values, keeping which are present and which are negative, changes nothing
    but the two reported counts.
   */
  lemma {:induction false} NotesNeverFail(columns: set<string>, rows: seq<VRow>, rows': seq<VRow>)
    requires SameExceptBandwidth(rows, rows')
    ensures Erase(CheckTable(columns, rows)) == Erase(CheckTable(columns, rows'))
  {
    SameEarlyFailure(columns, rows, rows');
    if EarlyFailure(columns, rows).None? {
      forall i | 0 <= i < |rows| ensures Key(rows[i]) == Key(rows'[i]) {
        assert rows[i].(bandwidth := None) == rows'[i].(bandwidth := None);
      }
      assert KeysOf(rows) == KeysOf(rows');
      KeyChecksIgnoreCounts(KeysOf(rows), ZeroCount(rows), HugeCount(rows), ZeroCount(rows'), HugeCount(rows'));
    }
  }

  // ---------------------------------------------------------------------------
  // Each check on its own

  /** A missing required column ends in `die` with status 2, naming the missing columns in order. */
  lemma {:induction false} MissingColumnDies(columns: set<string>, rows: seq<VRow>, c: string)
    requires c in Required && c !in columns
    ensures CheckTable(columns, rows) == Died(MissingColumns(MissingOf(Required, columns)))
    ensures c in MissingOf(Required, columns)
    ensures ExitCode(CheckTable(columns, rows)) == 2
  {
  }

  /** Readable columns and cells are the precondition of the bandwidth checks below. */
  predicate Readable(columns: set<string>, rows: seq<VRow>) {
    (forall c :: c in Required ==> c in columns)
    && forall i :: 0 <= i < |rows| ==> !rows[i].date.Malformed? && !rows[i].timestamp.Malformed?
  }

  /** A non-numeric `relay_bandwidth` cell, else a negative one, ends in `die`. */
  lemma {:induction false} BadBandwidthDies(columns: set<string>, rows: seq<VRow>, t: int)
    requires Readable(columns, rows)
    requires 0 <= t < |rows| && (rows[t].bandwidth.None? || rows[t].bandwidth.value < 0.0)
    ensures var v := CheckTable(columns, rows);
      v.Died? && (v.failure.NonNumeric? || v.failure.Negative?) && v.failure.count > 0
  {
    assert MissingOf(Required, columns) == [];
  }

  /** Among clean rows, a repeated (date, fingerprint) pair ends in `die` with the number of repeats. */
  lemma {:induction false} DuplicateDies(columns: set<string>, rows: seq<VRow>, a: int, b: int)
    requires forall c :: c in Required ==> c in columns
    requires AllClean(rows)
    requires 0 <= a < b < |rows| && Key(rows[a]) == Key(rows[b])
    ensures var v := CheckTable(columns, rows);
      v.Died? && v.failure.Duplicates? && v.failure.count > 0
  {
    var keys := KeysOf(rows);
    DuplicateCountZero(keys);
    assert keys[a] == keys[b];
  }

  /** Among clean rows without duplicates, a day between the first and the last that no row has ends in `die`, naming it. */
  lemma {:induction false} GapDies(columns: set<string>, rows: seq<VRow>, d: int)
    requires forall c :: c in Required ==> c in columns
    requires AllClean(rows) && Distinct(KeysOf(rows)) && |rows| > 0
    requires MinDay(KeysOf(rows)) <= d <= MaxDay(KeysOf(rows)) && d !in DaysPresent(KeysOf(rows))
    ensures var v := CheckTable(columns, rows);
      v.Died? && v.failure.Gaps? && d in v.failure.missingDays
  {
    var keys := KeysOf(rows);
    DuplicateCountZero(keys);
    var expected := Days(MinDay(keys), MaxDay(keys));
    assert expected[d - MinDay(keys)] == d;
  }

  /** Among clean, distinct, gap-free rows, a day whose fingerprint set is not the common set ends in `die`. */
  lemma {:induction false} UnequalDayDies(columns: set<string>, rows: seq<VRow>, d: int)
    requires forall c :: c in Required ==> c in columns
    requires AllClean(rows) && Distinct(KeysOf(rows)) && |rows| > 0
    requires d in DaysPresent(KeysOf(rows)) && ByDay(KeysOf(rows), d) != Common(KeysOf(rows))
    ensures var v := CheckTable(columns, rows);
      v.Died? && (v.failure.Gaps? || v.failure.CountsVary? || v.failure.CommonMismatch?)
  {
    var keys := KeysOf(rows);
    DuplicateCountZero(keys);
    assert CheckTable(columns, rows) == CheckCoverage(keys, ZeroCount(rows), HugeCount(rows));
    assert SomeDayDiffers(keys);
    CoverageDiffers(keys, ZeroCount(rows), HugeCount(rows));
  }

  lemma {:induction false} CoverageDiffers(keys: seq<(int, string)>, zeros: nat, huge: nat)
    requires |keys| > 0 && SomeDayDiffers(keys)
    ensures var v := CheckCoverage(keys, zeros, huge);
      v.Died? && (v.failure.Gaps? || v.failure.CountsVary? || v.failure.CommonMismatch?)
  {
  }

  /**
    The final row-count check is implied by the ones before it: without
    duplicates and gaps, and with every day's set equal to the common set,
    rows = days × |common|.
   */
  lemma {:induction false} FinalCheckImplied(keys: seq<(int, string)>)
    requires Distinct(keys) && |keys| > 0
    requires DaysPresent(keys) == set i | 0 <= i < |Days(MinDay(keys), MaxDay(keys))| :: Days(MinDay(keys), MaxDay(keys))[i]
    requires !SomeDayDiffers(keys)
    ensures |keys| == |Days(MinDay(keys), MaxDay(keys))| * |Common(keys)|
  {
    var lo, hi := MinDay(keys), MaxDay(keys);
    assert lo <= hi;
    assert |Days(lo, hi)| == hi - lo + 1;
    assert |keys| == (hi - lo + 1) * |Common(keys)| by {
      CoverageGrid(keys);
      GridRowCount(keys, lo, hi, Common(keys));
    }
  }
}
