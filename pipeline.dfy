/**
  The scripts as a pipeline: what `validate_data.py` and `data-check.py`
  conclude about the files `pull_relay_data.py` and `onionoo_to_csv.py`
  write. A written row is turned into the cells pandas reads back: an ISO
  date or midnight stamp as its day and instant, a decimal bandwidth as its
  number, an empty fingerprint as a missing value.
 */
module Pipeline {
  import opened Wrappers
  import opened Clock
  import opened Frames
  import P = Panel
  import A = Archive
  import V = Validate
  import D = DataCheck
  import O = Onionoo

  // ---------------------------------------------------------------------
  // pull_relay_data.py, then validate_data.py

  /** The columns of `write_csv`'s header. */
  const PanelColumns: set<string> := {"date", "fingerprint", "relay_bandwidth", "timestamp"}

  /** A `write_csv` row as `validate_data.py` sees it after its conversions. */
  function ReadBack(r: P.CsvRow): V.VRow {
    V.VRow(V.Val(r.day), if r.fingerprint == "" then None else Some(r.fingerprint),
      Some(r.bandwidth as real), V.Val(r.day * SecondsPerDay), false)
  }

  function ReadTable(rows: seq<P.CsvRow>): (t: seq<V.VRow>)
    ensures |t| == |rows| && forall i :: 0 <= i < |rows| ==> t[i] == ReadBack(rows[i])
  {
    seq(|rows|, i requires 0 <= i < |rows| => ReadBack(rows[i]))
  }

  /**
    What `build_panel` hands to `write_csv` on a non-empty range: consecutive
    days, every common relay in every day's mapping with a non-negative
    bandwidth, and no empty fingerprint among the common relays.
   */
  ghost predicate ReadyToWrite(pd: seq<P.DayMapping>, common: set<string>) {
    && |pd| > 0
    && (forall i :: 0 <= i < |pd| ==> pd[i].day == pd[0].day + i)
    && (forall i, fp :: 0 <= i < |pd| && fp in common ==> fp in pd[i].mapping && pd[i].mapping[fp] >= 0)
    && "" !in common
  }

  lemma {:induction false} DivBound(t: int, c: int, n: int)
    requires 0 <= t < n * c && c > 0
    ensures t / c < n
  {
    var q := t / c;
    assert q * c <= t < n * c;
    assert (n - q) * c > 0;
  }

  /** Data row `t` is day `i` with the `k`-th fingerprint of the order, where `t == i * |common| + k`. */
  lemma {:induction false} RowAt(pd: seq<P.DayMapping>, order: seq<string>, common: set<string>, t: int) returns (i: nat, k: nat)
    requires P.IsEnumeration(order, common)
    requires forall i, fp :: 0 <= i < |pd| && fp in common ==> fp in pd[i].mapping
    requires 0 <= t < |P.CsvRows(pd, order)|
    ensures i < |pd| && k < |order| && t == i * |common| + k
    ensures P.CsvRows(pd, order)[t] == P.CsvRow(pd[i].day, order[k], pd[i].mapping[order[k]])
  {
    P.DistinctCard(order, common);
    P.CsvRowsCount(pd, order);
    P.BlockIsProduct(|pd|, |order|);
    i, k := Coordinates(t, |common|, |pd|);
    P.CsvRowsComplete(pd, order, common, i, k);
  }

  /** Position `t` of an `n` × `c` block layout is row `t / c`, column `t % c`. */
  lemma {:induction false} Coordinates(t: int, c: nat, n: nat) returns (i: nat, k: nat)
    requires 0 <= t < n * c
    ensures i < n && k < c && t == i * c + k
  {
    DivBound(t, c, n);
    i, k := t / c, t % c;
  }

  lemma {:induction false} WrittenClean(pd: seq<P.DayMapping>, order: seq<string>, common: set<string>)
    requires ReadyToWrite(pd, common) && P.IsEnumeration(order, common)
    ensures V.AllClean(ReadTable(P.CsvRows(pd, order)))
  {
    var rows := P.CsvRows(pd, order);
    forall t | 0 <= t < |rows| ensures V.Clean(ReadBack(rows[t])) {
      P.CsvRowsSound(pd, order, t);
    }
  }

  /** The key validate_data.py sees for a written row is its day and fingerprint. */
  lemma {:induction false} WrittenKeys(pd: seq<P.DayMapping>, order: seq<string>, common: set<string>)
    requires ReadyToWrite(pd, common) && P.IsEnumeration(order, common)
    ensures V.AllClean(ReadTable(P.CsvRows(pd, order)))
    ensures var rows := P.CsvRows(pd, order);
      forall t :: 0 <= t < |rows| ==> V.KeysOf(ReadTable(rows))[t] == (rows[t].day, rows[t].fingerprint)
  {
    WrittenClean(pd, order, common);
  }

  /** Two different rows are never the same day for the same relay. */
  lemma {:induction false} RowsDiffer(pd: seq<P.DayMapping>, order: seq<string>, common: set<string>, a: int, b: int)
    requires ReadyToWrite(pd, common) && P.IsEnumeration(order, common)
    requires 0 <= a < b < |P.CsvRows(pd, order)|
    ensures var rows := P.CsvRows(pd, order);
      rows[a].day != rows[b].day || rows[a].fingerprint != rows[b].fingerprint
  {
    var rows := P.CsvRows(pd, order);
    var ia, ka := RowAt(pd, order, common, a);
    var ib, kb := RowAt(pd, order, common, b);
  }

  lemma {:induction false} WrittenDistinct(pd: seq<P.DayMapping>, order: seq<string>, common: set<string>)
    requires ReadyToWrite(pd, common) && P.IsEnumeration(order, common)
    ensures V.AllClean(ReadTable(P.CsvRows(pd, order)))
    ensures Distinct(V.KeysOf(ReadTable(P.CsvRows(pd, order))))
  {
    var rows := P.CsvRows(pd, order);
    WrittenKeys(pd, order, common);
    var keys := V.KeysOf(ReadTable(rows));
    forall a, b | 0 <= a < b < |keys| ensures keys[a] != keys[b] {
      RowsDiffer(pd, order, common, a, b);
    }
  }

  /** Each written key lies within the range of days and names a common relay. */
  lemma {:induction false} KeyInGrid(pd: seq<P.DayMapping>, order: seq<string>, common: set<string>, t: int)
    requires ReadyToWrite(pd, common) && P.IsEnumeration(order, common)
    requires 0 <= t < |P.CsvRows(pd, order)|
    ensures var row := P.CsvRows(pd, order)[t];
      pd[0].day <= row.day <= pd[0].day + |pd| - 1 && row.fingerprint in common
  {
    var i, k := RowAt(pd, order, common, t);
  }

  /** Each day of the range and common relay is written, at row `i * |common| + k`. */
  lemma {:induction false} GridPointWritten(pd: seq<P.DayMapping>, order: seq<string>, common: set<string>, d: int, fp: string)
    requires ReadyToWrite(pd, common) && P.IsEnumeration(order, common)
    requires pd[0].day <= d <= pd[0].day + |pd| - 1 && fp in common
    ensures exists t :: 0 <= t < |P.CsvRows(pd, order)| && P.CsvRows(pd, order)[t].day == d && P.CsvRows(pd, order)[t].fingerprint == fp
  {
    var k :| 0 <= k < |order| && order[k] == fp;
    P.CsvRowsComplete(pd, order, common, d - pd[0].day, k);
  }

  lemma {:induction false} WrittenGrid(pd: seq<P.DayMapping>, order: seq<string>, common: set<string>)
    requires ReadyToWrite(pd, common) && P.IsEnumeration(order, common)
    ensures V.AllClean(ReadTable(P.CsvRows(pd, order)))
    ensures V.IsGrid(V.KeysOf(ReadTable(P.CsvRows(pd, order))), pd[0].day, pd[0].day + |pd| - 1, common)
  {
    var rows := P.CsvRows(pd, order);
    WrittenKeys(pd, order, common);
    var keys := V.KeysOf(ReadTable(rows));
    var lo, hi := pd[0].day, pd[0].day + |pd| - 1;
    forall t | 0 <= t < |keys| ensures lo <= keys[t].0 <= hi && keys[t].1 in common {
      KeyInGrid(pd, order, common, t);
    }
    forall d, fp | lo <= d <= hi && fp in common ensures V.Covered(keys, d, fp) {
      GridPointWritten(pd, order, common, d, fp);
      var t :| 0 <= t < |rows| && rows[t].day == d && rows[t].fingerprint == fp;
      assert keys[t] == (d, fp);
    }
  }

  /** What `write_csv` writes for a non-empty range and common set reads back as a panel. */
  lemma {:induction false} WrittenIsPanel(pd: seq<P.DayMapping>, order: seq<string>, common: set<string>)
    requires ReadyToWrite(pd, common) && P.IsEnumeration(order, common) && common != {}
    ensures V.IsPanel(PanelColumns, ReadTable(P.CsvRows(pd, order)))
    ensures V.AllClean(ReadTable(P.CsvRows(pd, order)))
    ensures V.IsGrid(V.KeysOf(ReadTable(P.CsvRows(pd, order))), pd[0].day, pd[0].day + |pd| - 1, common)
    ensures |P.CsvRows(pd, order)| == |pd| * |common|
  {
    WrittenDistinct(pd, order, common);
    WrittenGrid(pd, order, common);
    var k :| 0 <= k < |order|;
    P.CsvRowsComplete(pd, order, common, 0, k);
  }

  /**
    `validate_data.py` accepts what `write_csv` writes for a non-empty range
    and a non-empty common set, and reports one row per day and common relay.
   */
  lemma {:induction false} WrittenPanelPasses(pd: seq<P.DayMapping>, order: seq<string>, common: set<string>)
    requires ReadyToWrite(pd, common) && P.IsEnumeration(order, common) && common != {}
    ensures var v := V.CheckTable(PanelColumns, ReadTable(P.CsvRows(pd, order)));
      v.Passed? && v.days == |pd| && v.common == |common| && v.rows == |pd| * |common|
  {
    var rows := ReadTable(P.CsvRows(pd, order));
    WrittenIsPanel(pd, order, common);
    V.GridSummary(PanelColumns, rows, pd[0].day, pd[0].day + |pd| - 1, common);
  }

  /**
    End to end: the panel `build_panel` returns for `start <= end`, written
    by `write_csv` in any order of the common set, passes every check of
    `validate_data.py`, provided some relay is present every day, no parsed
    bandwidth is negative and no fingerprint is empty.
   */
  lemma {:induction false} PulledPanelPasses(st: A.CacheState, start: int, end: int, hours: seq<int>, o: A.Oracles, order: seq<string>)
    requires P.PanelFor(st, start, end, hours, o).0.Ok?
    requires start <= end
    requires var p := P.PanelFor(st, start, end, hours, o).0.value;
      && p.common != {} && "" !in p.common && P.IsEnumeration(order, p.common)
      && forall i, fp :: 0 <= i < |p.perDay| && fp in p.perDay[i].mapping ==> p.perDay[i].mapping[fp] >= 0
    ensures var p := P.PanelFor(st, start, end, hours, o).0.value;
      var v := V.CheckTable(PanelColumns, ReadTable(P.CsvRows(p.perDay, order)));
      v.Passed? && v.days == end - start + 1 && v.common == |p.common|
  {
    var p := P.PanelFor(st, start, end, hours, o).0.value;
    P.PanelEmptyIffNoDays(st, start, end, hours, o);
    P.PanelCommonEverywhere(st, start, end, hours, o);
    WrittenPanelPasses(p.perDay, order, p.common);
  }

  /** Every written row reads back with a date, a fingerprint, a number and a timestamp. */
  lemma {:induction false} WrittenCells(pd: seq<P.DayMapping>, order: seq<string>, common: set<string>)
    requires P.IsEnumeration(order, common) && "" !in common
    ensures var table := ReadTable(P.CsvRows(pd, order));
      forall u :: 0 <= u < |table| ==>
        table[u].date.Val? && table[u].fingerprint.Some? && table[u].bandwidth.Some? && table[u].timestamp.Val? && !table[u].otherNull
  {
    var rows := P.CsvRows(pd, order);
    forall u | 0 <= u < |rows| ensures rows[u].fingerprint != "" {
      P.CsvRowsSound(pd, order, u);
    }
  }

  /** A day's negative bandwidth for a common relay is written out. */
  lemma {:induction false} NegativeWritten(pd: seq<P.DayMapping>, order: seq<string>, common: set<string>, i: int, fp: string)
    requires P.IsEnumeration(order, common)
    requires forall i, fp :: 0 <= i < |pd| && fp in common ==> fp in pd[i].mapping
    requires 0 <= i < |pd| && fp in common && pd[i].mapping[fp] < 0
    ensures var table := ReadTable(P.CsvRows(pd, order));
      exists t :: 0 <= t < |table| && table[t].bandwidth.Some? && table[t].bandwidth.value < 0.0
  {
    var table := ReadTable(P.CsvRows(pd, order));
    var k :| 0 <= k < |order| && order[k] == fp;
    P.CsvRowsComplete(pd, order, common, i, k);
    var t := i * |common| + k;
    assert table[t].bandwidth.value < 0.0;
  }

  /** A table with every column and cell readable but a negative bandwidth stops at the negative-value check. */
  lemma {:induction false} NegativeStops(columns: set<string>, rows: seq<V.VRow>)
    requires forall c :: c in V.Required ==> c in columns
    requires forall u :: 0 <= u < |rows| ==> rows[u].date.Val? && rows[u].bandwidth.Some? && rows[u].timestamp.Val?
    requires exists t :: 0 <= t < |rows| && rows[t].bandwidth.Some? && rows[t].bandwidth.value < 0.0
    ensures var v := V.CheckTable(columns, rows);
      v.Died? && v.failure.Negative? && v.failure.count > 0
  {
    assert V.MissingOf(V.Required, columns) == [];
    assert V.NonNumericCount(rows) == 0;
    assert V.NegativeCount(rows) > 0;
  }

  /** A common relay with a negative bandwidth on some day makes `validate_data.py` stop at the negative-value check. */
  lemma {:induction false} NegativeBandwidthRejected(pd: seq<P.DayMapping>, order: seq<string>, common: set<string>, i: int, fp: string)
    requires P.IsEnumeration(order, common) && "" !in common
    requires forall i, fp :: 0 <= i < |pd| && fp in common ==> fp in pd[i].mapping
    requires 0 <= i < |pd| && fp in common && pd[i].mapping[fp] < 0
    ensures var v := V.CheckTable(PanelColumns, ReadTable(P.CsvRows(pd, order)));
      v.Died? && v.failure.Negative? && v.failure.count > 0
  {
    WrittenCells(pd, order, common);
    NegativeWritten(pd, order, common, i, fp);
    NegativeStops(PanelColumns, ReadTable(P.CsvRows(pd, order)));
  }

  /**
    With no relay present on every day, `write_csv` writes the header alone
    (and `main` still ends with status 0); `validate_data.py` then raises on
    the `min` of no dates instead of reporting a failed check.
   */
  lemma {:induction false} EmptyCommonCrashesValidator(pd: seq<P.DayMapping>)
    ensures P.CsvRows(pd, []) == []
    ensures V.CheckTable(PanelColumns, ReadTable(P.CsvRows(pd, []))) == V.Crashed
  {
    P.CsvRowsCount(pd, []);
    P.BlockIsProduct(|pd|, 0);
    assert ReadTable([]) == [];
    assert V.KeysOf([]) == [];
  }

  /** `data-check.py` insists on `advertised_bw`, which the panel does not have: it stops with status 2. */
  lemma {:induction false} PanelFailsDataCheck(rows: seq<D.DRow>)
    ensures D.Prepare(D.Loaded(PanelColumns, rows)) == Err(D.Exit(2))
  {
    assert "advertised_bw" !in PanelColumns;
  }

  // ---------------------------------------------------------------------
  // onionoo_to_csv.py, then data-check.py

  /** The columns `nearest_daily_sample` returns. */
  const DailyColumns: set<string> := {"date", "fingerprint", "advertised_bw", "timestamp"}

  /** One written daily row as `data-check.py` reads it: the group's day, the sample's relay, value and instant. */
  function DailyRow(k: (string, int), p: O.Obs): D.DRow {
    D.DRow(if p.fingerprint == "" then None else Some(p.fingerprint), Some(k.1), D.Number(p.value as real), Some(p.timestamp))
  }

  /**
    `order` lists keys of `daily` without repeats. `groupby` emits all of
    them; the lemmas below hold for any such list, a full one included.
   */
  predicate ListsKeys(order: seq<(string, int)>, daily: map<(string, int), O.Obs>) {
    (forall i, j :: 0 <= i < j < |order| ==> order[i] != order[j])
    && (forall i :: 0 <= i < |order| ==> order[i] in daily)
  }

  function DailyTable(daily: map<(string, int), O.Obs>, order: seq<(string, int)>): (rows: seq<D.DRow>)
    requires ListsKeys(order, daily)
    ensures |rows| == |order| && forall i :: 0 <= i < |order| ==> rows[i] == DailyRow(order[i], daily[order[i]])
  {
    seq(|order|, i requires 0 <= i < |order| => DailyRow(order[i], daily[order[i]]))
  }

  /** Every written row's fingerprint and date are its group key, and the date is the UTC day of its timestamp. */
  lemma {:induction false} DailyRowsKeyed(raw: seq<O.Obs>, hh: int, mm: int, order: seq<(string, int)>)
    requires O.Named(raw)
    requires ListsKeys(order, O.NearestDailySample(raw, hh, mm))
    ensures var rows := DailyTable(O.NearestDailySample(raw, hh, mm), order);
      forall i :: 0 <= i < |rows| ==>
        && rows[i].fingerprint == Some(order[i].0) && rows[i].date == Some(order[i].1)
        && rows[i].timestamp.Some? && rows[i].date == D.DayOf(rows[i].timestamp)
  {
    var daily := O.NearestDailySample(raw, hh, mm);
    forall i | 0 <= i < |order|
      ensures daily[order[i]].fingerprint == order[i].0 && Day(daily[order[i]].timestamp) == order[i].1
      ensures daily[order[i]].fingerprint != ""
    {
      O.NearestIsClosest(raw, hh, mm, order[i]);
      var j :| 0 <= j < |raw| && raw[j] == daily[order[i]];
    }
  }

  /**
    `data-check.py` on the file `onionoo_to_csv.py` writes: the required
    columns are there, no fingerprint or `advertised_bw` is null, the column
    is numeric and no (fingerprint, date) key repeats.
   */
  lemma {:induction false} DailyTableClean(raw: seq<O.Obs>, hh: int, mm: int, order: seq<(string, int)>)
    requires O.Named(raw)
    requires ListsKeys(order, O.NearestDailySample(raw, hh, mm))
    ensures var rows := DailyTable(O.NearestDailySample(raw, hh, mm), order);
      && D.Prepare(D.Loaded(DailyColumns, rows)) == Ok((DailyColumns, rows))
      && D.NullFingerprints(rows) == 0 && D.NullBandwidths(rows) == 0
      && D.NumericColumn(rows) && D.Duplicates(rows) == 0
  {
    DailyTableLoads(raw, hh, mm, order);
    DailyTableDistinct(raw, hh, mm, order);
  }

  /** The written daily table loads with its columns and has no null cell and a numeric `advertised_bw`. */
  lemma {:induction false} DailyTableLoads(raw: seq<O.Obs>, hh: int, mm: int, order: seq<(string, int)>)
    requires O.Named(raw)
    requires ListsKeys(order, O.NearestDailySample(raw, hh, mm))
    ensures var rows := DailyTable(O.NearestDailySample(raw, hh, mm), order);
      && D.Prepare(D.Loaded(DailyColumns, rows)) == Ok((DailyColumns, rows))
      && D.NullFingerprints(rows) == 0 && D.NullBandwidths(rows) == 0
      && D.NumericColumn(rows)
  {
    var daily := O.NearestDailySample(raw, hh, mm);
    var rows := DailyTable(daily, order);
    assert forall i :: 0 <= i < |rows| ==> rows[i].bandwidth.Number? by {
      forall i | 0 <= i < |rows| ensures rows[i].bandwidth.Number? {
        assert rows[i] == DailyRow(order[i], daily[order[i]]);
      }
    }
    assert D.Prepare(D.Loaded(DailyColumns, rows)) == Ok((DailyColumns, rows));
    assert D.NullFingerprints(rows) == 0 by {
      DailyRowsKeyed(raw, hh, mm, order);
    }
  }

  /** The written daily rows repeat no (fingerprint, date) key. */
  lemma {:induction false} DailyTableDistinct(raw: seq<O.Obs>, hh: int, mm: int, order: seq<(string, int)>)
    requires O.Named(raw)
    requires ListsKeys(order, O.NearestDailySample(raw, hh, mm))
    ensures D.Duplicates(DailyTable(O.NearestDailySample(raw, hh, mm), order)) == 0
  {
    var rows := DailyTable(O.NearestDailySample(raw, hh, mm), order);
    DailyRowsKeyed(raw, hh, mm, order);
    var keys := D.DupKeys(rows);
    assert Distinct(keys) by {
      forall a, b | 0 <= a < b < |keys| ensures keys[a] != keys[b] {
        assert keys[a] == (Some(order[a].0), Some(order[a].1));
        assert keys[b] == (Some(order[b].0), Some(order[b].1));
      }
    }
    DuplicateCountZero(keys);
  }

  lemma {:induction false} TwoDiffer(p: seq<string>)
    requires forall i, j :: 0 <= i < j < |p| ==> p[i] != p[j]
    ensures |p| >= 2 ==> p[0] != p[1]
  {
  }

  lemma {:induction false} AtMostOne(p: seq<string>, x: string)
    requires forall i :: 0 <= i < |p| ==> p[i] == x
    requires forall i, j :: 0 <= i < j < |p| ==> p[i] != p[j]
    ensures |p| <= 1
  {
    TwoDiffer(p);
  }

  /** Hence the only problem the conclusion can list for that file is a negative `advertised_bw`. */
  lemma {:induction false} DailyTableProblems(raw: seq<O.Obs>, hh: int, mm: int, order: seq<(string, int)>, problems: seq<string>)
    requires O.Named(raw)
    requires ListsKeys(order, O.NearestDailySample(raw, hh, mm))
    requires D.ListsProblems(problems, DailyTable(O.NearestDailySample(raw, hh, mm), order))
    ensures problems == [] || problems == [D.Labels[2]]
  {
    DailyTableClean(raw, hh, mm, order);
    D.LabelRanks();
    forall i | 0 <= i < |problems| ensures problems[i] == D.Labels[2] {
      var r := D.Rank(problems[i]);
      assert problems[i] == D.Labels[r];
    }
    assert forall i, j :: 0 <= i < j < |problems| ==> problems[i] != problems[j];
    AtMostOne(problems, D.Labels[2]);
  }

  /**
    With the `date` column present, every written row's offset from any
    baseline is the clock distance of its sample, at most twelve hours.
   */
  lemma {:induction false} DailyOffsetsWithinHalfDay(raw: seq<O.Obs>, hh: int, mm: int, order: seq<(string, int)>, base: int)
    requires O.Named(raw)
    requires ListsKeys(order, O.NearestDailySample(raw, hh, mm))
    requires 0 <= base < SecondsPerDay
    ensures var rows := DailyTable(O.NearestDailySample(raw, hh, mm), order);
      forall i :: 0 <= i < |rows| ==>
        D.RowOffset(DailyColumns, rows[i], base).Some? && D.RowOffset(DailyColumns, rows[i], base).value <= SecondsPerDay / 2
  {
    var rows := DailyTable(O.NearestDailySample(raw, hh, mm), order);
    DailyRowsKeyed(raw, hh, mm, order);
    forall i | 0 <= i < |rows|
      ensures D.RowOffset(DailyColumns, rows[i], base).Some? && D.RowOffset(DailyColumns, rows[i], base).value <= SecondsPerDay / 2
    {
      D.OffsetIsClockDistance(rows[i].timestamp.value, rows[i].date.value, base);
    }
  }

  /**
    End to end: when every page request succeeds in time, the table
    `onionoo_to_csv.py` writes for a valid sample time carries no null and
    no repeated key for `data-check.py`, whatever the `groupby` order.
   */
  lemma {:induction false} ExportedTableClean(s: O.Server, window: Option<string>, hh: int, mm: int, order: seq<(string, int)>)
    requires O.Fetched(s, 0, O.NormalizeWindow(window)).Ok?
    requires ListsKeys(order, O.NearestDailySample(O.Fetched(s, 0, O.NormalizeWindow(window)).value, hh, mm))
    ensures var rows := DailyTable(O.NearestDailySample(O.Fetched(s, 0, O.NormalizeWindow(window)).value, hh, mm), order);
      && D.Prepare(D.Loaded(DailyColumns, rows)).Ok?
      && D.NullFingerprints(rows) == 0 && D.NullBandwidths(rows) == 0 && D.Duplicates(rows) == 0
  {
    O.FetchedNamed(s, 0, O.NormalizeWindow(window));
    DailyTableClean(O.Fetched(s, 0, O.NormalizeWindow(window)).value, hh, mm, order);
  }

  /** `validate_data.py` insists on `relay_bandwidth`, which the daily table does not have. */
  lemma {:induction false} DailyTableFailsValidator(rows: seq<V.VRow>)
    ensures V.CheckTable(DailyColumns, rows) == V.Died(V.MissingColumns(["relay_bandwidth"]))
  {
    assert V.MissingOf(V.Required, DailyColumns) == ["relay_bandwidth"];
  }
}
